/** `scanLibrary`: the four-level walk `root/platform/artist/album/song/`
    that reports every song directory holding an audio file named after it. */
module LibraryScan {

  import opened JsText
  import opened Sanitize
  import opened FileSystem

  /** `readdirSync`: the names found in a directory, in the order the file
      system returns them. */
  type Listing = Path -> seq<string>

  /** The listing names exactly the children of every directory. */
  ghost predicate ListingOf(fs: Fs, ls: Listing) {
    forall p {:trigger ls(p)} :: IsDir(fs, p) ==> ListsChildren(fs, p, ls(p))
  }

  ghost predicate ListsChildren(fs: Fs, p: Path, names: seq<string>) {
    && (forall i :: 0 <= i < |names| ==> p + [names[i]] in fs)
    && (forall q :: q in fs && |q| == |p| + 1 && q[..|p|] == p ==> q[|p|] in names)
  }

  datatype LibraryItem = LibraryItem(
    platform: string,
    artist: string,
    album: string,
    name: string,
    id: string,
    hasCover: bool,
    hasLyrics: bool,
    format: string,
    path: string)

  /** The song file test of `files.find`. */
  predicate IsAudioFor(f: string, safe: string) {
    StartsWith(f, safe) && (EndsWith(f, ".mp3") || EndsWith(f, ".flac"))
  }

  /** Index of the first audio file for `safe`; `|files|` when there is none. */
  function FirstAudio(files: seq<string>, safe: string): (i: nat)
    ensures i <= |files|
    ensures i < |files| ==> IsAudioFor(files[i], safe)
    ensures forall j :: 0 <= j < i ==> !IsAudioFor(files[j], safe)
  {
    if files == [] then 0
    else if IsAudioFor(files[0], safe) then 0
    else 1 + FirstAudio(files[1..], safe)
  }

  /** The index a left-to-right search stops at is the first audio file. */
  lemma FirstAudioIs(files: seq<string>, safe: string, j: nat)
    requires j <= |files| && (j < |files| ==> IsAudioFor(files[j], safe))
    requires forall m :: 0 <= m < j ==> !IsAudioFor(files[m], safe)
    ensures FirstAudio(files, safe) == j
  {
  }

  /** `path.join` of relative plain names: the names separated by '/'. */
  function RelativePath(parts: seq<string>): string {
    if parts == [] then ""
    else if |parts| == 1 then parts[0]
    else RelativePath(parts[..|parts| - 1]) + "/" + parts[|parts| - 1]
  }

  /** The item reported for song directory `song` holding `files`, with
      `songFile` the audio file found there. */
  function MakeItem(platform: string, artist: string, album: string, song: string,
                    files: seq<string>, songFile: string): LibraryItem
  {
    var safe := SanitizeFileName(song);
    LibraryItem(
      platform, artist, album, song,
      "local_" + platform + "_" + artist + "_" + album + "_" + song,
      safe + ".jpg" in files,
      safe + ".lrc" in files,
      LastPiece(songFile, '.'),
      RelativePath([platform, artist, album, song, songFile]))
  }

  /** What the innermost callback pushes for one song directory: nothing,
      or one item. */
  function SongEntry(fs: Fs, ls: Listing, root: Path, platform: string, artist: string, album: string, song: string)
    : seq<LibraryItem>
  {
    var p := root + [platform, artist, album, song];
    if !IsDir(fs, p) then []
    else
      var files := ls(p);
      var i := FirstAudio(files, SanitizeFileName(song));
      if i == |files| then [] else [MakeItem(platform, artist, album, song, files, files[i])]
  }

  function ScanSongs(fs: Fs, ls: Listing, root: Path, platform: string, artist: string, album: string,
                     songs: seq<string>): seq<LibraryItem>
    decreases |songs|
  {
    if songs == [] then []
    else ScanSongs(fs, ls, root, platform, artist, album, songs[..|songs| - 1])
         + SongEntry(fs, ls, root, platform, artist, album, songs[|songs| - 1])
  }

  function AlbumEntry(fs: Fs, ls: Listing, root: Path, platform: string, artist: string, album: string)
    : seq<LibraryItem>
  {
    var p := root + [platform, artist, album];
    if !IsDir(fs, p) then [] else ScanSongs(fs, ls, root, platform, artist, album, ls(p))
  }

  function ScanAlbums(fs: Fs, ls: Listing, root: Path, platform: string, artist: string,
                      albums: seq<string>): seq<LibraryItem>
    decreases |albums|
  {
    if albums == [] then []
    else ScanAlbums(fs, ls, root, platform, artist, albums[..|albums| - 1])
         + AlbumEntry(fs, ls, root, platform, artist, albums[|albums| - 1])
  }

  function ArtistEntry(fs: Fs, ls: Listing, root: Path, platform: string, artist: string): seq<LibraryItem> {
    var p := root + [platform, artist];
    if !IsDir(fs, p) then [] else ScanAlbums(fs, ls, root, platform, artist, ls(p))
  }

  function ScanArtists(fs: Fs, ls: Listing, root: Path, platform: string, artists: seq<string>): seq<LibraryItem>
    decreases |artists|
  {
    if artists == [] then []
    else ScanArtists(fs, ls, root, platform, artists[..|artists| - 1])
         + ArtistEntry(fs, ls, root, platform, artists[|artists| - 1])
  }

  function PlatformEntry(fs: Fs, ls: Listing, root: Path, platform: string): seq<LibraryItem> {
    var p := root + [platform];
    if !IsDir(fs, p) then [] else ScanArtists(fs, ls, root, platform, ls(p))
  }

  function ScanPlatforms(fs: Fs, ls: Listing, root: Path, platforms: seq<string>): seq<LibraryItem>
    decreases |platforms|
  {
    if platforms == [] then []
    else ScanPlatforms(fs, ls, root, platforms[..|platforms| - 1])
         + PlatformEntry(fs, ls, root, platforms[|platforms| - 1])
  }

  /** The whole scan. A missing root gives []; a root that is a file makes
      the first `readdirSync` throw, and the catch returns the empty library. */
  function Scan(fs: Fs, ls: Listing, root: Path): seq<LibraryItem> {
    if !Exists(fs, root) then []
    else if !IsDir(fs, root) then []
    else ScanPlatforms(fs, ls, root, ls(root))
  }

  // ----- the walk, level by level -----

  /** `files.find(...)`, as the index it stops at. */
  method FindSongFile(files: seq<string>, safe: string) returns (j: nat)
    ensures j == FirstAudio(files, safe)
  {
    j := 0;
    while j < |files| && !IsAudioFor(files[j], safe)
      invariant 0 <= j <= |files|
      invariant forall m :: 0 <= m < j ==> !IsAudioFor(files[m], safe)
    {
      j := j + 1;
    }
    FirstAudioIs(files, safe, j);
  }

  /** The innermost callback: stat the song directory, list it and look
      for its audio file. */
  method ScanSongDir(fs: Fs, ls: Listing, root: Path, platform: string, artist: string, album: string, song: string)
    returns (entry: seq<LibraryItem>)
    ensures entry == SongEntry(fs, ls, root, platform, artist, album, song)
  {
    var songPath := root + [platform, artist, album, song];
    if !IsDir(fs, songPath) {
      return [];
    }
    var files := ls(songPath);
    var j := FindSongFile(files, SanitizeFileName(song));
    entry := if j < |files| then [MakeItem(platform, artist, album, song, files, files[j])] else [];
  }

  method ScanSongDirs(fs: Fs, ls: Listing, root: Path, platform: string, artist: string, album: string)
    returns (found: seq<LibraryItem>)
    ensures found == AlbumEntry(fs, ls, root, platform, artist, album)
  {
    var albumPath := root + [platform, artist, album];
    if !IsDir(fs, albumPath) {
      return [];
    }
    var songs := ls(albumPath);
    found := [];
    var i := 0;
    while i < |songs|
      invariant 0 <= i <= |songs|
      invariant found == ScanSongs(fs, ls, root, platform, artist, album, songs[..i])
    {
      assert songs[..i + 1][..i] == songs[..i];
      var more := ScanSongDir(fs, ls, root, platform, artist, album, songs[i]);
      found := found + more;
      i := i + 1;
    }
    assert songs[..|songs|] == songs;
  }

  method ScanAlbumDirs(fs: Fs, ls: Listing, root: Path, platform: string, artist: string)
    returns (found: seq<LibraryItem>)
    ensures found == ArtistEntry(fs, ls, root, platform, artist)
  {
    var artistPath := root + [platform, artist];
    if !IsDir(fs, artistPath) {
      return [];
    }
    var albums := ls(artistPath);
    found := [];
    var i := 0;
    while i < |albums|
      invariant 0 <= i <= |albums|
      invariant found == ScanAlbums(fs, ls, root, platform, artist, albums[..i])
    {
      assert albums[..i + 1][..i] == albums[..i];
      var more := ScanSongDirs(fs, ls, root, platform, artist, albums[i]);
      found := found + more;
      i := i + 1;
    }
    assert albums[..|albums|] == albums;
  }

  method ScanArtistDirs(fs: Fs, ls: Listing, root: Path, platform: string) returns (found: seq<LibraryItem>)
    ensures found == PlatformEntry(fs, ls, root, platform)
  {
    var platformPath := root + [platform];
    if !IsDir(fs, platformPath) {
      return [];
    }
    var artists := ls(platformPath);
    found := [];
    var i := 0;
    while i < |artists|
      invariant 0 <= i <= |artists|
      invariant found == ScanArtists(fs, ls, root, platform, artists[..i])
    {
      assert artists[..i + 1][..i] == artists[..i];
      var more := ScanAlbumDirs(fs, ls, root, platform, artists[i]);
      found := found + more;
      i := i + 1;
    }
    assert artists[..|artists|] == artists;
  }

  /** `scanLibrary()` over the file system `fs` with listing `ls`. */
  method ScanLibrary(fs: Fs, ls: Listing, root: Path) returns (library: seq<LibraryItem>)
    ensures library == Scan(fs, ls, root)
  {
    library := [];
    if !Exists(fs, root) {
      return;
    }
    if !IsDir(fs, root) {
      return;   // readdirSync throws ENOTDIR; the catch keeps what was found
    }
    var platforms := ls(root);
    var i := 0;
    while i < |platforms|
      invariant 0 <= i <= |platforms|
      invariant library == ScanPlatforms(fs, ls, root, platforms[..i])
    {
      assert platforms[..i + 1][..i] == platforms[..i];
      var more := ScanArtistDirs(fs, ls, root, platforms[i]);
      library := library + more;
      i := i + 1;
    }
    assert platforms[..|platforms|] == platforms;
  }

  // ----- properties -----

  /** Without a storage root the library is empty. */
  lemma ScanMissingRoot(fs: Fs, ls: Listing, root: Path)
    requires !Exists(fs, root)
    ensures Scan(fs, ls, root) == []
  {
  }

  /** The item a song directory yields: the first audio file in listing
      order is chosen; its format is "mp3" or "flac" after its extension;
      cover and lyrics flags say whether `<safe>.jpg` / `<safe>.lrc` is
      present; the id and the relative path are built from the four names. */
  lemma SongEntrySpec(fs: Fs, ls: Listing, root: Path, platform: string, artist: string, album: string, song: string)
    ensures var p, safe := root + [platform, artist, album, song], SanitizeFileName(song);
      var entry := SongEntry(fs, ls, root, platform, artist, album, song);
      && |entry| <= 1
      && (|entry| == 1 <==> IsDir(fs, p) && exists f :: f in ls(p) && IsAudioFor(f, safe))
      && (|entry| == 1 ==>
            var it, files := entry[0], ls(p);
            exists i :: 0 <= i < |files| && IsAudioFor(files[i], safe)
              && (forall j :: 0 <= j < i ==> !IsAudioFor(files[j], safe))
              && it.name == song && it.platform == platform && it.artist == artist && it.album == album
              && it.id == "local_" + platform + "_" + artist + "_" + album + "_" + song
              && (it.hasCover <==> safe + ".jpg" in files)
              && (it.hasLyrics <==> safe + ".lrc" in files)
              && it.format == (if EndsWith(files[i], ".mp3") then "mp3" else "flac")
              && it.path == RelativePath([platform, artist, album, song]) + "/" + files[i])
  {
    var p, safe := root + [platform, artist, album, song], SanitizeFileName(song);
    if IsDir(fs, p) {
      var files := ls(p);
      var i := FirstAudio(files, safe);
      if i < |files| {
        MakeItemSpec(platform, artist, album, song, files, files[i]);
        assert files[i] in files;
      } else {
        assert forall f :: f in files ==> !IsAudioFor(f, safe) by {
          forall f | f in files
            ensures !IsAudioFor(f, safe)
          {
            var j :| 0 <= j < |files| && files[j] == f;
          }
        }
      }
    }
  }

  /** The fields of the item built around audio file `f`. */
  lemma MakeItemSpec(platform: string, artist: string, album: string, song: string, files: seq<string>, f: string)
    requires IsAudioFor(f, SanitizeFileName(song))
    ensures var it, safe := MakeItem(platform, artist, album, song, files, f), SanitizeFileName(song);
      && it.name == song && it.platform == platform && it.artist == artist && it.album == album
      && it.id == "local_" + platform + "_" + artist + "_" + album + "_" + song
      && (it.hasCover <==> safe + ".jpg" in files)
      && (it.hasLyrics <==> safe + ".lrc" in files)
      && it.format == (if EndsWith(f, ".mp3") then "mp3" else "flac")
      && it.path == RelativePath([platform, artist, album, song]) + "/" + f
  {
    FormatOfAudio(f, SanitizeFileName(song));
    assert [platform, artist, album, song, f][..4] == [platform, artist, album, song];
  }

  /** `songFile.split('.').pop()` of an audio file is its extension. */
  lemma FormatOfAudio(f: string, safe: string)
    requires IsAudioFor(f, safe)
    ensures LastPiece(f, '.') == (if EndsWith(f, ".mp3") then "mp3" else "flac")
  {
    if EndsWith(f, ".mp3") {
      assert f == f[..|f| - 4] + ['.'] + "mp3";
      LastPieceOfSuffix(f[..|f| - 4], '.', "mp3");
    } else {
      assert f == f[..|f| - 5] + ['.'] + "flac";
      LastPieceOfSuffix(f[..|f| - 5], '.', "flac");
    }
  }

  lemma {:induction false} InScanSongs(fs: Fs, ls: Listing, root: Path, platform: string, artist: string, album: string,
                                       songs: seq<string>, it: LibraryItem)
    ensures it in ScanSongs(fs, ls, root, platform, artist, album, songs)
      <==> exists song :: song in songs && it in SongEntry(fs, ls, root, platform, artist, album, song)
    decreases |songs|
  {
    if songs != [] {
      var init, last := songs[..|songs| - 1], songs[|songs| - 1];
      assert songs == init + [last];
      InScanSongs(fs, ls, root, platform, artist, album, init, it);
      if it in ScanSongs(fs, ls, root, platform, artist, album, init) {
        var song :| song in init && it in SongEntry(fs, ls, root, platform, artist, album, song);
        assert song in songs;
      }
      if exists song :: song in songs && it in SongEntry(fs, ls, root, platform, artist, album, song) {
        var song :| song in songs && it in SongEntry(fs, ls, root, platform, artist, album, song);
        if song != last {
          assert song in init;
        }
      }
    }
  }

  lemma {:induction false} InScanAlbums(fs: Fs, ls: Listing, root: Path, platform: string, artist: string,
                                        albums: seq<string>, it: LibraryItem)
    ensures it in ScanAlbums(fs, ls, root, platform, artist, albums)
      <==> exists album :: album in albums && it in AlbumEntry(fs, ls, root, platform, artist, album)
    decreases |albums|
  {
    if albums != [] {
      var init, last := albums[..|albums| - 1], albums[|albums| - 1];
      assert albums == init + [last];
      InScanAlbums(fs, ls, root, platform, artist, init, it);
      if it in ScanAlbums(fs, ls, root, platform, artist, init) {
        var album :| album in init && it in AlbumEntry(fs, ls, root, platform, artist, album);
        assert album in albums;
      }
      if exists album :: album in albums && it in AlbumEntry(fs, ls, root, platform, artist, album) {
        var album :| album in albums && it in AlbumEntry(fs, ls, root, platform, artist, album);
        if album != last {
          assert album in init;
        }
      }
    }
  }

  lemma {:induction false} InScanArtists(fs: Fs, ls: Listing, root: Path, platform: string,
                                         artists: seq<string>, it: LibraryItem)
    ensures it in ScanArtists(fs, ls, root, platform, artists)
      <==> exists artist :: artist in artists && it in ArtistEntry(fs, ls, root, platform, artist)
    decreases |artists|
  {
    if artists != [] {
      var init, last := artists[..|artists| - 1], artists[|artists| - 1];
      assert artists == init + [last];
      InScanArtists(fs, ls, root, platform, init, it);
      if it in ScanArtists(fs, ls, root, platform, init) {
        var artist :| artist in init && it in ArtistEntry(fs, ls, root, platform, artist);
        assert artist in artists;
      }
      if exists artist :: artist in artists && it in ArtistEntry(fs, ls, root, platform, artist) {
        var artist :| artist in artists && it in ArtistEntry(fs, ls, root, platform, artist);
        if artist != last {
          assert artist in init;
        }
      }
    }
  }

  lemma {:induction false} InScanPlatforms(fs: Fs, ls: Listing, root: Path, platforms: seq<string>, it: LibraryItem)
    ensures it in ScanPlatforms(fs, ls, root, platforms)
      <==> exists platform :: platform in platforms && it in PlatformEntry(fs, ls, root, platform)
    decreases |platforms|
  {
    if platforms != [] {
      var init, last := platforms[..|platforms| - 1], platforms[|platforms| - 1];
      assert platforms == init + [last];
      InScanPlatforms(fs, ls, root, init, it);
      if it in ScanPlatforms(fs, ls, root, init) {
        var platform :| platform in init && it in PlatformEntry(fs, ls, root, platform);
        assert platform in platforms;
      }
      if exists platform :: platform in platforms && it in PlatformEntry(fs, ls, root, platform) {
        var platform :| platform in platforms && it in PlatformEntry(fs, ls, root, platform);
        if platform != last {
          assert platform in init;
        }
      }
    }
  }

  /** An item is in the library exactly when some song directory four
      levels below the root yields it: every directory on the way is listed
      and passes the `isDirectory` test. */
  lemma ScanComplete(fs: Fs, ls: Listing, root: Path, it: LibraryItem)
    requires WellFormed(fs) && ListingOf(fs, ls) && IsDir(fs, root)
    ensures it in Scan(fs, ls, root)
      <==> exists platform, artist, album, song :: it in SongEntry(fs, ls, root, platform, artist, album, song)
  {
    if it in Scan(fs, ls, root) {
      ScanSound(fs, ls, root, it);
    }
    if exists platform, artist, album, song :: it in SongEntry(fs, ls, root, platform, artist, album, song) {
      var platform, artist, album, song :| it in SongEntry(fs, ls, root, platform, artist, album, song);
      ScanReaches(fs, ls, root, platform, artist, album, song, it);
    }
  }

  /** Every item comes from one song directory. */
  lemma ScanSound(fs: Fs, ls: Listing, root: Path, it: LibraryItem)
    requires it in Scan(fs, ls, root)
    ensures exists platform, artist, album, song :: it in SongEntry(fs, ls, root, platform, artist, album, song)
  {
    assert exists platform :: platform in ls(root) && it in PlatformEntry(fs, ls, root, platform) by {
      InScanPlatforms(fs, ls, root, ls(root), it);
    }
    var platform :| platform in ls(root) && it in PlatformEntry(fs, ls, root, platform);
    assert exists artist :: artist in ls(root + [platform]) && it in ArtistEntry(fs, ls, root, platform, artist) by {
      InScanArtists(fs, ls, root, platform, ls(root + [platform]), it);
    }
    var artist :| artist in ls(root + [platform]) && it in ArtistEntry(fs, ls, root, platform, artist);
    assert exists album :: album in ls(root + [platform, artist]) && it in AlbumEntry(fs, ls, root, platform, artist, album) by {
      InScanAlbums(fs, ls, root, platform, artist, ls(root + [platform, artist]), it);
    }
    var album :| album in ls(root + [platform, artist]) && it in AlbumEntry(fs, ls, root, platform, artist, album);
    assert exists song :: song in ls(root + [platform, artist, album]) && it in SongEntry(fs, ls, root, platform, artist, album, song) by {
      InScanSongs(fs, ls, root, platform, artist, album, ls(root + [platform, artist, album]), it);
    }
    var song :| song in ls(root + [platform, artist, album]) && it in SongEntry(fs, ls, root, platform, artist, album, song);
  }

  /** Every song directory's item is found by the walk. */
  lemma ScanReaches(fs: Fs, ls: Listing, root: Path, platform: string, artist: string, album: string, song: string,
                    it: LibraryItem)
    requires WellFormed(fs) && ListingOf(fs, ls) && IsDir(fs, root)
    requires it in SongEntry(fs, ls, root, platform, artist, album, song)
    ensures it in Scan(fs, ls, root)
  {
    SongInAlbum(fs, ls, root, platform, artist, album, song, it);
    AlbumInArtist(fs, ls, root, platform, artist, album, it);
    ArtistInPlatform(fs, ls, root, platform, artist, it);
    PlatformInScan(fs, ls, root, platform, it);
  }

  lemma SongInAlbum(fs: Fs, ls: Listing, root: Path, platform: string, artist: string, album: string, song: string,
                    it: LibraryItem)
    requires WellFormed(fs) && ListingOf(fs, ls)
    requires it in SongEntry(fs, ls, root, platform, artist, album, song)
    ensures it in AlbumEntry(fs, ls, root, platform, artist, album)
  {
    var p := root + [platform, artist, album];
    assert p + [song] == root + [platform, artist, album, song];
    ChildListed(fs, ls, p, song);
    InScanSongs(fs, ls, root, platform, artist, album, ls(p), it);
  }

  lemma AlbumInArtist(fs: Fs, ls: Listing, root: Path, platform: string, artist: string, album: string,
                      it: LibraryItem)
    requires WellFormed(fs) && ListingOf(fs, ls)
    requires it in AlbumEntry(fs, ls, root, platform, artist, album)
    ensures it in ArtistEntry(fs, ls, root, platform, artist)
  {
    var p := root + [platform, artist];
    assert p + [album] == root + [platform, artist, album];
    ChildListed(fs, ls, p, album);
    InScanAlbums(fs, ls, root, platform, artist, ls(p), it);
  }

  lemma ArtistInPlatform(fs: Fs, ls: Listing, root: Path, platform: string, artist: string, it: LibraryItem)
    requires WellFormed(fs) && ListingOf(fs, ls)
    requires it in ArtistEntry(fs, ls, root, platform, artist)
    ensures it in PlatformEntry(fs, ls, root, platform)
  {
    var p := root + [platform];
    assert p + [artist] == root + [platform, artist];
    ChildListed(fs, ls, p, artist);
    InScanArtists(fs, ls, root, platform, ls(p), it);
  }

  lemma PlatformInScan(fs: Fs, ls: Listing, root: Path, platform: string, it: LibraryItem)
    requires WellFormed(fs) && ListingOf(fs, ls) && IsDir(fs, root)
    requires it in PlatformEntry(fs, ls, root, platform)
    ensures it in Scan(fs, ls, root)
  {
    ChildListed(fs, ls, root, platform);
    InScanPlatforms(fs, ls, root, ls(root), it);
  }

  /** A stored entry's parent is a directory whose listing names it. */
  lemma ChildListed(fs: Fs, ls: Listing, p: Path, name: string)
    requires WellFormed(fs) && ListingOf(fs, ls) && p + [name] in fs
    ensures IsDir(fs, p) && name in ls(p)
  {
    var q := p + [name];
    assert Parent(q) == p;
    assert ListsChildren(fs, p, ls(p));
    assert q[..|p|] == p && q[|p|] == name;
  }
}
