/** The deterministic on-disk layout of the media cache:
    `root/source/artist/album/title/title.{mp3|flac|lrc|jpg}`, every name
    but `source` sanitised, missing names replaced by placeholders. */
module Layout {

  import opened JsText
  import opened Sanitize
  import opened FileSystem

  const DefaultArtist: string := "未知歌手"
  const DefaultAlbum: string := "未知专辑"
  const DefaultTitle: string := "未知歌曲"

  /** The default `quality` parameter of `getSongStoragePath`. */
  const DefaultQuality: string := "320k"

  /** `s || fallback` for a string (null and undefined are "" here). */
  function OrElse(s: string, fallback: string): string {
    if s == "" then fallback else s
  }

  /** The names a song is filed under: `source` as given, the other three
      defaulted and sanitised. */
  datatype SongKey = SongKey(source: string, artist: string, album: string, title: string)

  function KeyOf(source: string, artist: string, album: string, title: string): SongKey {
    SongKey(source,
            SanitizeFileName(OrElse(artist, DefaultArtist)),
            SanitizeFileName(OrElse(album, DefaultAlbum)),
            SanitizeFileName(OrElse(title, DefaultTitle)))
  }

  predicate SafeName(s: string) {
    s != "" && IsSafe(s) && IsTrimmed(s)
  }

  /** The three sanitised names of a key are non-empty, safe and trimmed. */
  lemma KeyOfSafe(source: string, artist: string, album: string, title: string)
    ensures var k := KeyOf(source, artist, album, title);
      k.source == source && SafeName(k.artist) && SafeName(k.album) && SafeName(k.title)
  {
    SanitizeIsSafe(OrElse(artist, DefaultArtist));
    SanitizeIsSafe(OrElse(album, DefaultAlbum));
    SanitizeIsSafe(OrElse(title, DefaultTitle));
  }

  /** Keys that agree after sanitisation name the same files. */
  lemma KeyOfSanitisedInputs(source: string, artist: string, album: string, title: string)
    requires artist != "" && album != "" && title != ""
    ensures KeyOf(source, SanitizeFileName(artist), SanitizeFileName(album), SanitizeFileName(title))
         == KeyOf(source, artist, album, title)
  {
    SanitizeIdempotent(artist);
    SanitizeIdempotent(album);
    SanitizeIdempotent(title);
    SanitizeIsSafe(artist);
    SanitizeIsSafe(album);
    SanitizeIsSafe(title);
  }

  /** The directory `getSongStorageDir` computes (before creating it). */
  function SongDir(root: Path, k: SongKey): Path {
    Join(root, [k.source, k.artist, k.album, k.title])
  }

  predicate IsLossless(quality: string) {
    quality == "flac" || quality == "flac24bit"
  }

  function AudioExtension(quality: string): string {
    if IsLossless(quality) then ".flac" else ".mp3"
  }

  function SongPath(root: Path, k: SongKey, quality: string): Path {
    Join(SongDir(root, k), [k.title + AudioExtension(quality)])
  }

  function LyricsPath(root: Path, k: SongKey): Path {
    Join(SongDir(root, k), [k.title + ".lrc"])
  }

  function CoverPath(root: Path, k: SongKey): Path {
    Join(SongDir(root, k), [k.title + ".jpg"])
  }

  /** `${filePath}.tmp`: the same directory, the file name with ".tmp" appended. */
  function TmpPath(p: Path): (t: Path)
    requires p != []
    ensures t != [] && Parent(t) == Parent(p) && t != p
  {
    var t := Parent(p) + [p[|p| - 1] + ".tmp"];
    assert |t[|t| - 1]| == |p[|p| - 1]| + 4;
    t
  }

  /** The `.tmp` sibling of a plain path is plain. */
  lemma TmpPathPlain(p: Path)
    requires p != [] && PlainPath(p)
    ensures PlainPath(TmpPath(p))
  {
    var t := TmpPath(p);
    var name := p[|p| - 1];
    var tname := t[|t| - 1];
    assert tname == name + ".tmp";
    assert tname[|name|] == '.';
    assert forall i :: 0 <= i < |name| ==> tname[i] == name[i];
    assert forall i :: 0 <= i < |t| - 1 ==> t[i] == p[i];
  }

  /** A safe name followed by an extension is a plain file name. */
  lemma FileNamePlain(name: string, ext: string)
    requires name != "" && IsSafe(name) && |ext| >= 2 && ext[0] == '.' && '/' !in ext
    ensures PlainSegment(name + ext)
  {
    assert |name + ext| >= 3;
    assert (name + ext)[|name|] == '.';
    assert forall i :: 0 <= i < |name| ==> (name + ext)[i] == name[i] && name[i] != '/';
  }

  /** A safe name followed by an extension is one plain name, so
      `path.join` simply appends it to the song directory. */
  lemma {:induction false} FileInDir(dir: Path, name: string, ext: string)
    requires SafeName(name) && |ext| >= 2 && ext[0] == '.' && '/' !in ext
    ensures Join(dir, [name + ext]) == dir + [name + ext]
  {
    FileNamePlain(name, ext);
    JoinOfPlainParts(dir, [name + ext]);
  }

  /** The audio file lands in the song directory under the sanitised title;
      the lyrics and the cover are its siblings with the same base name. */
  lemma Siblings(root: Path, k: SongKey, quality: string)
    requires SafeName(k.title)
    ensures var dir := SongDir(root, k);
      && SongPath(root, k, quality) == dir + [k.title + AudioExtension(quality)]
      && LyricsPath(root, k) == dir + [k.title + ".lrc"]
      && CoverPath(root, k) == dir + [k.title + ".jpg"]
  {
    var dir := SongDir(root, k);
    FileInDir(dir, k.title, AudioExtension(quality));
    FileInDir(dir, k.title, ".lrc");
    FileInDir(dir, k.title, ".jpg");
  }

  /** ".flac" exactly for "flac" and "flac24bit", ".mp3" for every other
      quality, the default "320k" included. */
  lemma ExtensionByQuality(quality: string)
    ensures AudioExtension(quality) == ".flac" <==> quality == "flac" || quality == "flac24bit"
    ensures AudioExtension(quality) == ".mp3" <==> !(quality == "flac" || quality == "flac24bit")
    ensures AudioExtension(DefaultQuality) == ".mp3"
  {
  }

  /** When `source` is a plain name and no sanitised name is "." or "..",
      the song directory is exactly root/source/artist/album/title. */
  lemma DirectoryLayout(root: Path, k: SongKey)
    requires PlainSegment(k.source)
    requires SafeName(k.artist) && SafeName(k.album) && SafeName(k.title)
    requires k.artist !in {".", ".."} && k.album !in {".", ".."} && k.title !in {".", ".."}
    ensures SongDir(root, k) == root + [k.source, k.artist, k.album, k.title]
  {
    SafeNotDotsIsPlain(k.artist);
    SafeNotDotsIsPlain(k.album);
    SafeNotDotsIsPlain(k.title);
    JoinOfPlainParts(root, [k.source, k.artist, k.album, k.title]);
  }

  lemma SafeNotDotsIsPlain(s: string)
    requires SafeName(s) && s != "." && s != ".."
    ensures PlainSegment(s)
  {
    assert forall i :: 0 <= i < |s| ==> s[i] != '/';
  }

  /** `source` is not sanitised: a source of ".." puts the song directory
      beside the storage root rather than below it. */
  lemma UnsanitisedSourceLeavesRoot(root: Path, k: SongKey)
    requires root != [] && k.source == ".."
    requires PlainSegment(k.artist) && PlainSegment(k.album) && PlainSegment(k.title)
    ensures SongDir(root, k) == Parent(root) + [k.artist, k.album, k.title]
  {
    assert Split("..", '/') == [".."];
    assert Walk(root, [".."]) == Parent(root);
    JoinOfPlainParts(Parent(root), [k.artist, k.album, k.title]);
  }

  /** A title that sanitises to ".." is normalised away by `path.join`:
      two songs of one artist on different albums then share one audio file. */
  lemma DotDotTitlesShareAFile(root: Path, source: string, artist: string, album1: string, album2: string, quality: string)
    requires PlainSegment(source) && PlainSegment(artist)
    requires PlainSegment(album1) && PlainSegment(album2)
    ensures SongPath(root, SongKey(source, artist, album1, ".."), quality)
         == SongPath(root, SongKey(source, artist, album2, ".."), quality)
  {
    DotDotDir(root, source, artist, album1);
    DotDotDir(root, source, artist, album2);
  }

  lemma DotDotDir(root: Path, source: string, artist: string, album: string)
    requires PlainSegment(source) && PlainSegment(artist) && PlainSegment(album)
    ensures SongDir(root, SongKey(source, artist, album, "..")) == root + [source, artist]
  {
    var base := root + [source, artist];
    JoinOfPlainParts(root, [source, artist, album]);
    JoinAppend(root, [source, artist, album], [".."]);
    assert [source, artist, album] + [".."] == [source, artist, album, ".."];
    assert Split("..", '/') == [".."];
    assert Walk(base + [album], [".."]) == base;
  }

  /** `path.join` with the parts split in two is two joins. */
  lemma {:induction false} JoinAppend(base: Path, xs: seq<string>, ys: seq<string>)
    ensures Join(base, xs + ys) == Join(Join(base, xs), ys)
    decreases |xs|
  {
    if xs == [] {
      assert xs + ys == ys;
    } else {
      var w := Walk(base, Split(xs[0], '/'));
      assert (xs + ys)[0] == xs[0];
      assert (xs + ys)[1..] == xs[1..] + ys;
      JoinAppend(w, xs[1..], ys);
    }
  }
}
