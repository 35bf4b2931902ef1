/** The media-cache storage layer: directory creation, cache probes,
    write-once "download to `.tmp`, then rename" saving of audio and
    covers, and write-once lyrics. The network fetch is an input: each call
    is told what the upstream request would deliver. */
module Storage {

  import opened Wrappers
  import opened FileSystem
  import opened Layout

  /** What a thrown error carries. */
  datatype Error =
    | FsFailure(code: FsError)
    | NetworkFailure(message: string)
    | TypeFailure(message: string)

  /** The outcome of one streamed GET: all bytes arrived, the request
      failed before a byte was written, or the stream broke after `partial`
      had been written. */
  datatype Fetch =
    | Fetched(data: seq<byte>)
    | RequestFailed(message: string)
    | StreamFailed(partial: seq<byte>, message: string)

  /** The new file system, the returned path or thrown error, and whether
      the network was used. */
  datatype SaveOutcome = SaveOutcome(fs: Fs, result: Result<Path, Error>, fetched: bool)

  /** `p` lies strictly below `root`. */
  predicate Under(p: Path, root: Path) {
    |root| < |p| && p[..|root|] == root
  }

  /** `ensureStorageDir()`: create the storage root when it is missing. */
  function EnsureRoot(fs: Fs, root: Path): Result<Fs, FsError> {
    if Exists(fs, root) then Success(fs) else MkdirP(fs, root)
  }

  /** `ensureStorageDir()` followed by the `existsSync`/`mkdirSync` of
      `getSongStorageDir` for `dir`. */
  function EnsureDirs(fs: Fs, root: Path, dir: Path): Result<Fs, FsError> {
    match EnsureRoot(fs, root)
    case Failure(e) => Failure(e)
    case Success(fs1) => if Exists(fs1, dir) then Success(fs1) else MkdirP(fs1, dir)
  }

  /** The file system after resolving, whether or not it threw: a root
      created before the song directory failed stays in place. */
  function Resolved(fs: Fs, root: Path, dir: Path): Fs {
    match EnsureDirs(fs, root, dir)
    case Success(fs1) => fs1
    case Failure(_) => match EnsureRoot(fs, root)
      case Success(fs1) => fs1
      case Failure(_) => fs
  }

  /** Resolving again after a failure fails the same way and changes nothing
      more: `mkdir -p` either creates the whole chain or nothing. */
  lemma ResolveAgain(fs: Fs, root: Path, dir: Path)
    requires EnsureDirs(fs, root, dir).Failure?
    ensures EnsureDirs(Resolved(fs, root, dir), root, dir) == EnsureDirs(fs, root, dir)
    ensures Resolved(Resolved(fs, root, dir), root, dir) == Resolved(fs, root, dir)
  {
    if !Exists(fs, root) && MkdirP(fs, root).Success? {
      MkdirPSpec(fs, root);
      assert root[..|root|] == root;
    }
  }

  /** A failed resolution adds only directories; existing entries stay. */
  lemma ResolvedKeeps(fs: Fs, root: Path, dir: Path)
    requires WellFormed(fs) && PlainPath(root) && PlainPath(dir)
    ensures var fs' := Resolved(fs, root, dir);
      && WellFormed(fs')
      && (forall q :: q in fs ==> q in fs' && fs'[q] == fs[q])
      && (forall q :: q in fs' && q !in fs ==> fs'[q] == Dir && (|q| <= |root| || |q| <= |dir|))
  {
    if !Exists(fs, root) {
      MkdirPSpec(fs, root);
      if MkdirP(fs, root).Success? {
        MkdirPWellFormed(fs, root);
      }
    }
    if EnsureRoot(fs, root).Success? {
      var fs1 := EnsureRoot(fs, root).value;
      if !Exists(fs1, dir) {
        MkdirPSpec(fs1, dir);
        if MkdirP(fs1, dir).Success? {
          MkdirPWellFormed(fs1, dir);
        }
      }
    }
  }

  /** After resolving, the storage root and the song directory exist, no
      existing entry has changed, and the file system is still well formed. */
  lemma EnsureDirsSpec(fs: Fs, root: Path, dir: Path)
    requires WellFormed(fs) && PlainPath(root) && PlainPath(dir)
    requires EnsureDirs(fs, root, dir).Success?
    ensures var fs' := EnsureDirs(fs, root, dir).value;
      && WellFormed(fs') && Exists(fs', root) && Exists(fs', dir)
      && forall q :: q in fs ==> q in fs' && fs'[q] == fs[q]
  {
    if !Exists(fs, root) {
      MkdirPSpec(fs, root);
      MkdirPWellFormed(fs, root);
      assert root[..|root|] == root;
    }
    var fs1 := if Exists(fs, root) then fs else MkdirP(fs, root).value;
    if !Exists(fs1, dir) {
      MkdirPSpec(fs1, dir);
      MkdirPWellFormed(fs1, dir);
      assert dir[..|dir|] == dir;
    }
  }

  /** Resolving a second time changes nothing and resolves the same way. */
  lemma EnsureDirsIdempotent(fs: Fs, root: Path, dir: Path)
    requires WellFormed(fs) && PlainPath(root) && PlainPath(dir)
    requires EnsureDirs(fs, root, dir).Success?
    ensures EnsureDirs(EnsureDirs(fs, root, dir).value, root, dir) == EnsureDirs(fs, root, dir)
  {
    EnsureDirsSpec(fs, root, dir);
  }

  /** When the song directory already exists below the root, resolving
      changes nothing. */
  lemma EnsureDirsExisting(fs: Fs, root: Path, dir: Path)
    requires WellFormed(fs) && Under(dir, root) && dir in fs
    ensures EnsureDirs(fs, root, dir) == Success(fs)
  {
    AncestorsAreDirs(fs, dir, |root|);
  }

  /** `downloadAndSaveSong` / `downloadAndSaveCover` for the resolved file
      `final`: return at once when it or its `.tmp` sibling exists;
      otherwise fetch into the `.tmp` file and rename it on success, or
      delete it and rethrow on failure. A failure to create the directories
      is thrown again from the catch block, which resolves the path anew. */
  function SaveOnce(fs: Fs, root: Path, final: Path, fetch: Fetch): SaveOutcome
  {
    var dir := Dirname(final);
    match EnsureDirs(fs, root, dir)
    case Failure(e) => SaveOutcome(Resolved(fs, root, dir), Failure(FsFailure(e)), false)
    case Success(fs1) =>
      if Exists(fs1, final) || Exists(fs1, TmpPath(final)) then SaveOutcome(fs1, Success(final), false)
      else
        match fetch
        case RequestFailed(m) => SaveOutcome(fs1, Failure(NetworkFailure(m)), true)
        case StreamFailed(_, m) =>
          if IsDir(fs1, dir) then SaveOutcome(fs1, Failure(NetworkFailure(m)), true)
          else SaveOutcome(fs1, Failure(FsFailure(ENOTDIR)), true)
        case Fetched(data) =>
          if IsDir(fs1, dir) then SaveOutcome(fs1[final := File(Bytes(data))], Success(final), true)
          else SaveOutcome(fs1, Failure(FsFailure(ENOTDIR)), true)
  }

  /** Skip rule: when the final file or its `.tmp` sibling already exists,
      the final path is returned, nothing is fetched and nothing changes. */
  lemma SaveOnceSkips(fs: Fs, root: Path, final: Path, fetch: Fetch)
    requires WellFormed(fs) && final != [] && Under(Dirname(final), root)
    requires final in fs || TmpPath(final) in fs
    ensures SaveOnce(fs, root, final, fetch) == SaveOutcome(fs, Success(final), false)
  {
    var dir := Dirname(final);
    if final in fs {
      AncestorsAreDirs(fs, final, |dir|);
    } else {
      AncestorsAreDirs(fs, TmpPath(final), |dir|);
    }
    EnsureDirsExisting(fs, root, dir);
  }

  /** The network is used only when neither the file nor its `.tmp`
      sibling existed, and a failed request or broken stream is rethrown. */
  lemma SaveOnceFetches(fs: Fs, root: Path, final: Path, fetch: Fetch)
    requires WellFormed(fs) && PlainPath(root) && PlainPath(final) && final != []
    requires Under(Dirname(final), root)
    ensures var out := SaveOnce(fs, root, final, fetch);
      && (out.fetched ==> final !in fs && TmpPath(final) !in fs)
      && (fetch.RequestFailed? && out.fetched ==> out.result == Failure(NetworkFailure(fetch.message)))
      && (fetch.StreamFailed? && out.fetched && IsDir(out.fs, Dirname(final)) ==>
            out.result == Failure(NetworkFailure(fetch.message)))
  {
    if final in fs || TmpPath(final) in fs {
      SaveOnceSkips(fs, root, final, fetch);
    }
  }

  /** A fetching success leaves exactly the fetched bytes at the final path
      and no `.tmp` file; a failure leaves neither file. For a fresh path
      whose directory resolves to a directory, a complete download
      succeeds, and only then. */
  lemma SaveOnceResult(fs: Fs, root: Path, final: Path, fetch: Fetch)
    requires WellFormed(fs) && PlainPath(root) && PlainPath(final) && final != []
    requires Under(Dirname(final), root)
    ensures var out, tmp := SaveOnce(fs, root, final, fetch), TmpPath(final);
      && (out.fetched && out.result.Success? ==>
            fetch.Fetched? && out.result.value == final && out.fs[final] == File(Bytes(fetch.data)) && tmp !in out.fs)
      && (out.result.Failure? ==> final !in out.fs && tmp !in out.fs)
    ensures var out, dir, ens := SaveOnce(fs, root, final, fetch), Dirname(final), EnsureDirs(fs, root, Dirname(final));
      && (final !in fs && TmpPath(final) !in fs && fetch.Fetched? ==>
            (out.result.Success? <==> ens.Success? && IsDir(ens.value, dir)))
      && (final !in fs && TmpPath(final) !in fs && fetch.Fetched? && ens.Success? && IsDir(ens.value, dir) ==>
            out.fetched && out.result == Success(final) && out.fs == ens.value[final := File(Bytes(fetch.data))])
  {
    var dir := Dirname(final);
    if final in fs || TmpPath(final) in fs {
      SaveOnceSkips(fs, root, final, fetch);
    } else {
      if final in Resolved(fs, root, dir) {
        ResolvedAddsOnlyPrefixes(fs, root, dir, final);
      }
      if TmpPath(final) in Resolved(fs, root, dir) {
        ResolvedAddsOnlyPrefixes(fs, root, dir, TmpPath(final));
      }
    }
  }

  /** The file system stays well formed; no existing entry other than the
      final file changes, and only directories and the final file are added. */
  lemma SaveOnceFrame(fs: Fs, root: Path, final: Path, fetch: Fetch)
    requires WellFormed(fs) && PlainPath(root) && PlainPath(final) && final != []
    requires Under(Dirname(final), root)
    ensures var out := SaveOnce(fs, root, final, fetch);
      && WellFormed(out.fs)
      && (forall q :: q in fs && q != final ==> q in out.fs && out.fs[q] == fs[q])
      && (forall q :: q in out.fs && q !in fs ==> q == final || out.fs[q] == Dir)
  {
    var dir := Dirname(final);
    assert PlainPath(dir);
    if final in fs || TmpPath(final) in fs {
      SaveOnceSkips(fs, root, final, fetch);
    } else {
      ResolvedKeeps(fs, root, dir);
      SaveOnceShape(fs, root, final, fetch);
      var fs1 := Resolved(fs, root, dir);
      var out := SaveOnce(fs, root, final, fetch);
      if out.fs != fs1 {
        AddEntryWellFormed(fs1, final, File(Bytes(fetch.data)));
      }
    }
  }

  /** A save either leaves the resolved file system as it is or adds the
      fetched bytes at the final path, which was free, in an existing
      directory. */
  lemma SaveOnceShape(fs: Fs, root: Path, final: Path, fetch: Fetch)
    requires final != []
    ensures var out, fs1 := SaveOnce(fs, root, final, fetch), Resolved(fs, root, Dirname(final));
      || out.fs == fs1
      || (fetch.Fetched? && final !in fs1 && IsDir(fs1, Parent(final)) && out.fs == fs1[final := File(Bytes(fetch.data))])
  {
  }

  /** A path longer than the song directory does not appear by resolving it. */
  lemma ResolvedAddsOnlyPrefixes(fs: Fs, root: Path, dir: Path, p: Path)
    requires WellFormed(fs) && PlainPath(root) && PlainPath(dir) && Under(dir, root)
    requires |p| > |dir| && p in Resolved(fs, root, dir)
    ensures p in fs
  {
    ResolvedKeeps(fs, root, dir);
  }

  /** `saveLyrics` for the resolved file `final`: write-once text. */
  function WriteOnce(fs: Fs, root: Path, final: Path, text: string): (Fs, Result<Path, Error>)
  {
    var dir := Dirname(final);
    match EnsureDirs(fs, root, dir)
    case Failure(e) => (Resolved(fs, root, dir), Failure(FsFailure(e)))
    case Success(fs1) =>
      if Exists(fs1, final) then (fs1, Success(final))
      else if IsDir(fs1, dir) then (fs1[final := File(Text(text))], Success(final))
      else (fs1, Failure(FsFailure(ENOTDIR)))
  }

  /** An existing lyrics file keeps its content; otherwise, on success, the
      file holds exactly the given text. Nothing else but directories changes. */
  lemma WriteOnceSpec(fs: Fs, root: Path, final: Path, text: string)
    requires WellFormed(fs) && PlainPath(root) && PlainPath(final) && final != []
    requires Under(Dirname(final), root)
    ensures var (fs', r) := WriteOnce(fs, root, final, text);
      && WellFormed(fs')
      && (final in fs ==> fs' == fs && r == Success(final))
      && (final !in fs && r.Success? ==> r.value == final && fs'[final] == File(Text(text)))
      && (r.Failure? ==> final !in fs')
      && (forall q :: q in fs && q != final ==> q in fs' && fs'[q] == fs[q])
    ensures var (fs', r) := WriteOnce(fs, root, final, text);
      var dir, ens := Dirname(final), EnsureDirs(fs, root, Dirname(final));
      final !in fs && ens.Success? && IsDir(ens.value, dir) ==>
        r == Success(final) && fs' == ens.value[final := File(Text(text))]
  {
    var dir := Dirname(final);
    if final in fs {
      AncestorsAreDirs(fs, final, |dir|);
      EnsureDirsExisting(fs, root, dir);
    } else {
      ResolvedKeeps(fs, root, dir);
      var fs1 := Resolved(fs, root, dir);
      if final in fs1 {
        ResolvedAddsOnlyPrefixes(fs, root, dir, final);
      }
      WriteOnceShape(fs, root, final, text);
      if WriteOnce(fs, root, final, text).0 != fs1 {
        AddEntryWellFormed(fs1, final, File(Text(text)));
      }
    }
  }

  /** A lyrics save either leaves the resolved file system as it is, and
      succeeds only when the file exists, or writes the text to the free final
      path in an existing directory. */
  lemma WriteOnceShape(fs: Fs, root: Path, final: Path, text: string)
    requires final != []
    ensures var (fs', r) := WriteOnce(fs, root, final, text);
      var fs1 := Resolved(fs, root, Dirname(final));
      || (fs' == fs1 && (r.Success? ==> Exists(fs1, final) && r.value == final))
      || (final !in fs1 && IsDir(fs1, Parent(final)) && fs' == fs1[final := File(Text(text))] && r == Success(final))
  {
  }

  /** `getLocalSongPath` / `getLocalCoverPath`: resolve (creating the
      directories), then report the path when something exists there. */
  function Probe(fs: Fs, root: Path, final: Path): (Fs, Result<Option<Path>, Error>)
  {
    match EnsureDirs(fs, root, Dirname(final))
    case Failure(e) => (Resolved(fs, root, Dirname(final)), Failure(FsFailure(e)))
    case Success(fs1) => (fs1, Success(if Exists(fs1, final) then Some(final) else None))
  }

  /** The probe returns the path exactly when an entry (file or directory,
      as `existsSync` sees it) is there before the call, changes no entry
      that existed, and adds only directories. */
  lemma ProbeSpec(fs: Fs, root: Path, final: Path)
    requires WellFormed(fs) && PlainPath(root) && PlainPath(final) && final != []
    requires Under(Dirname(final), root)
    ensures var (fs', r) := Probe(fs, root, final);
      && (final in fs ==> fs' == fs && r == Success(Some(final)))
      && (final !in fs && r.Success? ==> r.value == None)
      && (final !in fs ==> (r.Success? <==> EnsureDirs(fs, root, Dirname(final)).Success?))
      && (forall q :: q in fs ==> q in fs' && fs'[q] == fs[q])
      && (forall q :: q in fs' && q !in fs ==> fs'[q] == Dir)
  {
    var dir := Dirname(final);
    if final in fs {
      AncestorsAreDirs(fs, final, |dir|);
      EnsureDirsExisting(fs, root, dir);
    } else {
      ResolvedKeeps(fs, root, dir);
      if final in Resolved(fs, root, dir) {
        ResolvedAddsOnlyPrefixes(fs, root, dir, final);
      }
    }
  }

  /** `readLocalLyrics`: the text of the lyrics file, or None when it is
      absent or any step throws (a directory in its place, a failed
      `mkdir`). Bytes are read back through `decode`, the UTF-8 decoder. */
  function ReadText(fs: Fs, root: Path, final: Path, decode: seq<byte> -> string): (Fs, Option<string>)
  {
    match EnsureDirs(fs, root, Dirname(final))
    case Failure(_) => (Resolved(fs, root, Dirname(final)), None)
    case Success(fs1) =>
      if final !in fs1 then (fs1, None)
      else match fs1[final]
        case Dir => (fs1, None)
        case File(Text(t)) => (fs1, Some(t))
        case File(Bytes(b)) => (fs1, Some(decode(b)))
  }

  /** Reading an existing entry changes nothing and gives its text (bytes
      decoded), or None for a directory; an absent file reads as None,
      whether or not resolving its directory throws. Old entries stay. */
  lemma ReadTextSpec(fs: Fs, root: Path, final: Path, decode: seq<byte> -> string)
    requires WellFormed(fs) && PlainPath(root) && PlainPath(final) && final != []
    requires Under(Dirname(final), root)
    ensures var (fs', r) := ReadText(fs, root, final, decode);
      && (final !in fs ==> r == None)
      && (final in fs ==> fs' == fs)
      && (final in fs && fs[final].Dir? ==> r == None)
      && (final in fs && fs[final].File? && fs[final].data.Text? ==> r == Some(fs[final].data.text))
      && (final in fs && fs[final].File? && fs[final].data.Bytes? ==> r == Some(decode(fs[final].data.bytes)))
      && (forall q :: q in fs ==> q in fs' && fs'[q] == fs[q])
  {
    var dir := Dirname(final);
    if final in fs {
      AncestorsAreDirs(fs, final, |dir|);
      EnsureDirsExisting(fs, root, dir);
    } else {
      ResolvedKeeps(fs, root, dir);
      if final in Resolved(fs, root, dir) {
        ResolvedAddsOnlyPrefixes(fs, root, dir, final);
      }
    }
  }

  /** Lyrics written by `saveLyrics` are read back unchanged. */
  lemma ReadAfterWrite(fs: Fs, root: Path, final: Path, text: string, decode: seq<byte> -> string)
    requires WellFormed(fs) && PlainPath(root) && PlainPath(final) && final != []
    requires Under(Dirname(final), root) && final !in fs
    requires WriteOnce(fs, root, final, text).1.Success?
    ensures ReadText(WriteOnce(fs, root, final, text).0, root, final, decode).1 == Some(text)
  {
    WriteOnceSpec(fs, root, final, text);
    var fs' := WriteOnce(fs, root, final, text).0;
    AncestorsAreDirs(fs', final, |Dirname(final)|);
    EnsureDirsExisting(fs', root, Dirname(final));
  }

  class MediaStore {
    /** The whole file system; `root` is STORAGE_DIR. */
    var fs: Fs
    const root: Path

    ghost predicate Valid()
      reads this
    {
      WellFormed(fs) && root != [] && PlainPath(root)
    }

    constructor (root: Path, fs: Fs)
      requires WellFormed(fs) && root != [] && PlainPath(root)
      ensures Valid() && this.root == root && this.fs == fs
    {
      this.root := root;
      this.fs := fs;
    }

    /** `getSongStorageDir`: `ensureStorageDir()`, then create the song
        directory when nothing exists there. */
    method GetSongStorageDir(k: SongKey) returns (r: Result<Path, FsError>)
      requires Valid()
      modifies this
      ensures Valid()
      ensures fs == Resolved(old(fs), root, SongDir(root, k))
      ensures r == match EnsureDirs(old(fs), root, SongDir(root, k))
        case Success(_) => Success(SongDir(root, k))
        case Failure(e) => Failure(e)
    {
      var dir := SongDir(root, k);
      JoinPlain(root, [k.source, k.artist, k.album, k.title]);
      ResolvedKeeps(fs, root, dir);
      if !Exists(fs, root) {
        var made := MkdirP(fs, root);
        if made.Failure? {
          return Failure(made.error);
        }
        MkdirPWellFormed(fs, root);
        fs := made.value;
      }
      if !Exists(fs, dir) {
        var made := MkdirP(fs, dir);
        if made.Failure? {
          return Failure(made.error);
        }
        MkdirPWellFormed(fs, dir);
        fs := made.value;
      }
      r := Success(dir);
    }

    /** The three path getters: resolve the directory, then name the file. */
    method GetStoragePath(k: SongKey, ext: string) returns (r: Result<Path, FsError>)
      requires Valid() && SafeName(k.title) && |ext| >= 2 && ext[0] == '.' && '/' !in ext
      modifies this
      ensures Valid()
      ensures fs == Resolved(old(fs), root, SongDir(root, k))
      ensures r == match EnsureDirs(old(fs), root, SongDir(root, k))
        case Success(_) => Success(SongDir(root, k) + [k.title + ext])
        case Failure(e) => Failure(e)
    {
      var dir := GetSongStorageDir(k);
      if dir.Failure? {
        return Failure(dir.error);
      }
      FileInDir(dir.value, k.title, ext);
      r := Success(Join(dir.value, [k.title + ext]));
    }

    /** The resolved file is below the root and made of plain names. */
    lemma FileBelowRoot(k: SongKey, ext: string)
      requires Valid() && PlainSegment(k.source) && SafeName(k.artist) && SafeName(k.album) && SafeName(k.title)
      requires k.artist !in {".", ".."} && k.album !in {".", ".."} && k.title !in {".", ".."}
      requires |ext| >= 2 && ext[0] == '.' && '/' !in ext
      ensures var final := SongDir(root, k) + [k.title + ext];
        && PlainPath(final) && Dirname(final) == SongDir(root, k) && Under(SongDir(root, k), root)
    {
      DirectoryLayout(root, k);
      FileNamePlain(k.title, ext);
      JoinPlain(root, [k.source, k.artist, k.album, k.title]);
      var final := SongDir(root, k) + [k.title + ext];
      assert forall i :: 0 <= i < |final| - 1 ==> final[i] == SongDir(root, k)[i];
    }

    /** `getLocalSongPath` (extension by quality) and `getLocalCoverPath`
        (".jpg") once the names are sanitised. */
    method GetLocalPath(k: SongKey, ext: string) returns (r: Result<Option<Path>, Error>)
      requires Valid() && SafeName(k.title) && |ext| >= 2 && ext[0] == '.' && '/' !in ext
      modifies this
      ensures Valid()
      ensures (fs, r) == Probe(old(fs), root, SongDir(root, k) + [k.title + ext])
    {
      var p := GetStoragePath(k, ext);
      if p.Failure? {
        return Failure(FsFailure(p.error));
      }
      r := Success(if Exists(fs, p.value) then Some(p.value) else None);
    }

    method LocalSong(k: SongKey, quality: string) returns (r: Result<Option<Path>, Error>)
      requires Valid() && SafeName(k.title)
      modifies this
      ensures Valid()
      ensures (fs, r) == Probe(old(fs), root, SongPath(root, k, quality))
    {
      assert SongPath(root, k, quality) == SongDir(root, k) + [k.title + AudioExtension(quality)] by {
        Siblings(root, k, quality);
      }
      r := GetLocalPath(k, AudioExtension(quality));
    }

    method LocalCover(k: SongKey) returns (r: Result<Option<Path>, Error>)
      requires Valid() && SafeName(k.title)
      modifies this
      ensures Valid()
      ensures (fs, r) == Probe(old(fs), root, CoverPath(root, k))
    {
      assert CoverPath(root, k) == SongDir(root, k) + [k.title + ".jpg"] by {
        Siblings(root, k, "");
      }
      r := GetLocalPath(k, ".jpg");
    }

    method GetLocalSongPath(source: string, artist: string, album: string, title: string, quality: string)
      returns (r: Result<Option<Path>, Error>)
      requires Valid()
      modifies this
      ensures Valid()
      ensures (fs, r) == Probe(old(fs), root, SongPath(root, KeyOf(source, artist, album, title), quality))
    {
      KeyOfSafe(source, artist, album, title);
      r := LocalSong(KeyOf(source, artist, album, title), quality);
    }

    method GetLocalCoverPath(source: string, artist: string, album: string, title: string)
      returns (r: Result<Option<Path>, Error>)
      requires Valid()
      modifies this
      ensures Valid()
      ensures (fs, r) == Probe(old(fs), root, CoverPath(root, KeyOf(source, artist, album, title)))
    {
      KeyOfSafe(source, artist, album, title);
      r := LocalCover(KeyOf(source, artist, album, title));
    }

    /** `readLocalLyrics` once the names are sanitised: every error is
        caught and reported as None. */
    method ReadLyricsFile(k: SongKey, decode: seq<byte> -> string) returns (r: Option<string>)
      requires Valid() && SafeName(k.title)
      modifies this
      ensures Valid()
      ensures (fs, r) == ReadText(old(fs), root, LyricsPath(root, k), decode)
    {
      var final := SongDir(root, k) + [k.title + ".lrc"];
      assert LyricsPath(root, k) == final by {
        Siblings(root, k, "");
      }
      assert Dirname(final) == SongDir(root, k);
      var p := GetStoragePath(k, ".lrc");
      if p.Failure? {
        return None;
      }
      if p.value !in fs {
        return None;
      }
      match fs[p.value]
      case Dir =>
        r := None;
      case File(Text(t)) =>
        r := Some(t);
      case File(Bytes(b)) =>
        r := Some(decode(b));
    }

    method ReadLocalLyrics(source: string, artist: string, album: string, title: string, decode: seq<byte> -> string)
      returns (r: Option<string>)
      requires Valid()
      modifies this
      ensures Valid()
      ensures (fs, r) == ReadText(old(fs), root, LyricsPath(root, KeyOf(source, artist, album, title)), decode)
    {
      KeyOfSafe(source, artist, album, title);
      r := ReadLyricsFile(KeyOf(source, artist, album, title), decode);
    }

    /** The body shared by `downloadAndSaveSong` and `downloadAndSaveCover`
        once the directories have been resolved and the file is `final`. */
    method Transfer(final: Path, fetch: Fetch) returns (r: Result<Path, Error>, fetched: bool)
      requires Valid() && final != [] && PlainPath(final)
      modifies this
      ensures Valid()
      ensures var dir := Dirname(final);
        if Exists(old(fs), final) || Exists(old(fs), TmpPath(final)) then
          fs == old(fs) && r == Success(final) && !fetched
        else
          && fetched
          && match fetch
             case RequestFailed(m) => fs == old(fs) && r == Failure(NetworkFailure(m))
             case StreamFailed(_, m) =>
               fs == old(fs) && r == (if IsDir(old(fs), dir) then Failure(NetworkFailure(m)) else Failure(FsFailure(ENOTDIR)))
             case Fetched(data) =>
               if IsDir(old(fs), dir) then fs == old(fs)[final := File(Bytes(data))] && r == Success(final)
               else fs == old(fs) && r == Failure(FsFailure(ENOTDIR))
    {
      var tmp := TmpPath(final);
      if Exists(fs, final) || Exists(fs, tmp) {
        return Success(final), false;
      }
      fetched := true;
      if fetch.RequestFailed? {
        // the request rejects before the write stream is opened
        return Failure(NetworkFailure(fetch.message)), fetched;
      }
      if !IsDir(fs, Dirname(final)) {
        // the write stream cannot be opened below a file
        return Failure(FsFailure(ENOTDIR)), fetched;
      }
      TmpPathPlain(final);
      match fetch
      case StreamFailed(partial, m) =>
        fs := fs[tmp := File(Bytes(partial))];   // the bytes that arrived
        fs := fs - {tmp};                        // catch: unlink the .tmp
        assert fs == old(fs);
        r := Failure(NetworkFailure(m));
      case Fetched(data) =>
        AddEntryWellFormed(fs, final, File(Bytes(data)));
        fs := fs[tmp := File(Bytes(data))];      // pipe into the .tmp
        var content := fs[tmp];                  // renameSync(tmp, final)
        fs := (fs - {tmp})[final := content];
        assert fs == old(fs)[final := File(Bytes(data))];
        r := Success(final);
    }

    /** Resolve the file `title + ext`, then transfer. When resolving throws,
        the catch block resolves the path again to clean up, which throws
        the same error in turn. */
    method Download(k: SongKey, ext: string, fetch: Fetch) returns (r: Result<Path, Error>, fetched: bool)
      requires Valid() && SafeName(k.title) && |ext| >= 2 && ext[0] == '.' && '/' !in ext
      modifies this
      ensures Valid()
      ensures SaveOutcome(fs, r, fetched) == SaveOnce(old(fs), root, SongDir(root, k) + [k.title + ext], fetch)
    {
      var final := SongDir(root, k) + [k.title + ext];
      assert Dirname(final) == SongDir(root, k);
      var p := GetStoragePath(k, ext);
      if p.Failure? {
        ResolveAgain(old(fs), root, SongDir(root, k));
        var again := GetStoragePath(k, ext);
        return Failure(FsFailure(again.error)), false;
      }
      JoinPlain(root, [k.source, k.artist, k.album, k.title]);
      FileNamePlain(k.title, ext);
      assert PlainPath(final) by {
        assert forall i :: 0 <= i < |final| - 1 ==> final[i] == SongDir(root, k)[i];
      }
      r, fetched := Transfer(final, fetch);
    }

    method SaveSong(k: SongKey, quality: string, fetch: Fetch) returns (r: Result<Path, Error>, fetched: bool)
      requires Valid() && SafeName(k.title)
      modifies this
      ensures Valid()
      ensures SaveOutcome(fs, r, fetched) == SaveOnce(old(fs), root, SongPath(root, k, quality), fetch)
    {
      assert SongPath(root, k, quality) == SongDir(root, k) + [k.title + AudioExtension(quality)] by {
        Siblings(root, k, quality);
      }
      r, fetched := Download(k, AudioExtension(quality), fetch);
    }

    method SaveCover(k: SongKey, fetch: Fetch) returns (r: Result<Path, Error>, fetched: bool)
      requires Valid() && SafeName(k.title)
      modifies this
      ensures Valid()
      ensures SaveOutcome(fs, r, fetched) == SaveOnce(old(fs), root, CoverPath(root, k), fetch)
    {
      assert CoverPath(root, k) == SongDir(root, k) + [k.title + ".jpg"] by {
        Siblings(root, k, "");
      }
      r, fetched := Download(k, ".jpg", fetch);
    }

    /** `downloadAndSaveSong(source, artist, album, songName, quality, audioUrl)`. */
    method DownloadAndSaveSong(source: string, artist: string, album: string, title: string, quality: string, fetch: Fetch)
      returns (r: Result<Path, Error>, fetched: bool)
      requires Valid()
      modifies this
      ensures Valid()
      ensures SaveOutcome(fs, r, fetched) == SaveOnce(old(fs), root, SongPath(root, KeyOf(source, artist, album, title), quality), fetch)
    {
      KeyOfSafe(source, artist, album, title);
      r, fetched := SaveSong(KeyOf(source, artist, album, title), quality, fetch);
    }

    /** `downloadAndSaveCover(source, artist, album, songName, coverUrl)`. */
    method DownloadAndSaveCover(source: string, artist: string, album: string, title: string, fetch: Fetch)
      returns (r: Result<Path, Error>, fetched: bool)
      requires Valid()
      modifies this
      ensures Valid()
      ensures SaveOutcome(fs, r, fetched) == SaveOnce(old(fs), root, CoverPath(root, KeyOf(source, artist, album, title)), fetch)
    {
      KeyOfSafe(source, artist, album, title);
      r, fetched := SaveCover(KeyOf(source, artist, album, title), fetch);
    }

    /** `writeFileSync(lyricsPath, lyricsText, 'utf8')` unless the file exists. */
    method WriteText(final: Path, text: string) returns (r: Result<Path, Error>)
      requires Valid() && final != [] && PlainPath(final)
      modifies this
      ensures Valid()
      ensures if Exists(old(fs), final) then fs == old(fs) && r == Success(final)
        else if IsDir(old(fs), Dirname(final)) then fs == old(fs)[final := File(Text(text))] && r == Success(final)
        else fs == old(fs) && r == Failure(FsFailure(ENOTDIR))
    {
      if Exists(fs, final) {
        return Success(final);
      }
      if !IsDir(fs, Dirname(final)) {
        return Failure(FsFailure(ENOTDIR));
      }
      fs := fs[final := File(Text(text))];
      r := Success(final);
    }

    /** `saveLyrics` once the names are sanitised. */
    method WriteLyrics(k: SongKey, text: string) returns (r: Result<Path, Error>)
      requires Valid() && SafeName(k.title)
      modifies this
      ensures Valid()
      ensures (fs, r) == WriteOnce(old(fs), root, LyricsPath(root, k), text)
    {
      var final := SongDir(root, k) + [k.title + ".lrc"];
      assert LyricsPath(root, k) == final by {
        Siblings(root, k, "");
      }
      assert Dirname(final) == SongDir(root, k);
      var p := GetStoragePath(k, ".lrc");
      if p.Failure? {
        return Failure(FsFailure(p.error));
      }
      JoinPlain(root, [k.source, k.artist, k.album, k.title]);
      FileNamePlain(k.title, ".lrc");
      assert PlainPath(final) by {
        assert forall i :: 0 <= i < |final| - 1 ==> final[i] == SongDir(root, k)[i];
      }
      r := WriteText(final, text);
    }

    /** `saveLyrics(source, artist, album, songName, lyricsText)`. */
    method SaveLyrics(source: string, artist: string, album: string, title: string, text: string)
      returns (r: Result<Path, Error>)
      requires Valid()
      modifies this
      ensures Valid()
      ensures (fs, r) == WriteOnce(old(fs), root, LyricsPath(root, KeyOf(source, artist, album, title)), text)
    {
      KeyOfSafe(source, artist, album, title);
      r := WriteLyrics(KeyOf(source, artist, album, title), text);
    }
  }
}
