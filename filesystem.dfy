/** The file system as the storage layer sees it: a map from absolute paths
    (sequences of segments below "/") to directories and files, Node's
    `path.join` on POSIX, and `mkdirSync(p, { recursive: true })`. */
module FileSystem {

  import opened Wrappers
  import opened JsText

  type Path = seq<string>

  type byte = bv8

  /** What a file holds: raw bytes (audio, images) or text written as UTF-8. */
  datatype Data = Bytes(bytes: seq<byte>) | Text(text: string)

  datatype Entry = Dir | File(data: Data)

  type Fs = map<Path, Entry>

  /** The error codes Node's `fs` module raises in the modelled operations. */
  datatype FsError = ENOTDIR | EISDIR | ENOENT

  /** A name that can be a directory entry: not empty, no '/', not "." or "..". */
  predicate PlainSegment(s: string) {
    s != "" && s != "." && s != ".." && '/' !in s
  }

  predicate PlainPath(p: Path) {
    forall i :: 0 <= i < |p| ==> PlainSegment(p[i])
  }

  function Parent(p: Path): Path
    requires p != []
  {
    p[..|p| - 1]
  }

  /** `path.dirname`: the parent, and "/" for "/". */
  function Dirname(p: Path): Path {
    if p == [] then [] else Parent(p)
  }

  /** "/" always exists and is a directory; it is not stored in the map. */
  predicate Exists(fs: Fs, p: Path) {
    p == [] || p in fs
  }

  predicate IsDir(fs: Fs, p: Path) {
    p == [] || (p in fs && fs[p].Dir?)
  }

  predicate IsFile(fs: Fs, p: Path) {
    p in fs && fs[p].File?
  }

  /** Every stored path is made of plain names and hangs below a directory. */
  predicate WellFormed(fs: Fs) {
    forall p :: p in fs ==> p != [] && PlainPath(p) && IsDir(fs, Parent(p))
  }

  /** One step of `path.normalize` on an absolute path: "" and "." do
      nothing, ".." goes up (and stays at "/"), a name goes down. */
  function Step(p: Path, segment: string): Path {
    if segment == "" || segment == "." then p
    else if segment == ".." then (if p == [] then [] else Parent(p))
    else p + [segment]
  }

  function Walk(p: Path, segments: seq<string>): Path
    decreases |segments|
  {
    if segments == [] then p else Walk(Step(p, segments[0]), segments[1..])
  }

  /** `path.join(base, ...parts)` for an absolute, normalised `base`. */
  function Join(base: Path, parts: seq<string>): Path
    decreases |parts|
  {
    if parts == [] then base else Join(Walk(base, Split(parts[0], '/')), parts[1..])
  }

  /** Joining keeps paths made of plain names. */
  lemma {:induction false} JoinPlain(base: Path, parts: seq<string>)
    requires PlainPath(base)
    ensures PlainPath(Join(base, parts))
    decreases |parts|
  {
    if parts != [] {
      WalkPlain(base, Split(parts[0], '/'));
      JoinPlain(Walk(base, Split(parts[0], '/')), parts[1..]);
    }
  }

  lemma {:induction false} WalkPlain(p: Path, segments: seq<string>)
    requires PlainPath(p)
    requires forall i :: 0 <= i < |segments| ==> '/' !in segments[i]
    ensures PlainPath(Walk(p, segments))
    decreases |segments|
  {
    if segments != [] {
      WalkPlain(Step(p, segments[0]), segments[1..]);
    }
  }

  /** With plain parts, `path.join` is plain concatenation. */
  lemma {:induction false} JoinOfPlainParts(base: Path, parts: seq<string>)
    requires PlainPath(parts)
    ensures Join(base, parts) == base + parts
    decreases |parts|
  {
    if parts != [] {
      assert Split(parts[0], '/') == [parts[0]];
      assert Walk(base, [parts[0]]) == base + [parts[0]];
      JoinOfPlainParts(base + [parts[0]], parts[1..]);
      assert base + [parts[0]] + parts[1..] == base + parts;
    }
  }

  /** `mkdirSync(p, { recursive: true })`: creates every missing directory
      on the way to `p`. Node looks for the nearest existing ancestor first
      and fails before creating anything when that ancestor is a file, so the
      call either creates the whole chain or changes nothing. */
  function MkdirP(fs: Fs, p: Path): (r: Result<Fs, FsError>)
    decreases |p|
  {
    if p == [] then Success(fs)
    else
      match MkdirP(fs, Parent(p))
      case Failure(e) => Failure(e)
      case Success(fs1) =>
        if p !in fs1 then Success(fs1[p := Dir])
        else if fs1[p].Dir? then Success(fs1)
        else Failure(ENOTDIR)
  }

  /** Every proper prefix of `p` (and `p`) is a directory. */
  predicate ChainIsDirs(fs: Fs, p: Path) {
    forall k :: 0 <= k <= |p| ==> IsDir(fs, p[..k])
  }

  /** Some prefix of `p` exists and is a file. */
  predicate ChainBlocked(fs: Fs, p: Path) {
    exists k :: 0 < k <= |p| && IsFile(fs, p[..k])
  }

  /** `mkdir -p` succeeds exactly when no prefix of the path is a file; on
      success the whole chain is directories, nothing that existed changes,
      and only prefixes of `p` are added. On failure nothing is created. */
  lemma MkdirPSpec(fs: Fs, p: Path)
    ensures MkdirP(fs, p).Success? <==> !ChainBlocked(fs, p)
    ensures MkdirP(fs, p).Success? ==> var fs' := MkdirP(fs, p).value;
      && ChainIsDirs(fs', p)
      && (forall q :: q in fs ==> q in fs' && fs'[q] == fs[q])
      && (forall q :: q in fs' && q !in fs ==> fs'[q] == Dir && |q| <= |p| && q == p[..|q|])
  {
    MkdirPSucceeds(fs, p);
    if MkdirP(fs, p).Success? {
      MkdirPChain(fs, p);
      MkdirPKeeps(fs, p);
      MkdirPAdds(fs, p);
    }
  }

  lemma {:induction false} MkdirPSucceeds(fs: Fs, p: Path)
    ensures MkdirP(fs, p).Success? <==> !ChainBlocked(fs, p)
    decreases |p|
  {
    if p != [] {
      var pp := Parent(p);
      MkdirPSucceeds(fs, pp);
      ChainBlockedStep(fs, p);
      if MkdirP(fs, pp).Success? {
        var fs1 := MkdirP(fs, pp).value;
        MkdirPKeeps(fs, pp);
        MkdirPAdds(fs, pp);
        assert p in fs1 <==> p in fs;
      }
    }
  }

  /** A chain is blocked when its parent's chain is, or the path is a file. */
  lemma ChainBlockedStep(fs: Fs, p: Path)
    requires p != []
    ensures ChainBlocked(fs, p) <==> ChainBlocked(fs, Parent(p)) || IsFile(fs, p)
  {
    var pp := Parent(p);
    assert p[..|p|] == p;
    if ChainBlocked(fs, p) {
      var k :| 0 < k <= |p| && IsFile(fs, p[..k]);
      if k < |p| {
        assert pp[..k] == p[..k];
      }
    }
    if ChainBlocked(fs, pp) {
      var k :| 0 < k <= |pp| && IsFile(fs, pp[..k]);
      assert pp[..k] == p[..k];
    }
  }

  /** `mkdir -p` changes no entry that existed. */
  lemma {:induction false} MkdirPKeeps(fs: Fs, p: Path)
    requires MkdirP(fs, p).Success?
    ensures forall q :: q in fs ==> q in MkdirP(fs, p).value && MkdirP(fs, p).value[q] == fs[q]
    decreases |p|
  {
    if p != [] {
      MkdirPKeeps(fs, Parent(p));
    }
  }

  /** Every entry `mkdir -p` adds is a directory on the way to `p`. */
  lemma {:induction false} MkdirPAdds(fs: Fs, p: Path)
    requires MkdirP(fs, p).Success?
    ensures var fs' := MkdirP(fs, p).value;
      forall q :: q in fs' && q !in fs ==> fs'[q] == Dir && |q| <= |p| && q == p[..|q|]
    decreases |p|
  {
    if p != [] {
      var pp := Parent(p);
      MkdirPAdds(fs, pp);
      var fs1, fs' := MkdirP(fs, pp).value, MkdirP(fs, p).value;
      forall q | q in fs' && q !in fs
        ensures fs'[q] == Dir && |q| <= |p| && q == p[..|q|]
      {
        if q != p {
          assert q in fs1 && fs'[q] == fs1[q];
          assert pp[..|q|] == p[..|q|];
        }
      }
    }
  }

  /** After `mkdir -p` every prefix of `p` is a directory. */
  lemma {:induction false} MkdirPChain(fs: Fs, p: Path)
    requires MkdirP(fs, p).Success?
    ensures ChainIsDirs(MkdirP(fs, p).value, p)
    decreases |p|
  {
    if p != [] {
      var pp := Parent(p);
      MkdirPChain(fs, pp);
      var fs1, fs' := MkdirP(fs, pp).value, MkdirP(fs, p).value;
      forall k | 0 <= k <= |p|
        ensures IsDir(fs', p[..k])
      {
        if k < |p| {
          assert p[..k] == pp[..k];
          assert IsDir(fs1, pp[..k]);
        } else {
          assert p[..k] == p;
        }
      }
    }
  }

  /** `mkdir -p` keeps the file system well formed. */
  lemma {:induction false} MkdirPWellFormed(fs: Fs, p: Path)
    requires WellFormed(fs) && PlainPath(p)
    requires MkdirP(fs, p).Success?
    ensures WellFormed(MkdirP(fs, p).value)
    decreases |p|
  {
    if p != [] {
      var pp := Parent(p);
      assert PlainPath(pp);
      MkdirPWellFormed(fs, pp);
      var fs1 := MkdirP(fs, pp).value;
      assert IsDir(fs1, pp) by {
        MkdirPSpec(fs, pp);
        assert pp[..|pp|] == pp;
      }
      if p !in fs1 {
        AddEntryWellFormed(fs1, p, Dir);
      }
    }
  }

  /** A new entry below an existing directory keeps the file system well formed. */
  lemma AddEntryWellFormed(fs: Fs, p: Path, e: Entry)
    requires WellFormed(fs) && p != [] && p !in fs && PlainPath(p) && IsDir(fs, Parent(p))
    ensures WellFormed(fs[p := e])
  {
    var fs2 := fs[p := e];
    forall q | q in fs2
      ensures q != [] && PlainPath(q) && IsDir(fs2, Parent(q))
    {
      if q != p {
        assert q in fs && IsDir(fs, Parent(q));
      }
    }
  }

  /** Creating a directory chain twice is the same as creating it once. */
  lemma MkdirPIdempotent(fs: Fs, p: Path)
    requires MkdirP(fs, p).Success?
    ensures MkdirP(MkdirP(fs, p).value, p) == MkdirP(fs, p)
  {
    MkdirPSpec(fs, p);
    MkdirPOnDirs(MkdirP(fs, p).value, p);
  }

  /** When the chain already exists `mkdir -p` changes nothing. */
  lemma {:induction false} MkdirPOnDirs(fs: Fs, p: Path)
    requires ChainIsDirs(fs, p)
    ensures MkdirP(fs, p) == Success(fs)
    decreases |p|
  {
    if p != [] {
      var pp := Parent(p);
      assert forall k :: 0 <= k <= |pp| ==> pp[..k] == p[..k];
      MkdirPOnDirs(fs, pp);
      assert p[..|p|] == p;
    }
  }

  /** In a well-formed file system everything above an existing path is a
      directory. */
  lemma {:induction false} AncestorsAreDirs(fs: Fs, p: Path, k: nat)
    requires WellFormed(fs) && p in fs && k < |p|
    ensures IsDir(fs, p[..k])
    decreases |p| - k
  {
    var pp := Parent(p);
    if k < |pp| {
      AncestorsAreDirs(fs, pp, k);
      assert pp[..k] == p[..k];
    }
  }
}
