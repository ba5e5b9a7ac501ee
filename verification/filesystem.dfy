/**
 * The part of the local filesystem the converter touches: regular files with
 * their text and `stat` data, and directories. A path is the sequence of its
 * components from the root.
 */
module FileSystems {
  import opened Wrappers
  import opened Text

  type Path = seq<string>

  /**
   * What `os.stat` reports that the converter uses. The two timestamps are
   * kept as the ISO-8601 text `datetime.fromtimestamp(..).isoformat()` gives.
   */
  datatype Stat = Stat(modified: string, created: string, size: nat)

  /** A regular file: its text (`None` when the bytes are not valid UTF-8) and its `stat`. */
  datatype FileData = FileData(text: Option<string>, stat: Stat)

  /** `Path.name`: the last component. */
  function Name(p: Path): string {
    if p == [] then "" else p[|p| - 1]
  }

  /** Index of the last `c` in `s`, or -1 (`s.rfind(c)`). */
  function LastIndexOf(s: string, c: char): (i: int)
    ensures -1 <= i < |s|
    ensures i >= 0 ==> s[i] == c
    ensures forall j :: i < j < |s| ==> s[j] != c
  {
    if s == [] then -1
    else if s[|s| - 1] == c then |s| - 1
    else LastIndexOf(s[..|s| - 1], c)
  }

  /**
   * `Path.stem`: the name without its last suffix. A dot that starts the name
   * or ends it does not begin a suffix.
   */
  function Stem(p: Path): string {
    var name := Name(p);
    var i := LastIndexOf(name, '.');
    if 0 < i < |name| - 1 then name[..i] else name
  }

  /** `str(path.resolve())`: the absolute path as text. */
  function PathString(p: Path): string {
    "/" + Join(p, '/')
  }

  /** Every prefix of `p`, `p` itself and the root included. */
  function Prefixes(p: Path): set<Path> {
    set k | 0 <= k <= |p| :: p[..k]
  }

  /** Every proper prefix of `p` (every directory above it) is in `dirs`. */
  ghost predicate Placed(p: Path, dirs: set<Path>) {
    forall k :: 0 <= k < |p| ==> p[..k] in dirs
  }

  /** No prefix of `p`, `p` itself included, is one of `files`. */
  predicate Makeable(files: map<Path, FileData>, p: Path) {
    forall k :: 0 <= k <= |p| ==> p[..k] !in files
  }

  class FileSystem {
    var files: map<Path, FileData>
    var dirs: set<Path>

    /** No path is both a file and a directory, and every file sits in existing directories. */
    ghost predicate Valid()
      reads this
    {
      forall p :: p in files ==> p !in dirs && Placed(p, dirs)
    }

    constructor (files: map<Path, FileData>, dirs: set<Path>)
      requires forall p :: p in files ==> p !in dirs && Placed(p, dirs)
      ensures Valid()
      ensures this.files == files && this.dirs == dirs
    {
      this.files := files;
      this.dirs := dirs;
    }

    /** `mkdir(parents=True, exist_ok=True)` succeeds unless `p` or one of its prefixes is a file. */
    predicate CanMakeDirs(p: Path)
      reads this
    {
      Makeable(files, p)
    }

    /** `p.mkdir(parents=True, exist_ok=True)`; `ok` is false where it would raise. */
    method MakeDirs(p: Path) returns (ok: bool)
      requires Valid()
      modifies this
      ensures Valid()
      ensures ok == old(CanMakeDirs(p))
      ensures files == old(files)
      ensures dirs == if ok then old(dirs) + Prefixes(p) else old(dirs)
    {
      ok := forall k | 0 <= k <= |p| :: p[..k] !in files;
      if ok {
        dirs := dirs + Prefixes(p);
      }
    }

    /**
     * `shutil.move(src, dst)` between two file paths: the entry for `src` is
     * removed and `dst` holds what `src` held, replacing any file there.
     */
    method Rename(src: Path, dst: Path)
      requires Valid()
      requires src in files && dst !in dirs
      requires Placed(dst, dirs)
      modifies this
      ensures Valid()
      ensures files == (old(files) - {src})[dst := old(files)[src]]
      ensures dirs == old(dirs)
    {
      var data := files[src];
      files := (files - {src})[dst := data];
    }
  }
}
