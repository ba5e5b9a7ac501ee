/**
 * Archival of processed files: a file under the source directory is moved to
 * the same relative place under the clean directory.
 */
module Archive {
  import opened Wrappers
  import opened Errors
  import opened FileSystems

  /** `p.relative_to(base)`: the components of `p` after `base`; `None` where Python raises. */
  function RelativeTo(p: Path, base: Path): (r: Option<Path>)
    ensures r.Some? <==> base <= p
    ensures r.Some? ==> base + r.value == p
  {
    if base <= p then Some(p[|base|..]) else None
  }

  /** The clean directory used when none is given: `source_dir / 'clean'`. */
  function DefaultCleanDir(sourceDir: Path): Path {
    sourceDir + ["clean"]
  }

  class FileMover {
    const fs: FileSystem
    const sourceDir: Path
    const cleanDir: Path

    /** The source directory stays a directory (directories are never removed). */
    ghost predicate Valid()
      reads fs
    {
      fs.Valid() && sourceDir in fs.dirs
    }

    constructor (fs: FileSystem, sourceDir: Path, cleanDir: Path)
      ensures this.fs == fs && this.sourceDir == sourceDir && this.cleanDir == cleanDir
    {
      this.fs := fs;
      this.sourceDir := sourceDir;
      this.cleanDir := cleanDir;
    }

    /** Where `path` is archived: the clean directory followed by its path relative to the source directory. */
    function Destination(path: Path): (r: Option<Path>)
      ensures r.Some? <==> sourceDir <= path
      ensures forall rel :: path == sourceDir + rel ==> r == Some(cleanDir + rel)
    {
      match RelativeTo(path, sourceDir)
      case Some(rel) => Some(cleanDir + rel)
      case None => None
    }

    /** `get_clean_directory()` */
    function GetCleanDirectory(): Path {
      cleanDir
    }

    /**
     * Whether `move_file(path)` gets as far as creating the parents of the
     * destination, and succeeds in that: the file exists, lies under the
     * source directory, and no prefix of the destination's parent is a file.
     */
    predicate ParentsMakeable(files: map<Path, FileData>, path: Path) {
      && path in files
      && Destination(path).Some?
      && |Destination(path).value| > 0
      && Makeable(files, Parent(Destination(path).value))
    }

    /** Whether `move_file(path)` succeeds: the parents are created and the destination is not a directory. */
    predicate Archivable(files: map<Path, FileData>, dirs: set<Path>, path: Path) {
      ParentsMakeable(files, path) && Destination(path).value !in dirs
    }

    /** `Archivable` on the current filesystem. */
    predicate CanArchive(path: Path)
      reads fs
    {
      Archivable(fs.files, fs.dirs, path)
    }

    /** The files after `move_file(path)`: on success the file is gone from its old place and its destination holds what it held. */
    function FilesAfterMove(files: map<Path, FileData>, dirs: set<Path>, path: Path): map<Path, FileData> {
      if Archivable(files, dirs, path) then (files - {path})[Destination(path).value := files[path]] else files
    }

    /** The directories after `move_file(path)`: the destination's parents, once they can be created, even when the move then fails. */
    function DirsAfterMove(files: map<Path, FileData>, dirs: set<Path>, path: Path): set<Path> {
      if ParentsMakeable(files, path) then dirs + Prefixes(Parent(Destination(path).value)) else dirs
    }

    static function Parent(p: Path): Path
      requires |p| > 0
    {
      p[..|p| - 1]
    }

    /**
     * `move_file(path)`. On success the file is gone from its old place and
     * its destination holds what it held; no other file changes. The
     * destination's parents are created whenever the file exists under the
     * source directory and they can be, so a move that then fails leaves them
     * behind. On failure no file changes.
     */
    method MoveFile(path: Path) returns (ok: bool)
      requires Valid()
      modifies fs
      ensures Valid()
      ensures ok == old(CanArchive(path))
      ensures fs.files == FilesAfterMove(old(fs.files), old(fs.dirs), path)
      ensures fs.dirs == DirsAfterMove(old(fs.files), old(fs.dirs), path)
    {
      if path !in fs.files {
        return false;
      }
      var rel := RelativeTo(path, sourceDir);
      if rel.None? {
        return false;
      }
      assert path == sourceDir + rel.value && path !in fs.dirs && sourceDir + [] == sourceDir;
      assert rel.value != [];
      var dest := cleanDir + rel.value;
      var made := fs.MakeDirs(dest[..|dest| - 1]);
      if !made {
        return false;
      }
      if dest in fs.dirs {
        return false;
      }
      forall k | 0 <= k < |dest| ensures dest[..k] in fs.dirs {
        assert dest[..k] == dest[..|dest| - 1][..k];
      }
      fs.Rename(path, dest);
      ok := true;
    }
  }

  /**
   * `FileMover(source_dir, clean_dir)`: raises ValueError when the source is not
   * a directory; the clean directory defaults to `source_dir / 'clean'` and is
   * created.
   */
  method NewFileMover(fs: FileSystem, sourceDir: Path, cleanDir: Option<Path>) returns (r: Result<FileMover, Error>)
    requires fs.Valid()
    modifies fs
    ensures fs.Valid() && fs.files == old(fs.files)
    ensures r.Success? <==> old(sourceDir in fs.dirs && fs.CanMakeDirs(cleanDir.GetOr(DefaultCleanDir(sourceDir))))
    ensures sourceDir !in old(fs.dirs) ==> r.Failure? && r.error.ValueError? && fs.dirs == old(fs.dirs)
    ensures fs.dirs == if r.Success? then old(fs.dirs) + Prefixes(cleanDir.GetOr(DefaultCleanDir(sourceDir))) else old(fs.dirs)
    ensures r.Success? ==> && fresh(r.value) && r.value.fs == fs && r.value.Valid()
                           && r.value.sourceDir == sourceDir
                           && r.value.GetCleanDirectory() == cleanDir.GetOr(DefaultCleanDir(sourceDir))
                           && r.value.GetCleanDirectory() in fs.dirs
  {
    if sourceDir !in fs.dirs {
      return Failure(ValueError("Source directory does not exist: " + PathString(sourceDir)));
    }
    var clean := if cleanDir.Some? then cleanDir.value else DefaultCleanDir(sourceDir);
    var made := fs.MakeDirs(clean);
    if !made {
      return Failure(OSError);
    }
    assert clean == clean[..|clean|];
    var mover := new FileMover(fs, sourceDir, clean);
    return Success(mover);
  }
}
