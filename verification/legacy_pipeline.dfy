/**
 * The older application, which exports to Apple Notes only: it checks that
 * Notes is running when it is built, takes the note title from the metadata
 * (falling back to the file name), skips files with an empty body, and
 * validates nothing before a run.
 */
module LegacyPipeline {
  import opened Wrappers
  import opened Errors
  import opened Dicts
  import opened FileSystems
  import opened Archive
  import opened Metadata
  import opened AppleScript
  import Pipeline

  /**
   * `metadata.get('title', file_path.stem)` as a note title: the stem when the
   * key is absent, the string when it is one; any other value makes escaping
   * the title raise, which is `None` here.
   */
  function NoteTitle(metadata: Dict, stem: string): (r: Option<string>)
    ensures Get(metadata, "title").None? ==> r == Some(stem)
    ensures Get(metadata, "title").Some? ==> (r.Some? <==> Get(metadata, "title").value.Str?)
    ensures r.Some? && Get(metadata, "title").Some? ==> Get(metadata, "title") == Some(Str(r.value))
  {
    match Get(metadata, "title")
    case None => Some(stem)
    case Some(Str(t)) => Some(t)
    case Some(_) => None
  }

  /**
   * Whether the older `process_file(path)` returns True, given the files
   * before the call: the file can be read and decoded, its body is not empty,
   * its metadata yields a title, and `create_note` reports success.
   */
  function Processed(files: map<Path, FileData>, parse: Parser, creator: AppleNotesCreator, dumps: JsonDumps, path: Path): bool {
    && path in files
    && match Body(files[path], parse)
       case Failure(_) => false
       case Success(content) =>
         && content != []
         && var metadata := ExtractedMetadata(path, files[path], parse);
            match NoteTitle(metadata, Stem(path))
            case None => false
            case Some(title) => CreateNote(creator, title, content, metadata, dumps) == Success(true)
  }

  /** A file whose body is empty is never exported, whatever the runner does. */
  lemma EmptyBodyFails(files: map<Path, FileData>, parse: Parser, creator: AppleNotesCreator, dumps: JsonDumps, path: Path)
    requires path in files && Body(files[path], parse) == Success("")
    ensures !Processed(files, parse, creator, dumps, path)
  {
  }

  /**
   * Without front matter the note is titled by the file's stem: the five file
   * properties carry no `title`. Processing then succeeds exactly when the
   * metadata can be dumped and the note script runs.
   */
  lemma StemTitleWithoutFrontMatter(files: map<Path, FileData>, parse: Parser, creator: AppleNotesCreator, dumps: JsonDumps, path: Path)
    requires path in files && Load(files[path], parse).None? && files[path].text.Some?
    requires files[path].text.value != []
    ensures var metadata := FileProperties(path, files[path].stat);
            && NoteTitle(ExtractedMetadata(path, files[path], parse), Stem(path)) == Some(Stem(path))
            && (Processed(files, parse, creator, dumps, path)
                <==> && dumps(metadata).Returned?
                     && creator.run(CreatorScript(Stem(path), MetadataHeading + dumps(metadata).value + MetadataSeparator + files[path].text.value)))
  {
    ExtractWithoutFrontMatter(path, files[path], parse);
    assert "title" !in FilePropertyKeys;
  }

  /** A front-matter title that is a string names the note; one of another type fails the file. */
  lemma FrontMatterTitle(files: map<Path, FileData>, parse: Parser, creator: AppleNotesCreator, dumps: JsonDumps, path: Path)
    requires path in files
    requires FrontMatter(files[path], parse).Some? && UniqueKeys(FrontMatter(files[path], parse).value)
    requires Get(FrontMatter(files[path], parse).value, "title").Some?
    ensures var v := Get(FrontMatter(files[path], parse).value, "title").value;
            && (!v.Str? ==> !Processed(files, parse, creator, dumps, path))
            && (v.Str? ==> NoteTitle(ExtractedMetadata(path, files[path], parse), Stem(path)) == Some(v.s))
  {
    var fm := FrontMatter(files[path], parse).value;
    ExtractFrontMatterWins(path, files[path], parse, "title");
    assert "title" in Keys(fm);
  }

  /** What the older run reads and changes: the files and the directories. */
  datatype DiskState = DiskState(files: map<Path, FileData>, dirs: set<Path>)

  class MD2Note {
    const sourceDir: Path
    const cleanDir: Path
    const fs: FileSystem
    const creator: AppleNotesCreator
    const parse: Parser
    const mover: FileMover
    const dumps: JsonDumps

    /** The mover works on this filesystem, whose source directory exists. */
    ghost predicate Valid()
      reads fs
    {
      mover.fs == fs && mover.Valid()
    }

    constructor (sourceDir: Path, cleanDir: Path, fs: FileSystem, creator: AppleNotesCreator, parse: Parser, mover: FileMover, dumps: JsonDumps)
      ensures this.sourceDir == sourceDir && this.cleanDir == cleanDir && this.fs == fs && this.creator == creator
      ensures this.parse == parse && this.mover == mover && this.dumps == dumps
    {
      this.sourceDir := sourceDir;
      this.cleanDir := cleanDir;
      this.fs := fs;
      this.creator := creator;
      this.parse := parse;
      this.mover := mover;
      this.dumps := dumps;
    }

    /** The files and directories this application works on. */
    function State(): DiskState
      reads fs
    {
      DiskState(fs.files, fs.dirs)
    }

    /** Whether the older `process_file(path)` returns True from state `s`. */
    function Outcome(s: DiskState, path: Path): bool {
      Processed(s.files, parse, creator, dumps, path)
    }

    /** The state the older `process_file(path)` leaves: the file is archived only when the note was created. */
    function Step(s: DiskState, path: Path): DiskState {
      if Outcome(s, path)
      then DiskState(mover.FilesAfterMove(s.files, s.dirs, path), mover.DirsAfterMove(s.files, s.dirs, path))
      else s
    }

    /**
     * `process_file(path)`: the file is moved exactly when the note was
     * created; the move's own result is ignored. Every error ends in False.
     */
    method ProcessFile(path: Path) returns (ok: bool)
      requires Valid()
      modifies fs
      ensures Valid()
      // Implied by the state clause below; stated so that callers need not unfold the run to see it.
      ensures fs.dirs >= old(fs.dirs)
      ensures ok == Outcome(old(State()), path)
      ensures State() == Step(old(State()), path)
    {
      var processor := NewExtractor(fs, path, parse);
      if processor.Failure? {
        return false;
      }
      var extractor := processor.value;
      var content := extractor.GetContent();
      if content.Failure? {
        return false;
      }
      var metadata := extractor.Extract();
      if content.value == [] {
        return false;
      }
      var title := NoteTitle(metadata, Stem(path));
      if title.None? {
        return false;
      }
      var created := CreateNote(creator, title.value, content.value, metadata, dumps);
      if created.Failure? || !created.value {
        return false;
      }
      var moved := mover.MoveFile(path);
      return true;
    }

    /**
     * The loop of `run()`: every file is processed once, in order, each from
     * the state its predecessors left, and the counters partition them.
     */
    method ProcessAll(files: seq<Path>) returns (successful: nat, failed: nat)
      requires Valid()
      modifies fs
      ensures Valid()
      // Implied by the state clause below; stated so that callers need not unfold the run to see it.
      ensures fs.dirs >= old(fs.dirs)
      ensures successful + failed == |files|
      ensures successful == Pipeline.CountTrue(Pipeline.Outcomes(Step, Outcome, old(State()), files))
      ensures State() == Pipeline.Through(Step, old(State()), files)
    {
      successful, failed := 0, 0;
      ghost var start := State();
      for i := 0 to |files|
        invariant Valid() && fs.dirs >= old(fs.dirs)
        invariant successful + failed == i
        invariant successful == Pipeline.CountTrue(Pipeline.Outcomes(Step, Outcome, start, files[..i]))
        invariant State() == Pipeline.Through(Step, start, files[..i])
      {
        var ok := ProcessFile(files[i]);
        Pipeline.ThroughStep(Step, Outcome, start, files, i);
        Pipeline.CountTrueAppend(Pipeline.Outcomes(Step, Outcome, start, files[..i]), ok);
        if ok {
          successful := successful + 1;
        } else {
          failed := failed + 1;
        }
      }
      assert files[..|files|] == files;
    }

    /** A run never creates a file at a path that was free, unless some processed file is archived to that path. */
    lemma {:induction false} ArchivedStaysArchived(s: DiskState, paths: seq<Path>, p: Path)
      requires p !in s.files
      requires forall k :: 0 <= k < |paths| ==> mover.Destination(paths[k]) != Some(p)
      ensures p !in Pipeline.Through(Step, s, paths).files
      decreases |paths|
    {
      if paths != [] {
        var n := |paths| - 1;
        ArchivedStaysArchived(s, paths[..n], p);
      }
    }

    /**
     * `run()`: a scan that raises re-raises; an empty scan returns early;
     * otherwise every scanned file is processed once, in order, and the
     * counters partition them. Nothing is validated first.
     */
    method Run(scan: Call<seq<Path>>) returns (r: Result<Pipeline.RunOutcome, Error>)
      requires Valid()
      modifies fs
      ensures Valid()
      ensures r.Failure? <==> scan.Raised?
      ensures r.Failure? ==> r.error == CollaboratorError
      ensures r == Success(Pipeline.NoFiles) <==> scan.Returned? && scan.value == []
      ensures r.Failure? || r == Success(Pipeline.NoFiles) ==> State() == old(State())
      ensures r.Success? && r.value.Completed? ==>
                && r.value.successful + r.value.failed == |scan.value|
                && r.value.successful == Pipeline.CountTrue(Pipeline.Outcomes(Step, Outcome, old(State()), scan.value))
                && State() == Pipeline.Through(Step, old(State()), scan.value)
    {
      if scan.Raised? {
        return Failure(CollaboratorError);
      }
      var files := scan.value;
      if |files| == 0 {
        return Success(Pipeline.NoFiles);
      }
      var successful, failed := ProcessAll(files);
      return Success(Pipeline.Completed(successful, failed));
    }
  }

  /**
   * `MD2Note(source_dir, clean_dir)`: the scanner is built first and raises
   * ValueError unless the source is a directory; building the note creator
   * then raises RuntimeError when Notes is not running; the file mover
   * creates the clean directory, which defaults to `source_dir/clean`.
   */
  method NewMD2Note(fs: FileSystem, sourceDir: Path, cleanDir: Option<Path>, run: AppleScriptText.ScriptRunner, parse: Parser, dumps: JsonDumps)
    returns (r: Result<MD2Note, Error>)
    requires fs.Valid()
    modifies fs
    ensures fs.Valid() && fs.files == old(fs.files)
    ensures fs.dirs == if r.Success? then old(fs.dirs) + Prefixes(cleanDir.GetOr(DefaultCleanDir(sourceDir))) else old(fs.dirs)
    ensures sourceDir !in old(fs.dirs) ==> r == Failure(Pipeline.ScannerCheck(old(fs.files), old(fs.dirs), sourceDir).value) && fs.dirs == old(fs.dirs)
    ensures sourceDir in old(fs.dirs) && !run(AppleScriptText.NotesRunningScript)
            ==> r == Failure(RuntimeError(NotRunningMessage)) && fs.dirs == old(fs.dirs)
    ensures r.Success? <==> && sourceDir in old(fs.dirs) && run(AppleScriptText.NotesRunningScript)
                            && old(fs.CanMakeDirs(cleanDir.GetOr(DefaultCleanDir(sourceDir))))
    ensures r.Success? ==> && fresh(r.value) && r.value.Valid() && r.value.fs == fs
                           && r.value.sourceDir == sourceDir
                           && r.value.cleanDir == cleanDir.GetOr(DefaultCleanDir(sourceDir))
                           && r.value.mover.GetCleanDirectory() == r.value.cleanDir
                           && r.value.cleanDir in fs.dirs
                           && r.value.creator.run == run
  {
    var scanner := Pipeline.ScannerCheck(fs.files, fs.dirs, sourceDir);
    if scanner.Some? {
      return Failure(scanner.value);
    }
    var clean := if cleanDir.Some? then cleanDir.value else DefaultCleanDir(sourceDir);
    var creator := NewAppleNotesCreator(run);
    if creator.Failure? {
      return Failure(creator.error);
    }
    var mover := NewFileMover(fs, sourceDir, Some(clean));
    if mover.Failure? {
      return Failure(mover.error);
    }
    var app := new MD2Note(sourceDir, clean, fs, creator.value, parse, mover.value, dumps);
    return Success(app);
  }
}
