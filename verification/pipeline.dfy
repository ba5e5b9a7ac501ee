/**
 * The application: it validates the exporter once, creates the clean
 * directory, scans for Markdown files and processes each in turn: extract,
 * export, and archive the file only when the export succeeded, counting
 * successes and failures.
 */
module Pipeline {
  import opened Wrappers
  import opened Errors
  import opened Dicts
  import opened FileSystems
  import opened Archive
  import opened Metadata
  import opened Exporters

  /** How a run ends when it does not raise: no files found, or the two counters it logs. */
  datatype RunOutcome = NoFiles | Completed(successful: nat, failed: nat)

  const NotConfiguredMessage: string := "Exporter not properly configured"

  /** Number of `true` entries. */
  function CountTrue(bs: seq<bool>): (n: nat)
    ensures n <= |bs|
  {
    if bs == [] then 0 else (if bs[|bs| - 1] then 1 else 0) + CountTrue(bs[..|bs| - 1])
  }

  /**
   * Whether `process_file(path)` returns True, given the files before the
   * call: the file can be read and decoded, and the exporter reports success
   * for the extracted title, content and metadata. The move plays no part.
   */
  function Processed(files: map<Path, FileData>, parse: Parser, e: Exporter, env: ExportEnv, authenticated: bool, path: Path): bool {
    && path in files
    && match Body(files[path], parse)
       case Failure(_) => false
       case Success(content) =>
         var metadata := ExtractedMetadata(path, files[path], parse);
         ExportResult(e, env, authenticated, TitleOf(content, Stem(path)), content, metadata) == Success(true)
  }

  /**
   * What is exported for a file, through the Apple Notes exporter: the title
   * from its body (or its stem), the body, and the file properties overlaid
   * with its front matter; processing succeeds exactly when the note script
   * runs.
   */
  lemma ProcessedThroughNotes(files: map<Path, FileData>, parse: Parser, env: ExportEnv, authenticated: bool, path: Path)
    requires path in files && Body(files[path], parse).Success?
    ensures var content := Body(files[path], parse).value;
            var metadata := ExtractedMetadata(path, files[path], parse);
            var title := TitleOf(content, Stem(path));
            Processed(files, parse, AppleNotesExporter, env, authenticated, path)
            <==> && AppleNotes.NoteBody(env.notes, title, content, metadata).Success?
                 && env.notes.run(AppleNotes.NoteScript(title, AppleNotes.NoteBody(env.notes, title, content, metadata).value))
  {
  }

  /** A file that is missing or cannot be decoded fails, whatever the exporter. */
  lemma UnreadableFails(files: map<Path, FileData>, parse: Parser, e: Exporter, env: ExportEnv, authenticated: bool, path: Path)
    requires path !in files || (Load(files[path], parse).None? && files[path].text.None?)
    ensures !Processed(files, parse, e, env, authenticated, path)
  {
  }

  lemma CountTrueAppend(bs: seq<bool>, b: bool)
    ensures CountTrue(bs + [b]) == CountTrue(bs) + (if b then 1 else 0)
  {
    assert (bs + [b])[..|bs|] == bs;
  }

  /** Whether the file can be read and decoded, so that `process_file` goes on to export it. */
  predicate Readable(files: map<Path, FileData>, parse: Parser, path: Path) {
    path in files && Body(files[path], parse).Success?
  }

  /** The state reached by processing `paths` one after another, in order, from `s`. */
  function Through<S>(step: (S, Path) -> S, s: S, paths: seq<Path>): S
    decreases |paths|
  {
    if paths == [] then s else step(Through(step, s, paths[..|paths| - 1]), paths[|paths| - 1])
  }

  /** The result of processing each of `paths` in order, each from the state its predecessors left. */
  function Outcomes<S>(step: (S, Path) -> S, outcome: (S, Path) -> bool, s: S, paths: seq<Path>): (r: seq<bool>)
    ensures |r| == |paths|
    decreases |paths|
  {
    if paths == [] then []
    else
      var n := |paths| - 1;
      Outcomes(step, outcome, s, paths[..n]) + [outcome(Through(step, s, paths[..n]), paths[n])]
  }

  /** Processing one more path: one more step, and its result appended. */
  lemma ThroughStep<S>(step: (S, Path) -> S, outcome: (S, Path) -> bool, s: S, paths: seq<Path>, i: nat)
    requires i < |paths|
    ensures Through(step, s, paths[..i + 1]) == step(Through(step, s, paths[..i]), paths[i])
    ensures Outcomes(step, outcome, s, paths[..i + 1])
            == Outcomes(step, outcome, s, paths[..i]) + [outcome(Through(step, s, paths[..i]), paths[i])]
  {
    assert paths[..i + 1][..i] == paths[..i];
  }

  /** The `k`-th result is the outcome of the `k`-th path from the state the first `k` paths left. */
  lemma {:induction false} OutcomesAt<S>(step: (S, Path) -> S, outcome: (S, Path) -> bool, s: S, paths: seq<Path>, k: nat)
    requires k < |paths|
    ensures Outcomes(step, outcome, s, paths)[k] == outcome(Through(step, s, paths[..k]), paths[k])
    decreases |paths|
  {
    var n := |paths| - 1;
    if k < n {
      OutcomesAt(step, outcome, s, paths[..n], k);
      assert paths[..n][..k] == paths[..k];
    }
  }

  /** What a run reads and changes: the files, the directories, and whether the exporter holds its services. */
  datatype RunState = RunState(files: map<Path, FileData>, dirs: set<Path>, authenticated: bool)

  /**
   * `DirectoryScanner(directory)`: raises ValueError when the directory does
   * not exist or is a file; nothing is scanned yet.
   */
  function ScannerCheck(files: map<Path, FileData>, dirs: set<Path>, dir: Path): (r: Option<Error>)
    ensures r.None? <==> dir in dirs
    ensures r.Some? ==> r.value.ValueError?
    ensures r.Some? && dir in files ==> r.value.message == "Path is not a directory: " + PathString(dir)
  {
    if dir in dirs then None
    else if dir in files then Some(ValueError("Path is not a directory: " + PathString(dir)))
    else Some(ValueError("Directory does not exist: " + PathString(dir)))
  }

  class MD2Note {
    const sourceDir: Path
    const cleanDir: Path
    const fs: FileSystem
    const exporter: Exporter
    const parse: Parser
    const mover: FileMover
    const env: ExportEnv

    /** The mover works on this filesystem, whose source directory exists. */
    ghost predicate Valid()
      reads fs
    {
      mover.fs == fs && mover.Valid()
    }

    constructor (sourceDir: Path, cleanDir: Path, fs: FileSystem, exporter: Exporter, parse: Parser, mover: FileMover, env: ExportEnv)
      ensures this.sourceDir == sourceDir && this.cleanDir == cleanDir && this.fs == fs && this.exporter == exporter
      ensures this.parse == parse && this.mover == mover && this.env == env
    {
      this.sourceDir := sourceDir;
      this.cleanDir := cleanDir;
      this.fs := fs;
      this.exporter := exporter;
      this.parse := parse;
      this.mover := mover;
      this.env := env;
    }

    /** The state of this application. */
    function State(): RunState
      reads fs, Footprint(exporter)
    {
      RunState(fs.files, fs.dirs, Authenticated(exporter))
    }

    /** Whether `process_file(path)` returns True from state `s`. */
    function Outcome(s: RunState, path: Path): bool {
      Processed(s.files, parse, exporter, env, s.authenticated, path)
    }

    /**
     * The state `process_file(path)` leaves: the file is archived (and the
     * destination's parents made) only when the export returned True;
     * exporting a file that could be read authenticates a Google Docs
     * exporter that lacked its services exactly when authentication succeeds.
     */
    function Step(s: RunState, path: Path): RunState {
      if !Readable(s.files, parse, path) then s
      else if Outcome(s, path)
      then RunState(mover.FilesAfterMove(s.files, s.dirs, path), mover.DirsAfterMove(s.files, s.dirs, path), s.authenticated || env.docs.authenticates)
      else RunState(s.files, s.dirs, s.authenticated || env.docs.authenticates)
    }

    /**
     * The guarded part of `process_file(path)`: export, and archive the file
     * only when the export returned True; the move's own result is ignored.
     */
    method ExportAndArchive(path: Path, title: string, content: string, metadata: Dict) returns (r: Result<bool, Error>)
      requires Valid()
      modifies fs, Footprint(exporter)
      ensures Valid()
      ensures r == ExportResult(exporter, env, old(Authenticated(exporter)), title, content, metadata)
      ensures Authenticated(exporter) == (old(Authenticated(exporter)) || env.docs.authenticates)
      ensures fs.files == if r == Success(true) then mover.FilesAfterMove(old(fs.files), old(fs.dirs), path) else old(fs.files)
      ensures fs.dirs == if r == Success(true) then mover.DirsAfterMove(old(fs.files), old(fs.dirs), path) else old(fs.dirs)
    {
      r := Export(exporter, env, title, content, metadata);
      if r == Success(true) {
        var moved := mover.MoveFile(path);
      }
    }

    /**
     * `process_file(path)`: the file is moved exactly when the export returns
     * True. Every error ends in False.
     */
    method ProcessFile(path: Path) returns (ok: bool)
      requires Valid()
      modifies fs, Footprint(exporter)
      ensures Valid()
      // Implied by the state clause below; stated so that callers need not unfold the run to see it.
      ensures fs.dirs >= old(fs.dirs)
      ensures ok == Outcome(old(State()), path)
      ensures State() == Step(old(State()), path)
    {
      var processor := NewExtractor(fs, path, parse);
      if processor.Failure? {
        return false;
      }
      var extractor := processor.value;
      var content := extractor.GetContent();
      if content.Failure? {
        return false;
      }
      var metadata := extractor.Extract();
      var title := extractor.GetTitle();
      var exported := ExportAndArchive(path, title.value, content.value, metadata);
      return exported == Success(true);
    }

    /**
     * The loop of `run()`: every file is processed once, in order, each from
     * the state its predecessors left, and the counters partition them.
     */
    method ProcessAll(files: seq<Path>) returns (successful: nat, failed: nat)
      requires Valid()
      modifies fs, Footprint(exporter)
      ensures Valid()
      // Implied by the state clause below; stated so that callers need not unfold the run to see it.
      ensures fs.dirs >= old(fs.dirs)
      ensures successful + failed == |files|
      ensures successful == CountTrue(Outcomes(Step, Outcome, old(State()), files))
      ensures State() == Through(Step, old(State()), files)
    {
      successful, failed := 0, 0;
      ghost var start := State();
      for i := 0 to |files|
        invariant Valid() && fs.dirs >= old(fs.dirs)
        invariant successful + failed == i
        invariant successful == CountTrue(Outcomes(Step, Outcome, start, files[..i]))
        invariant State() == Through(Step, start, files[..i])
      {
        var ok := ProcessFile(files[i]);
        ThroughStep(Step, Outcome, start, files, i);
        CountTrueAppend(Outcomes(Step, Outcome, start, files[..i]), ok);
        if ok {
          successful := successful + 1;
        } else {
          failed := failed + 1;
        }
      }
      assert files[..|files|] == files;
    }

    /** A run in which no file succeeds moves no file and makes no directory. */
    lemma {:induction false} NoSuccessNoMove(s: RunState, paths: seq<Path>)
      requires CountTrue(Outcomes(Step, Outcome, s, paths)) == 0
      ensures Through(Step, s, paths).files == s.files && Through(Step, s, paths).dirs == s.dirs
      decreases |paths|
    {
      if paths != [] {
        var n := |paths| - 1;
        CountTrueAppend(Outcomes(Step, Outcome, s, paths[..n]), Outcome(Through(Step, s, paths[..n]), paths[n]));
        NoSuccessNoMove(s, paths[..n]);
      }
    }

    /** The state `run()` has reached when the scan starts: validation may have authenticated, and the clean directory exists. */
    function Prepared(s: RunState): RunState {
      RunState(s.files, s.dirs + Prefixes(cleanDir), s.authenticated || (env.docs.credentialsExist && env.docs.authenticates))
    }

    /**
     * `run()`: raises RuntimeError before touching anything when validation
     * fails; raises when the clean directory cannot be created or the scan
     * raises; returns early on an empty scan; otherwise processes every
     * scanned file once, in order, and the counters partition them.
     */
    method Run(scan: Call<seq<Path>>) returns (r: Result<RunOutcome, Error>)
      requires Valid()
      modifies fs, Footprint(exporter)
      ensures Valid()
      ensures r == Failure(RuntimeError(NotConfiguredMessage)) <==> !ValidationResult(exporter, env)
      ensures r == Failure(OSError) <==> ValidationResult(exporter, env) && !old(fs.CanMakeDirs(cleanDir))
      ensures r.Failure? && r.error != CollaboratorError
              ==> State() == RunState(old(fs.files), old(fs.dirs), Prepared(old(State())).authenticated)
      ensures r == Failure(CollaboratorError) <==> ValidationResult(exporter, env) && old(fs.CanMakeDirs(cleanDir)) && scan.Raised?
      ensures r.Success? ==> scan.Returned? && cleanDir in fs.dirs
      ensures r == Success(NoFiles) <==> r.Success? && scan.value == []
      ensures r == Failure(CollaboratorError) || r == Success(NoFiles) ==> State() == Prepared(old(State()))
      ensures r.Success? && r.value.Completed? ==>
                && r.value.successful + r.value.failed == |scan.value|
                && r.value.successful == CountTrue(Outcomes(Step, Outcome, Prepared(old(State())), scan.value))
                && State() == Through(Step, Prepared(old(State())), scan.value)
    {
      var valid := Validate(exporter, env);
      if !valid {
        return Failure(RuntimeError(NotConfiguredMessage));
      }
      var made := fs.MakeDirs(cleanDir);
      if !made {
        return Failure(OSError);
      }
      assert cleanDir == cleanDir[..|cleanDir|];
      if scan.Raised? {
        return Failure(CollaboratorError);
      }
      var files := scan.value;
      if |files| == 0 {
        return Success(NoFiles);
      }
      var successful, failed := ProcessAll(files);
      return Success(Completed(successful, failed));
    }
  }

  /**
   * `MD2Note(source_dir, clean_dir, export_type, gdocs_folder, exporter=...)`:
   * the scanner is built first and raises ValueError unless the source is a
   * directory; an injected exporter is used as given, otherwise the factory
   * builds one (raising ValueError on an unknown token); the file mover then
   * creates the clean directory, which defaults to `source_dir/clean`.
   */
  method NewMD2Note(fs: FileSystem, sourceDir: Path, cleanDir: Option<Path>, exportType: string,
                    gdocsFolder: Option<string>, injected: Option<Exporter>, parse: Parser, env: ExportEnv)
    returns (r: Result<MD2Note, Error>)
    requires fs.Valid()
    modifies fs
    ensures fs.Valid() && fs.files == old(fs.files)
    ensures fs.dirs == if r.Success? then old(fs.dirs) + Prefixes(cleanDir.GetOr(DefaultCleanDir(sourceDir))) else old(fs.dirs)
    ensures sourceDir !in old(fs.dirs) ==> r == Failure(ScannerCheck(old(fs.files), old(fs.dirs), sourceDir).value) && fs.dirs == old(fs.dirs)
    ensures sourceDir in old(fs.dirs) && injected.None? && Selection(exportType).Failure?
            ==> r == Failure(Selection(exportType).error) && fs.dirs == old(fs.dirs)
    ensures r.Success? <==> && sourceDir in old(fs.dirs)
                            && (injected.Some? || Selection(exportType).Success?)
                            && old(fs.CanMakeDirs(cleanDir.GetOr(DefaultCleanDir(sourceDir))))
    ensures r.Success? ==> && fresh(r.value) && r.value.Valid() && r.value.fs == fs
                           && r.value.sourceDir == sourceDir
                           && r.value.cleanDir == cleanDir.GetOr(DefaultCleanDir(sourceDir))
                           && r.value.mover.GetCleanDirectory() == r.value.cleanDir
                           && r.value.cleanDir in fs.dirs
                           && (injected.Some? ==> r.value.exporter == injected.value)
  {
    var scanner := ScannerCheck(fs.files, fs.dirs, sourceDir);
    if scanner.Some? {
      return Failure(scanner.value);
    }
    var clean := if cleanDir.Some? then cleanDir.value else DefaultCleanDir(sourceDir);
    var exporter: Exporter;
    if injected.Some? {
      exporter := injected.value;
    } else {
      var created := CreateExporter(exportType, gdocsFolder);
      if created.Failure? {
        return Failure(created.error);
      }
      exporter := created.value;
    }
    var mover := NewFileMover(fs, sourceDir, Some(clean));
    if mover.Failure? {
      return Failure(mover.error);
    }
    var app := new MD2Note(sourceDir, clean, fs, exporter, parse, mover.value, env);
    return Success(app);
  }
}
