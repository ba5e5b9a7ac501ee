# md2note in Dafny

md2note converts a directory of Markdown files into notes or documents and
archives each source file once it has been exported. For every file it:

- extracts the metadata, which is YAML front matter laid over five filesystem properties;
- extracts the body and a title, taken from the first level-1 heading or else the file stem;
- hands title, body and metadata to an exporter;
- when the export succeeds, moves the file to the same relative place under a "clean" directory.

There are two exporters:

- **Apple Notes.** It drops a heading that repeats the title and renders the body and a "File Info" block to HTML. Then it creates the note with an AppleScript in which title and body are escaped string literals.
- **Google Docs.** It authenticates and finds or creates a Drive folder. Then it creates a document, inserts the File Info block and the body converted to plain text, and moves the document into the folder.

An older application (`src/main.py` with `src/applescript.py`) exports to Apple Notes only. It puts a JSON dump of the metadata in front of the content and takes the title from the metadata.

The model is in Dafny 4.11, one module per concern:

| file | module | what it holds |
|---|---|---|
| common.dfy | `Wrappers`, `Errors` | `Option`, `Result`, `Call` (a collaborator that returns or raises), the exceptions |
| text.dfy | `Text` | `strip`, `split`, `join`, `replace`, `title`, `str(int)` on ASCII text |
| dicts.dfy | `Dicts` | insertion-ordered dictionaries, `get`, `d[k] = v`, `update` |
| filesystem.dfy | `FileSystems` | a filesystem object: files with text and `stat`, directories, `mkdir -p`, `move` |
| archive.dfy | `Archive` | `FileMover` |
| metadata.dfy | `Metadata` | `MarkdownMetadataExtractor` and the title scan |
| format.dfy | `MetadataFormat` | the two "File Info" layouts, including the size rule |
| applescript_text.dfy | `AppleScriptText` | AppleScript escaping and the shape of the note scripts |
| apple_notes.dfy | `AppleNotes` | `AppleNotesExporter`, including the title-header removal |
| google_docs.dfy | `DocsRequests`, `GoogleDocs` | Docs `insertText` requests; `GoogleDocsExporter` |
| applescript.dfy | `AppleScript` | the older `AppleNotesCreator` |
| exporters.dfy | `Exporters` | the exporter interface as a two-case datatype; `ExporterFactory` |
| pipeline.dfy | `Pipeline` | the application `MD2Note` of `src/app.py` |
| legacy_pipeline.dfy | `LegacyPipeline` | the older `MD2Note` of `src/main.py` |

**How state is modelled:**
- Objects whose fields change are classes. This covers the filesystem, the file mover, the metadata extractor with its cached parse, the Google Docs exporter with its services and folder id, and the application.
- Loops that build lists are methods proved against specification functions. This covers the title-header removal, the File Info lines, the Docs request list and the application's counting loop.

**How the outside world enters:**
- Each collaborator is a function value: `osascript`, the Google APIs, python-markdown, `html.unescape`, `json.dumps`, the date reformatting and the YAML front-matter parser.
- A collaborator that can raise returns a `Call` or an `Option`.
- The directory scan is the `Call<seq<Path>>` that `run` receives.

**Errors:**
- Exceptions that escape an operation are the `Failure` case of a `Result`.
- `try`/`except` blocks that turn every error into `False` appear as `bool` results.

## Model

| member | source | states |
|---|---|---|
| Metadata.NewExtractor | src/metadata.py:12-16 | the extractor is created exactly when the path is a regular file, otherwise ValueError; nothing is parsed yet |
| Metadata.FileProperties | src/metadata.py:44-52 | the file-property map has exactly the keys filename, filepath, modified_time, created_time, size, in that order, each once |
| Metadata.FrontMatter | src/metadata.py:34-42 | front matter is reported only when it parses and is non-empty |
| Metadata.ExtractFrontMatterWins | src/metadata.py:24-32 | after the overlay a front-matter key has its front-matter value and any other key its property value; the five property keys come first, then the new front-matter keys in order |
| Metadata.ExtractWithoutFrontMatter | src/metadata.py:28-52 | with front matter absent, empty or unparsable, `extract` gives exactly the five file properties |
| Metadata.MetadataExtractor.ExtractFrontMatter | src/metadata.py:34-42 | returns the front matter and caches the parse exactly when it succeeds; the cache stays consistent with the file |
| Metadata.MetadataExtractor.Extract | src/metadata.py:18-32 | returns the overlaid metadata and keeps the cache consistent |
| Metadata.MetadataExtractor.GetContent | src/metadata.py:54-66 | returns the body after the front matter, the raw text when parsing fails, DecodeError when the text cannot be decoded; the same result whether or not the parse was cached, and the cache is only ever filled |
| Metadata.MetadataExtractor.GetTitle | src/metadata.py:68-88 | returns the title scan of the body or the stem, or the error reading the body raised; the body cache is filled as `get_content` fills it |
| Metadata.FirstUnskippable | src/metadata.py:79-85 | the first line the scan does not pass over: every earlier stripped line is blank or a `#` line that is not `# ` |
| Metadata.TitleScanCharacterised | src/metadata.py:78-88 | the first line that is neither blank nor a non-H1 `#` line decides: a `# ` line gives its stripped text, anything else stops with no title |
| Metadata.TitleOfEmpty | src/metadata.py:75-88 | an empty body is titled by the stem |
| Dicts.UpdateGet | src/metadata.py:29-30 | after `d.update(e)` a key of `e` maps to its value in `e`, any other key to its value in `d` |
| Dicts.UpdateKeys | src/metadata.py:29-30 | `d.update(e)` keeps the keys of `d` in order and appends the new keys of `e` in order |
| Archive.RelativeTo | src/file_mover.py:54 | `relative_to` succeeds exactly on paths under the base, and base plus the result is the path |
| Archive.FileMover.Destination | src/file_mover.py:53-55 | the destination exists exactly for paths under the source directory and is the clean directory followed by the relative part |
| Archive.FileMover.MoveFile | src/file_mover.py:37-67 | succeeds exactly when the file exists, lies under the source directory, its destination's parents can be created and the destination is not a directory; then the source entry is gone, the destination holds its data and no other file changes; on failure no file changes; the destination's parents are created exactly when they can be, even if the move itself then fails, and no other directory is |
| Archive.NewFileMover | src/file_mover.py:16-35 | ValueError when the source is not a directory; otherwise the clean directory, by default `source/clean`, is created and returned by `get_clean_directory`; exactly its missing prefixes are added to the directories, and none on failure |
| FileSystems.FileSystem.MakeDirs | src/file_mover.py:35 | `mkdir(parents=True, exist_ok=True)` adds the path and all its prefixes as directories, and fails without change when one of them is a file |
| FileSystems.FileSystem.Rename | src/file_mover.py:61 | `shutil.move` removes the source entry and puts its data at the destination; the directories stay |
| AppleNotes.FirstNonBlank | src/apple_notes_exporter.py:145-148 | the lines before the result are blank and the line at it is not |
| AppleNotes.DropBlankPrefix | src/apple_notes_exporter.py:155-156 | a suffix of the lines that does not start with a blank line, all dropped lines blank |
| AppleNotes.SkipBlankLines | src/apple_notes_exporter.py:145-148 | the loop stops at the first non-blank line |
| AppleNotes.PopBlankLines | src/apple_notes_exporter.py:155-156 | popping blank lines leaves the lines from the first non-blank one |
| AppleNotes.RemoveTitleHeader | src/apple_notes_exporter.py:125-161 | content or title empty gives the content; when the first non-blank line is `# title` the remaining lines, without leading blank ones, joined by newlines; otherwise the content unchanged |
| AppleNotes.TitleAtLeadingHeading | src/metadata.py:78-82 | when the first non-blank line is a `# ` heading, the title is its stripped text |
| AppleNotes.LeadingHeadingRemoved | src/apple_notes_exporter.py:145-157 | a leading `# X` heading is removed when the title is X stripped |
| AppleNotes.TitleThenHeaderRemoved | src/apple_notes_exporter.py:145-157 | title and header removal agree on a leading `# X`: `get_title` gives X stripped, and removing the header for that title drops exactly that line and the blank lines after it |
| AppleNotes.HeaderRemovedLines | src/apple_notes_exporter.py:153-157 | after a removal, splitting the result at newlines gives back the remaining lines |
| AppleNotes.SubheadingFirstKeepsContent | src/apple_notes_exporter.py:158-161 | when the first non-blank line is a heading of another level, the content is kept whatever the title |
| AppleNotes.SubheadingThenHeadingExample | src/apple_notes_exporter.py:158-159 | on `## Sub` then `# T` the title is "T" but the body keeps its `# T` line |
| AppleNotes.ToHtml | src/apple_notes_exporter.py:113-123 | empty Markdown gives empty HTML without calling the library |
| AppleNotes.ValidateConfiguration | src/apple_notes_exporter.py:22-39 | valid exactly when the Notes check script succeeds |
| AppleNotes.ExportOutcome | src/apple_notes_exporter.py:41-101 | `export` raises, with TypeError, exactly when non-empty metadata holds a size that is not a number (metadata keys being strings) |
| AppleNotes.Export | src/apple_notes_exporter.py:53-101 | the parts of the body are built in order (content HTML, then `<hr><br>` and the metadata HTML for non-empty metadata), escaped into the script, and the script's result is returned |
| AppleScriptText.EscapeIsPerCharacter | src/apple_notes_exporter.py:246-250 | the two replacements act as one rewrite per character: a quote becomes backslash-quote, a newline becomes backslash-n, anything else is kept |
| AppleScriptText.EscapeAppend | src/apple_notes_exporter.py:246-250 | escaping a concatenation escapes the pieces |
| AppleScriptText.EscapeLength | src/apple_notes_exporter.py:246-250 | the escaped length is the length plus the number of quotes plus the number of newlines |
| AppleScriptText.EscapeNoNewline | src/apple_notes_exporter.py:246-250 | no newline survives escaping |
| AppleScriptText.EscapeQuotesPreceded | src/apple_notes_exporter.py:246-250 | every quote in the escaped text follows a backslash |
| AppleScriptText.UnescapeEscape | src/apple_notes_exporter.py:246-250 | for text without backslashes, reading the literal back as AppleScript does gives the text |
| AppleScriptText.EscapeInjectiveWithoutBackslash | src/apple_notes_exporter.py:246-250 | escaping is one-to-one on text without backslashes |
| AppleScriptText.EscapeCollision | src/applescript.py:108-112 | because backslashes are kept, a backslash followed by `n` and a newline escape to the same literal |
| AppleScriptText.ScriptLineCount | src/apple_notes_exporter.py:80-89 | the interpolated script has exactly as many lines as its fixed parts, whatever the title and body |
| MetadataFormat.RoundHalfEven | src/apple_notes_exporter.py:195-199 | the result is the nearest integer to `n / d`, and a tie goes to the even neighbour |
| MetadataFormat.SizeText | src/apple_notes_exporter.py:194-200 | a number gives text ending in " bytes" exactly below 1024 and in " KB" from 1024 up; any other value raises TypeError |
| MetadataFormat.SizeKilobytes | src/apple_notes_exporter.py:195-199 | from 1024 up the printed tenths are those nearest to `size * 10 / 1024`, a tie going to the even count |
| MetadataFormat.SizeBytesExample | src/apple_notes_exporter.py:196-197 | 500 prints as "500 bytes" |
| MetadataFormat.SizeKilobytesExamples | src/apple_notes_exporter.py:198-199 | 1024, 1280 and 1536 print as "1.0 KB", "1.2 KB" and "1.5 KB" |
| MetadataFormat.Formatted | src/apple_notes_exporter.py:163-208 | empty metadata gives the empty text; formatting fails, with TypeError, exactly on a size that is not a number (metadata keys being strings) |
| MetadataFormat.AppendFixedLines | src/apple_notes_exporter.py:176-200 | the source's appends build the layout `FixedLines` defines: the header, then the filename, path, modified and size lines present, in that order |
| MetadataFormat.AppendExtraLines | src/apple_notes_exporter.py:202-206 | the loop appends one line per key without a fixed line, in dictionary order |
| MetadataFormat.FormatMetadata | src/google_docs_exporter.py:243-272 | `_format_metadata` of either exporter is the fixed lines followed by the extra lines, joined by newlines |
| MetadataFormat.Unhandled | src/apple_notes_exporter.py:203-205 | exactly the entries whose keys have no fixed line |
| MetadataFormat.ExtraLinesFollowEntries | src/apple_notes_exporter.py:202-206 | the extra lines are one line per entry without a fixed line, in dictionary order |
| MetadataFormat.ExtraLineExample | src/google_docs_exporter.py:268-270 | `due_date` is printed under the label "Due Date" |
| MetadataFormat.ExtraLinesIgnoreHandled | src/apple_notes_exporter.py:203-206 | setting a key with a fixed line does not change the extra lines |
| MetadataFormat.CreatedTimeNotPrinted | src/apple_notes_exporter.py:179-206 | the creation time is never printed: setting it leaves the formatted text unchanged |
| MetadataFormat.ModifiedVerbatimOnFailure | src/apple_notes_exporter.py:185-192 | in Apple Notes a modification time that does not parse is printed as given |
| MetadataFormat.DocsModifiedVerbatim | src/google_docs_exporter.py:255-256 | in Google Docs the modification time is printed as given |
| DocsRequests.Insert | src/google_docs_exporter.py:175-191 | an insert lengthens the document by exactly the length of its text |
| DocsRequests.InsertAtStart | src/google_docs_exporter.py:177 | inserting at index 1 puts the text in front of the body |
| GoogleDocs.StripTags | src/google_docs_exporter.py:225 | removing tags never lengthens the text |
| GoogleDocs.StripTagsAddsNothing | src/google_docs_exporter.py:225 | no character appears that was not in the input |
| GoogleDocs.StripTagsTagFree | src/google_docs_exporter.py:225 | no match of `<[^>]+>` is left in the result |
| GoogleDocs.StripTagsUnchanged | src/google_docs_exporter.py:225 | text with no match is left exactly as it is |
| GoogleDocs.StripTagsIdempotent | src/google_docs_exporter.py:225 | stripping twice is stripping once |
| GoogleDocs.StripTagsWithoutOpen | src/google_docs_exporter.py:225 | text without `<` is unchanged |
| GoogleDocs.StripTagHead | src/google_docs_exporter.py:225 | a tag at the head of the text is removed |
| GoogleDocs.StripPlainHead | src/google_docs_exporter.py:225 | text without `<` at the head is kept as it is |
| GoogleDocs.StripTagPair | src/google_docs_exporter.py:225 | a pair of tags around text without `<` leaves exactly that text |
| GoogleDocs.StripTagsExample | src/google_docs_exporter.py:225 | `<p>Hi</p>` becomes `Hi` |
| GoogleDocs.MarkdownToText | src/google_docs_exporter.py:216-231 | empty Markdown gives empty text; otherwise the HTML with tags removed and entities decoded |
| GoogleDocs.InsertRequests | src/google_docs_exporter.py:170-191 | one request without metadata and two with it, the last inserting the converted content at index 1; fails exactly on a size that is not a number (metadata keys being strings) |
| GoogleDocs.InsertContent | src/google_docs_exporter.py:157-204 | returns True exactly when the requests are built and the batch update does not raise |
| GoogleDocs.InsertedDocument | src/google_docs_exporter.py:170-198 | both inserts go to index 1 and the content is sent second, so the document starts with the content, followed by the metadata block and its blank line |
| GoogleDocs.FindOrCreateFolder | src/google_docs_exporter.py:284-303 | the first listed folder's id; a folder is created only when none is listed; None when a request raises |
| GoogleDocs.RemovedParentsExact | src/google_docs_exporter.py:318-327 | the parents removed are exactly the previous ones when no parent id holds a comma |
| GoogleDocs.MoveRemovesReadParents | src/google_docs_exporter.py:316-333 | the update is asked to remove exactly the parents that were read: a service accepting only a `removeParents` whose comma-split is the file's parents lets the move succeed |
| GoogleDocs.ExportIgnoresMove | src/google_docs_exporter.py:105-111 | the export outcome does not depend on either move request |
| GoogleDocs.ValidationFailures | src/google_docs_exporter.py:49-71 | a missing credentials file, a failed authentication, or a configured folder whose lookup raises makes validation fail; without a folder only the first two count |
| GoogleDocs.GoogleDocsExporter.constructor | src/google_docs_exporter.py:29-40 | the folder name is kept; no services and no folder id yet |
| GoogleDocs.GoogleDocsExporter.Authenticate | src/google_docs_exporter.py:120-155 | succeeds exactly when authentication does, and then the services are set |
| GoogleDocs.GoogleDocsExporter.ValidateConfiguration | src/google_docs_exporter.py:42-71 | the outcome of the three checks; the folder id is looked up and set only after credentials and authentication pass, and a successful validation with a folder leaves a folder id |
| GoogleDocs.GoogleDocsExporter.Export | src/google_docs_exporter.py:73-118 | authenticates only when the services are missing; True exactly when authentication, document creation and content insertion succeed |
| AppleScript.NewAppleNotesCreator | src/applescript.py:15-28 | the creator is built exactly when the Notes check script succeeds, otherwise RuntimeError with the "not running" message |
| AppleScript.FullContent | src/applescript.py:42-46 | empty metadata gives the content alone; the note text fails exactly when non-empty metadata cannot be dumped |
| AppleScript.MetadataBeforeContent | src/applescript.py:43-50 | the dump section comes first and the content last, and the content is escaped as it would be alone |
| AppleScript.CreateNoteOutcome | src/applescript.py:30-70 | `create_note` raises only when the dump does; without metadata it returns the outcome of the script on the bare content; the script has as many lines whatever the title and text |
| Exporters.ExportRaises | src/exporters.py:12-25 | of the two exporters only Apple Notes can raise out of `export`, and only on a size that is not a number (metadata keys being strings) |
| Exporters.AuthenticatedExportStable | src/google_docs_exporter.py:86-89 | once authenticated, a Google Docs export no longer depends on authentication |
| Exporters.Export | src/exporters.py:12-25 | dispatches `export` to the implementation and returns its result; the Google Docs exporter keeps its folder id |
| Exporters.Validate | src/exporters.py:27-35 | dispatches `validate_configuration` to the implementation; for Google Docs the new authentication and the folder id, looked up or created only once authenticated with a folder name given, are exact |
| Exporters.Selection | src/exporters.py:56-64 | "apple_notes" and "google_docs" select their exporters; any other token, including the empty one, raises ValueError "Unsupported export type: " followed by the token |
| Exporters.EmptyTokenRejected | src/exporters.py:63-64 | the empty token is rejected |
| Exporters.CreateExporter | src/exporters.py:42-64 | the Apple Notes exporter ignores the folder; a new Google Docs exporter gets the folder or None and starts without services |
| Pipeline.CountTrueAppend | src/app.py:130-133 | each file adds one to the success count exactly when it succeeded |
| Pipeline.ProcessedThroughNotes | src/app.py:87-94 | through Apple Notes a readable file succeeds exactly when its body can be built and the note script runs |
| Pipeline.UnreadableFails | src/app.py:98-100 | a missing or undecodable file fails whatever the exporter |
| Pipeline.ScannerCheck | src/md2note.py:20-24 | the scanner is built exactly when the source is a directory, otherwise ValueError |
| Pipeline.MD2Note.ExportAndArchive | src/app.py:91-97 | the export's result from the exporter's state before the call; the file is archived (files and directories as `MoveFile` states) exactly when it returned True, and nothing else changes; afterwards the exporter holds its services when it did before or authentication succeeds |
| Pipeline.MD2Note.ProcessFile | src/app.py:84-100 | True exactly when the file is read and the export returns True; the new files, directories and authentication are `Step` of the old ones: an unreadable file changes nothing, a readable one may authenticate the exporter, and only a True export archives it |
| Pipeline.OutcomesAt | src/app.py:126-133 | the k-th result of a run is the outcome of the k-th file from the state the first k files left |
| Pipeline.MD2Note.ProcessAll | src/app.py:126-133 | the files, directories and authentication end as the scanned files processed one by one, in order, each from the state its predecessors left; the counters partition the files and the success count is the number of True results along that run |
| Pipeline.MD2Note.NoSuccessNoMove | src/app.py:91-97 | a run in which no file is exported moves no file and creates no directory |
| Pipeline.MD2Note.Run | src/app.py:102-140 | RuntimeError "Exporter not properly configured" exactly when validation fails, with no file or directory touched; OSError exactly when the clean directory cannot be made, with no file or directory changed; on both the exporter keeps the authentication validation gave it; a scan that raises and an empty scan leave the state validation and the clean directory left; otherwise the final state and the success count are those of processing every scanned file in order from that state, and the counters partition the files |
| Pipeline.NewMD2Note | src/app.py:41-48 | the scanner check comes first, then the exporter (injected or from the factory), then the mover; the clean directory defaults to `source/clean`; exactly its missing prefixes are created on success, and no directory on any failure |
| LegacyPipeline.NoteTitle | src/main.py:75 | the title is the stem when the metadata has no title, the title when it is a string, and otherwise escaping it raises |
| LegacyPipeline.EmptyBodyFails | src/main.py:68-72 | an empty body is never exported |
| LegacyPipeline.StemTitleWithoutFrontMatter | src/main.py:67-78 | without front matter the note is titled by the stem and processing succeeds exactly when the dump returns and the script runs |
| LegacyPipeline.FrontMatterTitle | src/main.py:75 | a string title in the front matter names the note; a title of another type fails the file |
| LegacyPipeline.MD2Note.ProcessFile | src/main.py:53-88 | True exactly when the body is read and non-empty, a title is found and the note is created; the new files and directories are `Step` of the old ones: archived (as `MoveFile` states) only then, unchanged otherwise |
| LegacyPipeline.MD2Note.ProcessAll | src/main.py:104-111 | the files and directories end as the scanned files processed one by one, in order, each from the state its predecessors left; the counters partition the files and the success count is the number of True results along that run |
| LegacyPipeline.MD2Note.ArchivedStaysArchived | src/main.py:76-81 | a run never creates a file at a path that was free unless some processed file is archived to that path |
| LegacyPipeline.MD2Note.Run | src/main.py:90-118 | no validation; a scan that raises re-raises and an empty scan returns early, both with nothing changed; otherwise the final files, directories and success count are those of processing every scanned file in order, and the counters partition the files |
| LegacyPipeline.NewMD2Note | src/main.py:21-36 | the scanner check, then the Notes check (RuntimeError), then the mover; the clean directory defaults to `source/clean`; exactly its missing prefixes are created on success, and no directory on any failure |

## Left out

- Markdown rendering (python-markdown with its extensions), `html.unescape`, `json.dumps`, YAML front-matter parsing and date reformatting are opaque function parameters. Only how their results are combined is modelled, plus the fallbacks where they raise.
- Running `osascript` and every Google API call are oracles. An oracle returns a `bool`, an optional id, or raises. Their effect on Apple Notes or Google Drive is not modelled.
- OAuth and the `token.pickle` cache are one boolean: whether authentication succeeds. Credentials and services are not modelled. Authentication that succeeds after partly setting the services is modelled as setting both.
- Logging, the log file, the `print` in `src/app.py`, and command-line parsing are not modelled. `DirectoryScanner.scan_for_markdown` and its glob are the scan result that `run` receives. Only the scanner's constructor check is modelled.
- Pipeline.NewMD2Note: an injected exporter is modelled, but an injected scanner, file processor or file mover is not; the model always builds its own.
- Pipeline.NewMD2Note: an empty `clean_dir` string is treated like `None` in the source, and the model takes an `Option`, so it does not cover that case separately.
- LegacyPipeline.NewMD2Note: the older application also treats an empty `clean_dir` string like `None` (`src/main.py:30`); the model takes an `Option` here too and does not cover that case separately.
- Text handling is ASCII only: `strip`, `isspace` and `title` do not treat non-ASCII white space or letters.
- File text is either decoded text or undecodable. Encodings and the `resolve()` of symbolic links are not modelled.
- The timestamps that `stat` yields are given directly as ISO text.
- Metadata values are strings, integers, or other values carried as their `str()` text.
  - MetadataFormat.SizeText: a float or boolean size, which Python would divide, raises TypeError in the model.
  - Floats and booleans are not modelled.
  - Sizes of 2^53 bytes or more, where floating-point division stops being exact, are not modelled.
- `shutil.move` onto an existing directory and cross-device moves are not modelled. Moving onto an existing directory counts as a failed move.
- Archive.FileMover.MoveFile: a source path that is a directory is moved by `shutil.move` in the source (its `exists()` holds for directories), but fails in the model, whose files and directories are separate. Neither application reaches that case: the extractor rejects a path that is not a file before the move.
- AppleNotes.ExportOutcome, Exporters.ExportRaises, MetadataFormat.Formatted, GoogleDocs.InsertRequests: metadata keys are strings in the model. A YAML key that is not a string (`yes:`, `2024:`) makes `key.replace` raise AttributeError; out of the Apple Notes `export` that escapes, and the Google Docs `export` turns it into False. That case is not modelled.

Escaping does not escape backslashes. `AppleScriptText.EscapeCollision` states this as a property of the code as written; the model keeps that behaviour.
