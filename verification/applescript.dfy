/**
 * The older Apple Notes component: its constructor checks that Notes is
 * running, and `create_note` puts a JSON dump of the metadata in front of the
 * content and creates the note through AppleScript.
 */
module AppleScript {
  import opened Wrappers
  import opened Errors
  import opened Text
  import opened Dicts
  import opened AppleScriptText

  /** `json.dumps(metadata, indent=2)`, which raises on a value it cannot serialise. */
  type JsonDumps = Dict -> Call<string>

  /** A creator is its script runner: it holds no other state. */
  datatype AppleNotesCreator = AppleNotesCreator(run: ScriptRunner)

  const NotRunningMessage: string := "Apple Notes is not running. Please start Notes.app first."

  /** `AppleNotesCreator()`: `_verify_notes_app` raises RuntimeError when the check script fails. */
  function NewAppleNotesCreator(run: ScriptRunner): (r: Result<AppleNotesCreator, Error>)
    ensures r.Success? <==> run(NotesRunningScript)
    ensures r.Failure? ==> r.error == RuntimeError(NotRunningMessage)
    ensures r.Success? ==> r.value.run == run
  {
    if run(NotesRunningScript) then Success(AppleNotesCreator(run)) else Failure(RuntimeError(NotRunningMessage))
  }

  /** What `create_note` puts before the title literal: a new note in the folder "Notes". */
  const CreatorPrefix: string :=
    "\n        tell application \"Notes\"\n            tell account \"iCloud\"\n                make new note at folder \"Notes\" with properties {name:\""

  const MetadataHeading: string := "Metadata:\n"
  const MetadataSeparator: string := "\n\n---\n\n"

  /**
   * The note text: the content alone without metadata, otherwise the JSON
   * dump under a heading, a rule, and then the content. A failing dump
   * raises out of `create_note`.
   */
  function FullContent(content: string, metadata: Dict, dumps: JsonDumps): (r: Result<string, Error>)
    ensures r.Failure? <==> metadata != [] && dumps(metadata).Raised?
    ensures metadata == [] ==> r == Success(content)
  {
    if metadata == [] then Success(content)
    else
      match dumps(metadata)
      case Returned(json) => Success(MetadataHeading + json + MetadataSeparator + content)
      case Raised => Failure(CollaboratorError)
  }

  /** The script `create_note` runs. */
  function CreatorScript(title: string, full: string): string {
    NoteScriptWith(CreatorPrefix, title, full)
  }

  /** `create_note(title, content, metadata)`: the outcome of the script, or the error the dump raised. */
  function CreateNote(creator: AppleNotesCreator, title: string, content: string, metadata: Dict, dumps: JsonDumps): Result<bool, Error> {
    match FullContent(content, metadata, dumps)
    case Success(full) => Success(creator.run(CreatorScript(title, full)))
    case Failure(e) => Failure(e)
  }

  /**
   * The metadata comes before the content: the escaped body literal is the
   * escaped dump section followed by the escaped content, so the content is
   * escaped exactly as it would be alone; and the note text ends with the
   * content.
   */
  lemma MetadataBeforeContent(content: string, metadata: Dict, dumps: JsonDumps)
    requires metadata != [] && dumps(metadata).Returned?
    ensures var section := MetadataHeading + dumps(metadata).value + MetadataSeparator;
            && FullContent(content, metadata, dumps) == Success(section + content)
            && Escape(FullContent(content, metadata, dumps).value) == Escape(section) + Escape(content)
  {
    var section := MetadataHeading + dumps(metadata).value + MetadataSeparator;
    EscapeAppend(section, content);
  }

  /**
   * `create_note` returns exactly what running its script gives, and raises
   * only when the metadata cannot be dumped; the script spans as many lines
   * whatever the title and note text.
   */
  lemma CreateNoteOutcome(creator: AppleNotesCreator, title: string, content: string, metadata: Dict, dumps: JsonDumps)
    ensures CreateNote(creator, title, content, metadata, dumps).Failure? <==> metadata != [] && dumps(metadata).Raised?
    ensures metadata == [] ==> CreateNote(creator, title, content, metadata, dumps) == Success(creator.run(CreatorScript(title, content)))
    ensures forall full :: Count(CreatorScript(title, full), '\n') == Count(CreatorScript("", ""), '\n')
  {
    forall full
      ensures Count(CreatorScript(title, full), '\n') == Count(CreatorScript("", ""), '\n')
    {
      ScriptLineCount(CreatorPrefix, title, full);
      ScriptLineCount(CreatorPrefix, "", "");
    }
  }
}
