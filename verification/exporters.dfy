/**
 * The destinations behind one interface: every exporter can validate its
 * configuration and export a document. The factory picks the destination
 * from its token.
 */
module Exporters {
  import opened Wrappers
  import opened Errors
  import opened Dicts
  import AppleNotes
  import GoogleDocs

  /** A `DocumentExporter`: one of the two implementations. */
  datatype Exporter =
    | AppleNotesExporter
    | GoogleDocsExporter(docs: GoogleDocs.GoogleDocsExporter)

  /** The outside world both exporters reach. */
  datatype ExportEnv = ExportEnv(notes: AppleNotes.NotesEnv, docs: GoogleDocs.DocsEnv)

  /** The objects an exporter updates in place. */
  function Footprint(e: Exporter): set<object> {
    if e.GoogleDocsExporter? then {e.docs} else {}
  }

  /** Whether a Google Docs exporter already holds its services (always true of the Apple Notes one, which has none to get). */
  function Authenticated(e: Exporter): bool
    reads Footprint(e)
  {
    e.AppleNotesExporter? || e.docs.authenticated
  }

  /** What `export(title, content, metadata)` gives, from the exporter's state before the call. */
  function ExportResult(e: Exporter, env: ExportEnv, authenticated: bool, title: string, content: string, metadata: Dict): Result<bool, Error> {
    match e
    case AppleNotesExporter => AppleNotes.NoteExport(env.notes, title, content, metadata)
    case GoogleDocsExporter(_) => Success(GoogleDocs.ExportOutcome(env.docs, authenticated, title, content, metadata))
  }

  /** What `validate_configuration()` gives. */
  function ValidationResult(e: Exporter, env: ExportEnv): bool {
    match e
    case AppleNotesExporter => AppleNotes.ValidateConfiguration(env.notes)
    case GoogleDocsExporter(docs) => GoogleDocs.ValidationOutcome(env.docs, docs.gdocsFolder)
  }

  /**
   * Only the Apple Notes exporter can raise out of `export`, and only on a
   * size that is not a number; the Google Docs exporter turns every error
   * into False.
   */
  lemma ExportRaises(e: Exporter, env: ExportEnv, authenticated: bool, title: string, content: string, metadata: Dict)
    ensures ExportResult(e, env, authenticated, title, content, metadata).Failure?
            <==> && e.AppleNotesExporter? && metadata != []
                 && Get(metadata, "size").Some? && !Get(metadata, "size").value.Int?
  {
    if e.AppleNotesExporter? {
      AppleNotes.ExportOutcome(env.notes, title, content, metadata);
    }
  }

  /** Once a Google Docs exporter has authenticated, it no longer depends on authentication succeeding again. */
  lemma AuthenticatedExportStable(e: Exporter, env: ExportEnv, title: string, content: string, metadata: Dict)
    requires e.GoogleDocsExporter?
    ensures ExportResult(e, env, true, title, content, metadata)
            == ExportResult(e, env.(docs := env.docs.(authenticates := false)), true, title, content, metadata)
  {
    var other := env.docs.(authenticates := false);
    assert forall md :: GoogleDocs.MarkdownToText(other, md) == GoogleDocs.MarkdownToText(env.docs, md);
    assert GoogleDocs.InsertRequests(other, content, metadata) == GoogleDocs.InsertRequests(env.docs, content, metadata);
  }

  /** `export(title, content, metadata)`, dispatched to the implementation. */
  method Export(e: Exporter, env: ExportEnv, title: string, content: string, metadata: Dict) returns (r: Result<bool, Error>)
    modifies Footprint(e)
    ensures r == ExportResult(e, env, old(Authenticated(e)), title, content, metadata)
    ensures e.GoogleDocsExporter? ==> && e.docs.authenticated == (old(e.docs.authenticated) || env.docs.authenticates)
                                      && e.docs.folderId == old(e.docs.folderId)
  {
    match e
    case AppleNotesExporter =>
      r := AppleNotes.Export(env.notes, title, content, metadata);
    case GoogleDocsExporter(docs) =>
      var ok := docs.Export(env.docs, title, content, metadata);
      r := Success(ok);
  }

  /** `validate_configuration()`, dispatched to the implementation. */
  method Validate(e: Exporter, env: ExportEnv) returns (ok: bool)
    modifies Footprint(e)
    ensures ok == ValidationResult(e, env)
    ensures e.GoogleDocsExporter? ==> e.docs.authenticated == (old(e.docs.authenticated) || (env.docs.credentialsExist && env.docs.authenticates))
    ensures e.GoogleDocsExporter? ==> e.docs.folderId == if env.docs.credentialsExist && env.docs.authenticates && GoogleDocs.Truthy(e.docs.gdocsFolder)
                                                         then GoogleDocs.FindOrCreateFolder(env.docs, e.docs.gdocsFolder.value)
                                                         else old(e.docs.folderId)
  {
    match e
    case AppleNotesExporter =>
      ok := AppleNotes.ValidateConfiguration(env.notes);
    case GoogleDocsExporter(docs) =>
      ok := docs.ValidateConfiguration(env.docs);
  }

  /** The destinations a token can name. */
  datatype Destination = Notes | Docs

  /** The token `create_exporter` accepts, or the ValueError it raises. */
  function Selection(exportType: string): (r: Result<Destination, Error>)
    ensures r == Success(Notes) <==> exportType == "apple_notes"
    ensures r == Success(Docs) <==> exportType == "google_docs"
    ensures r.Failure? <==> exportType != "apple_notes" && exportType != "google_docs"
    ensures r.Failure? ==> r.error == ValueError("Unsupported export type: " + exportType)
  {
    if exportType == "apple_notes" then Success(Notes)
    else if exportType == "google_docs" then Success(Docs)
    else Failure(ValueError("Unsupported export type: " + exportType))
  }

  /** The empty token is not a destination. */
  lemma EmptyTokenRejected()
    ensures Selection("") == Failure(ValueError("Unsupported export type: "))
  {
    assert "Unsupported export type: " + "" == "Unsupported export type: ";
  }

  /**
   * `ExporterFactory.create_exporter(export_type, gdocs_folder=...)`: the Apple
   * Notes exporter ignores the folder; a new Google Docs exporter gets it
   * (or None) and starts unauthenticated.
   */
  method CreateExporter(exportType: string, gdocsFolder: Option<string>) returns (r: Result<Exporter, Error>)
    ensures r.Failure? <==> Selection(exportType).Failure?
    ensures r.Failure? ==> r.error == Selection(exportType).error
    ensures Selection(exportType) == Success(Notes) ==> r == Success(AppleNotesExporter)
    ensures Selection(exportType) == Success(Docs) ==>
              && r.Success? && r.value.GoogleDocsExporter? && fresh(r.value.docs)
              && r.value.docs.gdocsFolder == gdocsFolder
              && !r.value.docs.authenticated && r.value.docs.folderId == None
  {
    if exportType == "apple_notes" {
      return Success(AppleNotesExporter);
    } else if exportType == "google_docs" {
      var docs := new GoogleDocs.GoogleDocsExporter(gdocsFolder);
      return Success(GoogleDocsExporter(docs));
    } else {
      return Failure(ValueError("Unsupported export type: " + exportType));
    }
  }
}
