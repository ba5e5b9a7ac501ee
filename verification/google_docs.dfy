/**
 * The Google Docs exporter: it authenticates once, finds or creates the
 * target Drive folder, creates a document, inserts the metadata block and the
 * content converted to plain text, and moves the document into the folder.
 * The Google APIs, the Markdown library and HTML entity decoding are
 * collaborators given as functions.
 */
/** The `insertText` requests of a Docs batch update and the text they leave in a document. */
module DocsRequests {

  /** One `insertText` request: `text` inserted at document index `index`. */
  datatype Request = InsertText(index: nat, text: string)

  /**
   * The document text an insert leaves: index 1 is the start of the body, so
   * index `i` is offset `i - 1` into the body text (at most its end).
   */
  function Insert(body: string, r: Request): (b: string)
    ensures |b| == |body| + |r.text|
  {
    var k := if r.index == 0 then 0 else if r.index - 1 <= |body| then r.index - 1 else |body|;
    body[..k] + r.text + body[k..]
  }

  /** The requests of a batch update applied in order. */
  function ApplyRequests(body: string, requests: seq<Request>): string
    decreases requests
  {
    if requests == [] then body else ApplyRequests(Insert(body, requests[0]), requests[1..])
  }

  /** Index 1 is the start of the body: the text goes in front of it. */
  lemma InsertAtStart(body: string, text: string)
    ensures Insert(body, InsertText(1, text)) == text + body
  {
    var k := 0;
    assert Insert(body, InsertText(1, text)) == body[..k] + text + body[k..];
  }
}

module GoogleDocs {
  import opened Wrappers
  import opened Errors
  import opened Text
  import opened Dicts
  import opened MetadataFormat
  import opened DocsRequests

  /**
   * What the exporter reaches outside itself. A `Call` is a request that can
   * raise; a `bool` oracle says whether `execute()` returned without raising.
   */
  datatype DocsEnv = DocsEnv(
    credentialsExist: bool,                                    // `Path('credentials.json').exists()`
    authenticates: bool,                                       // whether `_authenticate()` succeeds
    listFolders: string -> Call<seq<Option<string>>>,          // files().list(q): the 'id' of each item, if it has one
    createFolder: string -> Call<Option<string>>,              // files().create(folder): `.get('id')` of the result
    createDocument: string -> Call<Option<string>>,            // documents().create(title): `.get('documentId')`
    batchUpdate: (Option<string>, seq<Request>) -> bool,       // documents().batchUpdate(id, requests)
    getParents: Option<string> -> Call<Option<seq<string>>>,   // files().get(id, 'parents'): `.get('parents')`
    updateParents: (Option<string>, string, string) -> bool,   // files().update(id, addParents, removeParents)
    markdown: string -> string,                                // markdown.markdown
    unescapeHtml: string -> string)                            // html.unescape

  /** Python truthiness of an optional string: present and not empty. */
  predicate Truthy(s: Option<string>) {
    s.Some? && s.value != []
  }

  // ------------------------------------------------------------------ markdown to text

  /** Index of the first `c` in `s`, or -1. */
  function IndexOf(s: string, c: char): (i: int)
    ensures -1 <= i < |s|
    ensures i == -1 <==> c !in s
    ensures 0 <= i ==> s[i] == c && c !in s[..i]
  {
    if s == [] then -1
    else if s[0] == c then 0
    else
      var i := IndexOf(s[1..], c);
      assert s[1..] == s[1..|s|];
      if i == -1 then -1 else
        assert s[..i + 1] == [s[0]] + s[1..][..i];
        i + 1
  }

  /**
   * `re.sub(r'<[^>]+>', '', s)`: scanning left to right, a `<` followed by
   * at least one character other than `>` and then a `>` is removed together
   * with those characters; anything else is kept.
   */
  function StripTags(s: string): (r: string)
    ensures |r| <= |s|
    decreases |s|
  {
    if s == [] then []
    else
      var q := if s[0] == '<' then IndexOf(s[1..], '>') else -1;
      if q >= 1 then StripTags(s[q + 2..]) else [s[0]] + StripTags(s[1..])
  }

  /** The pattern `<[^>]+>` has no match starting at `i`. */
  predicate NoTagAt(s: string, i: nat)
    requires i < |s|
  {
    s[i] != '<' || '>' !in s[i + 1..] || (i + 1 < |s| && s[i + 1] == '>')
  }

  /** The pattern `<[^>]+>` matches nowhere in `s`. */
  predicate TagFree(s: string) {
    forall i :: 0 <= i < |s| ==> NoTagAt(s, i)
  }

  /** Removing tags only removes characters: a character absent from the input is absent from the output. */
  lemma {:induction false} StripTagsAddsNothing(s: string, c: char)
    requires c !in s
    ensures c !in StripTags(s)
    decreases |s|
  {
    if s != [] {
      var q := if s[0] == '<' then IndexOf(s[1..], '>') else -1;
      if q >= 1 {
        StripTagsAddsNothing(s[q + 2..], c);
      } else {
        StripTagsAddsNothing(s[1..], c);
      }
    }
  }

  /** A text that starts with `>` keeps it. */
  lemma StripTagsKeepsLeadingClose(s: string)
    requires s != [] && s[0] == '>'
    ensures StripTags(s) != [] && StripTags(s)[0] == '>'
  {
  }

  /** Every match is removed: the result holds no further match of the pattern. */
  lemma {:induction false} StripTagsTagFree(s: string)
    ensures TagFree(StripTags(s))
    decreases |s|
  {
    if s != [] {
      var q := if s[0] == '<' then IndexOf(s[1..], '>') else -1;
      if q >= 1 {
        StripTagsTagFree(s[q + 2..]);
      } else {
        var rest := StripTags(s[1..]);
        StripTagsTagFree(s[1..]);
        var r := [s[0]] + rest;
        assert StripTags(s) == r;
        assert NoTagAt(r, 0) by {
          if s[0] == '<' {
            if q == -1 {
              StripTagsAddsNothing(s[1..], '>');
              assert r[1..] == rest;
            } else {
              StripTagsKeepsLeadingClose(s[1..]);
            }
          }
        }
        forall i | 1 <= i < |r|
          ensures NoTagAt(r, i)
        {
          assert NoTagAt(rest, i - 1);
          assert r[i + 1..] == rest[i..];
        }
      }
    }
  }

  /** Text in which the pattern matches nowhere is left exactly as it is. */
  lemma {:induction false} StripTagsUnchanged(s: string)
    requires TagFree(s)
    ensures StripTags(s) == s
    decreases |s|
  {
    if s != [] {
      assert NoTagAt(s, 0);
      forall i | 0 <= i < |s[1..]|
        ensures NoTagAt(s[1..], i)
      {
        assert NoTagAt(s, i + 1);
        assert s[1..][i + 1..] == s[i + 2..];
      }
      StripTagsUnchanged(s[1..]);
    }
  }

  /** Stripping tags twice is stripping them once. */
  lemma StripTagsIdempotent(s: string)
    ensures StripTags(StripTags(s)) == StripTags(s)
  {
    StripTagsTagFree(s);
    StripTagsUnchanged(StripTags(s));
  }

  /** Text without `<` is left unchanged. */
  lemma StripTagsWithoutOpen(s: string)
    requires '<' !in s
    ensures StripTags(s) == s
  {
    StripTagsUnchanged(s);
  }

  /** The first `c` in `a + [c] + rest`, when `a` holds none, is right after `a`. */
  lemma IndexOfAfter(a: string, c: char, rest: string)
    requires c !in a
    ensures IndexOf(a + [c] + rest, c) == |a|
  {
    var s := a + [c] + rest;
    var i := IndexOf(s, c);
    assert s[|a|] == c;
  }

  /** A tag at the head of the text is removed. */
  lemma StripTagHead(a: string, rest: string)
    requires a != [] && '>' !in a
    ensures StripTags("<" + a + ">" + rest) == StripTags(rest)
  {
    var s := "<" + a + ">" + rest;
    assert s[1..] == a + ['>'] + rest;
    IndexOfAfter(a, '>', rest);
    assert s[|a| + 2..] == rest;
  }

  /** Text without `<` at the head of the text is kept as it is. */
  lemma {:induction false} StripPlainHead(x: string, rest: string)
    requires '<' !in x
    ensures StripTags(x + rest) == x + StripTags(rest)
    decreases |x|
  {
    if x == [] {
      assert x + rest == rest && x + StripTags(rest) == StripTags(rest);
    } else {
      assert x[0] in x && (x + rest)[0] == x[0];
      assert (x + rest)[1..] == x[1..] + rest;
      StripPlainHead(x[1..], rest);
      assert [x[0]] + (x[1..] + StripTags(rest)) == x + StripTags(rest);
    }
  }

  /** A pair of tags around text without `<` leaves just that text. */
  lemma StripTagPair(a: string, body: string, b: string)
    requires a != [] && '>' !in a && b != [] && '>' !in b && '<' !in body
    ensures StripTags("<" + a + ">" + body + "<" + b + ">") == body
  {
    var close := "<" + b + ">";
    StripTagHead(b, []);
    assert close + [] == close;
    StripPlainHead(body, close);
    StripTagHead(a, body + close);
    var head := "<" + a + ">";
    AppendAssociates(head + body, "<", b);
    AppendAssociates(head + body, "<" + b, ">");
    AppendAssociates(head, body, close);
  }

  /** A paragraph tag pair is removed. */
  lemma StripTagsExample()
    ensures StripTags("<" + "p" + ">" + "Hi" + "<" + "/p" + ">") == "Hi"
  {
    StripTagPair("p", "Hi", "/p");
  }

  /** `_convert_markdown_to_text(md)`: empty text gives empty text without calling the library. */
  function MarkdownToText(env: DocsEnv, md: string): (r: string)
    ensures md == [] ==> r == []
    ensures md != [] ==> r == env.unescapeHtml(StripTags(env.markdown(md)))
  {
    if md == [] then [] else env.unescapeHtml(StripTags(env.markdown(md)))
  }

  // ------------------------------------------------------------------ content insertion

  /** The Docs layout carries no date reformatting: the modified time is printed as given. */
  const NoReformat: DateFormatter := (t: string) => None

  /**
   * The requests `_insert_content` sends: for non-empty metadata first an
   * insert of the metadata block and a blank line at index 1, then an insert
   * of the converted content at index 1. Formatting the metadata raises on a
   * size that is not a number.
   */
  function InsertRequests(env: DocsEnv, content: string, metadata: Dict): (r: Result<seq<Request>, Error>)
    ensures r.Failure? <==> metadata != [] && Get(metadata, "size").Some? && !Get(metadata, "size").value.Int?
    ensures r.Success? ==> |r.value| == (if metadata == [] then 1 else 2)
    ensures r.Success? ==> r.value[|r.value| - 1] == InsertText(1, MarkdownToText(env, content))
  {
    var last := InsertText(1, MarkdownToText(env, content));
    if metadata == [] then Success([last])
    else
      match Formatted(Docs, metadata, NoReformat)
      case Success(block) => Success([InsertText(1, block + "\n\n"), last])
      case Failure(e) => Failure(e)
  }

  /** Whether `_insert_content` returns True: the requests are built and the batch update does not raise. */
  function InsertOutcome(env: DocsEnv, documentId: Option<string>, content: string, metadata: Dict): bool {
    match InsertRequests(env, content, metadata)
    case Success(requests) => env.batchUpdate(documentId, requests)
    case Failure(_) => false
  }

  /** `_insert_content(document_id, content, metadata)`: appends the requests in order and sends them. */
  method InsertContent(env: DocsEnv, documentId: Option<string>, content: string, metadata: Dict) returns (ok: bool)
    ensures ok == InsertOutcome(env, documentId, content, metadata)
  {
    var requests: seq<Request> := [];
    var plain := MarkdownToText(env, content);
    if metadata != [] {
      var block := FormatMetadata(Docs, metadata, NoReformat);
      if block.Failure? {
        return false;
      }
      requests := requests + [InsertText(1, block.value + "\n\n")];
    }
    requests := requests + [InsertText(1, plain)];
    assert requests == InsertRequests(env, content, metadata).value;
    if requests != [] {
      ok := env.batchUpdate(documentId, requests);
    } else {
      ok := true;
    }
  }

  /**
   * The document the inserts leave: both go to index 1 and the content is
   * sent second, so the content ends up BEFORE the metadata block, which is
   * followed by its blank line and then whatever the body held.
   */
  lemma InsertedDocument(env: DocsEnv, content: string, metadata: Dict, body: string)
    requires InsertRequests(env, content, metadata).Success?
    ensures var block := Formatted(Docs, metadata, NoReformat);
            ApplyRequests(body, InsertRequests(env, content, metadata).value)
            == MarkdownToText(env, content) + (if metadata == [] then [] else block.value + "\n\n") + body
  {
    var text := MarkdownToText(env, content);
    if metadata == [] {
      ApplyOne(body, text);
    } else {
      ApplyTwo(body, Formatted(Docs, metadata, NoReformat).value + "\n\n", text);
    }
  }

  lemma ApplyOne(body: string, text: string)
    ensures ApplyRequests(body, [InsertText(1, text)]) == text + body
  {
    var requests := [InsertText(1, text)];
    InsertAtStart(body, text);
    assert requests[1..] == [];
    assert ApplyRequests(body, requests) == ApplyRequests(text + body, []);
  }

  lemma ApplyTwo(body: string, first: string, second: string)
    ensures ApplyRequests(body, [InsertText(1, first), InsertText(1, second)]) == second + first + body
  {
    var requests := [InsertText(1, first), InsertText(1, second)];
    InsertAtStart(body, first);
    assert requests[1..] == [InsertText(1, second)];
    assert ApplyRequests(body, requests) == ApplyRequests(first + body, [InsertText(1, second)]);
    ApplyOne(first + body, second);
    assert second + (first + body) == second + first + body;
  }

  // ------------------------------------------------------------------ Drive folders

  /** The Drive query `_find_or_create_folder` lists with. */
  function FolderQuery(name: string): string {
    "name='" + name + "' and mimeType='application/vnd.google-apps.folder'"
  }

  /**
   * `_find_or_create_folder(name)`: the id of the first folder listed;
   * a folder is created only when none is listed; `None` when a request
   * raises (an item without an id raises too).
   */
  function FindOrCreateFolder(env: DocsEnv, name: string): (r: Option<string>)
    ensures env.listFolders(FolderQuery(name)).Raised? ==> r == None
    ensures env.listFolders(FolderQuery(name)).Returned? && env.listFolders(FolderQuery(name)).value != []
            ==> r == env.listFolders(FolderQuery(name)).value[0]
    ensures env.listFolders(FolderQuery(name)) == Returned([])
            ==> r == (if env.createFolder(name).Returned? then env.createFolder(name).value else None)
  {
    match env.listFolders(FolderQuery(name))
    case Raised => None
    case Returned(items) =>
      if items != [] then items[0]
      else
        match env.createFolder(name)
        case Raised => None
        case Returned(id) => id
  }

  /** The `removeParents` argument: the previous parents joined by commas. */
  function RemovedParents(parents: seq<string>): string {
    Join(parents, ',')
  }

  /** `_move_to_folder(file_id, folder_id)`: adds the folder and removes the previous parents. */
  function MoveToFolder(env: DocsEnv, fileId: Option<string>, folderId: string): bool {
    match env.getParents(fileId)
    case Raised => false
    case Returned(parents) =>
      // `','.join(None)` raises a TypeError, which the method catches.
      parents.Some? && env.updateParents(fileId, folderId, RemovedParents(parents.value))
  }

  /**
   * The removed parents are exactly the previous ones: when no parent id
   * holds a comma, splitting `removeParents` at commas gives them back.
   */
  lemma RemovedParentsExact(parents: seq<string>)
    requires |parents| >= 1
    requires forall i :: 0 <= i < |parents| ==> ',' !in parents[i]
    ensures Split(RemovedParents(parents), ',') == parents
  {
    SplitJoin(parents, ',');
  }

  /**
   * The update is asked to remove exactly the parents that were read: a
   * service that accepts only a `removeParents` list naming precisely the
   * file's current parents lets the move succeed.
   */
  lemma MoveRemovesReadParents(env: DocsEnv, fileId: Option<string>, folderId: string, parents: seq<string>)
    requires env.getParents(fileId) == Returned(Some(parents))
    requires |parents| >= 1 && forall i :: 0 <= i < |parents| ==> ',' !in parents[i]
    requires forall removed :: env.updateParents(fileId, folderId, removed) <==> Split(removed, ',') == parents
    ensures MoveToFolder(env, fileId, folderId)
  {
    RemovedParentsExact(parents);
  }

  // ------------------------------------------------------------------ the exporter

  /** Whether `validate_configuration()` returns True. */
  function ValidationOutcome(env: DocsEnv, gdocsFolder: Option<string>): bool {
    && env.credentialsExist && env.authenticates
    && (Truthy(gdocsFolder) ==> Truthy(FindOrCreateFolder(env, gdocsFolder.value)))
  }

  /**
   * Whether `export(title, content, metadata)` returns True: authentication
   * when the services are missing, document creation and content insertion
   * must succeed. The move into the folder does not enter.
   */
  function ExportOutcome(env: DocsEnv, authenticated: bool, title: string, content: string, metadata: Dict): bool {
    && (authenticated || env.authenticates)
    && env.createDocument(title).Returned?
    && InsertOutcome(env, env.createDocument(title).value, content, metadata)
  }

  /** A failed move into the folder never turns a successful export into a failure: the outcome ignores both move requests. */
  lemma ExportIgnoresMove(env: DocsEnv, authenticated: bool, title: string, content: string, metadata: Dict,
                          getParents: Option<string> -> Call<Option<seq<string>>>,
                          updateParents: (Option<string>, string, string) -> bool)
    ensures var other := env.(getParents := getParents, updateParents := updateParents);
            ExportOutcome(other, authenticated, title, content, metadata)
            == ExportOutcome(env, authenticated, title, content, metadata)
  {
    var other := env.(getParents := getParents, updateParents := updateParents);
    assert forall md :: MarkdownToText(other, md) == MarkdownToText(env, md);
    assert InsertRequests(other, content, metadata) == InsertRequests(env, content, metadata);
  }

  /**
   * A configured folder that cannot be found or created fails validation,
   * and so do a missing credentials file and a failed authentication.
   */
  lemma ValidationFailures(env: DocsEnv, gdocsFolder: Option<string>)
    ensures !env.credentialsExist ==> !ValidationOutcome(env, gdocsFolder)
    ensures !env.authenticates ==> !ValidationOutcome(env, gdocsFolder)
    ensures Truthy(gdocsFolder) && env.listFolders(FolderQuery(gdocsFolder.value)).Raised?
            ==> !ValidationOutcome(env, gdocsFolder)
    ensures !Truthy(gdocsFolder) ==> ValidationOutcome(env, gdocsFolder) == (env.credentialsExist && env.authenticates)
  {
  }

  class GoogleDocsExporter {
    const gdocsFolder: Option<string>
    /** Whether `docs_service` and `drive_service` are both set. */
    var authenticated: bool
    var folderId: Option<string>

    /** `GoogleDocsExporter(gdocs_folder)`: no services and no folder id yet. */
    constructor (gdocsFolder: Option<string>)
      ensures this.gdocsFolder == gdocsFolder && !authenticated && folderId == None
    {
      this.gdocsFolder := gdocsFolder;
      authenticated := false;
      folderId := None;
    }

    /** `_authenticate()`: on success both services are set. */
    method Authenticate(env: DocsEnv) returns (ok: bool)
      modifies this`authenticated
      ensures ok == env.authenticates
      ensures authenticated == (old(authenticated) || env.authenticates)
    {
      if !env.authenticates {
        return false;
      }
      authenticated := true;
      return true;
    }

    /**
     * `validate_configuration()`. A configured folder is looked up (and set)
     * only after the credentials check and authentication pass.
     */
    method ValidateConfiguration(env: DocsEnv) returns (ok: bool)
      modifies this
      ensures ok == ValidationOutcome(env, gdocsFolder)
      ensures authenticated == (old(authenticated) || (env.credentialsExist && env.authenticates))
      ensures folderId == if env.credentialsExist && env.authenticates && Truthy(gdocsFolder)
                          then FindOrCreateFolder(env, gdocsFolder.value) else old(folderId)
      ensures ok && Truthy(gdocsFolder) ==> Truthy(folderId)
    {
      if !env.credentialsExist {
        return false;
      }
      var authenticated := Authenticate(env);
      if !authenticated {
        return false;
      }
      if Truthy(gdocsFolder) {
        folderId := FindOrCreateFolder(env, gdocsFolder.value);
        if !Truthy(folderId) {
          return false;
        }
      }
      return true;
    }

    /**
     * `export(title, content, metadata)`: authenticates only when the
     * services are missing; moves the new document into the folder when a
     * folder id is set, whatever the move gives.
     */
    method Export(env: DocsEnv, title: string, content: string, metadata: Dict) returns (ok: bool)
      modifies this`authenticated
      ensures ok == ExportOutcome(env, old(authenticated), title, content, metadata)
      ensures authenticated == (old(authenticated) || env.authenticates)
    {
      if !authenticated {
        var authenticated := Authenticate(env);
        if !authenticated {
          return false;
        }
      }
      var created := env.createDocument(title);
      if created.Raised? {
        return false;
      }
      var documentId := created.value;
      var inserted := InsertContent(env, documentId, content, metadata);
      if !inserted {
        return false;
      }
      if Truthy(folderId) {
        var moved := MoveToFolder(env, documentId, folderId.value);
      }
      return true;
    }
  }
}
