/**
 * The Apple Notes exporter: it drops a leading level-1 heading that repeats
 * the title, renders the Markdown body (and the metadata block) to HTML, and
 * creates the note by running an AppleScript with the title and body
 * interpolated as escaped string literals.
 */
module AppleNotes {
  import opened Wrappers
  import opened Errors
  import opened Text
  import opened Dicts
  import opened Metadata
  import opened MetadataFormat
  import opened AppleScriptText

  /** The python-markdown conversion to HTML. */
  type MarkdownRenderer = string -> string

  /** What the exporter reaches outside itself. */
  datatype NotesEnv = NotesEnv(run: ScriptRunner, markdown: MarkdownRenderer, reformat: DateFormatter)

  // ------------------------------------------------------------------ title header

  /** The lines `_remove_title_header` examines: the stripped content split at newlines. */
  function Lines(content: string): seq<string> {
    Split(Strip(content), '\n')
  }

  /** Index of the first line that is not blank once stripped. */
  function FirstNonBlank(lines: seq<string>): (i: nat)
    ensures i <= |lines|
    ensures forall j :: 0 <= j < i ==> IsBlank(lines[j])
    ensures i < |lines| ==> !IsBlank(lines[i])
  {
    FirstNonBlankFrom(lines, 0)
  }

  /** Index of the first line from `k` on that is not blank once stripped. */
  function FirstNonBlankFrom(lines: seq<string>, k: nat): (i: nat)
    requires k <= |lines|
    ensures k <= i <= |lines|
    ensures forall j :: k <= j < i ==> IsBlank(lines[j])
    ensures i < |lines| ==> !IsBlank(lines[i])
    decreases |lines| - k
  {
    if k == |lines| || !IsBlank(lines[k]) then k else FirstNonBlankFrom(lines, k + 1)
  }

  /** The lines left once the leading blank ones are popped. */
  function DropBlankPrefix(lines: seq<string>): seq<string> {
    lines[FirstNonBlank(lines)..]
  }

  /** Whether the first non-blank line of `content` is a level-1 heading whose text is `title`. */
  predicate RemovesHeader(content: string, title: string) {
    content != [] && title != [] && HeadingFirst(Lines(content), title)
  }

  /** Whether the first non-blank line is a level-1 heading whose text is `title`. */
  predicate HeadingFirst(lines: seq<string>, title: string) {
    var i := FirstNonBlank(lines);
    i < |lines| && "# " <= Strip(lines[i]) && HeadingText(Strip(lines[i])) == title
  }

  /** The lines after the first non-blank one, without the blank lines that follow it. */
  function Remaining(content: string): seq<string> {
    RemainingLines(Lines(content))
  }

  function RemainingLines(lines: seq<string>): seq<string> {
    var i := FirstNonBlank(lines);
    if i < |lines| then DropBlankPrefix(lines[i + 1..]) else []
  }

  /**
   * What `_remove_title_header(content, title)` returns: when the first
   * non-blank line is the heading `# title`, the remaining lines joined by
   * newlines; otherwise the content exactly as given.
   */
  function TitleHeaderRemoved(content: string, title: string): string {
    if RemovesHeader(content, title) then Join(Remaining(content), '\n') else content
  }

  /** The `for` loop of `_remove_title_header`, up to its first non-blank line: blank lines are skipped. */
  method SkipBlankLines(lines: seq<string>) returns (i: nat)
    ensures i == FirstNonBlank(lines)
  {
    i := 0;
    while i < |lines| && IsBlank(lines[i])
      invariant 0 <= i <= |lines|
      invariant forall j :: 0 <= j < i ==> IsBlank(lines[j])
    {
      i := i + 1;
    }
  }

  /** The `while` loop of `_remove_title_header`: blank lines are popped from the front. */
  method PopBlankLines(lines: seq<string>) returns (remaining: seq<string>)
    ensures remaining == DropBlankPrefix(lines)
  {
    remaining := lines;
    ghost var k := 0;
    while remaining != [] && IsBlank(remaining[0])
      invariant k <= |lines| && remaining == lines[k..]
      invariant FirstNonBlankFrom(lines, k) == FirstNonBlank(lines)
    {
      remaining, k := remaining[1..], k + 1;
    }
  }

  /** `_remove_title_header(content, title)` */
  method RemoveTitleHeader(content: string, title: string) returns (r: string)
    ensures r == TitleHeaderRemoved(content, title)
    ensures content == [] || title == [] ==> r == content
  {
    if content == [] || title == [] {
      return content;
    }
    var lines := Split(Strip(content), '\n');
    assert lines == Lines(content);
    var i := SkipBlankLines(lines);
    if i < |lines| {
      var line := Strip(lines[i]);
      if "# " <= line && Strip(line[2..]) == title {
        var remaining := PopBlankLines(lines[i + 1..]);
        HeaderFound(content, title, lines, i, remaining);
        return Join(remaining, '\n');
      }
    }
    HeaderNotFound(content, title, lines, i);
    return content;
  }

  lemma HeaderFound(content: string, title: string, lines: seq<string>, i: nat, remaining: seq<string>)
    requires content != [] && title != []
    requires lines == Lines(content) && i == FirstNonBlank(lines)
    requires i < |lines| && "# " <= Strip(lines[i]) && Strip(Strip(lines[i])[2..]) == title
    requires remaining == DropBlankPrefix(lines[i + 1..])
    ensures TitleHeaderRemoved(content, title) == Join(remaining, '\n')
  {
    RemainingAfter(content, lines, i, remaining);
    assert HeadingFirst(lines, title);
  }

  /** The remaining lines are the ones after the first non-blank line, without the blank lines that follow it. */
  lemma RemainingAfter(content: string, lines: seq<string>, i: nat, remaining: seq<string>)
    requires lines == Lines(content) && i == FirstNonBlank(lines) && i < |lines|
    requires remaining == DropBlankPrefix(lines[i + 1..])
    ensures Remaining(content) == remaining
  {
    assert RemainingLines(lines) == remaining;
  }

  lemma HeaderNotFound(content: string, title: string, lines: seq<string>, i: nat)
    requires content != [] && title != []
    requires lines == Lines(content) && i == FirstNonBlank(lines)
    requires !(i < |lines| && "# " <= Strip(lines[i]) && Strip(Strip(lines[i])[2..]) == title)
    ensures TitleHeaderRemoved(content, title) == content
  {
    assert !HeadingFirst(lines, title);
  }

  lemma FirstUnskippableAtHeading(lines: seq<string>)
    requires FirstNonBlank(lines) < |lines| && "# " <= Strip(lines[FirstNonBlank(lines)])
    ensures FirstUnskippable(lines) == FirstNonBlank(lines)
  {
    var i := FirstNonBlank(lines);
    assert !Skippable(lines[i]);
    forall j | 0 <= j < i ensures Skippable(lines[j]) {
      assert IsBlank(lines[j]);
    }
  }

  /** A stripped level-1 heading line always has non-empty heading text. */
  lemma HeadingTextNonEmpty(line: string)
    requires "# " <= line && !IsSpace(line[|line| - 1])
    ensures HeadingText(line) != []
  {
    assert line[1] == ' ';
    assert |line| > 2;
    var rest := line[2..];
    assert rest[|rest| - 1] == line[|line| - 1];
    assert !IsBlank(rest);
    assert HeadingText(line) == Strip(rest);
  }

  /** `get_title` finds a leading level-1 heading: its text, stripped. */
  lemma TitleAtLeadingHeading(content: string, stem: string)
    requires var lines := Lines(content);
             FirstNonBlank(lines) < |lines| && "# " <= Strip(lines[FirstNonBlank(lines)])
    ensures var lines := Lines(content);
            TitleOf(content, stem) == HeadingText(Strip(lines[FirstNonBlank(lines)]))
  {
    var lines := Lines(content);
    FirstUnskippableAtHeading(lines);
    TitleScanCharacterised(lines);
  }

  /** A leading level-1 heading is removed when the title is its text. */
  lemma LeadingHeadingRemoved(content: string)
    requires content != []
    requires var lines := Lines(content);
             FirstNonBlank(lines) < |lines| && "# " <= Strip(lines[FirstNonBlank(lines)])
    ensures var lines := Lines(content);
            RemovesHeader(content, HeadingText(Strip(lines[FirstNonBlank(lines)])))
  {
    var lines := Lines(content);
    var i := FirstNonBlank(lines);
    var line := Strip(lines[i]);
    HeadingTextNonEmpty(line);
    assert HeadingFirst(lines, HeadingText(line));
  }

  /**
   * The title and the header removal agree on a leading heading: when the
   * first non-blank line of the body is `# X`, `get_title` gives X stripped,
   * and removing the header for that title drops exactly that line, leaving
   * the lines after it without the blank ones that follow it.
   */
  lemma TitleThenHeaderRemoved(content: string, stem: string)
    requires var lines := Lines(content);
             FirstNonBlank(lines) < |lines| && "# " <= Strip(lines[FirstNonBlank(lines)])
    ensures var lines := Lines(content);
            TitleOf(content, stem) == HeadingText(Strip(lines[FirstNonBlank(lines)]))
    ensures RemovesHeader(content, TitleOf(content, stem))
    ensures TitleHeaderRemoved(content, TitleOf(content, stem)) == Join(Remaining(content), '\n')
  {
    TitleAtLeadingHeading(content, stem);
    ContentWithNonBlankLine(content);
    LeadingHeadingRemoved(content);
  }

  lemma ContentWithNonBlankLine(content: string)
    requires FirstNonBlank(Lines(content)) < |Lines(content)|
    ensures content != []
  {
    EmptyContentHasNoLine();
  }

  /** Empty content has one line, and it is blank. */
  lemma EmptyContentHasNoLine()
    ensures FirstNonBlank(Lines([])) == |Lines([])|
  {
    assert Strip([]) == [];
    assert Split([], '\n') == [[]];
    var empty: seq<string> := [[]];
    assert Lines([]) == empty && empty[1..] == [];
  }

  /** After a removal, the lines of the result are the remaining lines, each as it was. */
  lemma HeaderRemovedLines(content: string, title: string)
    requires RemovesHeader(content, title) && Remaining(content) != []
    ensures Split(TitleHeaderRemoved(content, title), '\n') == Remaining(content)
  {
    RemainingWithoutNewlines(content);
    SplitJoin(Remaining(content), '\n');
  }

  /** No remaining line holds a newline: each is one of the split lines. */
  lemma RemainingWithoutNewlines(content: string)
    ensures forall j :: 0 <= j < |Remaining(content)| ==> '\n' !in Remaining(content)[j]
  {
    var lines := Lines(content);
    var i := FirstNonBlank(lines);
    if i < |lines| {
      var tail := lines[i + 1..];
      var k := FirstNonBlank(tail);
      var rest := tail[k..];
      RemainingAfter(content, lines, i, rest);
      forall j | 0 <= j < |rest| ensures '\n' !in rest[j] {
        assert '\n' !in lines[i + 1 + k + j];
      }
    }
  }

  /**
   * The two scans part ways when the first non-blank line is a heading of
   * another level: the header removal stops there and keeps the content,
   * whatever the title.
   */
  lemma SubheadingFirstKeepsContent(content: string, title: string)
    requires var lines := Lines(content);
             var i := FirstNonBlank(lines);
             i < |lines| && Skippable(lines[i])
    ensures TitleHeaderRemoved(content, title) == content
  {
    assert !HeadingFirst(Lines(content), title);
  }

  /**
   * `## Sub` then `# T`: the title is "T", but the note body keeps its `# T`
   * line, because the removal stopped at `## Sub`.
   */
  lemma SubheadingThenHeadingExample()
    ensures TitleOf("## Sub" + "\n" + "# " + "T", "notes") == "T"
    ensures TitleHeaderRemoved("## Sub" + "\n" + "# " + "T", "T") == "## Sub" + "\n" + "# " + "T"
  {
    SubheadingThenHeading("## Sub", "T");
  }

  /**
   * A line opening with `##`, then a level-1 heading: the title scan passes
   * over the first line and takes the heading's text, while the header
   * removal stops at the first line.
   */
  lemma SubheadingThenHeading(sub: string, t: string)
    requires '\n' !in sub && '\n' !in t
    requires |sub| >= 2 && sub[0] == '#' && sub[1] == '#' && !IsSpace(sub[|sub| - 1])
    requires t != [] && !IsSpace(t[0]) && !IsSpace(t[|t| - 1])
    ensures Lines(sub + "\n" + "# " + t) == [sub, "# " + t]
    ensures TitleScan([sub, "# " + t]) == Some(t)
    ensures !HeadingFirst([sub, "# " + t], t)
  {
    var h := "# " + t;
    assert '\n' !in h && h[0] == '#' && h[|h| - 1] == t[|t| - 1];
    assert sub + "\n" + "# " + t == sub + ['\n'] + h;
    TwoLines(sub, h);
    SubheadingLine(sub);
    HeadingLine(t);
    SubheadingSkipped(sub, [h]);
    HeadingFound(h, t);
    SubheadingFirst(sub, [h], t);
  }

  /** Two trimmed lines without newlines, joined by one, split back into the two. */
  lemma TwoLines(a: string, b: string)
    requires '\n' !in a && '\n' !in b
    requires a != [] && b != [] && !IsSpace(a[0]) && !IsSpace(b[|b| - 1])
    ensures Lines(a + ['\n'] + b) == [a, b]
  {
    var content := a + ['\n'] + b;
    assert content[0] == a[0] && content[|content| - 1] == b[|b| - 1];
    StripTrimmed(content);
    SplitAtSeparator(a, '\n', b);
    SplitNoSeparator(b, '\n');
  }

  /** A trimmed line opening with `##` is passed over by the title scan and is not blank. */
  lemma SubheadingLine(sub: string)
    requires |sub| >= 2 && sub[0] == '#' && sub[1] == '#' && !IsSpace(sub[|sub| - 1])
    ensures Skippable(sub) && !IsBlank(sub) && !("# " <= Strip(sub))
  {
    StripTrimmed(sub);
    assert sub[1] != ' ';
  }

  /** `# ` followed by trimmed text is a level-1 heading whose text is that text. */
  lemma HeadingLine(t: string)
    requires t != [] && !IsSpace(t[0]) && !IsSpace(t[|t| - 1])
    ensures "# " <= Strip("# " + t) && HeadingText(Strip("# " + t)) == t
  {
    var h := "# " + t;
    assert h[0] == '#' && h[|h| - 1] == t[|t| - 1];
    StripTrimmed(h);
    StripTrimmed(t);
    assert h[2..] == t;
  }

  lemma SubheadingSkipped(sub: string, rest: seq<string>)
    requires Skippable(sub)
    ensures TitleScan([sub] + rest) == TitleScan(rest)
  {
    assert ([sub] + rest)[0] == sub && ([sub] + rest)[1..] == rest;
  }

  lemma HeadingFound(h: string, t: string)
    requires "# " <= Strip(h) && HeadingText(Strip(h)) == t
    ensures TitleScan([h]) == Some(t)
  {
  }

  lemma SubheadingFirst(sub: string, rest: seq<string>, t: string)
    requires !IsBlank(sub) && !("# " <= Strip(sub))
    ensures !HeadingFirst([sub] + rest, t)
  {
    var lines := [sub] + rest;
    assert lines[0] == sub;
    assert FirstNonBlankFrom(lines, 0) == 0;
  }

  // ------------------------------------------------------------------ export

  /** `_convert_markdown_to_html(md)`: empty text gives empty HTML without calling the library. */
  function ToHtml(markdown: MarkdownRenderer, md: string): (r: string)
    ensures md == [] ==> r == []
    ensures md != [] ==> r == markdown(md)
  {
    if md == [] then [] else markdown(md)
  }

  /** `validate_configuration()`: the outcome of the check script. */
  function ValidateConfiguration(env: NotesEnv): (ok: bool)
    ensures ok <==> env.run(NotesRunningScript)
  {
    env.run(NotesRunningScript)
  }

  /** What `export` puts before the title literal: a new note in the folder "Notes", kept in `newNote`. */
  const NotePrefix: string :=
    "\n        tell application \"Notes\"\n            tell account \"iCloud\"\n                set newNote to make new note at folder \"Notes\" with properties {name:\""

  /** The note-creation script with the title and body escaped into its two string literals. */
  function NoteScript(title: string, body: string): string {
    NoteScriptWith(NotePrefix, title, body)
  }

  /** `"".join(parts)` */
  function Concat(parts: seq<string>): string {
    if parts == [] then [] else parts[0] + Concat(parts[1..])
  }

  /**
   * The note body: the HTML of the content without its title header, then,
   * only for non-empty metadata, `<hr><br>` and the HTML of the metadata
   * block. Formatting the metadata raises on a size that is not a number.
   */
  function NoteBody(env: NotesEnv, title: string, content: string, metadata: Dict): Result<string, Error> {
    var main := ToHtml(env.markdown, TitleHeaderRemoved(content, title));
    if metadata == [] then Success(main)
    else
      match Formatted(Notes, metadata, env.reformat)
      case Success(block) => Success(main + "<hr><br>" + ToHtml(env.markdown, block))
      case Failure(e) => Failure(e)
  }

  /** What `export` gives: the outcome of the note script, or the error formatting raised. */
  function NoteExport(env: NotesEnv, title: string, content: string, metadata: Dict): Result<bool, Error> {
    match NoteBody(env, title, content, metadata)
    case Success(body) => Success(env.run(NoteScript(title, body)))
    case Failure(e) => Failure(e)
  }

  /**
   * `export` raises, TypeError, only when the metadata holds a size that is
   * not a number; every other outcome is the note script's.
   */
  lemma ExportOutcome(env: NotesEnv, title: string, content: string, metadata: Dict)
    ensures NoteExport(env, title, content, metadata).Failure?
            <==> metadata != [] && Get(metadata, "size").Some? && !Get(metadata, "size").value.Int?
    ensures NoteExport(env, title, content, metadata).Failure? ==> NoteExport(env, title, content, metadata).error == TypeError
  {
  }

  /** `export(title, content, metadata)`: builds the parts of the body in order, escapes, runs the script. */
  method Export(env: NotesEnv, title: string, content: string, metadata: Dict) returns (r: Result<bool, Error>)
    ensures r == NoteExport(env, title, content, metadata)
  {
    var withoutTitle := RemoveTitleHeader(content, title);
    var main := ToHtml(env.markdown, withoutTitle);
    var parts := [main];
    if metadata != [] {
      parts := parts + ["<hr><br>"];
      var block := FormatMetadata(Notes, metadata, env.reformat);
      if block.Failure? {
        return Failure(block.error);
      }
      parts := parts + [ToHtml(env.markdown, block.value)];
      ConcatThree(main, "<hr><br>", ToHtml(env.markdown, block.value));
    } else {
      ConcatOne(main);
    }
    assert NoteBody(env, title, content, metadata) == Success(Concat(parts));
    var body := Concat(parts);
    var script := NoteScript(title, body);
    return Success(env.run(script));
  }

  lemma ConcatOne(a: string)
    ensures Concat([a]) == a
  {
    assert [a][1..] == [];
  }

  lemma ConcatThree(a: string, b: string, c: string)
    ensures Concat([a] + [b] + [c]) == a + b + c
  {
    var parts := [a] + [b] + [c];
    assert parts[1..][1..][1..] == [];
    assert Concat(parts[1..][1..]) == c;
    assert Concat(parts[1..]) == b + c;
    assert a + (b + c) == a + b + c;
  }
}
