/**
 * The human-readable "File Info" block both exporters append to a document:
 * a header, the four printed file properties in a fixed order, then every
 * other metadata key in dictionary order. Apple Notes uses Markdown bold
 * labels and a reformatted modification time; Google Docs uses plain labels
 * and the raw time.
 */
module MetadataFormat {
  import opened Wrappers
  import opened Errors
  import opened Text
  import opened Dicts

  /** Which exporter's layout. */
  datatype Style = Notes | Docs

  /** `datetime.fromisoformat(t).strftime("%B %d, %Y at %I:%M %p")`; `None` where it raises. */
  type DateFormatter = string -> Option<string>

  /** The keys with a fixed line (`created_time` has none: it is never printed). */
  predicate Handled(k: string) {
    k == "filename" || k == "filepath" || k == "modified_time" || k == "created_time" || k == "size"
  }

  function Header(style: Style): string {
    match style
    case Notes => "\U{1F4C4} **File Info:**"
    case Docs => "\U{1F4C4} File Info:"
  }

  /** The bullet and label that open a line. */
  function Label(style: Style, name: string): string {
    match style
    case Notes => "\U{2022} **" + name + ":** "
    case Docs => "\U{2022} " + name + ": "
  }

  predicate EndsWith(s: string, suffix: string) {
    |suffix| <= |s| && s[|s| - |suffix|..] == suffix
  }

  // ------------------------------------------------------------------ size

  /** `n / d` rounded to the nearest integer, ties going to the even neighbour. */
  function RoundHalfEven(n: nat, d: nat): (r: nat)
    requires d > 0
    ensures -(d as int) <= 2 * (n - r * d) <= d
    ensures 2 * (n - r * d) == d || 2 * (n - r * d) == -(d as int) ==> r % 2 == 0
  {
    var q, rem := n / d, n % d;
    var r := if 2 * rem < d || (2 * rem == d && q % 2 == 0) then q else q + 1;
    RoundedHalfEven(n, d, r);
    r
  }

  /** The choice `RoundHalfEven` makes between the quotient and its successor keeps the error within half of `d`. */
  lemma RoundedHalfEven(n: nat, d: nat, r: nat)
    requires d > 0
    requires r == if 2 * (n % d) < d || (2 * (n % d) == d && (n / d) % 2 == 0) then n / d else n / d + 1
    ensures -(d as int) <= 2 * (n - r * d) <= d
    ensures 2 * (n - r * d) == d || 2 * (n - r * d) == -(d as int) ==> r % 2 == 0
  {
    var q, rem := n / d, n % d;
    assert n - q * d == rem && 0 <= rem < d;
    if r == q + 1 {
      assert r * d == q * d + d;
      assert 2 * (n - r * d) == 2 * rem - 2 * d;
      if 2 * rem == d {
        assert q % 2 == 1;
      }
    } else {
      assert 2 * (n - r * d) == 2 * rem;
    }
  }

  /** `size / 1024` printed with one decimal, counted in tenths of a kilobyte. */
  function KiloTenths(size: nat): nat {
    RoundHalfEven(size * 5, 512)
  }

  /** A count of tenths written as `<whole>.<tenth>`. */
  function TenthsText(t: nat): string {
    NatToString(t / 10) + "." + [Digit(t % 10)]
  }

  /**
   * The size text: `"<n> bytes"` below 1024, one-decimal kilobytes from 1024
   * up. A size that is not a number cannot be divided, which raises TypeError.
   */
  function SizeText(v: Value): (r: Result<string, Error>)
    ensures r.Success? <==> v.Int?
    ensures r.Failure? ==> r.error == TypeError
    ensures v.Int? ==> (EndsWith(r.value, " bytes") <==> v.i < 1024)
    ensures v.Int? ==> (EndsWith(r.value, " KB") <==> v.i >= 1024)
  {
    match v
    case Int(i) =>
      if i < 1024 then
        var s := IntToString(i) + " bytes";
        assert s[|s| - 6..] == " bytes";
        assert s[|s| - 1] == 's';
        Success(s)
      else
        var s := TenthsText(KiloTenths(i)) + " KB";
        assert s[|s| - 3..] == " KB";
        assert s[|s| - 1] == 'B';
        Success(s)
    case _ => Failure(TypeError)
  }

  /**
   * From 1024 bytes up, the printed tenths are the ones nearest to
   * `size * 10 / 1024`, a tie going to the even count.
   */
  lemma SizeKilobytes(size: nat)
    requires size >= 1024
    ensures var t := KiloTenths(size);
            && SizeText(Int(size)) == Success(TenthsText(t) + " KB")
            && -1024 <= 2 * (size * 10 - t * 1024) <= 1024
            && (2 * (size * 10 - t * 1024) == 1024 || 2 * (size * 10 - t * 1024) == -1024 ==> t % 2 == 0)
  {
  }

  /** Below 1024 the size is printed in bytes. */
  lemma SizeBytesExample()
    ensures SizeText(Int(500)) == Success("500 bytes")
  {
    assert NatToString(5) == "5";
    assert NatToString(50) == NatToString(5) + [Digit(0)] == "50";
    assert NatToString(500) == NatToString(50) + [Digit(0)] == "500";
    assert IntToString(500) == "500";
    assert SizeText(Int(500)) == Success(IntToString(500) + " bytes");
    assert "500" + " bytes" == "500 bytes";
  }

  /** The documented kilobyte examples: 1024, 1280 (a tie, rounded to even) and 1536. */
  lemma SizeKilobytesExamples()
    ensures SizeText(Int(1024)) == Success("1.0 KB")
    ensures SizeText(Int(1280)) == Success("1.2 KB")
    ensures SizeText(Int(1536)) == Success("1.5 KB")
  {
    SizeOneKilobyte();
    SizeTieKilobytes();
    SizeOneAndHalfKilobytes();
  }

  lemma SizeOneKilobyte()
    ensures SizeText(Int(1024)) == Success("1.0 KB")
  {
    KiloTenthsValues();
    KiloTenthsExample(1024, 10);
    assert "1." + [Digit(0)] + " KB" == "1.0 KB";
  }

  lemma SizeTieKilobytes()
    ensures SizeText(Int(1280)) == Success("1.2 KB")
  {
    KiloTenthsValues();
    KiloTenthsExample(1280, 12);
    assert "1." + [Digit(2)] + " KB" == "1.2 KB";
  }

  lemma SizeOneAndHalfKilobytes()
    ensures SizeText(Int(1536)) == Success("1.5 KB")
  {
    KiloTenthsValues();
    KiloTenthsExample(1536, 15);
    assert "1." + [Digit(5)] + " KB" == "1.5 KB";
  }

  lemma KiloTenthsValues()
    ensures KiloTenths(1024) == 10 && KiloTenths(1280) == 12 && KiloTenths(1536) == 15
  {
    assert 5120 / 512 == 10 && 5120 % 512 == 0;
    assert 6400 / 512 == 12 && 6400 % 512 == 256;
    assert 7680 / 512 == 15 && 7680 % 512 == 0;
  }

  lemma KiloTenthsExample(size: nat, t: nat)
    requires size >= 1024 && t == KiloTenths(size) && 10 <= t < 20
    ensures SizeText(Int(size)) == Success("1." + [Digit(t % 10)] + " KB")
  {
    assert t / 10 == 1;
    assert NatToString(1) == "1";
    assert SizeText(Int(size)) == Success(TenthsText(t) + " KB");
    assert TenthsText(t) + " KB" == "1." + [Digit(t % 10)] + " KB";
  }

  // ------------------------------------------------------------------ lines

  /** The modification-time line: Apple Notes reformats a parsable time and falls back to the raw value. */
  function ModifiedLine(style: Style, v: Value, reformat: DateFormatter): string {
    match style
    case Docs => Label(Docs, "Modified") + Render(v)
    case Notes =>
      Label(Notes, "Modified") + (if v.Str? && reformat(v.s).Some? then reformat(v.s).value else Render(v))
  }

  /** The line for `key` under `name` when `m` holds it, else nothing. */
  function FieldLine(style: Style, m: Dict, key: string, name: string): seq<string> {
    match Get(m, key)
    case Some(v) => [Label(style, name) + Render(v)]
    case None => []
  }

  function ModifiedField(style: Style, m: Dict, reformat: DateFormatter): seq<string> {
    match Get(m, "modified_time")
    case Some(v) => [ModifiedLine(style, v, reformat)]
    case None => []
  }

  /** The header and the lines for the four printed fixed fields present in `m`. */
  function FixedLines(style: Style, m: Dict, reformat: DateFormatter): Result<seq<string>, Error> {
    var lines := [Header(style)] + FieldLine(style, m, "filename", "Filename") + FieldLine(style, m, "filepath", "File Path")
                 + ModifiedField(style, m, reformat);
    match Get(m, "size")
    case None => Success(lines)
    case Some(v) =>
      match SizeText(v)
      case Success(s) => Success(lines + [Label(style, "Size") + s])
      case Failure(e) => Failure(e)
  }

  /** The line for a key without a fixed line: underscores become spaces and the words are title-cased. */
  function ExtraLine(style: Style, key: string, v: Value): string {
    Label(style, TitleCase(ReplaceAll(key, '_', " "))) + Render(v)
  }

  /** The lines for the keys without a fixed line, in dictionary order. */
  function ExtraLines(style: Style, m: Dict): seq<string> {
    if m == [] then []
    else (if Handled(m[0].0) then [] else [ExtraLine(style, m[0].0, m[0].1)]) + ExtraLines(style, m[1..])
  }

  /**
   * `_format_metadata(metadata)`: empty metadata gives the empty text;
   * otherwise the fixed lines and then the extra lines, joined by newlines.
   * The only way it raises is a size that is not a number.
   */
  function Formatted(style: Style, m: Dict, reformat: DateFormatter): (r: Result<string, Error>)
    ensures m == [] ==> r == Success("")
    ensures r.Failure? <==> m != [] && Get(m, "size").Some? && !Get(m, "size").value.Int?
    ensures r.Failure? ==> r.error == TypeError
  {
    if m == [] then Success("")
    else
      match FixedLines(style, m, reformat)
      case Success(fixed) => Success(Join(fixed + ExtraLines(style, m), '\n'))
      case Failure(e) => Failure(e)
  }

  lemma {:induction false} ExtraLinesAppend(style: Style, a: Dict, b: Dict)
    ensures ExtraLines(style, a + b) == ExtraLines(style, a) + ExtraLines(style, b)
  {
    if a != [] {
      var head := if Handled(a[0].0) then [] else [ExtraLine(style, a[0].0, a[0].1)];
      assert (a + b)[0] == a[0] && (a + b)[1..] == a[1..] + b;
      assert ExtraLines(style, a + b) == head + ExtraLines(style, a[1..] + b);
      assert ExtraLines(style, a) == head + ExtraLines(style, a[1..]);
      ExtraLinesAppend(style, a[1..], b);
    } else {
      assert a + b == b;
    }
  }

  /**
   * The straight-line part of `_format_metadata`: the header, then each
   * printed fixed field that is present, appended one by one as the source
   * does. `FixedLines` is the same layout as a value and specifies this method.
   */
  method AppendFixedLines(style: Style, metadata: Dict, reformat: DateFormatter) returns (r: Result<seq<string>, Error>)
    ensures r == FixedLines(style, metadata, reformat)
  {
    var lines := [Header(style)];
    lines := lines + FieldLine(style, metadata, "filename", "Filename");
    lines := lines + FieldLine(style, metadata, "filepath", "File Path");
    lines := lines + ModifiedField(style, metadata, reformat);
    var size := Get(metadata, "size");
    if size.Some? {
      var text := SizeText(size.value);
      if text.Failure? {
        return Failure(text.error);
      }
      lines := lines + [Label(style, "Size") + text.value];
    }
    return Success(lines);
  }

  /** One more entry adds its line, unless its key has a fixed line. */
  lemma ExtraLinesStep(style: Style, metadata: Dict, i: nat)
    requires i < |metadata|
    ensures ExtraLines(style, metadata[..i + 1])
            == ExtraLines(style, metadata[..i]) + (if Handled(metadata[i].0) then [] else [ExtraLine(style, metadata[i].0, metadata[i].1)])
  {
    assert metadata[..i + 1] == metadata[..i] + [metadata[i]];
    ExtraLinesAppend(style, metadata[..i], [metadata[i]]);
    assert [metadata[i]][1..] == [];
  }

  /** The loop of `_format_metadata`: one line appended per key without a fixed line, in dictionary order. */
  method AppendExtraLines(style: Style, metadata: Dict, fixed: seq<string>) returns (lines: seq<string>)
    ensures lines == fixed + ExtraLines(style, metadata)
  {
    lines := fixed;
    for i := 0 to |metadata|
      invariant lines == fixed + ExtraLines(style, metadata[..i])
    {
      var (key, value) := metadata[i];
      ExtraLinesStep(style, metadata, i);
      if !Handled(key) {
        AppendAssociates(fixed, ExtraLines(style, metadata[..i]), [ExtraLine(style, key, value)]);
        lines := lines + [ExtraLine(style, key, value)];
      } else {
        assert ExtraLines(style, metadata[..i]) + [] == ExtraLines(style, metadata[..i]);
      }
    }
    assert metadata[..|metadata|] == metadata;
  }

  /** `_format_metadata(metadata)` */
  method FormatMetadata(style: Style, metadata: Dict, reformat: DateFormatter) returns (r: Result<string, Error>)
    ensures r == Formatted(style, metadata, reformat)
  {
    if metadata == [] {
      return Success("");
    }
    var fixed := AppendFixedLines(style, metadata, reformat);
    if fixed.Failure? {
      return Failure(fixed.error);
    }
    var lines := AppendExtraLines(style, metadata, fixed.value);
    return Success(Join(lines, '\n'));
  }

  // ------------------------------------------------------------------ properties

  /** The entries whose keys have no fixed line, in dictionary order. */
  function Unhandled(m: Dict): (r: Dict)
    ensures forall e :: e in r <==> e in m && !Handled(e.0)
  {
    if m == [] then [] else (if Handled(m[0].0) then [] else [m[0]]) + Unhandled(m[1..])
  }

  /** One line per entry, in order. */
  function EntryLines(style: Style, d: Dict): (r: seq<string>)
    ensures |r| == |d|
    ensures forall j :: 0 <= j < |d| ==> r[j] == ExtraLine(style, d[j].0, d[j].1)
  {
    if d == [] then [] else [ExtraLine(style, d[0].0, d[0].1)] + EntryLines(style, d[1..])
  }

  /** The extra lines are exactly one line per entry without a fixed line, in dictionary order. */
  lemma {:induction false} ExtraLinesFollowEntries(style: Style, m: Dict)
    ensures ExtraLines(style, m) == EntryLines(style, Unhandled(m))
  {
    if m != [] {
      ExtraLinesFollowEntries(style, m[1..]);
      if !Handled(m[0].0) {
        assert Unhandled(m) == [m[0]] + Unhandled(m[1..]);
        assert Unhandled(m)[1..] == Unhandled(m[1..]);
      }
    }
  }

  /** The underscore in `due_date` becomes a space. */
  lemma DueDateSpaced()
    ensures ReplaceAll("due" + "_" + "date", '_', " ") == "due" + " " + "date"
  {
    ReplaceAllJoin("due", "date", '_', " ");
  }

  /** Both words of `due date` are capitalised. */
  lemma DueDateTitled()
    ensures TitleCase("due" + " " + "date") == "Due" + " " + "Date"
  {
    TitleCaseTwoWords("due", "date");
    assert [Upper('d')] + "ue" == "Due" && [Upper('d')] + "ate" == "Date";
  }

  /** A key with underscores is printed with spaces and capitalised words. */
  lemma ExtraLineExample(style: Style, v: Value)
    ensures ExtraLine(style, "due" + "_" + "date", v) == Label(style, "Due" + " " + "Date") + Render(v)
  {
    DueDateSpaced();
    DueDateTitled();
  }

  lemma {:induction false} ExtraLinesIgnoreHandled(style: Style, m: Dict, k: string, v: Value)
    requires Handled(k)
    ensures ExtraLines(style, Put(m, k, v)) == ExtraLines(style, m)
  {
    if m != [] && m[0].0 != k {
      ExtraLinesIgnoreHandled(style, m[1..], k, v);
    }
  }

  /**
   * The creation time is never printed: in non-empty metadata, setting
   * `created_time` to any value leaves the formatted text as it was.
   */
  lemma CreatedTimeNotPrinted(style: Style, m: Dict, v: Value, reformat: DateFormatter)
    requires m != []
    ensures Formatted(style, Put(m, "created_time", v), reformat) == Formatted(style, m, reformat)
  {
    var m' := Put(m, "created_time", v);
    assert m' != [];
    PutGet(m, "created_time", v, "filename");
    PutGet(m, "created_time", v, "filepath");
    PutGet(m, "created_time", v, "modified_time");
    PutGet(m, "created_time", v, "size");
    ExtraLinesIgnoreHandled(style, m, "created_time", v);
  }

  /** In Apple Notes, a modification time that does not parse is printed verbatim. */
  lemma ModifiedVerbatimOnFailure(m: Dict, t: string, reformat: DateFormatter)
    requires Get(m, "modified_time") == Some(Str(t)) && reformat(t).None?
    requires FixedLines(Notes, m, reformat).Success?
    ensures Label(Notes, "Modified") + t in FixedLines(Notes, m, reformat).value
  {
  }

  /** In Google Docs, the modification time is always printed verbatim. */
  lemma DocsModifiedVerbatim(m: Dict, reformat: DateFormatter)
    requires Get(m, "modified_time").Some?
    requires FixedLines(Docs, m, reformat).Success?
    ensures Label(Docs, "Modified") + Render(Get(m, "modified_time").value) in FixedLines(Docs, m, reformat).value
  {
  }
}
