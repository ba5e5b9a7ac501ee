/**
 * Escaping of text interpolated into an AppleScript string literal, as both
 * Apple Notes components do it: `"` becomes `\"`, then a newline becomes the
 * two characters `\` `n`. Backslashes are left as they are.
 */
module AppleScriptText {
  import opened Text

  /** `_escape_for_applescript(text)`: the two replacements, in source order. */
  function Escape(t: string): string {
    ReplaceAll(ReplaceAll(t, '"', "\\\""), '\n', "\\n")
  }

  /** What one character becomes. */
  function EscapeChar(c: char): string {
    if c == '"' then "\\\"" else if c == '\n' then "\\n" else [c]
  }

  /** Escaping character by character. */
  function EscapeEach(t: string): string {
    if t == [] then [] else EscapeChar(t[0]) + EscapeEach(t[1..])
  }

  /** The two successive replacements act as one character-by-character rewrite. */
  lemma {:induction false} EscapeIsPerCharacter(t: string)
    ensures Escape(t) == EscapeEach(t)
  {
    if t != [] {
      var h: string := if t[0] == '"' then "\\\"" else [t[0]];
      assert ReplaceAll(t, '"', "\\\"") == h + ReplaceAll(t[1..], '"', "\\\"");
      ReplaceAllAppend(h, ReplaceAll(t[1..], '"', "\\\""), '\n', "\\n");
      EscapeIsPerCharacter(t[1..]);
      if t[0] == '"' {
        assert ReplaceAll(h, '\n', "\\n") == EscapeChar(t[0]);
      } else {
        assert h[1..] == [];
        assert ReplaceAll(h, '\n', "\\n") == EscapeChar(t[0]);
      }
    }
  }

  lemma {:induction false} EscapeEachAppend(a: string, b: string)
    ensures EscapeEach(a + b) == EscapeEach(a) + EscapeEach(b)
  {
    if a != [] {
      assert (a + b)[1..] == a[1..] + b;
      EscapeEachAppend(a[1..], b);
    } else {
      assert a + b == b;
    }
  }

  /** Escaping is done piece by piece: the escape of a concatenation is the concatenation of the escapes. */
  lemma EscapeAppend(a: string, b: string)
    ensures Escape(a + b) == Escape(a) + Escape(b)
  {
    EscapeIsPerCharacter(a + b);
    EscapeIsPerCharacter(a);
    EscapeIsPerCharacter(b);
    EscapeEachAppend(a, b);
  }

  /** Each quote and each newline adds exactly one character. */
  lemma {:induction false} EscapeLength(t: string)
    ensures |Escape(t)| == |t| + Count(t, '"') + Count(t, '\n')
  {
    EscapeIsPerCharacter(t);
    EscapeEachLength(t);
  }

  lemma {:induction false} EscapeEachLength(t: string)
    ensures |EscapeEach(t)| == |t| + Count(t, '"') + Count(t, '\n')
  {
    if t != [] {
      EscapeEachLength(t[1..]);
    }
  }

  /** No newline survives escaping, so the interpolated literal stays on one line. */
  lemma {:induction false} EscapeNoNewline(t: string)
    ensures '\n' !in Escape(t)
  {
    EscapeIsPerCharacter(t);
    EscapeEachNoNewline(t);
  }

  lemma {:induction false} EscapeEachNoNewline(t: string)
    ensures '\n' !in EscapeEach(t)
  {
    if t != [] {
      EscapeEachNoNewline(t[1..]);
    }
  }

  /** Every quote in `r` is preceded by a backslash, so none of them closes the literal. */
  predicate QuotesPreceded(r: string) {
    forall i :: 0 <= i < |r| && r[i] == '"' ==> i > 0 && r[i - 1] == '\\'
  }

  /** Every quote in the escaped text is preceded by a backslash. */
  lemma {:induction false} EscapeQuotesPreceded(t: string)
    ensures QuotesPreceded(Escape(t))
  {
    EscapeIsPerCharacter(t);
    EscapeEachQuotesPreceded(t);
  }

  lemma {:induction false} EscapeEachQuotesPreceded(t: string)
    ensures QuotesPreceded(EscapeEach(t))
  {
    if t != [] {
      EscapeEachQuotesPreceded(t[1..]);
      var head, rest := EscapeChar(t[0]), EscapeEach(t[1..]);
      assert EscapeEach(t) == head + rest;
      assert QuotesPreceded(rest);
      forall i | 0 <= i < |head + rest| && (head + rest)[i] == '"'
        ensures i > 0 && (head + rest)[i - 1] == '\\'
      {
        if i < |head| {
          assert head[i] == '"';
          assert t[0] == '"' && i == 1;
          assert (head + rest)[i - 1] == head[0] == '\\';
        } else {
          assert (head + rest)[i] == rest[i - |head|];
          if i == |head| {
            assert false;
          } else {
            var j := i - |head|;
            assert rest[j] == '"';
            assert rest[j - 1] == '\\';
            assert (head + rest)[i - 1] == rest[j - 1];
          }
        }
      }
    }
  }

  /**
   * How AppleScript reads the body of a string literal back: `\"` is a quote,
   * `\n` a newline, anything else stands for itself.
   */
  function Unescape(s: string): string {
    if s == [] then []
    else if |s| >= 2 && s[0] == '\\' && s[1] == '"' then "\"" + Unescape(s[2..])
    else if |s| >= 2 && s[0] == '\\' && s[1] == 'n' then "\n" + Unescape(s[2..])
    else [s[0]] + Unescape(s[1..])
  }

  /** For text without backslashes, AppleScript reads back exactly the original text. */
  lemma {:induction false} UnescapeEscape(t: string)
    requires '\\' !in t
    ensures Unescape(Escape(t)) == t
  {
    EscapeIsPerCharacter(t);
    UnescapeEscapeEach(t);
  }

  lemma {:induction false} UnescapeEscapeEach(t: string)
    requires '\\' !in t
    ensures Unescape(EscapeEach(t)) == t
  {
    if t != [] {
      UnescapeEscapeEach(t[1..]);
      var rest := EscapeEach(t[1..]);
      var s := EscapeChar(t[0]) + rest;
      if t[0] == '"' || t[0] == '\n' {
        assert s[2..] == rest;
      } else {
        assert s[1..] == rest;
      }
      assert t == [t[0]] + t[1..];
    }
  }

  /** Escaping is one-to-one on text without backslashes. */
  lemma EscapeInjectiveWithoutBackslash(a: string, b: string)
    requires '\\' !in a && '\\' !in b
    requires Escape(a) == Escape(b)
    ensures a == b
  {
    UnescapeEscape(a);
    UnescapeEscape(b);
  }

  /**
   * Because backslashes are not escaped, two different texts can give the same
   * literal: a backslash followed by `n`, and a newline.
   */
  lemma EscapeCollision()
    ensures "\\n" != "\n"
    ensures Escape("\\n") == Escape("\n")
  {
    EscapeIsPerCharacter("\\n");
    EscapeIsPerCharacter("\n");
    assert EscapeEach("\\n") == EscapeChar('\\') + EscapeEach("n");
    assert EscapeEach("n") == "n" + EscapeEach("");
  }

  // ------------------------------------------------------------------ the scripts

  /** `_run_script(script)`: whether `osascript` exits with status 0. It catches every error itself. */
  type ScriptRunner = string -> bool

  /** The script both Apple Notes components run to check that a process named Notes exists. */
  const NotesRunningScript: string :=
    "\n        tell application \"System Events\"\n            set notesRunning to exists (processes where name is \"Notes\")\n        end tell\n        "

  /** The part of the note-creation script between the title literal and the body literal. */
  const NoteMiddle: string := "\", body:\""

  /** The part of the note-creation script after the body literal. */
  const NoteSuffix: string := "\"}\n            end tell\n        end tell\n        "

  /** A note-creation script: `prefix` ends by opening the title literal. */
  function NoteScriptWith(prefix: string, title: string, body: string): string {
    prefix + Escape(title) + NoteMiddle + Escape(body) + NoteSuffix
  }

  /**
   * Interpolation never adds a line to the script: it has as many newlines
   * as its fixed parts, whatever the title and body.
   */
  lemma ScriptLineCount(prefix: string, title: string, body: string)
    ensures Count(NoteScriptWith(prefix, title, body), '\n')
            == Count(prefix, '\n') + Count(NoteMiddle, '\n') + Count(NoteSuffix, '\n')
  {
    EscapeNoNewline(title);
    EscapeNoNewline(body);
    CountAbsent(Escape(title), '\n');
    CountAbsent(Escape(body), '\n');
    CountAppend(prefix, Escape(title), '\n');
    CountAppend(prefix + Escape(title), NoteMiddle, '\n');
    CountAppend(prefix + Escape(title) + NoteMiddle, Escape(body), '\n');
    CountAppend(prefix + Escape(title) + NoteMiddle + Escape(body), NoteSuffix, '\n');
  }
}
