/**
 * The text rewriting the language manager applies to every loaded string: the
 * strings files keep escape sequences as two characters, and loading turns them
 * into the characters they stand for by a fixed chain of `String.Replace` calls.
 */
module Escapes {

  /** The escaped line breaks, tried in this order (LanguageManager.ESCAPED_LINE_BREAKS). */
  const EscapedLineBreaks: seq<string> := ["\\r\\n", "\\r", "\\n"]

  /**
   * C#'s `s.Replace(pat, rep)`: scan left to right, replace each occurrence of
   * `pat` and continue after it, so occurrences never overlap.
   */
  function Replace(s: string, pat: string, rep: string): (r: string)
    requires |pat| > 0
    decreases |s|
  {
    if |s| < |pat| then s
    else if s[..|pat|] == pat then rep + Replace(s[|pat|..], pat, rep)
    else [s[0]] + Replace(s[1..], pat, rep)
  }

  /** `s` after the first `j` escaped line breaks have each been replaced by a line break, in order. */
  function ReplaceLineBreaks(s: string, j: nat): string
    requires j <= |EscapedLineBreaks|
  {
    if j == 0 then s else Replace(ReplaceLineBreaks(s, j - 1), EscapedLineBreaks[j - 1], "\n")
  }

  /** The rewriting of one string: line breaks first, then `\"`, then `\\`. */
  function Unescape(s: string): string {
    Replace(Replace(ReplaceLineBreaks(s, |EscapedLineBreaks|), "\\\"", "\""), "\\\\", "\\")
  }

  /** A string in which the pattern's first character never occurs is left as it is. */
  lemma {:induction false} ReplaceWithoutLead(s: string, pat: string, rep: string)
    requires |pat| > 0 && pat[0] !in s
    ensures Replace(s, pat, rep) == s
  {
    if |s| >= |pat| {
      assert s[..|pat|][0] == s[0];
      ReplaceWithoutLead(s[1..], pat, rep);
    }
  }

  /** Replacing by something no longer than the pattern never lengthens the text. */
  lemma {:induction false} ReplaceNotLonger(s: string, pat: string, rep: string)
    requires |pat| > 0 && |rep| <= |pat|
    ensures |Replace(s, pat, rep)| <= |s|
  {
    if |s| >= |pat| {
      if s[..|pat|] == pat {
        ReplaceNotLonger(s[|pat|..], pat, rep);
      } else {
        ReplaceNotLonger(s[1..], pat, rep);
      }
    }
  }

  /** Text without a backslash passes the line-break stage unchanged. */
  lemma {:induction false} LineBreaksWithoutBackslash(s: string, j: nat)
    requires j <= |EscapedLineBreaks| && '\\' !in s
    ensures ReplaceLineBreaks(s, j) == s
  {
    if j > 0 {
      LineBreaksWithoutBackslash(s, j - 1);
      ReplaceWithoutLead(s, EscapedLineBreaks[j - 1], "\n");
    }
  }

  /** The line-break stage never lengthens the text. */
  lemma {:induction false} LineBreaksNotLonger(s: string, j: nat)
    requires j <= |EscapedLineBreaks|
    ensures |ReplaceLineBreaks(s, j)| <= |s|
  {
    if j > 0 {
      LineBreaksNotLonger(s, j - 1);
      ReplaceNotLonger(ReplaceLineBreaks(s, j - 1), EscapedLineBreaks[j - 1], "\n");
    }
  }

  /** Every escape starts with a backslash, so text without one comes through unchanged. */
  lemma UnescapeWithoutBackslash(s: string)
    requires '\\' !in s
    ensures Unescape(s) == s
  {
    LineBreaksWithoutBackslash(s, |EscapedLineBreaks|);
    ReplaceWithoutLead(s, "\\\"", "\"");
    ReplaceWithoutLead(s, "\\\\", "\\");
  }

  /** Each escape of two or four characters becomes one character, so the text never grows. */
  lemma UnescapeNotLonger(s: string)
    ensures |Unescape(s)| <= |s|
  {
    var c := ReplaceLineBreaks(s, |EscapedLineBreaks|);
    LineBreaksNotLonger(s, |EscapedLineBreaks|);
    var d := Replace(c, "\\\"", "\"");
    ReplaceNotLonger(c, "\\\"", "\"");
    ReplaceNotLonger(d, "\\\\", "\\");
  }

  /** An escaped CR LF pair becomes one line break, not two: it is tried before `\r` and `\n`. */
  lemma UnescapeCrLf()
    ensures Unescape("\\r\\n") == "\n"
  {
    var s := "\\r\\n";
    assert s[..4] == EscapedLineBreaks[0];
    assert Replace(s, EscapedLineBreaks[0], "\n") == "\n" + Replace(s[4..], EscapedLineBreaks[0], "\n") == "\n";
    assert ReplaceLineBreaks(s, 1) == "\n";
    ReplaceWithoutLead("\n", EscapedLineBreaks[1], "\n");
    ReplaceWithoutLead("\n", EscapedLineBreaks[2], "\n");
    assert ReplaceLineBreaks(s, 3) == "\n";
    ReplaceWithoutLead("\n", "\\\"", "\"");
    ReplaceWithoutLead("\n", "\\\\", "\\");
  }

  /** An escaped quotation mark loses its backslash. */
  lemma UnescapeQuote()
    ensures Unescape("\\\"") == "\""
  {
    var q := "\\\"";
    assert q[1] == '"' && q[1..] == "\"";
    ReplaceWithoutLead(q[1..], EscapedLineBreaks[0], "\n");
    ReplaceWithoutLead(q[1..], EscapedLineBreaks[1], "\n");
    ReplaceWithoutLead(q[1..], EscapedLineBreaks[2], "\n");
    assert q[..2] != EscapedLineBreaks[1] && q[..2] != EscapedLineBreaks[2];
    assert Replace(q, EscapedLineBreaks[0], "\n") == q;
    assert Replace(q, EscapedLineBreaks[1], "\n") == [q[0]] + Replace(q[1..], EscapedLineBreaks[1], "\n") == q;
    assert Replace(q, EscapedLineBreaks[2], "\n") == [q[0]] + Replace(q[1..], EscapedLineBreaks[2], "\n") == q;
    assert ReplaceLineBreaks(q, 3) == q;
    assert q[..2] == "\\\"";
    assert Replace(q, "\\\"", "\"") == "\"" + Replace(q[2..], "\\\"", "\"") == "\"";
    ReplaceWithoutLead("\"", "\\\\", "\\");
  }

  /**
   * An escaped backslash followed by `n` comes out as a backslash and a line
   * break: the line-break stage runs before `\\` is rewritten, and pairs the
   * second backslash with the `n`.
   */
  lemma UnescapeBackslashBeforeN()
    ensures Unescape("\\\\n") == "\\\n"
  {
    var b := "\\\\n";
    assert b[1..] == "\\n" && b[2..] == "n";
    ReplaceWithoutLead(b[2..], EscapedLineBreaks[1], "\n");
    ReplaceWithoutLead(b[2..], EscapedLineBreaks[0], "\n");
    assert b[..2][1] != EscapedLineBreaks[1][1] && b[1..][..2][1] != EscapedLineBreaks[1][1];
    assert Replace(b[1..], EscapedLineBreaks[0], "\n") == b[1..];
    assert Replace(b, EscapedLineBreaks[0], "\n") == b;
    assert Replace(b[1..], EscapedLineBreaks[1], "\n") == [b[1]] + Replace(b[2..], EscapedLineBreaks[1], "\n") == b[1..];
    assert Replace(b, EscapedLineBreaks[1], "\n") == [b[0]] + Replace(b[1..], EscapedLineBreaks[1], "\n") == b;
    assert b[..2] != EscapedLineBreaks[2] && b[1..][..2] == EscapedLineBreaks[2];
    assert Replace(b[1..], EscapedLineBreaks[2], "\n") == "\n" + Replace(b[3..], EscapedLineBreaks[2], "\n") == "\n";
    assert Replace(b, EscapedLineBreaks[2], "\n") == [b[0]] + Replace(b[1..], EscapedLineBreaks[2], "\n") == "\\\n";
    assert ReplaceLineBreaks(b, 3) == "\\\n";
    var c := "\\\n";
    assert c[1..] == "\n" && c[..2][1] != '"' && c[..2][1] != '\\';
    ReplaceWithoutLead(c[1..], "\\\"", "\"");
    ReplaceWithoutLead(c[1..], "\\\\", "\\");
    assert Replace(c, "\\\"", "\"") == [c[0]] + Replace(c[1..], "\\\"", "\"") == c;
    assert Replace(c, "\\\\", "\\") == [c[0]] + Replace(c[1..], "\\\\", "\\") == c;
  }
}
