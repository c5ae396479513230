/**
 * Blank-line normalisation and line counting. Every builder of the engine
 * first keeps only the lines of a submission that hold a non-whitespace
 * character, joins them with a newline, and counts the lines of the result.
 * Lines are split on '\n' only, as Python's `str.splitlines` splits them
 * (an empty string has no lines; a final newline does not open a line).
 */
module Lines {

  /**
   * A character that `str.strip()` removes: Python's `str.isspace`, which
   * holds for '\t' through '\r', the separators U+001C to U+001F, the space,
   * U+0085, and the Unicode space and line/paragraph separators.
   */
  predicate IsSpace(c: char) {
    c == ' ' || '\t' <= c <= '\r' || '\U{001C}' <= c <= '\U{001F}' ||
    c == '\U{0085}' || c == '\U{00A0}' || c == '\U{1680}' || '\U{2000}' <= c <= '\U{200A}' ||
    c == '\U{2028}' || c == '\U{2029}' || c == '\U{202F}' || c == '\U{205F}' || c == '\U{3000}'
  }

  /** A line that `line.strip()` turns into the empty string. */
  predicate IsBlank(line: string) {
    forall k :: 0 <= k < |line| ==> IsSpace(line[k])
  }

  /** Index of the first newline of `s`, or `|s|` when there is none. */
  function FirstNewline(s: string): (k: nat)
    ensures k <= |s|
    ensures forall m :: 0 <= m < k ==> s[m] != '\n'
    ensures k < |s| ==> s[k] == '\n'
  {
    if s == [] || s[0] == '\n' then 0 else 1 + FirstNewline(s[1..])
  }

  /** `s.splitlines()` for text whose only line break is '\n'. */
  function SplitLines(s: string): seq<string>
    decreases |s|
  {
    if s == [] then []
    else
      var k := FirstNewline(s);
      if k == |s| then [s] else [s[..k]] + SplitLines(s[k + 1..])
  }

  /** `'\n'.join(lines)`. */
  function JoinLines(lines: seq<string>): string
  {
    if |lines| == 0 then ""
    else if |lines| == 1 then lines[0]
    else lines[0] + "\n" + JoinLines(lines[1..])
  }

  /** The lines that hold a non-whitespace character, in order. */
  function NonBlank(lines: seq<string>): (r: seq<string>)
    ensures |r| <= |lines|
  {
    if lines == [] then []
    else if IsBlank(lines[0]) then NonBlank(lines[1..])
    else [lines[0]] + NonBlank(lines[1..])
  }

  /** No line that `NonBlank` keeps is blank. */
  lemma {:induction false} NonBlankKeepsNoBlank(lines: seq<string>)
    ensures forall k :: 0 <= k < |NonBlank(lines)| ==> !IsBlank(NonBlank(lines)[k])
    decreases |lines|
  {
    if lines != [] {
      NonBlankKeepsNoBlank(lines[1..]);
    }
  }

  /** The submission's code without its blank lines (incdev.py:82, 129, 178, 363). */
  function Normalise(code: string): string
  {
    JoinLines(NonBlank(SplitLines(code)))
  }

  /** Number of non-blank lines of `code`. */
  function LineCount(code: string): nat
  {
    |NonBlank(SplitLines(code))|
  }

  predicate NoNewline(line: string) {
    forall k :: 0 <= k < |line| ==> line[k] != '\n'
  }

  lemma {:induction false} SplitLinesNoNewline(s: string)
    ensures forall k :: 0 <= k < |SplitLines(s)| ==> NoNewline(SplitLines(s)[k])
    decreases |s|
  {
    if s != [] && FirstNewline(s) < |s| {
      SplitLinesNoNewline(s[FirstNewline(s) + 1..]);
    }
  }

  lemma {:induction false} NonBlankSubset(lines: seq<string>, P: string -> bool)
    requires forall k :: 0 <= k < |lines| ==> P(lines[k])
    ensures forall k :: 0 <= k < |NonBlank(lines)| ==> P(NonBlank(lines)[k])
    decreases |lines|
  {
    if lines != [] {
      NonBlankSubset(lines[1..], P);
    }
  }

  lemma FirstNewlineJoin(a: string, b: string)
    requires NoNewline(a)
    ensures FirstNewline(a + "\n" + b) == |a|
    decreases |a|
  {
    if a != [] {
      assert (a + "\n" + b)[1..] == a[1..] + "\n" + b;
      FirstNewlineJoin(a[1..], b);
    }
  }

  /**
   * Joining lines with '\n' and splitting again gives the lines back, as long
   * as no line holds a newline and none is empty.
   */
  lemma {:induction false} SplitJoin(lines: seq<string>)
    requires forall k :: 0 <= k < |lines| ==> NoNewline(lines[k]) && lines[k] != ""
    ensures SplitLines(JoinLines(lines)) == lines
    decreases |lines|
  {
    if |lines| == 1 {
      assert FirstNewline(lines[0]) == |lines[0]|;
    } else if |lines| > 1 {
      var rest := JoinLines(lines[1..]);
      var s := lines[0] + "\n" + rest;
      FirstNewlineJoin(lines[0], rest);
      assert s[..|lines[0]|] == lines[0];
      assert s[|lines[0]| + 1..] == rest;
      SplitJoin(lines[1..]);
    }
  }

  /** Normalised code splits into exactly the non-blank lines of the original. */
  lemma NormaliseLines(code: string)
    ensures SplitLines(Normalise(code)) == NonBlank(SplitLines(code))
    ensures |SplitLines(Normalise(code))| == LineCount(code)
  {
    var ls := SplitLines(code);
    SplitLinesNoNewline(code);
    NonBlankSubset(ls, (l: string) => NoNewline(l));
    NonBlankKeepsNoBlank(ls);
    forall k | 0 <= k < |NonBlank(ls)|
      ensures NonBlank(ls)[k] != ""
    {
      assert !IsBlank(NonBlank(ls)[k]);
    }
    SplitJoin(NonBlank(ls));
  }

  lemma {:induction false} NonBlankIdempotent(lines: seq<string>)
    ensures NonBlank(NonBlank(lines)) == NonBlank(lines)
    decreases |lines|
  {
    if lines != [] {
      NonBlankIdempotent(lines[1..]);
    }
  }

  /**
   * Normalising is idempotent and keeps the line count; the normalised code
   * is empty exactly when the submission has no non-blank line.
   */
  lemma NormaliseFacts(code: string)
    ensures Normalise(Normalise(code)) == Normalise(code)
    ensures LineCount(Normalise(code)) == LineCount(code)
    ensures Normalise(code) == "" <==> LineCount(code) == 0
  {
    NormaliseLines(code);
    NonBlankIdempotent(SplitLines(code));
    var nb := NonBlank(SplitLines(code));
    if |nb| > 0 {
      NonBlankKeepsNoBlank(SplitLines(code));
      assert !IsBlank(nb[0]);
      JoinNonEmpty(nb);
    }
  }

  /** Non-empty normalised code has a line to divide by. */
  lemma NormalisedHasLines(code: string)
    ensures Normalise(code) != "" ==> LineCount(Normalise(code)) > 0
  {
    NormaliseFacts(code);
  }

  lemma JoinNonEmpty(lines: seq<string>)
    requires |lines| > 0 && lines[0] != ""
    ensures JoinLines(lines) != ""
  {
    if |lines| > 1 {
      assert |JoinLines(lines)| >= |lines[0]|;
    }
  }

  /**
   * The first step of every builder: the code without its blank lines, and
   * the number of lines of that normalised code, which is the number of
   * non-blank lines of the original.
   */
  method NormaliseCode(text: string) returns (code: string, lineCount: nat)
    ensures code == Normalise(text)
    ensures lineCount == LineCount(text) == LineCount(code)
    ensures code != "" <==> lineCount > 0
  {
    code := Normalise(text);
    NormaliseLines(text);
    NormaliseFacts(text);
    lineCount := |SplitLines(code)|;
  }
}
