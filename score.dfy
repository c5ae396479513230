/**
 * The IncDev score and the score trail. Scores are integer hundredths:
 * 100 is a score of 1, a bonus of 0.1 is 10, a penalty of 0.04 per line is 4.
 * The accumulator starts at 1; each run adds 0.1 or, when it adds more than
 * 20 non-blank lines over the previous run, loses 0.04 per line beyond 20.
 * The ceiling of 1 is applied after every run, the floor of 0 only at the end.
 */
module Score {
  import opened Lines
  import opened Strings
  import opened Submissions
  import opened DiffRatio

  const Full: int := 100
  const Bonus: int := 10
  const PenaltyPerLine: int := 4
  const FreeLines: int := 20

  /** `adjust_score`: a score above 1 becomes 1, any other is left alone. */
  function AdjustScore(score: int): (r: int)
    ensures r <= Full
    ensures score <= Full ==> r == score
    ensures score > Full ==> r == Full
  {
    if score > Full then Full else score
  }

  /** Change for one run before the ceiling, against the previous count. */
  function Delta(prevLines: int, lineCount: int): int
  {
    if lineCount - prevLines > FreeLines then -PenaltyPerLine * (lineCount - prevLines - FreeLines)
    else Bonus
  }

  /** The accumulator after the first `n` runs: ceiling applied, floor not yet. */
  function Acc(counts: seq<nat>, n: nat): int
    requires n <= |counts|
  {
    if n == 0 then Full
    else AdjustScore(Acc(counts, n - 1) + Delta(if n == 1 then 0 else counts[n - 2], counts[n - 1]))
  }

  /** The accumulator after each run, as the score trail shows it. */
  function Running(counts: seq<nat>): (r: seq<int>)
    ensures |r| == |counts|
  {
    seq(|counts|, i requires 0 <= i < |counts| => Acc(counts, i + 1))
  }

  /** `assign_inc_dev_score` as a value: the accumulator after every run, floored at 0. */
  function FinalScore(counts: seq<nat>): (score: int)
    ensures 0 <= score <= Full
    ensures Acc(counts, |counts|) >= 0 ==> score == Acc(counts, |counts|)
    ensures Acc(counts, |counts|) < 0 ==> score == 0
  {
    var acc := Acc(counts, |counts|);
    if acc < 0 then 0 else acc
  }

  /** The accumulator never exceeds 1, whatever the runs. */
  lemma AccAtMostFull(counts: seq<nat>, n: nat)
    requires n <= |counts|
    ensures Acc(counts, n) <= Full
  {
  }

  /**
   * The step rule: a run that adds at most 20 lines (or removes lines) gains
   * 0.1 up to the ceiling; a run that adds 20 + k lines loses exactly 0.04 k,
   * with no ceiling effect because the score before it is never above 1.
   */
  lemma StepRule(counts: seq<nat>, n: nat)
    requires 1 <= n <= |counts|
    ensures var before, d := Acc(counts, n - 1), counts[n - 1] as int - (if n == 1 then 0 else counts[n - 2]);
      && (d <= FreeLines ==> Acc(counts, n) == if before + Bonus > Full then Full else before + Bonus)
      && (d > FreeLines ==> Acc(counts, n) == before - PenaltyPerLine * (d - FreeLines))
  {
    AccAtMostFull(counts, n - 1);
  }

  /** Runs that never add more than 20 lines keep the score at 1 throughout. */
  lemma {:induction false} SteadyStaysFull(counts: seq<nat>, n: nat)
    requires n <= |counts|
    requires forall i :: 0 <= i < |counts| ==> counts[i] - (if i == 0 then 0 else counts[i - 1]) <= FreeLines
    ensures Acc(counts, n) == Full
    decreases n
  {
    if n > 0 {
      SteadyStaysFull(counts, n - 1);
      assert counts[n - 1] - (if n - 1 == 0 then 0 else counts[n - 2]) <= FreeLines;
    }
  }

  /** Under the same condition every entry of the trail shows a score of 1. */
  lemma SteadyTrailFull(counts: seq<nat>)
    requires forall i :: 0 <= i < |counts| ==> counts[i] - (if i == 0 then 0 else counts[i - 1]) <= FreeLines
    ensures forall i :: 0 <= i < |counts| ==> Running(counts)[i] == Full
    ensures FinalScore(counts) == Full
  {
    forall i | 0 <= i < |counts|
      ensures Running(counts)[i] == Full
    {
      SteadyStaysFull(counts, i + 1);
    }
    SteadyStaysFull(counts, |counts|);
  }

  /**
   * The floor is applied only after the last run: a 50-line first run drives
   * the accumulator to -0.2 and a following small run only brings it to -0.1,
   * so the score is 0 (flooring after every run would have given 0.1).
   */
  lemma FloorOnlyAtEnd()
    ensures Running([50, 51]) == [-20, -10]
    ensures FinalScore([50, 51]) == 0
  {
    assert Acc([50, 51], 1) == -20;
    assert Acc([50, 51], 2) == -10;
  }

  /** `assign_inc_dev_score(runs)` (incdev.py:63-102). */
  method AssignIncDevScore(runs: seq<Submission>) returns (score: int)
    ensures score == FinalScore(LineCounts(runs))
    ensures 0 <= score <= Full
  {
    ghost var counts := LineCounts(runs);
    score := Full;
    var prevLines := 0;
    var i := 0;
    while i < |runs|
      invariant i <= |runs|
      invariant score == Acc(counts, i)
      invariant prevLines == if i == 0 then 0 else counts[i - 1]
    {
      var code, lineCount := NormaliseCode(runs[i].code);
      LineCountAt(runs, i);
      if lineCount - prevLines > FreeLines {
        var linesOver := lineCount - prevLines - FreeLines;
        score := score - PenaltyPerLine * linesOver;
      } else {
        score := score + Bonus;
      }
      score := AdjustScore(score);
      prevLines := lineCount;
      i := i + 1;
    }
    assert i == |runs|;
    if score < 0 {
      score := 0;
    }
  }

  /** How a score value is printed (`str(round(score, 2))`); left abstract. */
  type Render = int -> string

  /** Run `i` gets a `^`: it has a predecessor and the caret rule holds against it. */
  predicate Caret(runs: seq<Submission>, differ: Differ, i: nat)
    requires i < |runs|
  {
    i > 0 && CaretBetween(Normalise(runs[i - 1].code), Normalise(runs[i].code), differ)
  }

  /** The `^` flags of the first `n` runs. */
  function Carets(runs: seq<Submission>, differ: Differ, n: nat): (flags: seq<bool>)
    requires n <= |runs|
    ensures |flags| == n
  {
    if n == 0 then [] else Carets(runs, differ, n - 1) + [Caret(runs, differ, n - 1)]
  }

  lemma {:induction false} CaretsAt(runs: seq<Submission>, differ: Differ, n: nat, i: nat)
    requires i < n <= |runs|
    ensures Carets(runs, differ, n)[i] == Caret(runs, differ, i)
    decreases n
  {
    if i < n - 1 {
      CaretsAt(runs, differ, n - 1, i);
    }
  }

  /** One trail entry: optional `^`, the line count and a space, the score in parentheses. */
  function ScoreToken(caret: bool, lineCount: nat, value: int, fmt: Render): string
  {
    (if caret then "^" else "") + NatToString(lineCount) + " " + "(" + fmt(value) + ")"
  }

  /** The first `n` entries of the score trail, each showing the running accumulator. */
  function ScoreTokens(counts: seq<nat>, carets: seq<bool>, fmt: Render, n: nat): (tokens: seq<string>)
    requires |carets| == |counts| && n <= |counts|
    ensures |tokens| == n
  {
    if n == 0 then []
    else ScoreTokens(counts, carets, fmt, n - 1) + [ScoreToken(carets[n - 1], counts[n - 1], Acc(counts, n), fmt)]
  }

  /**
   * Entry `k` of the trail shows the caret flag and line count of run `k`
   * and the running accumulator after it, the same accumulator
   * `assign_inc_dev_score` floors at the end.
   */
  lemma {:induction false} ScoreTokensAt(counts: seq<nat>, carets: seq<bool>, fmt: Render, n: nat, k: nat)
    requires |carets| == |counts| && k < n <= |counts|
    ensures ScoreTokens(counts, carets, fmt, n)[k] == ScoreToken(carets[k], counts[k], Running(counts)[k], fmt)
    decreases n
  {
    if k < n - 1 {
      ScoreTokensAt(counts, carets, fmt, n - 1, k);
    }
  }

  /** An entry followed by the separator the loop appends after it. */
  function ScoreEntry(caret: bool, lineCount: nat, value: int, fmt: Render): string
  {
    ScoreToken(caret, lineCount, value, fmt) + ", "
  }

  /** The score trail of given counts and flags: the entries joined by ", ". */
  function ScoreTrailOf(counts: seq<nat>, carets: seq<bool>, fmt: Render): string
    requires |carets| == |counts|
  {
    Joined(ScoreTokens(counts, carets, fmt, |counts|), ", ")
  }

  /** The score trail of a list of runs. */
  function ScoreTrail(runs: seq<Submission>, differ: Differ, fmt: Render): string
  {
    ScoreTrailOf(LineCounts(runs), Carets(runs, differ, |runs|), fmt)
  }

  /** The first `n` entries, each followed by ", ", as the trail loop has built them. */
  function TrailPrefix(counts: seq<nat>, carets: seq<bool>, fmt: Render, n: nat): string
    requires |carets| == |counts| && n <= |counts|
  {
    if n == 0 then ""
    else TrailPrefix(counts, carets, fmt, n - 1) + ScoreEntry(carets[n - 1], counts[n - 1], Acc(counts, n), fmt)
  }

  lemma {:induction false} TrailPrefixTerminated(counts: seq<nat>, carets: seq<bool>, fmt: Render, n: nat)
    requires |carets| == |counts| && n <= |counts|
    ensures TrailPrefix(counts, carets, fmt, n) == Terminated(ScoreTokens(counts, carets, fmt, n), ", ")
    decreases n
  {
    if n > 0 {
      var before := ScoreTokens(counts, carets, fmt, n - 1);
      var token := ScoreToken(carets[n - 1], counts[n - 1], Acc(counts, n), fmt);
      TrailPrefixTerminated(counts, carets, fmt, n - 1);
      TerminatedAppend(before, token, ", ");
      assert ScoreTokens(counts, carets, fmt, n) == before + [token];
      assert TrailPrefix(counts, carets, fmt, n) == TrailPrefix(counts, carets, fmt, n - 1) + (token + ", ");
    }
  }

  /** Cutting the last separator off the full prefix gives the joined trail. */
  lemma TrailPrefixJoined(counts: seq<nat>, carets: seq<bool>, fmt: Render)
    requires |carets| == |counts|
    ensures DropLast(TrailPrefix(counts, carets, fmt, |counts|), 2) == ScoreTrailOf(counts, carets, fmt)
    ensures counts != [] ==> TrailPrefix(counts, carets, fmt, |counts|) == ScoreTrailOf(counts, carets, fmt) + ", "
  {
    var tokens := ScoreTokens(counts, carets, fmt, |counts|);
    TrailPrefixTerminated(counts, carets, fmt, |counts|);
    DropSeparator(tokens, ", ");
    if counts != [] {
      TerminatedIsJoinedPlusSep(tokens, ", ");
    }
  }

  /** Appending the three pieces of an entry to "" gives the entry and its separator. */
  lemma EntryPieces(caret: bool, lineCount: nat, value: int, fmt: Render)
    ensures (if caret then "^" else "") + (NatToString(lineCount) + " ") + ("(" + fmt(value) + "), ")
         == ScoreToken(caret, lineCount, value, fmt) + ", "
  {
    var c := if caret then "^" else "";
    var n := NatToString(lineCount);
    var f := fmt(value);
    assert c + (n + " ") + ("(" + f + "), ") == (c + n + " " + "(" + f + ")") + ", ";
  }

  /** Whether the next entry gets a `^`: a previous code and a diff ratio above 0.5. */
  method CaretMark(prevCode: string, code: string, differ: Differ) returns (caret: bool)
    requires prevCode != "" ==> LineCount(prevCode) > 0
    ensures caret == CaretBetween(prevCode, code, differ)
  {
    caret := false;
    if prevCode != "" {
      var change := GetDiff(prevCode, code, differ);
      CaretByCounts(prevCode, code, differ);
      if change > CaretThreshold {
        caret := true;
      }
    }
  }

  /**
   * One pass of the loop body of `assign_inc_dev_score_trail`
   * (incdev.py:128-150): normalise the run, emit the optional `^`, the line
   * count and the updated score, and return the new running values.
   */
  method ScoreTrailEntry(prevCode: string, text: string, prevLines: nat, score: int, differ: Differ, fmt: Render)
    returns (entry: string, code: string, lineCount: nat, next: int)
    requires prevCode != "" ==> LineCount(prevCode) > 0
    requires score <= Full
    ensures code == Normalise(text) && lineCount == LineCount(text)
    ensures code != "" ==> LineCount(code) > 0
    ensures next == AdjustScore(score + Delta(prevLines, lineCount))
    ensures entry == ScoreEntry(CaretBetween(prevCode, code, differ), lineCount, next, fmt)
  {
    code, lineCount := NormaliseCode(text);
    var caret := CaretMark(prevCode, code, differ);
    var head := EntryHead(caret, lineCount);
    var tail;
    next, tail := EntryScore(score, prevLines, lineCount, fmt);
    entry := head + tail;
    EntryPieces(caret, lineCount, next, fmt);
  }

  /** The start of an entry: the optional `^`, the line count and a space. */
  method EntryHead(caret: bool, lineCount: nat) returns (head: string)
    ensures head == (if caret then "^" else "") + (NatToString(lineCount) + " ")
    ensures |head| == (if caret then 1 else 0) + |NatToString(lineCount)| + 1
  {
    head := "";
    if caret {
      head := head + "^";
    }
    head := head + (NatToString(lineCount) + " ");
  }

  /**
   * The score update of one run and its parenthesised rendering with the
   * separator: a penalty when the run adds more than 20 lines, otherwise
   * the bonus up to the ceiling.
   */
  method EntryScore(score: int, prevLines: nat, lineCount: nat, fmt: Render) returns (next: int, tail: string)
    requires score <= Full
    ensures next == AdjustScore(score + Delta(prevLines, lineCount))
    ensures next <= Full
    ensures tail == "(" + fmt(next) + "), "
  {
    next := score;
    if lineCount - prevLines > FreeLines {
      var linesOver := lineCount - prevLines - FreeLines;
      next := next - PenaltyPerLine * linesOver;
      tail := "(" + fmt(next) + "), ";
    } else {
      next := next + Bonus;
      if next > Full {
        next := Full;
      }
      tail := "(" + fmt(next) + "), ";
    }
  }

  /**
   * `assign_inc_dev_score_trail(runs)` (incdev.py:104-152): one entry per
   * run, joined by ", ", with no trailing separator.
   */
  method AssignIncDevScoreTrail(runs: seq<Submission>, differ: Differ, fmt: Render) returns (trail: string)
    ensures trail == ScoreTrail(runs, differ, fmt)
  {
    trail := ScoreTrailLoop(runs, differ, fmt);
    TrailPrefixJoined(LineCounts(runs), Carets(runs, differ, |runs|), fmt);
    trail := DropLast(trail, 2);
  }

  /**
   * What the trail loop keeps after `i` runs: the accumulator, the previous
   * line count and code, and the entries built so far.
   */
  predicate ScoreLoopInvariant(runs: seq<Submission>, differ: Differ, fmt: Render, i: nat,
                               trail: string, score: int, prevLines: nat, prevCode: string)
  {
    && i <= |runs|
    && score == Acc(LineCounts(runs), i)
    && prevLines == (if i == 0 then 0 else LineCounts(runs)[i - 1])
    && prevCode == (if i == 0 then "" else Normalise(runs[i - 1].code))
    && (prevCode != "" ==> LineCount(prevCode) > 0)
    && trail == TrailPrefix(LineCounts(runs), Carets(runs, differ, |runs|), fmt, i)
  }

  /** The loop body at run `i`: the entry extends the trail prefix by one run. */
  method ScoreTrailPass(runs: seq<Submission>, i: nat, trail: string, prevCode: string, prevLines: nat, score: int,
                        differ: Differ, fmt: Render)
    returns (entry: string, code: string, lineCount: nat, next: int)
    requires i < |runs|
    requires ScoreLoopInvariant(runs, differ, fmt, i, trail, score, prevLines, prevCode)
    ensures ScoreLoopInvariant(runs, differ, fmt, i + 1, trail + entry, next, lineCount, code)
  {
    AccAtMostFull(LineCounts(runs), i);
    entry, code, lineCount, next := ScoreTrailEntry(prevCode, runs[i].code, prevLines, score, differ, fmt);
    ScoreLoopStep(runs, differ, fmt, i, trail, score, prevLines, prevCode, entry, code, lineCount, next);
  }

  /**
   * The loop of `assign_inc_dev_score_trail` (incdev.py:123-150): every
   * entry followed by ", ", before the last separator is cut.
   */
  method ScoreTrailLoop(runs: seq<Submission>, differ: Differ, fmt: Render) returns (trail: string)
    ensures trail == TrailPrefix(LineCounts(runs), Carets(runs, differ, |runs|), fmt, |runs|)
  {
    trail := "";
    var score := Full;
    var prevLines := 0;
    var prevCode := "";
    var i := 0;
    while i < |runs|
      invariant ScoreLoopInvariant(runs, differ, fmt, i, trail, score, prevLines, prevCode)
    {
      var entry, code, lineCount, next := ScoreTrailPass(runs, i, trail, prevCode, prevLines, score, differ, fmt);
      trail := trail + entry;
      score := next;
      prevLines := lineCount;
      prevCode := code;
      i := i + 1;
    }
    assert i == |runs|;
  }

  /** One pass of the trail loop keeps its invariant, one run further on. */
  lemma ScoreLoopStep(runs: seq<Submission>, differ: Differ, fmt: Render, i: nat, trail: string, score: int,
                      prevLines: nat, prevCode: string, entry: string, code: string, lineCount: nat, next: int)
    requires i < |runs|
    requires ScoreLoopInvariant(runs, differ, fmt, i, trail, score, prevLines, prevCode)
    requires code == Normalise(runs[i].code) && lineCount == LineCount(runs[i].code)
    requires code != "" ==> LineCount(code) > 0
    requires next == AdjustScore(score + Delta(prevLines, lineCount))
    requires entry == ScoreEntry(CaretBetween(prevCode, code, differ), lineCount, next, fmt)
    ensures ScoreLoopInvariant(runs, differ, fmt, i + 1, trail + entry, next, lineCount, code)
  {
    LineCountAt(runs, i);
    CaretsAt(runs, differ, |runs|, i);
  }

  /** Every entry of the prefix adds one '(' and, when flagged, one '^'. */
  lemma {:induction false} TrailPrefixCounts(counts: seq<nat>, carets: seq<bool>, fmt: Render, n: nat)
    requires |carets| == |counts| && n <= |counts|
    requires forall v :: Count('(', fmt(v)) == 0 && Count('^', fmt(v)) == 0
    ensures Count('(', TrailPrefix(counts, carets, fmt, n)) == n
    ensures Count('^', TrailPrefix(counts, carets, fmt, n)) == TrueCount(carets[..n])
    decreases n
  {
    if n > 0 {
      var before := TrailPrefix(counts, carets, fmt, n - 1);
      var token := ScoreToken(carets[n - 1], counts[n - 1], Acc(counts, n), fmt);
      TrailPrefixCounts(counts, carets, fmt, n - 1);
      TokenCounts(carets[n - 1], counts[n - 1], Acc(counts, n), fmt);
      SeparatorCounts();
      CountAppend('(', token, ", ");
      CountAppend('^', token, ", ");
      CountAppend('(', before, token + ", ");
      CountAppend('^', before, token + ", ");
      assert carets[..n][..n - 1] == carets[..n - 1];
    }
  }

  lemma SeparatorCounts()
    ensures Count('(', ", ") == 0 && Count('^', ", ") == 0
  {
    assert ", "[..1] == ",";
    assert ","[..0] == "";
  }

  /**
   * The score trail holds exactly one parenthesised score per run and one `^`
   * per flagged run, as long as the printed score values hold neither character.
   */
  lemma ScoreTrailCounts(counts: seq<nat>, carets: seq<bool>, fmt: Render)
    requires |carets| == |counts|
    requires forall v :: Count('(', fmt(v)) == 0 && Count('^', fmt(v)) == 0
    ensures Count('(', ScoreTrailOf(counts, carets, fmt)) == |counts|
    ensures Count('^', ScoreTrailOf(counts, carets, fmt)) == TrueCount(carets)
  {
    TrailPrefixCounts(counts, carets, fmt, |counts|);
    assert carets[..|counts|] == carets;
    if counts != [] {
      TrailPrefixJoined(counts, carets, fmt);
      SeparatorCounts();
      CountAppend('(', ScoreTrailOf(counts, carets, fmt), ", ");
      CountAppend('^', ScoreTrailOf(counts, carets, fmt), ", ");
    }
  }

  lemma TokenCounts(caret: bool, lineCount: nat, value: int, fmt: Render)
    requires Count('(', fmt(value)) == 0 && Count('^', fmt(value)) == 0
    ensures Count('(', ScoreToken(caret, lineCount, value, fmt)) == 1
    ensures Count('^', ScoreToken(caret, lineCount, value, fmt)) == (if caret then 1 else 0)
  {
    var c := if caret then "^" else "";
    var n := NatToString(lineCount);
    CountNatToString('(', lineCount);
    CountNatToString('^', lineCount);
    assert Count('(', " ") == 0 && Count('^', " ") == 0 by {
      assert " "[..0] == "";
    }
    assert Count('(', "(") == 1 && Count('^', "(") == 0 by {
      assert "("[..0] == "";
    }
    assert Count('(', ")") == 0 && Count('^', ")") == 0 by {
      assert ")"[..0] == "";
    }
    assert Count('(', c) == 0 && Count('^', c) == (if caret then 1 else 0) by {
      if caret { assert c[..0] == ""; }
    }
    forall ch | ch == '(' || ch == '^'
      ensures Count(ch, c + n + " " + "(" + fmt(value) + ")")
           == Count(ch, c) + Count(ch, n) + Count(ch, " ") + Count(ch, "(") + Count(ch, fmt(value)) + Count(ch, ")")
    {
      CountAppend(ch, c, n);
      CountAppend(ch, c + n, " ");
      CountAppend(ch, c + n + " ", "(");
      CountAppend(ch, c + n + " " + "(", fmt(value));
      CountAppend(ch, c + n + " " + "(" + fmt(value), ")");
    }
  }
}
