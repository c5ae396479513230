/**
 * The lines-of-code trail: the non-blank line count of every run, with the
 * runs of an unremarkable stretch shown as '.', a '^' before a count whose
 * run changed drastically, and a '*' after a count whose run added more than
 * 20 lines. Example: `13,25...^55`.
 */
module LocTrail {
  import opened Wrappers
  import opened Lines
  import opened Strings
  import opened Submissions
  import opened DiffRatio
  import opened Relevance

  /** The drastic rule between a previous and a current normalised code. */
  function DrasticRule(differ: Differ): (rule: (string, string) -> bool)
    ensures forall prev, code :: rule(prev, code) == DrasticBetween(prev, code, differ)
  {
    (prev, code) => DrasticBetween(prev, code, differ)
  }

  /**
   * The `drastic_change` list after the first `n` runs. It starts as `[0]`,
   * and run `i` appends its flag only when the normalised code of run
   * `i - 1` is not empty; a blank run therefore shifts every later flag.
   */
  function DrasticFlags(codes: seq<string>, rule: (string, string) -> bool, n: nat): (flags: seq<bool>)
    requires n <= |codes|
    ensures 1 <= |flags| <= if n == 0 then 1 else n
  {
    if n == 0 then [false]
    else
      DrasticFlags(codes, rule, n - 1) +
      (if n >= 2 && codes[n - 2] != "" then [rule(codes[n - 2], codes[n - 1])] else [])
  }

  /** Some run before the last one has no non-blank line. */
  predicate BlankBeforeLast(runs: seq<Submission>) {
    exists k :: 0 <= k < |runs| - 1 && Normalise(runs[k].code) == ""
  }

  /**
   * The drastic list has one flag per run exactly when no code before the
   * last is empty.
   */
  lemma {:induction false} DrasticLength(codes: seq<string>, rule: (string, string) -> bool, n: nat)
    requires 1 <= n <= |codes|
    ensures |DrasticFlags(codes, rule, n)| == n <==> forall k :: 0 <= k < n - 1 ==> codes[k] != ""
    decreases n
  {
    if n >= 2 {
      DrasticLength(codes, rule, n - 1);
    }
  }

  /** When it has one flag per run, flag `i` is the rule between runs `i - 1` and `i`. */
  lemma {:induction false} DrasticAt(codes: seq<string>, rule: (string, string) -> bool, n: nat, i: nat)
    requires 1 <= i < n <= |codes| && |DrasticFlags(codes, rule, n)| == n
    ensures DrasticFlags(codes, rule, n)[i] == rule(codes[i - 1], codes[i])
    decreases n
  {
    if i < n - 1 {
      DrasticAt(codes, rule, n - 1, i);
    }
  }

  /** A run before the last is blank exactly when its normalised code is empty. */
  lemma BlankBeforeLastCodes(runs: seq<Submission>)
    ensures BlankBeforeLast(runs) <==> exists k :: 0 <= k < |runs| - 1 && NormalisedCodes(runs)[k] == ""
  {
    if BlankBeforeLast(runs) {
      var k :| 0 <= k < |runs| - 1 && Normalise(runs[k].code) == "";
      NormalisedCodeAt(runs, k);
    }
    if exists k :: 0 <= k < |runs| - 1 && NormalisedCodes(runs)[k] == "" {
      var k :| 0 <= k < |runs| - 1 && NormalisedCodes(runs)[k] == "";
      NormalisedCodeAt(runs, k);
    }
  }

  /**
   * One pass of the first loop of `assign_loc_trail` (incdev.py:177-187):
   * the normalised code and its line count, and the drastic flag to append,
   * which is there only when the previous code is not empty.
   */
  method LinesEntry(prevCode: string, text: string, differ: Differ) returns (code: string, count: nat, flag: seq<bool>)
    requires prevCode != "" ==> LineCount(prevCode) > 0
    ensures code == Normalise(text) && count == LineCount(text)
    ensures code != "" ==> LineCount(code) > 0
    ensures flag == if prevCode != "" then [DrasticBetween(prevCode, code, differ)] else []
  {
    code, count := NormaliseCode(text);
    NormalisedHasLines(text);
    flag := [];
    if prevCode != "" {
      var diff := GetDiff(prevCode, code, differ);
      DrasticByCounts(prevCode, code, differ);
      if diff > DrasticThreshold {
        flag := [true];
      } else {
        flag := [false];
      }
    }
  }

  /**
   * The flags and counts of every run, as the first loop of
   * `assign_loc_trail` (incdev.py:176-187) builds them.
   */
  method BuildLines(runs: seq<Submission>, differ: Differ) returns (lines: seq<nat>, drastic: seq<bool>)
    ensures lines == LineCounts(runs)
    ensures drastic == DrasticFlags(NormalisedCodes(runs), DrasticRule(differ), |runs|)
  {
    lines := [];
    drastic := [false];
    var prevCode := "";
    var i := 0;
    while i < |runs|
      invariant LinesInvariant(runs, differ, i, lines, drastic, prevCode)
    {
      lines, drastic, prevCode := LinesPass(runs, differ, i, lines, drastic, prevCode);
      i := i + 1;
    }
    assert i == |runs|;
  }

  /** What the first loop keeps after `i` runs: the counts, the flags and the previous code. */
  predicate LinesInvariant(runs: seq<Submission>, differ: Differ, i: nat, lines: seq<nat>, drastic: seq<bool>, prevCode: string) {
    && i <= |runs| && |lines| == i
    && (forall k :: 0 <= k < i ==> lines[k] == LineCounts(runs)[k])
    && drastic == DrasticFlags(NormalisedCodes(runs), DrasticRule(differ), i)
    && prevCode == (if i == 0 then "" else NormalisedCodes(runs)[i - 1])
    && (prevCode != "" ==> LineCount(prevCode) > 0)
  }

  /** The loop body at run `i`: one more count, maybe one more flag, the new previous code. */
  method LinesPass(runs: seq<Submission>, differ: Differ, i: nat, lines: seq<nat>, drastic: seq<bool>, prevCode: string)
    returns (lines': seq<nat>, drastic': seq<bool>, code: string)
    requires i < |runs| && LinesInvariant(runs, differ, i, lines, drastic, prevCode)
    ensures LinesInvariant(runs, differ, i + 1, lines', drastic', code)
  {
    var count, flag;
    code, count, flag := LinesEntry(prevCode, runs[i].code, differ);
    LineCountAt(runs, i);
    NormalisedCodeAt(runs, i);
    lines' := lines + [count];
    drastic' := drastic + flag;
  }

  /**
   * What run `i` adds to the trail: '.' when omitted; otherwise ',' unless
   * the trail so far ends with '.', then '^' for a drastic change, the
   * count, and '*' for a tag other than 1.
   */
  function LocPiece(afterDot: bool, tag: nat, caret: bool, count: nat): string
  {
    if tag == 0 then "."
    else (if afterDot then "" else ",") + (if caret then "^" else "") + NatToString(count) + (if tag == 1 then "" else "*")
  }

  /** The trail of the first `n` runs: the first count, then one piece per run. */
  function LocTrailOf(lines: seq<nat>, drastic: seq<bool>, tags: seq<nat>, n: nat): (trail: string)
    requires 1 <= n <= |lines| && n <= |drastic| && n <= |tags|
    ensures |trail| > 0
  {
    if n == 1 then NatToString(lines[0])
    else
      LocTrailOf(lines, drastic, tags, n - 1) +
      LocPiece(n >= 3 && tags[n - 2] == 0, tags[n - 1], drastic[n - 1], lines[n - 1])
  }

  /** The trail ends with '.' exactly when its last run is omitted. */
  lemma LocTrailLast(lines: seq<nat>, drastic: seq<bool>, tags: seq<nat>, n: nat)
    requires 1 <= n <= |lines| && n <= |drastic| && n <= |tags|
    ensures var trail := LocTrailOf(lines, drastic, tags, n);
      trail[|trail| - 1] == '.' <==> n >= 2 && tags[n - 1] == 0
  {
    var trail := LocTrailOf(lines, drastic, tags, n);
    if n >= 2 && tags[n - 1] != 0 {
      var piece := LocPiece(n >= 3 && tags[n - 2] == 0, tags[n - 1], drastic[n - 1], lines[n - 1]);
      assert trail[|trail| - 1] == piece[|piece| - 1];
    }
  }

  /**
   * The last loop of `assign_loc_trail` (incdev.py:212-223): the first
   * count, then for each later run its piece, choosing the ',' by looking
   * at the last character of the trail built so far.
   */
  method RenderLocTrail(lines: seq<nat>, drastic: seq<bool>, tags: seq<nat>) returns (trail: string)
    requires 1 <= |lines| <= |drastic| && |lines| <= |tags|
    ensures trail == LocTrailOf(lines, drastic, tags, |lines|)
  {
    trail := NatToString(lines[0]);
    LocTrailFirst(lines, drastic, tags);
    var i := 1;
    while i < |lines|
      invariant 1 <= i <= |lines|
      invariant trail == LocTrailOf(lines, drastic, tags, i)
    {
      trail := RenderNext(lines, drastic, tags, i, trail);
      i := i + 1;
    }
    assert i == |lines|;
  }

  /** One pass of the last loop of `assign_loc_trail` (incdev.py:213-223): the run's piece, chosen by the trail's last character, joins the trail. */
  method AppendPiece(trail: string, tag: nat, caret: bool, count: nat) returns (extended: string)
    requires |trail| > 0
    ensures extended == trail + LocPiece(trail[|trail| - 1] == '.', tag, caret, count)
  {
    var piece := RenderPiece(trail[|trail| - 1], tag, caret, count);
    extended := trail + piece;
  }

  /** The loop body at run `i`: the trail of `i` runs becomes that of `i + 1`. */
  method RenderNext(lines: seq<nat>, drastic: seq<bool>, tags: seq<nat>, i: nat, trail: string) returns (extended: string)
    requires 1 <= i < |lines| && i < |drastic| && i < |tags|
    requires trail == LocTrailOf(lines, drastic, tags, i)
    ensures extended == LocTrailOf(lines, drastic, tags, i + 1)
  {
    LocTrailLast(lines, drastic, tags, i);
    extended := AppendPiece(trail, tags[i], drastic[i], lines[i]);
  }

  method RenderPiece(last: char, tag: nat, caret: bool, count: nat) returns (piece: string)
    ensures piece == LocPiece(last == '.', tag, caret, count)
  {
    if tag == 0 {
      piece := ".";
    } else {
      piece := if last != '.' then "," else "";
      if caret {
        piece := piece + "^";
      }
      if tag == 1 {
        piece := piece + NatToString(count);
      } else {
        piece := piece + NatToString(count) + "*";
      }
    }
  }

  /** Number of omitted runs among runs 1 to `n - 1`. */
  function DotTally(tags: seq<nat>, n: nat): nat
    requires n <= |tags|
  {
    if n <= 1 then 0 else DotTally(tags, n - 1) + (if tags[n - 1] == 0 then 1 else 0)
  }

  /** Number of runs among 1 to `n - 1` shown with a '*'. */
  function StarTally(tags: seq<nat>, n: nat): nat
    requires n <= |tags|
  {
    if n <= 1 then 0 else StarTally(tags, n - 1) + (if tags[n - 1] != 0 && tags[n - 1] != 1 then 1 else 0)
  }

  /** Number of runs among 1 to `n - 1` shown with a '^'. */
  function CaretTally(tags: seq<nat>, drastic: seq<bool>, n: nat): nat
    requires n <= |tags| && n <= |drastic|
  {
    if n <= 1 then 0 else CaretTally(tags, drastic, n - 1) + (if tags[n - 1] != 0 && drastic[n - 1] then 1 else 0)
  }

  /** Number of shown runs among 1 to `n - 1` that do not directly follow an omitted one. */
  function CommaTally(tags: seq<nat>, n: nat): nat
    requires n <= |tags|
  {
    if n <= 1 then 0
    else CommaTally(tags, n - 1) + (if tags[n - 1] != 0 && !(n >= 3 && tags[n - 2] == 0) then 1 else 0)
  }

  /** A mark that is not a digit occurs in a shown piece only in its prefix and suffix. */
  lemma PieceCount(c: char, afterDot: bool, tag: nat, caret: bool, count: nat)
    requires !IsDigit(c)
    ensures Count(c, LocPiece(afterDot, tag, caret, count)) ==
      if tag == 0 then Count(c, ".")
      else (Count(c, if afterDot then "" else ",") + Count(c, if caret then "^" else "") +
        Count(c, if tag == 1 then "" else "*"))
  {
    if tag != 0 {
      var comma := if afterDot then "" else ",";
      var hat := if caret then "^" else "";
      var star := if tag == 1 then "" else "*";
      var digits := NatToString(count);
      CountAppend(c, comma + hat + digits, star);
      CountAppend(c, comma + hat, digits);
      CountAppend(c, comma, hat);
      CountNatToString(c, count);
    }
  }

  /** The marks one piece holds. */
  lemma PieceCounts(afterDot: bool, tag: nat, caret: bool, count: nat)
    ensures Count('.', LocPiece(afterDot, tag, caret, count)) == (if tag == 0 then 1 else 0)
    ensures Count('*', LocPiece(afterDot, tag, caret, count)) == (if tag != 0 && tag != 1 then 1 else 0)
    ensures Count('^', LocPiece(afterDot, tag, caret, count)) == (if tag != 0 && caret then 1 else 0)
    ensures Count(',', LocPiece(afterDot, tag, caret, count)) == (if tag != 0 && !afterDot then 1 else 0)
  {
    PieceCount('.', afterDot, tag, caret, count);
    PieceCount('*', afterDot, tag, caret, count);
    PieceCount('^', afterDot, tag, caret, count);
    PieceCount(',', afterDot, tag, caret, count);
  }

  /** The trail of one run is the first count. */
  lemma LocTrailFirst(lines: seq<nat>, drastic: seq<bool>, tags: seq<nat>)
    requires 1 <= |lines| && 1 <= |drastic| && 1 <= |tags|
    ensures LocTrailOf(lines, drastic, tags, 1) == NatToString(lines[0])
  {
  }

  /** A mark occurs in the trail as often as in the shorter trail and the last piece together. */
  lemma LocTrailStep(c: char, lines: seq<nat>, drastic: seq<bool>, tags: seq<nat>, n: nat)
    requires 2 <= n <= |lines| && n <= |drastic| && n <= |tags|
    ensures Count(c, LocTrailOf(lines, drastic, tags, n)) ==
      Count(c, LocTrailOf(lines, drastic, tags, n - 1)) +
      Count(c, LocPiece(n >= 3 && tags[n - 2] == 0, tags[n - 1], drastic[n - 1], lines[n - 1]))
  {
    CountAppend(c, LocTrailOf(lines, drastic, tags, n - 1),
      LocPiece(n >= 3 && tags[n - 2] == 0, tags[n - 1], drastic[n - 1], lines[n - 1]));
  }

  /** No mark occurs in the first count. */
  lemma LocTrailFirstMarks(lines: seq<nat>, drastic: seq<bool>, tags: seq<nat>)
    requires 1 <= |lines| && 1 <= |drastic| && 1 <= |tags|
    ensures Count('.', LocTrailOf(lines, drastic, tags, 1)) == 0
    ensures Count('*', LocTrailOf(lines, drastic, tags, 1)) == 0
    ensures Count('^', LocTrailOf(lines, drastic, tags, 1)) == 0
    ensures Count(',', LocTrailOf(lines, drastic, tags, 1)) == 0
  {
    LocTrailFirst(lines, drastic, tags);
    CountNatToString('.', lines[0]);
    CountNatToString('*', lines[0]);
    CountNatToString('^', lines[0]);
    CountNatToString(',', lines[0]);
  }

  /** The trail holds one '.' per omitted run. */
  lemma {:induction false} LocTrailDots(lines: seq<nat>, drastic: seq<bool>, tags: seq<nat>, n: nat)
    requires 1 <= n <= |lines| && n <= |drastic| && n <= |tags|
    ensures Count('.', LocTrailOf(lines, drastic, tags, n)) == DotTally(tags, n)
    decreases n, 1
  {
    if n == 1 {
      LocTrailFirstMarks(lines, drastic, tags);
    } else {
      LocTrailDotsAbove(lines, drastic, tags, n);
    }
  }

  lemma {:induction false} LocTrailDotsAbove(lines: seq<nat>, drastic: seq<bool>, tags: seq<nat>, n: nat)
    requires 2 <= n <= |lines| && n <= |drastic| && n <= |tags|
    ensures Count('.', LocTrailOf(lines, drastic, tags, n)) == DotTally(tags, n)
    decreases n, 0
  {
    LocTrailDots(lines, drastic, tags, n - 1);
    LocTrailDotStep(lines, drastic, tags, n);
  }

  lemma LocTrailDotStep(lines: seq<nat>, drastic: seq<bool>, tags: seq<nat>, n: nat)
    requires 2 <= n <= |lines| && n <= |drastic| && n <= |tags|
    requires Count('.', LocTrailOf(lines, drastic, tags, n - 1)) == DotTally(tags, n - 1)
    ensures Count('.', LocTrailOf(lines, drastic, tags, n)) == DotTally(tags, n)
  {
    LocTrailStep('.', lines, drastic, tags, n);
    PieceCounts(n >= 3 && tags[n - 2] == 0, tags[n - 1], drastic[n - 1], lines[n - 1]);
  }

  /** The trail holds one '*' per run tagged other than 0 and 1. */
  lemma {:induction false} LocTrailStars(lines: seq<nat>, drastic: seq<bool>, tags: seq<nat>, n: nat)
    requires 1 <= n <= |lines| && n <= |drastic| && n <= |tags|
    ensures Count('*', LocTrailOf(lines, drastic, tags, n)) == StarTally(tags, n)
    decreases n, 1
  {
    if n == 1 {
      LocTrailFirstMarks(lines, drastic, tags);
    } else {
      LocTrailStarsAbove(lines, drastic, tags, n);
    }
  }

  lemma {:induction false} LocTrailStarsAbove(lines: seq<nat>, drastic: seq<bool>, tags: seq<nat>, n: nat)
    requires 2 <= n <= |lines| && n <= |drastic| && n <= |tags|
    ensures Count('*', LocTrailOf(lines, drastic, tags, n)) == StarTally(tags, n)
    decreases n, 0
  {
    LocTrailStars(lines, drastic, tags, n - 1);
    LocTrailStarStep(lines, drastic, tags, n);
  }

  lemma LocTrailStarStep(lines: seq<nat>, drastic: seq<bool>, tags: seq<nat>, n: nat)
    requires 2 <= n <= |lines| && n <= |drastic| && n <= |tags|
    requires Count('*', LocTrailOf(lines, drastic, tags, n - 1)) == StarTally(tags, n - 1)
    ensures Count('*', LocTrailOf(lines, drastic, tags, n)) == StarTally(tags, n)
  {
    LocTrailStep('*', lines, drastic, tags, n);
    PieceCounts(n >= 3 && tags[n - 2] == 0, tags[n - 1], drastic[n - 1], lines[n - 1]);
  }

  /** The trail holds one '^' per shown run with a drastic change. */
  lemma {:induction false} LocTrailCarets(lines: seq<nat>, drastic: seq<bool>, tags: seq<nat>, n: nat)
    requires 1 <= n <= |lines| && n <= |drastic| && n <= |tags|
    ensures Count('^', LocTrailOf(lines, drastic, tags, n)) == CaretTally(tags, drastic, n)
    decreases n, 1
  {
    if n == 1 {
      LocTrailFirstMarks(lines, drastic, tags);
    } else {
      LocTrailCaretsAbove(lines, drastic, tags, n);
    }
  }

  lemma {:induction false} LocTrailCaretsAbove(lines: seq<nat>, drastic: seq<bool>, tags: seq<nat>, n: nat)
    requires 2 <= n <= |lines| && n <= |drastic| && n <= |tags|
    ensures Count('^', LocTrailOf(lines, drastic, tags, n)) == CaretTally(tags, drastic, n)
    decreases n, 0
  {
    LocTrailCarets(lines, drastic, tags, n - 1);
    LocTrailCaretStep(lines, drastic, tags, n);
  }

  lemma LocTrailCaretStep(lines: seq<nat>, drastic: seq<bool>, tags: seq<nat>, n: nat)
    requires 2 <= n <= |lines| && n <= |drastic| && n <= |tags|
    requires Count('^', LocTrailOf(lines, drastic, tags, n - 1)) == CaretTally(tags, drastic, n - 1)
    ensures Count('^', LocTrailOf(lines, drastic, tags, n)) == CaretTally(tags, drastic, n)
  {
    LocTrailStep('^', lines, drastic, tags, n);
    PieceCounts(n >= 3 && tags[n - 2] == 0, tags[n - 1], drastic[n - 1], lines[n - 1]);
  }

  /** The trail holds one ',' per shown run that does not directly follow an omitted one. */
  lemma {:induction false} LocTrailCommas(lines: seq<nat>, drastic: seq<bool>, tags: seq<nat>, n: nat)
    requires 1 <= n <= |lines| && n <= |drastic| && n <= |tags|
    ensures Count(',', LocTrailOf(lines, drastic, tags, n)) == CommaTally(tags, n)
    decreases n, 1
  {
    if n == 1 {
      LocTrailFirstMarks(lines, drastic, tags);
    } else {
      LocTrailCommasAbove(lines, drastic, tags, n);
    }
  }

  lemma {:induction false} LocTrailCommasAbove(lines: seq<nat>, drastic: seq<bool>, tags: seq<nat>, n: nat)
    requires 2 <= n <= |lines| && n <= |drastic| && n <= |tags|
    ensures Count(',', LocTrailOf(lines, drastic, tags, n)) == CommaTally(tags, n)
    decreases n, 0
  {
    LocTrailCommas(lines, drastic, tags, n - 1);
    LocTrailCommaStep(lines, drastic, tags, n);
  }

  lemma LocTrailCommaStep(lines: seq<nat>, drastic: seq<bool>, tags: seq<nat>, n: nat)
    requires 2 <= n <= |lines| && n <= |drastic| && n <= |tags|
    requires Count(',', LocTrailOf(lines, drastic, tags, n - 1)) == CommaTally(tags, n - 1)
    ensures Count(',', LocTrailOf(lines, drastic, tags, n)) == CommaTally(tags, n)
  {
    LocTrailStep(',', lines, drastic, tags, n);
    PieceCounts(n >= 3 && tags[n - 2] == 0, tags[n - 1], drastic[n - 1], lines[n - 1]);
  }

  /** The trail starts with the count of the first run. */
  lemma {:induction false} LocTrailStartsWithFirst(lines: seq<nat>, drastic: seq<bool>, tags: seq<nat>, n: nat)
    requires 1 <= n <= |lines| && n <= |drastic| && n <= |tags|
    ensures NatToString(lines[0]) <= LocTrailOf(lines, drastic, tags, n)
    decreases n
  {
    if n > 1 {
      LocTrailStartsWithFirst(lines, drastic, tags, n - 1);
    }
  }

  /**
   * The relevance list `assign_loc_trail` renders: the seeded list after the
   * values pass and then the length pass.
   */
  function LocTags(lines: seq<int>, drastic: seq<bool>): (tags: seq<nat>)
    requires |lines| <= |drastic| + 1
    ensures |tags| == if |lines| < 2 then 2 else |lines|
  {
    LengthPass(ValuesPass(Seeded(lines, drastic), lines))
  }

  /**
   * What the relevance list of the trail promises: it starts and ends with
   * 1, differs from the seeded list only by zeros shown as 1, and leaves
   * every omitted stretch 3 to 10 runs long; a seeded stretch of at most 10
   * runs that follow the trend of its ends stays omitted when it is at
   * least 3 runs long and is shown otherwise; and the first run that breaks
   * the trend of a seeded stretch is shown.
   */
  lemma LocTagsFacts(lines: seq<int>, drastic: seq<bool>)
    requires |lines| <= |drastic| + 1
    ensures var tags := LocTags(lines, drastic);
      tags[0] == 1 && tags[|tags| - 1] == 1 && Promotes(Seeded(lines, drastic), tags)
    ensures forall s, e :: ClosedZeroRun(LocTags(lines, drastic), s, e) ==> 2 <= e - s <= 9
    ensures forall s, e ::
      ClosedZeroRun(Seeded(lines, drastic), s, e) && e - s < 10 && StretchFollowsTrend(lines, s, e) ==>
      forall j :: s <= j <= e ==> LocTags(lines, drastic)[j] == if e - s < 2 then 1 else 0
    ensures forall s, e, k :: ClosedZeroRun(Seeded(lines, drastic), s, e) && FirstBreak(lines, s, e, k) ==>
      LocTags(lines, drastic)[k] == 1
  {
    var seeded := Seeded(lines, drastic);
    var valued := ValuesPass(seeded, lines);
    var tags := LocTags(lines, drastic);
    ValuesPassFacts(seeded, lines);
    LengthPassFacts(valued);
    PromotesTransitive(seeded, valued, tags);
    forall s, e | ClosedZeroRun(seeded, s, e) && e - s < 10 && StretchFollowsTrend(lines, s, e)
      ensures forall j :: s <= j <= e ==> tags[j] == if e - s < 2 then 1 else 0
    {
      assert ValuesSettled(lines, valued, s, e);
      assert ClosedZeroRun(valued, s, e);
    }
    forall s, e, k | ClosedZeroRun(seeded, s, e) && FirstBreak(lines, s, e, k)
      ensures tags[k] == 1
    {
      assert ValuesSettled(lines, valued, s, e);
    }
  }

  /**
   * Five runs of 10 lines with no drastic change: the three interior runs
   * follow the trend and are omitted, so the trail reads `10...10`.
   */
  lemma LocTagsQuietExample()
    ensures LocTags([10, 10, 10, 10, 10], [false, false, false, false, false]) == [1, 0, 0, 0, 1]
  {
    var lines := [10, 10, 10, 10, 10];
    var drastic := [false, false, false, false, false];
    var seeded := Seeded(lines, drastic);
    assert seeded == [1, 0, 0, 0, 1];
    assert ClosedZeroRun(seeded, 1, 3) && StretchFollowsTrend(lines, 1, 3);
    LocTagsFacts(lines, drastic);
    var tags := LocTags(lines, drastic);
    assert forall k :: 0 <= k < 5 ==> tags[k] == [1, 0, 0, 0, 1][k];
  }

  /** With those tags, the trail of the five runs is `10...10`. */
  lemma LocTrailQuietExample()
    ensures LocTrailOf([10, 10, 10, 10, 10], [false, false, false, false, false], [1, 0, 0, 0, 1], 5) == "10...10"
  {
  }

  /**
   * `assign_loc_trail(runs)` (incdev.py:154-224). There is no trail (Python
   * raises `IndexError`) when there are no runs, or when a run before the
   * last is blank: it adds no drastic flag, so the list falls short of the
   * last run. Otherwise the trail renders the relevance list `LocTags`
   * builds from the line counts and the drastic flags.
   */
  method AssignLocTrail(runs: seq<Submission>, differ: Differ) returns (trail: Option<string>)
    ensures trail.None? <==> runs == [] || BlankBeforeLast(runs)
    ensures trail.Some? ==>
      |DrasticFlags(NormalisedCodes(runs), DrasticRule(differ), |runs|)| == |runs| &&
      trail.value == LocTrailOf(LineCounts(runs), DrasticFlags(NormalisedCodes(runs), DrasticRule(differ), |runs|),
        LocTags(LineCounts(runs), DrasticFlags(NormalisedCodes(runs), DrasticRule(differ), |runs|)), |runs|)
  {
    var lines, drastic := BuildLines(runs, differ);
    if |runs| == 0 {
      return None;
    }
    DrasticLength(NormalisedCodes(runs), DrasticRule(differ), |runs|);
    BlankBeforeLastCodes(runs);
    if |drastic| < |lines| {
      return None;
    }
    var seeded := SeedRelevance(lines, drastic);
    var relevance := new nat[|seeded|](k requires 0 <= k < |seeded| => seeded[k]);
    assert relevance[..] == seeded;
    CheckSubsequenceValues(relevance, lines);
    CheckSubsequenceLength(relevance);
    var rendered := RenderLocTrail(lines, drastic, relevance[..]);
    trail := Some(rendered);
  }
}
