/**
 * The relevance list of the LOC trail. Every run gets a tag: 0 for a run
 * the trail shows as a '.', 1 for a run whose count it prints, 2 for a run
 * whose count it prints with a '*' (more than 20 lines added). Three passes
 * build it: seeding from the line counts, the values pass (a run that
 * leaves the trend of its omitted stretch is shown), and the length pass
 * (an omitted stretch is at least 3 and at most 10 runs long).
 */
module Relevance {
  import opened Wrappers

  /** `abs(x)`. */
  function Abs(x: int): (r: nat)
    ensures r == x || r == -x
  {
    if x < 0 then -x else x
  }

  /**
   * Run `i` is notable: its count moved by more than 10 lines either way
   * from run `i - 1`, or its diff against run `i - 1` was drastic.
   */
  predicate Notable(lines: seq<int>, drastic: seq<bool>, i: nat)
    requires 1 <= i < |lines| && i < |drastic|
  {
    Abs(lines[i] - lines[i - 1]) > 10 || drastic[i]
  }

  /** The tag run `i` gives itself: 2 for more than 20 added lines, 1 when notable, else 0. */
  function OwnTag(lines: seq<int>, drastic: seq<bool>, i: nat): (tag: nat)
    requires 1 <= i < |lines| && i < |drastic|
    ensures tag <= 2
  {
    if lines[i] - lines[i - 1] > 20 then 2
    else if Notable(lines, drastic, i) then 1
    else 0
  }

  /**
   * The seeded tag of an interior run: 1 when the next interior run is
   * notable (a notable run forces its predecessor to be shown, overwriting a
   * 2), otherwise the run's own tag.
   */
  function SeedTag(lines: seq<int>, drastic: seq<bool>, i: nat): (tag: nat)
    requires 1 <= i < |lines| - 1 && |lines| <= |drastic| + 1
    ensures tag <= 2
  {
    if i + 1 < |lines| - 1 && OwnTag(lines, drastic, i + 1) != 0 then 1
    else OwnTag(lines, drastic, i)
  }

  /**
   * The relevance list as the seeding pass of `assign_loc_trail` leaves it:
   * 1 at both ends, the seeded tag in between; `[1, 1]` for fewer than two
   * runs. Every zero tag has a line count.
   */
  function Seeded(lines: seq<int>, drastic: seq<bool>): (tags: seq<nat>)
    requires |lines| <= |drastic| + 1
    ensures |tags| == if |lines| < 2 then 2 else |lines|
    ensures tags[0] == 1 && tags[|tags| - 1] == 1
    ensures CountsCoverZeros(tags, lines)
  {
    if |lines| < 2 then [1, 1]
    else
      seq(|lines|, i requires 0 <= i < |lines| =>
        if i == 0 || i == |lines| - 1 then 1 else SeedTag(lines, drastic, i))
  }

  /**
   * The seeding pass of `assign_loc_trail` (incdev.py:190-205). The list
   * starts and ends with 1; interior run `i` takes its own tag, and a
   * notable run at `i` first sets the tag of run `i - 1` to 1. With fewer
   * than two runs the list is still `[1, 1]`.
   */
  method SeedRelevance(lines: seq<int>, drastic: seq<bool>) returns (tags: seq<nat>)
    requires |lines| <= |drastic| + 1
    ensures |tags| == if |lines| < 2 then 2 else |lines|
    ensures tags[0] == 1 && tags[|tags| - 1] == 1
    ensures forall i :: 1 <= i < |tags| - 1 ==> tags[i] == SeedTag(lines, drastic, i)
    ensures tags == Seeded(lines, drastic)
  {
    tags := [1];
    var i := 1;
    while i < |lines| - 1
      invariant 1 <= i <= if |lines| >= 2 then |lines| - 1 else 1
      invariant |tags| == i
      invariant tags[0] == 1
      invariant forall k :: 1 <= k < i - 1 ==> tags[k] == SeedTag(lines, drastic, k)
      invariant i >= 2 ==> tags[i - 1] == OwnTag(lines, drastic, i - 1)
    {
      if lines[i] - lines[i - 1] > 20 {
        tags := tags[|tags| - 1 := 1];
        tags := tags + [2];
      } else if Abs(lines[i] - lines[i - 1]) > 10 || drastic[i] {
        tags := tags[|tags| - 1 := 1];
        tags := tags + [1];
      } else {
        tags := tags + [0];
      }
      i := i + 1;
    }
    tags := tags + [1];
  }

  /** A seeded 2 sits only at an interior run that added more than 20 lines. */
  lemma SeedTwoOnlyOnJump(lines: seq<int>, drastic: seq<bool>, i: nat)
    requires 1 <= i < |lines| - 1 && |lines| <= |drastic| + 1
    requires SeedTag(lines, drastic, i) == 2
    ensures lines[i] - lines[i - 1] > 20
  {
  }

  /** A notable interior run forces the tag of the run before it to 1. */
  lemma NotableShowsPredecessor(lines: seq<int>, drastic: seq<bool>, i: nat)
    requires 2 <= i < |lines| - 1 && |lines| <= |drastic| + 1
    requires Notable(lines, drastic, i) || lines[i] - lines[i - 1] > 20
    ensures SeedTag(lines, drastic, i - 1) == 1
  {
  }

  /** Python truthiness of `start_loc` and `end_loc`: neither `None` nor 0. */
  predicate Truthy(loc: Option<nat>) {
    loc.Some? && loc.value != 0
  }

  /**
   * Runs `s..e` form a maximal stretch of zero tags with a non-zero tag on
   * each side.
   */
  predicate ClosedZeroRun(t: seq<nat>, s: int, e: int) {
    0 < s <= e < |t| - 1 && t[s - 1] != 0 && t[e + 1] != 0 &&
    forall j :: s <= j <= e ==> t[j] == 0
  }

  /** `after` is `before` with some zero tags turned into 1: nothing else changes. */
  predicate Promotes(before: seq<nat>, after: seq<nat>) {
    |after| == |before| &&
    forall k :: 0 <= k < |before| ==> after[k] == before[k] || (before[k] == 0 && after[k] == 1)
  }

  /** Promoting twice is promoting once: a 1 is never turned back. */
  lemma PromotesTransitive(a: seq<nat>, b: seq<nat>, c: seq<nat>)
    requires Promotes(a, b) && Promotes(b, c)
    ensures Promotes(a, c)
  {
  }

  /** The count of run `j` lies between the counts at the two ends `s` and `e` of its stretch. */
  predicate FollowsTrend(lines: seq<int>, s: int, e: int, j: int)
    requires 0 <= s < |lines| && 0 <= e < |lines| && 0 <= j < |lines|
  {
    if lines[s] < lines[e] then lines[s] <= lines[j] <= lines[e]
    else lines[e] <= lines[j] <= lines[s]
  }

  /** Every run of the stretch `s..e` follows the trend of its ends. */
  predicate StretchFollowsTrend(lines: seq<int>, s: int, e: int) {
    0 <= s <= e < |lines| && forall j :: s <= j <= e ==> FollowsTrend(lines, s, e, j)
  }

  /** Run `k` is the first run of the stretch `s..e` that leaves the trend of its ends. */
  predicate FirstBreak(lines: seq<int>, s: int, e: int, k: int) {
    0 <= s <= k <= e < |lines| && !FollowsTrend(lines, s, e, k) &&
    forall m :: s <= m < k ==> FollowsTrend(lines, s, e, m)
  }

  /** Every zero tag has a line count, so the values pass reads only counts that exist. */
  predicate CountsCoverZeros(t: seq<nat>, lines: seq<int>) {
    forall k :: 0 <= k < |t| && t[k] == 0 ==> k < |lines|
  }

  /**
   * Whether run `j` leaves the trend of the stretch whose current start is
   * `start` and whose end is `e` (incdev.py:472-482): outside the range
   * between their counts, read in the direction the two ends give.
   */
  predicate Leaves(lines: seq<int>, start: nat, e: nat, j: nat)
    requires start < |lines| && e < |lines| && j < |lines|
  {
    if lines[start] < lines[e] then lines[j] < lines[start] || lines[j] > lines[e]
    else lines[j] > lines[start] || lines[j] < lines[e]
  }

  /**
   * The inner loop of the values pass from run `j` to the stretch's end `e`,
   * with `start` as `start_loc` now: a run that leaves the trend is shown
   * and the stretch is taken to start at the run after it.
   */
  function ValuesWalk(t: seq<nat>, lines: seq<int>, start: nat, j: nat, e: nat): (r: seq<nat>)
    requires start <= j && (j <= e ==> e < |t| && e < |lines|)
    ensures |r| == |t|
    ensures forall k :: 0 <= k < |t| ==> r[k] == t[k] || (j <= k <= e && r[k] == 1)
    decreases e + 1 - j
  {
    if j > e then t
    else if Leaves(lines, start, e, j) then ValuesWalk(t[j := 1], lines, j + 1, j + 1, e)
    else ValuesWalk(t, lines, start, j + 1, e)
  }

  /** The state of a pass over the relevance list: the tags and the two markers. */
  datatype PassState = PassState(tags: seq<nat>, startLoc: Option<nat>, endLoc: Option<nat>)

  /**
   * One iteration of the values pass at index `i`: open a stretch at a zero
   * after a non-zero tag, or close it at a non-zero tag after a zero; once
   * both markers are set, walk the stretch and reset both.
   */
  function ValuesStep(st: PassState, lines: seq<int>, i: nat): (r: PassState)
    requires 1 <= i < |st.tags| && CountsCoverZeros(st.tags, lines)
    requires Truthy(st.endLoc) ==> st.endLoc.value < i && st.endLoc.value < |lines|
    ensures |r.tags| == |st.tags| && CountsCoverZeros(r.tags, lines)
    ensures Truthy(r.endLoc) ==> r.endLoc.value < i + 1 && r.endLoc.value < |lines|
  {
    var t := st.tags;
    var mid :=
      if t[i] == 0 && t[i - 1] > 0 then st.(startLoc := Some(i))
      else if t[i] > 0 && t[i - 1] == 0 then st.(endLoc := Some(i - 1))
      else st;
    if Truthy(mid.startLoc) && Truthy(mid.endLoc) then
      PassState(ValuesWalk(t, lines, mid.startLoc.value, mid.startLoc.value, mid.endLoc.value), None, None)
    else mid
  }

  /** The values pass after the iterations for indices 1 to `n - 1`. */
  function ValuesFold(t: seq<nat>, lines: seq<int>, n: nat): (st: PassState)
    requires CountsCoverZeros(t, lines) && 1 <= n <= |t|
    ensures |st.tags| == |t| && CountsCoverZeros(st.tags, lines)
    ensures Truthy(st.endLoc) ==> st.endLoc.value < n && st.endLoc.value < |lines|
    decreases n
  {
    if n == 1 then PassState(t, None, None)
    else ValuesStep(ValuesFold(t, lines, n - 1), lines, n - 1)
  }

  /** The list `check_subsequence_values` returns. */
  function ValuesPass(t: seq<nat>, lines: seq<int>): (r: seq<nat>)
    requires CountsCoverZeros(t, lines)
    ensures |r| == |t|
  {
    if |t| == 0 then t else ValuesFold(t, lines, |t|).tags
  }

  /**
   * `check_subsequence_values(relevance_list, lines)` (incdev.py:443-485),
   * in place: at the end of every stretch of zero tags, walks the stretch
   * and shows each run whose count leaves the range between the counts at
   * the stretch's current start and its end.
   */
  method CheckSubsequenceValues(tags: array<nat>, lines: seq<int>)
    requires CountsCoverZeros(tags[..], lines)
    modifies tags
    ensures tags[..] == ValuesPass(old(tags[..]), lines)
  {
    if tags.Length == 0 {
      return;
    }
    ghost var t0 := tags[..];
    var startLoc: Option<nat> := None;
    var endLoc: Option<nat> := None;
    var i := 1;
    while i < tags.Length
      invariant 1 <= i <= tags.Length
      invariant PassState(tags[..], startLoc, endLoc) == ValuesFold(t0, lines, i)
    {
      startLoc, endLoc := CheckValuesAt(tags, lines, i, startLoc, endLoc);
      i := i + 1;
    }
  }

  /** One iteration of `check_subsequence_values` on the array, as `ValuesStep` describes it. */
  method CheckValuesAt(tags: array<nat>, lines: seq<int>, i: nat, startLoc: Option<nat>, endLoc: Option<nat>)
    returns (startAfter: Option<nat>, endAfter: Option<nat>)
    requires 1 <= i < tags.Length && CountsCoverZeros(tags[..], lines)
    requires Truthy(endLoc) ==> endLoc.value < i && endLoc.value < |lines|
    modifies tags
    ensures PassState(tags[..], startAfter, endAfter) ==
      ValuesStep(PassState(old(tags[..]), startLoc, endLoc), lines, i)
  {
    startAfter, endAfter := startLoc, endLoc;
    if tags[i] == 0 && tags[i - 1] > 0 {
      startAfter := Some(i);
    } else if tags[i] > 0 && tags[i - 1] == 0 {
      endAfter := Some(i - 1);
    }
    if Truthy(startAfter) && Truthy(endAfter) {
      ValuesStretch(tags, lines, startAfter.value, endAfter.value);
      startAfter := None;
      endAfter := None;
    }
  }

  /**
   * The inner loop of the values pass (incdev.py:470-482) over the stretch
   * `s..e`, with `start_loc` moving past every run it shows.
   */
  method ValuesStretch(tags: array<nat>, lines: seq<int>, s: nat, e: nat)
    requires s <= e ==> e < tags.Length && e < |lines|
    modifies tags
    ensures tags[..] == ValuesWalk(old(tags[..]), lines, s, s, e)
  {
    var startLoc: nat := s;
    var j := s;
    while j < e + 1
      invariant s <= j && startLoc <= j && (s <= e ==> j <= e + 1) && (e < s ==> j == s)
      invariant ValuesWalk(tags[..], lines, startLoc, j, e) == ValuesWalk(old(tags[..]), lines, s, s, e)
    {
      if lines[startLoc] < lines[e] {
        if lines[j] < lines[startLoc] || lines[j] > lines[e] {
          tags[j] := 1;
          startLoc := j + 1;
        }
      } else {
        if lines[j] > lines[startLoc] || lines[j] < lines[e] {
          tags[j] := 1;
          startLoc := j + 1;
        }
      }
      j := j + 1;
    }
  }

  /** A walk from the stretch's start over runs that all follow its trend changes nothing. */
  lemma {:induction false} WalkSteady(t: seq<nat>, lines: seq<int>, s: nat, j: nat, e: nat)
    requires s <= j && (j <= e ==> e < |t| && e < |lines|)
    requires forall m :: j <= m <= e ==> FollowsTrend(lines, s, e, m)
    ensures ValuesWalk(t, lines, s, j, e) == t
    decreases e + 1 - j
  {
    if j <= e {
      assert FollowsTrend(lines, s, e, j);
      assert !Leaves(lines, s, e, j);
      WalkSteady(t, lines, s, j + 1, e);
    }
  }

  /**
   * The walk shows the first run that breaks the trend of the stretch's
   * ends, and leaves every run before it as it was.
   */
  lemma {:induction false} WalkFirstBreak(t: seq<nat>, lines: seq<int>, s: nat, j: nat, e: nat, k: nat)
    requires s <= j <= k && FirstBreak(lines, s, e, k) && e < |t|
    ensures ValuesWalk(t, lines, s, j, e)[k] == 1
    ensures forall m :: j <= m < k ==> ValuesWalk(t, lines, s, j, e)[m] == t[m]
    decreases k - j
  {
    if j < k {
      assert FollowsTrend(lines, s, e, j);
      assert !Leaves(lines, s, e, j);
      WalkFirstBreak(t, lines, s, j + 1, e, k);
    } else {
      assert Leaves(lines, s, e, j);
    }
  }

  /**
   * What the values pass leaves in the stretch `s..e`: all of it omitted
   * when every run follows the trend of its ends; otherwise the first run
   * that breaks the trend shown and every run before it omitted.
   */
  ghost predicate ValuesSettled(lines: seq<int>, t: seq<nat>, s: nat, e: nat)
    requires e < |t|
  {
    (StretchFollowsTrend(lines, s, e) ==> forall j :: s <= j <= e ==> t[j] == 0) &&
    (forall k :: FirstBreak(lines, s, e, k) ==> t[k] == 1 && forall m :: s <= m < k ==> t[m] == 0)
  }

  /**
   * What holds of the values pass before index `i`: only zeros inside
   * closed stretches were promoted, nothing from `i - 1` on was touched, an
   * open stretch starts after a non-zero tag and holds only zeros, and, when
   * the first tag is not zero, every closed stretch before `i - 1` is settled.
   */
  ghost predicate ValuesInvariant(t0: seq<nat>, lines: seq<int>, st: PassState, i: nat) {
    var t := st.tags;
    |t| == |t0| && 1 <= i <= |t| && Promotes(t0, t) &&
    (forall k :: i - 1 <= k < |t| ==> t[k] == t0[k]) &&
    (forall k :: 0 <= k < |t| && t[k] != t0[k] ==> exists s, e :: ClosedZeroRun(t0, s, e) && s <= k <= e) &&
    !(Truthy(st.startLoc) && Truthy(st.endLoc)) &&
    (Truthy(st.startLoc) ==>
      var s := st.startLoc.value;
      s < i && t0[s - 1] != 0 && (forall j :: s <= j < i ==> t0[j] == 0) &&
      forall k :: s <= k < |t| ==> t[k] == t0[k]) &&
    (Truthy(st.endLoc) ==> st.endLoc.value < i) &&
    (t0[0] != 0 ==> !Truthy(st.endLoc) && (t0[i - 1] == 0 ==> Truthy(st.startLoc))) &&
    (t0[0] != 0 ==> forall s, e :: ClosedZeroRun(t0, s, e) && e < i - 1 ==> ValuesSettled(lines, t, s, e))
  }

  /** The walk over the closed stretch `s..e` settles it and touches nothing else. */
  lemma WalkSettles(t0: seq<nat>, lines: seq<int>, t: seq<nat>, s: nat, e: nat)
    requires |t| == |t0| && ClosedZeroRun(t0, s, e) && e < |lines|
    requires forall k :: s <= k <= e ==> t[k] == t0[k]
    ensures ValuesSettled(lines, ValuesWalk(t, lines, s, s, e), s, e)
  {
    var r := ValuesWalk(t, lines, s, s, e);
    if StretchFollowsTrend(lines, s, e) {
      WalkSteady(t, lines, s, s, e);
    }
    forall k | FirstBreak(lines, s, e, k)
      ensures r[k] == 1 && forall m :: s <= m < k ==> r[m] == 0
    {
      WalkFirstBreak(t, lines, s, s, e, k);
    }
  }

  /** An iteration that walks nothing keeps the invariant one index further on. */
  lemma ValuesStepQuiet(t0: seq<nat>, lines: seq<int>, st: PassState, i: nat)
    requires i < |t0| && CountsCoverZeros(t0, lines) && ValuesInvariant(t0, lines, st, i)
    requires CountsCoverZeros(st.tags, lines) && (Truthy(st.endLoc) ==> st.endLoc.value < |lines|)
    requires ValuesStep(st, lines, i).tags == st.tags
    requires t0[0] != 0 ==> !(st.tags[i] > 0 && st.tags[i - 1] == 0)
    ensures ValuesInvariant(t0, lines, ValuesStep(st, lines, i), i + 1)
  {
  }

  /** One iteration keeps the invariant of the values pass. */
  lemma ValuesStepKeeps(t0: seq<nat>, lines: seq<int>, st: PassState, i: nat)
    requires i < |t0| && CountsCoverZeros(t0, lines) && ValuesInvariant(t0, lines, st, i)
    requires CountsCoverZeros(st.tags, lines) && (Truthy(st.endLoc) ==> st.endLoc.value < |lines|)
    ensures ValuesInvariant(t0, lines, ValuesStep(st, lines, i), i + 1)
  {
    var t := st.tags;
    if Truthy(st.startLoc) && t[i] > 0 && t[i - 1] == 0 {
      ValuesStepCloses(t0, lines, st, i);
    } else if t0[0] != 0 && t[i] > 0 && t[i - 1] == 0 {
      assert false;
    } else {
      ValuesStepQuiet(t0, lines, st, i);
    }
  }

  /** An iteration that closes the open stretch walks it, settles it and keeps the invariant. */
  lemma ValuesStepCloses(t0: seq<nat>, lines: seq<int>, st: PassState, i: nat)
    requires i < |t0| && CountsCoverZeros(t0, lines) && ValuesInvariant(t0, lines, st, i)
    requires CountsCoverZeros(st.tags, lines) && (Truthy(st.endLoc) ==> st.endLoc.value < |lines|)
    requires Truthy(st.startLoc) && st.tags[i] > 0 && st.tags[i - 1] == 0
    ensures ValuesInvariant(t0, lines, ValuesStep(st, lines, i), i + 1)
  {
    var t := st.tags;
    var s, e := st.startLoc.value, i - 1;
    assert ClosedZeroRun(t0, s, e);
    var r := ValuesStep(st, lines, i).tags;
    assert r == ValuesWalk(t, lines, s, s, e);
    WalkSettles(t0, lines, t, s, e);
    WalkInRun(t0, t, r, s, e);
    if t0[0] != 0 {
      SettledBefore(t0, lines, t, r, s, e);
    }
  }

  /** A tag the walk over the closed stretch `s..e` changes lies in a closed stretch of `t0`. */
  lemma WalkInRun(t0: seq<nat>, t: seq<nat>, r: seq<nat>, s: nat, e: nat)
    requires |t| == |t0| == |r| && ClosedZeroRun(t0, s, e)
    requires forall k :: 0 <= k < |t| && t[k] != t0[k] ==> exists s', e' :: ClosedZeroRun(t0, s', e') && s' <= k <= e'
    requires forall k :: 0 <= k < |t| ==> r[k] == t[k] || (s <= k <= e && r[k] == 1)
    ensures forall k :: 0 <= k < |r| && r[k] != t0[k] ==> exists s', e' :: ClosedZeroRun(t0, s', e') && s' <= k <= e'
  {
  }

  /** Walking the stretch `s..e` leaves every stretch that ends before it as settled as it was. */
  lemma SettledBefore(t0: seq<nat>, lines: seq<int>, t: seq<nat>, r: seq<nat>, s: nat, e: nat)
    requires |t| == |t0| == |r| && ClosedZeroRun(t0, s, e)
    requires forall s', e' :: ClosedZeroRun(t0, s', e') && e' < e ==> ValuesSettled(lines, t, s', e')
    requires ValuesSettled(lines, r, s, e)
    requires forall k :: 0 <= k < s ==> r[k] == t[k]
    ensures forall s', e' :: ClosedZeroRun(t0, s', e') && e' <= e ==> ValuesSettled(lines, r, s', e')
  {
    forall s', e' | ClosedZeroRun(t0, s', e') && e' <= e
      ensures ValuesSettled(lines, r, s', e')
    {
      if e' < e {
        assert e' < s;
        assert ValuesSettled(lines, t, s', e');
      } else {
        assert s' == s;
      }
    }
  }

  /** After `n - 1` iterations the invariant of the values pass holds. */
  lemma {:induction false} ValuesFoldInvariant(t0: seq<nat>, lines: seq<int>, n: nat)
    requires CountsCoverZeros(t0, lines) && 1 <= n <= |t0|
    ensures ValuesInvariant(t0, lines, ValuesFold(t0, lines, n), n)
    decreases n
  {
    if n > 1 {
      ValuesFoldInvariant(t0, lines, n - 1);
      ValuesStepKeeps(t0, lines, ValuesFold(t0, lines, n - 1), n - 1);
    }
  }

  /**
   * What `check_subsequence_values` promises: only zeros of closed stretches
   * become 1; when the first tag is not zero, a stretch whose runs all
   * follow the trend of its ends stays omitted, and otherwise the first run
   * that breaks the trend is shown while the runs before it stay omitted.
   */
  lemma ValuesPassFacts(t0: seq<nat>, lines: seq<int>)
    requires CountsCoverZeros(t0, lines)
    ensures Promotes(t0, ValuesPass(t0, lines))
    ensures forall k :: 0 <= k < |t0| && ValuesPass(t0, lines)[k] != t0[k] ==>
      exists s, e :: ClosedZeroRun(t0, s, e) && s <= k <= e
    ensures |t0| > 0 && t0[0] != 0 ==> forall s, e ::
      ClosedZeroRun(t0, s, e) ==> ValuesSettled(lines, ValuesPass(t0, lines), s, e)
  {
    if |t0| > 0 {
      ValuesFoldInvariant(t0, lines, |t0|);
    }
  }

  /**
   * The values pass keeps walking past the first break: in
   * `[10, 10, 18, 9, 14, 8, 17, 17]` run 2 leaves the rising trend from 10
   * to 17, the stretch is then read from run 3 (9 to 17), and run 5 leaves
   * that one too.
   */
  lemma ValuesPassExample()
    ensures ValuesPass([1, 0, 0, 0, 0, 0, 0, 1], [10, 10, 18, 9, 14, 8, 17, 17]) == [1, 0, 1, 0, 0, 1, 0, 1]
  {
    var t: seq<nat> := [1, 0, 0, 0, 0, 0, 0, 1];
    var lines := [10, 10, 18, 9, 14, 8, 17, 17];
    assert ValuesFold(t, lines, 2) == PassState(t, Some(1), None);
    assert ValuesFold(t, lines, 3) == PassState(t, Some(1), None);
    assert ValuesFold(t, lines, 4) == PassState(t, Some(1), None);
    assert ValuesFold(t, lines, 5) == PassState(t, Some(1), None);
    assert ValuesFold(t, lines, 6) == PassState(t, Some(1), None);
    assert ValuesFold(t, lines, 7) == PassState(t, Some(1), None);
    assert ValuesFold(t, lines, 8).tags == ValuesWalk(t, lines, 1, 1, 6);
    assert ValuesWalk(t, lines, 1, 1, 6) == ValuesWalk(t[2 := 1], lines, 3, 3, 6);
    assert ValuesWalk(t[2 := 1], lines, 3, 3, 6) == ValuesWalk(t[2 := 1][5 := 1], lines, 6, 6, 6);
  }

  /** `for j in range(s, e + 1): relevance_list[j] = 1`: shows every run of the stretch `s..e`. */
  method ShowStretch(tags: array<nat>, s: nat, e: int)
    requires e < tags.Length
    modifies tags
    ensures forall k :: 0 <= k < tags.Length ==> tags[k] == if s <= k <= e then 1 else old(tags[k])
  {
    var j := s;
    while j < e + 1
      invariant s <= j && (s <= e + 1 ==> j <= e + 1) && (e + 1 < s ==> j == s)
      invariant forall k :: 0 <= k < tags.Length ==> tags[k] == if s <= k < j then 1 else old(tags[k])
    {
      tags[j] := 1;
      j := j + 1;
    }
  }

  /** The list with every tag of `s..e` set to 1, as `ShowStretch` leaves it. */
  function Shown(t: seq<nat>, s: int, e: int): (r: seq<nat>)
    ensures |r| == |t|
    ensures forall k :: 0 <= k < |t| ==> r[k] == if s <= k <= e then 1 else t[k]
  {
    seq(|t|, k requires 0 <= k < |t| => if s <= k <= e then 1 else t[k])
  }


  /**
   * One iteration of the length pass at index `i`: open a stretch at a zero
   * after a non-zero tag, close it at a non-zero tag after a zero, or cap it
   * by showing its 11th run; then, once both markers are set, show the
   * stretch when it is shorter than 3 and reset both markers.
   */
  function LengthStep(st: PassState, i: nat): (r: PassState)
    requires 1 <= i < |st.tags|
    requires Truthy(st.endLoc) ==> st.endLoc.value < i
    ensures |r.tags| == |st.tags|
    ensures Truthy(r.endLoc) ==> r.endLoc.value < i + 1
  {
    var t := st.tags;
    var mid :=
      if t[i] == 0 && t[i - 1] > 0 then st.(startLoc := Some(i))
      else if t[i] > 0 && t[i - 1] == 0 then st.(endLoc := Some(i - 1))
      else if Truthy(st.startLoc) && i - st.startLoc.value == 10 then PassState(t[i := 1], None, st.endLoc)
      else st;
    if Truthy(mid.startLoc) && Truthy(mid.endLoc) then
      var shown := if mid.endLoc.value - mid.startLoc.value < 2
        then Shown(mid.tags, mid.startLoc.value, mid.endLoc.value) else mid.tags;
      PassState(shown, None, None)
    else mid
  }

  /**
   * What holds of the length pass before index `i` on any list: only zeros
   * were promoted, nothing from `i` on was touched, an open stretch starts
   * after a non-zero tag, holds only zeros and is at most 10 runs old, and
   * the two markers are never both set.
   */
  ghost predicate LengthFrame(t0: seq<nat>, st: PassState, i: nat) {
    var t := st.tags;
    |t| == |t0| && i <= |t| && Promotes(t0, t) &&
    (forall k :: i <= k < |t| ==> t[k] == t0[k]) &&
    (Truthy(st.startLoc) ==>
      var s := st.startLoc.value;
      s < i && i - s <= 10 && t[s - 1] != 0 && forall j :: s <= j < i ==> t[j] == 0) &&
    !(Truthy(st.startLoc) && Truthy(st.endLoc)) &&
    (Truthy(st.endLoc) ==> st.endLoc.value < i)
  }

  /** With a non-zero first tag, a zero before `i` always belongs to an open stretch. */
  ghost predicate LengthOpen(st: PassState, i: nat)
    requires 1 <= i <= |st.tags|
  {
    !Truthy(st.endLoc) && (st.tags[i - 1] == 0 ==> Truthy(st.startLoc))
  }

  /** Every closed stretch of the current list that ends before `i - 1` is 3 to 10 runs long. */
  ghost predicate LengthBounded(t: seq<nat>, i: nat) {
    forall s, e :: ClosedZeroRun(t, s, e) && e + 1 < i ==> 2 <= e - s <= 9
  }

  /** Every original closed stretch of at most 10 zeros that ends before `i - 1` is settled. */
  ghost predicate LengthSettled(t0: seq<nat>, t: seq<nat>, i: nat)
    requires |t| == |t0|
  {
    forall s, e :: ClosedZeroRun(t0, s, e) && e - s < 10 && e + 1 < i ==>
      forall j :: s <= j <= e ==> t[j] == if e - s < 2 then 1 else 0
  }

  /** An original closed stretch of at most 10 zeros that `i` is inside is the open one. */
  ghost predicate LengthTracked(t0: seq<nat>, st: PassState, i: nat) {
    forall s, e :: ClosedZeroRun(t0, s, e) && e - s < 10 && s < i <= e + 1 ==> st.startLoc == Some(s)
  }

  ghost predicate LengthInvariant(t0: seq<nat>, st: PassState, i: nat) {
    1 <= i <= |t0| && LengthFrame(t0, st, i) &&
    (t0[0] != 0 ==>
      LengthOpen(st, i) && LengthBounded(st.tags, i) &&
      LengthSettled(t0, st.tags, i) && LengthTracked(t0, st, i))
  }

  /** One step keeps the frame of the length pass. */
  lemma LengthStepFrame(t0: seq<nat>, st: PassState, i: nat)
    requires 1 <= i < |t0| && LengthFrame(t0, st, i)
    ensures LengthFrame(t0, LengthStep(st, i), i + 1)
  {
  }

  /** One step keeps the facts that hold when the first tag is not zero. */
  lemma LengthStepKeeps(t0: seq<nat>, st: PassState, i: nat)
    requires 1 <= i < |t0| && LengthInvariant(t0, st, i)
    ensures LengthInvariant(t0, LengthStep(st, i), i + 1)
  {
    LengthStepFrame(t0, st, i);
    if t0[0] != 0 {
      LengthStepBounded(st, i);
    }
  }

  /**
   * One step keeps every closed stretch before the index 3 to 10 runs long:
   * the stretch it closes or caps is the open one, which it either shows or
   * leaves 3 to 10 runs long, and it changes no tag before the open stretch.
   */
  lemma LengthStepBounded(st: PassState, i: nat)
    requires 1 <= i < |st.tags| && LengthFrame(st.tags, st, i)
    requires LengthOpen(st, i) && LengthBounded(st.tags, i)
    ensures LengthBounded(LengthStep(st, i).tags, i + 1)
  {
    var t := st.tags;
    var t2 := LengthStep(st, i).tags;
    forall s, e | ClosedZeroRun(t2, s, e) && e + 1 < i + 1
      ensures 2 <= e - s <= 9
    {
      if t2 == t {
        if e + 1 < i {
        } else {
          RunFrom(t, s, e, st.startLoc.value);
        }
      } else if t2 == t[i := 1] {
        if e + 1 < i {
          ClosedRunPrefix(t, t2, i, s, e);
        } else {
          RunFrom(t2, s, e, st.startLoc.value);
        }
      } else {
        var open := st.startLoc.value;
        assert t2 == Shown(t, open, i - 1);
        assert t2[e] == 0;
        assert e + 1 < open;
        ClosedRunPrefix(t, t2, open, s, e);
      }
    }
  }

  /** One iteration of `check_subsequence_length` on the array, as `LengthStep` describes it. */
  method CheckLengthAt(tags: array<nat>, i: nat, startLoc: Option<nat>, endLoc: Option<nat>)
    returns (startAfter: Option<nat>, endAfter: Option<nat>)
    requires 1 <= i < tags.Length
    requires Truthy(endLoc) ==> endLoc.value < i
    modifies tags
    ensures PassState(tags[..], startAfter, endAfter) ==
      LengthStep(PassState(old(tags[..]), startLoc, endLoc), i)
  {
    startAfter, endAfter := startLoc, endLoc;
    if tags[i] == 0 && tags[i - 1] > 0 {
      startAfter := Some(i);
    } else if tags[i] > 0 && tags[i - 1] == 0 {
      endAfter := Some(i - 1);
    } else if Truthy(startAfter) && i - startAfter.value == 10 {
      tags[i] := 1;
      startAfter := None;
    }
    if Truthy(startAfter) && Truthy(endAfter) {
      if endAfter.value - startAfter.value < 2 {
        ShowStretch(tags, startAfter.value, endAfter.value);
      }
      startAfter := None;
      endAfter := None;
    }
  }

  /** The length pass after the iterations for indices 1 to `n - 1`. */
  function LengthFold(t: seq<nat>, n: nat): (st: PassState)
    requires 1 <= n <= |t|
    ensures |st.tags| == |t|
    ensures Truthy(st.endLoc) ==> st.endLoc.value < n
    decreases n
  {
    if n == 1 then PassState(t, None, None)
    else LengthStep(LengthFold(t, n - 1), n - 1)
  }

  /** The list `check_subsequence_length` returns. */
  function LengthPass(t: seq<nat>): (r: seq<nat>)
    ensures |r| == |t|
  {
    if |t| == 0 then t else LengthFold(t, |t|).tags
  }

  /**
   * `check_subsequence_length(relevance_list)` (incdev.py:405-441), in
   * place: a stretch of zero tags shorter than 3 is shown in full, and the
   * 11th run of a stretch is shown so that no more than 10 runs in a row
   * are omitted.
   */
  method CheckSubsequenceLength(tags: array<nat>)
    modifies tags
    ensures tags[..] == LengthPass(old(tags[..]))
  {
    if tags.Length == 0 {
      return;
    }
    ghost var t0 := tags[..];
    var startLoc: Option<nat> := None;
    var endLoc: Option<nat> := None;
    var i := 1;
    while i < tags.Length
      invariant 1 <= i <= tags.Length
      invariant PassState(tags[..], startLoc, endLoc) == LengthFold(t0, i)
    {
      startLoc, endLoc := CheckLengthAt(tags, i, startLoc, endLoc);
      i := i + 1;
    }
  }

  /** After `n - 1` iterations the invariant of the length pass holds. */
  lemma {:induction false} LengthFoldInvariant(t0: seq<nat>, n: nat)
    requires 1 <= n <= |t0|
    ensures LengthInvariant(t0, LengthFold(t0, n), n)
    decreases n
  {
    if n > 1 {
      LengthFoldInvariant(t0, n - 1);
      LengthStepKeeps(t0, LengthFold(t0, n - 1), n - 1);
    }
  }

  /**
   * What `check_subsequence_length` promises: only zeros become 1; and,
   * when the first tag is not zero, a closed stretch of at most 10 zeros is shown in full when it is
   * shorter than 3 and kept otherwise, and every closed stretch left in the
   * result is 3 to 10 runs long.
   */
  lemma LengthPassFacts(t0: seq<nat>)
    ensures Promotes(t0, LengthPass(t0))
    ensures |t0| > 0 && t0[0] != 0 ==> forall s, e ::
      ClosedZeroRun(t0, s, e) && e - s < 10 ==>
      forall j :: s <= j <= e ==> LengthPass(t0)[j] == if e - s < 2 then 1 else 0
    ensures |t0| > 0 && t0[0] != 0 ==> forall s, e ::
      ClosedZeroRun(LengthPass(t0), s, e) ==> 2 <= e - s <= 9
  {
    if |t0| > 0 {
      LengthFoldInvariant(t0, |t0|);
    }
  }

  /** The example of the length pass's documentation: `[2, 0, 0, 0, 1, 0, 0, 2]` becomes `[2, 0, 0, 0, 1, 1, 1, 2]`. */
  lemma LengthPassExample()
    ensures LengthPass([2, 0, 0, 0, 1, 0, 0, 2]) == [2, 0, 0, 0, 1, 1, 1, 2]
  {
    var t0: seq<nat> := [2, 0, 0, 0, 1, 0, 0, 2];
    assert ClosedZeroRun(t0, 1, 3) && ClosedZeroRun(t0, 5, 6);
    LengthPassFacts(t0);
    var r := LengthPass(t0);
    assert forall k :: 0 <= k < 8 ==> r[k] == [2, 0, 0, 0, 1, 1, 1, 2][k];
  }

  /** Two tag lists that agree below `m` have the same closed stretches there. */
  lemma ClosedRunPrefix(t: seq<nat>, t2: seq<nat>, m: nat, s: int, e: int)
    requires |t2| == |t| && forall k :: 0 <= k < m && k < |t| ==> t2[k] == t[k]
    requires ClosedZeroRun(t2, s, e) && e + 1 < m
    ensures ClosedZeroRun(t, s, e)
  {
  }

  /** A stretch is determined by where it starts: a zero block after a non-zero tag. */
  lemma RunFrom(t: seq<nat>, s: int, e: int, start: int)
    requires ClosedZeroRun(t, s, e)
    requires 1 <= start <= e && t[start - 1] != 0 && forall j :: start <= j <= e ==> t[j] == 0
    ensures s == start
  {
  }
}
