/**
 * The time trail of one student on one lab: for every submit run the
 * minutes since the previous submit run of the same session ("0" for the
 * first of a session), a '-' for every develop run, and " / " where a new
 * session starts.  Example: "---0,2,1 / 0,8,4".
 */
module TimeTrail {
  import opened Wrappers
  import opened Strings
  import opened Submissions
  import opened Sessions

  /** The characters after which a submit's number is written without a comma: '-', ',', '/' and ' '. */
  predicate IsSpecial(c: char) {
    c == '-' || c == ',' || c == '/' || c == ' '
  }

  /** The submit time of a run, or `None` (the source's -1) for a develop run. */
  function SubTime(r: Submission): (t: Option<int>)
    ensures t.Some? <==> r.kind == Submit
    ensures t.Some? ==> t.value == r.time.seconds
  {
    if r.kind == Submit then Some(r.time.seconds) else None
  }

  /** The time of every run, in order. */
  function Times(runs: seq<Submission>): (times: seq<int>)
    ensures |times| == |runs|
    ensures forall k :: 0 <= k < |runs| ==> times[k] == runs[k].time.seconds
  {
    seq(|runs|, k requires 0 <= k < |runs| => runs[k].time.seconds)
  }

  /**
   * `round(diff / 60)` for a difference of `d` seconds: the nearest whole
   * minute, and on a tie (a remainder of exactly 30 s) the even one, as
   * Python 3's `round` does.
   */
  function RoundMinutes(d: int): (m: int)
    ensures -30 <= 60 * m - d <= 30
    ensures (60 * m - d == 30 || d - 60 * m == 30) ==> m % 2 == 0
  {
    var q := d / 60;
    var r := d % 60;
    if r < 30 then q
    else if r > 30 then q + 1
    else if q % 2 == 0 then q
    else q + 1
  }

  /** The rounding is the only whole minute that is nearest (even on a tie). */
  lemma RoundMinutesUnique(d: int, m: int)
    requires -30 <= 60 * m - d <= 30
    requires (60 * m - d == 30 || d - 60 * m == 30) ==> m % 2 == 0
    ensures m == RoundMinutes(d)
  {
    var n := RoundMinutes(d);
    assert -60 <= 60 * (m - n) <= 60;
  }

  /** Examples of the rounding: 89 s is one minute, 90 s two, 150 s two, -90 s minus two. */
  lemma RoundMinutesExamples()
    ensures RoundMinutes(89) == 1 && RoundMinutes(90) == 2
    ensures RoundMinutes(150) == 2 && RoundMinutes(-90) == -2
  {
  }

  /** A non-negative difference never rounds to a negative number of minutes. */
  lemma RoundMinutesNonNegative(d: int)
    requires d >= 0
    ensures RoundMinutes(d) >= 0
  {
  }

  /** The trail built so far and the submit time the next difference is taken from. */
  datatype TimeState = TimeState(trail: string, prev: Option<int>)

  /** The trail once a session break, if there is one, has written " / ". */
  function Opened(trail: string, brk: bool): string {
    if brk then trail + " / " else trail
  }

  /** What a session break writes: " / ", or nothing. */
  function Opening(brk: bool): string {
    if brk then " / " else ""
  }

  /**
   * A submit run is preceded by a comma unless the trail is empty or ends
   * in one of the special characters.
   */
  predicate CommaDue(trail: string) {
    |trail| > 0 && !IsSpecial(trail[|trail| - 1])
  }

  /** "0" for the first submit of a session, else `str(round(diff / 60))`. */
  function Minutes(prev: Option<int>, t: int): (s: string)
    ensures |s| >= 1 && IsDigit(s[|s| - 1])
  {
    if prev.None? then "0" else IntToString(RoundMinutes(t - prev.value))
  }

  /** What a run writes after the break marker: '-' for a develop run, else an optional comma and the minutes. */
  function Entry(comma: bool, prev: Option<int>, sub: Option<int>): string {
    match sub
    case None => "-"
    case Some(t) => (if comma then "," else "") + Minutes(prev, t)
  }

  /**
   * One pass of the source loop: a session break writes " / " and forgets
   * the previous submit; then the run writes its entry, and a submit run
   * becomes the previous submit.
   */
  function TimeStep(st: TimeState, brk: bool, sub: Option<int>): (s: TimeState)
    ensures sub.Some? ==> s.prev == sub
    ensures sub.None? ==> s.prev == (if brk then None else st.prev)
  {
    var t0 := Opened(st.trail, brk);
    var p0 := if brk then None else st.prev;
    TimeState(t0 + Entry(CommaDue(t0), p0, sub), if sub.Some? then sub else p0)
  }

  /**
   * The state after the first `n` runs, given every run's time and, for
   * submit runs, its submit time (the two lists the source fills first).
   */
  function TimeFold(times: seq<int>, subs: seq<Option<int>>, n: nat): TimeState
    requires n <= |times| == |subs|
  {
    if n == 0 then TimeState("", None)
    else TimeStep(TimeFold(times, subs, n - 1), IsBreak(times, n - 1), subs[n - 1])
  }

  /** The submit time of every run, `None` for develop runs. */
  function SubTimes(runs: seq<Submission>): (subs: seq<Option<int>>)
    ensures |subs| == |runs|
    ensures forall k :: 0 <= k < |runs| ==> subs[k] == SubTime(runs[k])
  {
    seq(|runs|, k requires 0 <= k < |runs| => SubTime(runs[k]))
  }

  /** The time trail of a student's runs on a lab. */
  function TimeTrailOf(runs: seq<Submission>): string {
    TimeFold(Times(runs), SubTimes(runs), |runs|).trail
  }

  predicate TimeInvariant(times: seq<int>, subs: seq<Option<int>>, i: nat, trail: string, prev: Option<int>) {
    i <= |times| == |subs| && trail == TimeFold(times, subs, i).trail && prev == TimeFold(times, subs, i).prev
  }

  /** One iteration of `assign_time_trail`'s loop: the state after one more run. */
  method TimePass(sub: Option<int>, brk: bool, trail: string, prev: Option<int>)
    returns (trail': string, prev': Option<int>)
    ensures TimeState(trail', prev') == TimeStep(TimeState(trail, prev), brk, sub)
  {
    trail' := trail;
    prev' := prev;
    if brk {
      trail' := trail' + " / ";
      prev' := None;
    }
    match sub {
      case None =>
        trail' := trail' + "-";
      case Some(t) =>
        var entry := "";
        if |trail'| > 0 && !IsSpecial(trail'[|trail'| - 1]) {
          entry := ",";
        }
        if prev' == None {
          entry := entry + "0";
        } else {
          var diff := SubmissionTimeDiff(prev'.value, Some(t));
          entry := entry + IntToString(RoundMinutes(diff.value));
        }
        trail' := trail' + entry;
        prev' := Some(t);
    }
  }

  /** The first loop of `assign_time_trail`: every run's time, and its submit time or `None`. */
  method CollectTimes(runs: seq<Submission>) returns (allTimes: seq<int>, subTimes: seq<Option<int>>)
    ensures allTimes == Times(runs) && subTimes == SubTimes(runs)
  {
    subTimes := [];
    allTimes := [];
    var k := 0;
    while k < |runs|
      invariant k <= |runs| && |allTimes| == k && |subTimes| == k
      invariant forall j :: 0 <= j < k ==> allTimes[j] == runs[j].time.seconds
      invariant forall j :: 0 <= j < k ==> subTimes[j] == SubTime(runs[j])
    {
      allTimes := allTimes + [runs[k].time.seconds];
      if runs[k].kind == Submit {
        subTimes := subTimes + [Some(runs[k].time.seconds)];
      } else {
        subTimes := subTimes + [None];
      }
      k := k + 1;
    }
    assert allTimes == Times(runs);
    assert subTimes == SubTimes(runs);
  }

  /**
   * `assign_time_trail(runs)`: collects every run's time and every submit
   * time, finds the session breaks, then builds the trail run by run.
   */
  method AssignTimeTrail(runs: seq<Submission>) returns (trail: string)
    ensures trail == TimeTrailOf(runs)
  {
    var allTimes, subTimes := CollectTimes(runs);
    var breaks := GetSubSessions(allTimes);
    trail := "";
    var prev: Option<int> := None;
    var i := 0;
    while i < |subTimes|
      invariant TimeInvariant(allTimes, subTimes, i, trail, prev)
    {
      trail, prev := TimePass(subTimes[i], breaks[i], trail, prev);
      i := i + 1;
    }
    assert i == |runs|;
  }

  /** The time of the latest submit run among the first `n` that lies in the session of run `n - 1`. */
  function LastSubmitInSession(times: seq<int>, subs: seq<Option<int>>, n: nat): Option<int>
    requires n <= |times| == |subs|
  {
    if n == 0 then None
    else if subs[n - 1].Some? then subs[n - 1]
    else if IsBreak(times, n - 1) then None
    else LastSubmitInSession(times, subs, n - 1)
  }

  /** Run times never decrease, and a submit time is its run's time. */
  predicate Chronological(times: seq<int>, subs: seq<Option<int>>) {
    |times| == |subs| &&
    (forall i :: 1 <= i < |times| ==> times[i - 1] <= times[i]) &&
    (forall i :: 0 <= i < |subs| && subs[i].Some? ==> subs[i].value == times[i])
  }

  /** The runs of a student on a lab, in the order they were made, are chronological. */
  lemma RunsChronological(runs: seq<Submission>)
    requires forall i :: 1 <= i < |runs| ==> runs[i - 1].time.seconds <= runs[i].time.seconds
    ensures Chronological(Times(runs), SubTimes(runs))
  {
  }

  /** A step leaves the trail ending in '-' after a develop run and in a digit after a submit run. */
  lemma StepEnd(st: TimeState, brk: bool, sub: Option<int>)
    ensures var t := TimeStep(st, brk, sub).trail;
      |t| > 0 && (sub.None? ==> t[|t| - 1] == '-') && (sub.Some? ==> IsDigit(t[|t| - 1]))
  {
    var t0 := Opened(st.trail, brk);
    var e := Entry(CommaDue(t0), if brk then None else st.prev, sub);
    assert (t0 + e)[|t0 + e| - 1] == e[|e| - 1];
  }

  /**
   * The trail is empty exactly before the first run; afterwards it ends in
   * '-' after a develop run and in a digit after a submit run.
   */
  lemma TimeFoldEnd(times: seq<int>, subs: seq<Option<int>>, n: nat)
    requires n <= |times| == |subs|
    ensures |TimeFold(times, subs, n).trail| == 0 <==> n == 0
    ensures n > 0 ==> var t := TimeFold(times, subs, n).trail;
      (t[|t| - 1] == '-' <==> subs[n - 1].None?) && (IsDigit(t[|t| - 1]) <==> subs[n - 1].Some?)
  {
    if n > 0 {
      StepEnd(TimeFold(times, subs, n - 1), IsBreak(times, n - 1), subs[n - 1]);
    }
  }

  /**
   * The difference is always taken from the latest submit run of the
   * current session; after a session break, or before any submit run of the
   * session, there is none and the submit run is written as "0".
   */
  lemma {:induction false} TimeFoldPrev(times: seq<int>, subs: seq<Option<int>>, n: nat)
    requires n <= |times| == |subs|
    ensures TimeFold(times, subs, n).prev == LastSubmitInSession(times, subs, n)
  {
    if n > 0 {
      TimeFoldPrev(times, subs, n - 1);
    }
  }

  /** With chronological runs, the session's latest submit is no later than the latest run. */
  lemma {:induction false} LastSubmitNotLater(times: seq<int>, subs: seq<Option<int>>, n: nat)
    requires Chronological(times, subs) && 1 <= n <= |times|
    ensures LastSubmitInSession(times, subs, n).Some? ==> LastSubmitInSession(times, subs, n).value <= times[n - 1]
  {
    if n > 1 && subs[n - 1].None? && !IsBreak(times, n - 1) {
      LastSubmitNotLater(times, subs, n - 1);
    }
  }

  /**
   * Run `k` is written with a leading comma exactly when the run before it
   * is a submit run of the same session.
   */
  predicate JoinsPrevious(times: seq<int>, subs: seq<Option<int>>, k: nat)
    requires k < |times| == |subs|
  {
    k >= 1 && subs[k - 1].Some? && !IsBreak(times, k)
  }

  /**
   * What run `k` adds to the trail, described without the loop's state:
   * " / " when it starts a session, then '-' for a develop run, or, for a
   * submit run, a comma when it follows a submit run of its session and the
   * rounded minutes since the latest earlier submit of its session ("0"
   * when there is none).
   */
  function Piece(times: seq<int>, subs: seq<Option<int>>, k: nat): string
    requires k < |times| == |subs|
  {
    var brk := IsBreak(times, k);
    Opening(brk) + Entry(JoinsPrevious(times, subs, k), if brk then None else LastSubmitInSession(times, subs, k), subs[k])
  }

  /** The pieces of the first `n` runs. */
  function Pieces(times: seq<int>, subs: seq<Option<int>>, n: nat): (ps: seq<string>)
    requires n <= |times| == |subs|
    ensures |ps| == n
  {
    seq(n, k requires 0 <= k < n => Piece(times, subs, k))
  }

  /** A step appends the break marker and the run's entry. */
  lemma StepAppends(st: TimeState, brk: bool, sub: Option<int>)
    ensures var t0 := Opened(st.trail, brk);
      TimeStep(st, brk, sub).trail == st.trail + (Opening(brk) + Entry(CommaDue(t0), if brk then None else st.prev, sub))
  {
    var t0 := Opened(st.trail, brk);
    var e := Entry(CommaDue(t0), if brk then None else st.prev, sub);
    if brk {
      assert st.trail + " / " + e == st.trail + (" / " + e);
    } else {
      assert st.trail + e == st.trail + ("" + e);
    }
  }

  /**
   * The loop's test on the last character of the trail writes a comma
   * exactly when the previous run is a submit run of the same session: the
   * break marker ends in a space, a develop run's entry in '-', and a submit
   * run's entry in a digit.
   */
  lemma CommaDueAt(times: seq<int>, subs: seq<Option<int>>, n: nat)
    requires n < |times| == |subs|
    ensures CommaDue(Opened(TimeFold(times, subs, n).trail, IsBreak(times, n))) <==> JoinsPrevious(times, subs, n)
  {
    TimeFoldEnd(times, subs, n);
    var t := TimeFold(times, subs, n).trail;
    if IsBreak(times, n) {
      assert (t + " / ")[|t + " / "| - 1] == ' ';
    }
  }

  /** Each run appends exactly its piece to the trail. */
  lemma FoldStepPiece(times: seq<int>, subs: seq<Option<int>>, n: nat)
    requires n < |times| == |subs|
    ensures TimeFold(times, subs, n + 1).trail == TimeFold(times, subs, n).trail + Piece(times, subs, n)
  {
    StepAppends(TimeFold(times, subs, n), IsBreak(times, n), subs[n]);
    CommaDueAt(times, subs, n);
    TimeFoldPrev(times, subs, n);
  }

  lemma PiecesSnoc(times: seq<int>, subs: seq<Option<int>>, n: nat)
    requires n < |times| == |subs|
    ensures Pieces(times, subs, n + 1) == Pieces(times, subs, n) + [Piece(times, subs, n)]
  {
  }

  /**
   * The trail the loop builds is the concatenation of the runs' pieces:
   * the state the loop carries (the trail's last character, `prev`) always
   * agrees with the stateless description of every run.
   */
  lemma {:induction false} TimeFoldPieces(times: seq<int>, subs: seq<Option<int>>, n: nat)
    requires n <= |times| == |subs|
    ensures TimeFold(times, subs, n).trail == Concat(Pieces(times, subs, n))
  {
    if n > 0 {
      TimeFoldPieces(times, subs, n - 1);
      FoldStepPiece(times, subs, n - 1);
      PiecesSnoc(times, subs, n - 1);
      ConcatSnoc(Pieces(times, subs, n - 1), Piece(times, subs, n - 1));
    }
  }

  /** The time trail of the runs is the concatenation of their pieces. */
  lemma TimeTrailPieces(runs: seq<Submission>)
    ensures TimeTrailOf(runs) == Concat(Pieces(Times(runs), SubTimes(runs), |runs|))
  {
    TimeFoldPieces(Times(runs), SubTimes(runs), |runs|);
  }

  /** A develop run writes '-' after the break marker. */
  lemma DevelopPiece(times: seq<int>, subs: seq<Option<int>>, k: nat)
    requires k < |times| == |subs| && subs[k].None?
    ensures Piece(times, subs, k) == Opening(IsBreak(times, k)) + "-"
  {
  }

  /** The first submit run of a session (or of the lab) writes "0", without a comma. */
  lemma FirstSubmitPiece(times: seq<int>, subs: seq<Option<int>>, k: nat)
    requires k < |times| == |subs| && subs[k].Some?
    requires IsBreak(times, k) || LastSubmitInSession(times, subs, k).None?
    ensures Piece(times, subs, k) == Opening(IsBreak(times, k)) + "0"
  {
    assert !JoinsPrevious(times, subs, k);
    assert "" + "0" == "0";
  }

  /**
   * With chronological runs a later submit of a session is written as a
   * non-negative number of minutes: no '-' appears except for develop runs.
   */
  lemma SubmitGapNonNegative(times: seq<int>, subs: seq<Option<int>>, k: nat)
    requires Chronological(times, subs) && k < |times| && subs[k].Some? && !IsBreak(times, k)
    requires LastSubmitInSession(times, subs, k).Some?
    ensures RoundMinutes(subs[k].value - LastSubmitInSession(times, subs, k).value) >= 0
  {
    LastSubmitNotLater(times, subs, k);
    RoundMinutesNonNegative(subs[k].value - LastSubmitInSession(times, subs, k).value);
  }
}
