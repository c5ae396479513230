/**
 * The session and calendar segmenter: time differences between runs,
 * session breaks (a gap of more than 30 minutes), and the day letter of a
 * time stamp.
 */
module Sessions {
  import opened Wrappers
  import opened Submissions

  /** A gap longer than this many seconds starts a new session. */
  const SessionGap: int := 1800

  /**
   * `get_submission_time_diff(prev, curr)`: seconds from `prev` to `curr`,
   * or "no difference" (the source's -1) when `curr` is a develop run's
   * missing submit time.
   */
  function SubmissionTimeDiff(prev: int, curr: Option<int>): (diff: Option<int>)
    ensures diff.None? <==> curr.None?
    ensures curr.Some? ==> prev + diff.value == curr.value
  {
    match curr
    case None => None
    case Some(t) => Some(t - prev)
  }

  /** Run `i` follows a session break. */
  predicate IsBreak(times: seq<int>, i: nat)
    requires i < |times|
  {
    i > 0 && times[i] - times[i - 1] > SessionGap
  }

  /**
   * `get_sub_sessions(run_times)`: one flag per run, the first always clear,
   * run i flagged exactly when it comes more than 1800 s after run i-1. An
   * empty input still yields the one initial flag.
   */
  method GetSubSessions(times: seq<int>) returns (breaks: seq<bool>)
    ensures |breaks| == if |times| == 0 then 1 else |times|
    ensures !breaks[0]
    ensures forall i :: 0 <= i < |times| ==> (breaks[i] <==> IsBreak(times, i))
  {
    breaks := [false];
    var i := 1;
    while i < |times|
      invariant 1 <= i <= if |times| == 0 then 1 else |times|
      invariant |breaks| == i && !breaks[0]
      invariant forall k :: 0 <= k < i && k < |times| ==> (breaks[k] <==> IsBreak(times, k))
    {
      var diff := SubmissionTimeDiff(times[i - 1], Some(times[i]));
      if diff.value <= SessionGap {
        breaks := breaks + [false];
      } else {
        breaks := breaks + [true];
      }
      i := i + 1;
    }
  }

  /** Runs exactly 1800 s apart stay in one session; 1801 s apart they do not. */
  lemma BreakThreshold(t: int)
    ensures !IsBreak([t, t + 1800], 1)
    ensures IsBreak([t, t + 1801], 1)
  {
  }

  /** The letters the source uses for Monday through Sunday. */
  predicate IsDayChar(c: char) {
    c == 'M' || c == 'T' || c == 'W' || c == 'R' || c == 'F' || c == 'S' || c == 'U'
  }

  /** `get_day_of_week(datetime)`: the weekday's letter between two spaces. */
  function DayLetter(w: Weekday): (s: string)
    ensures |s| == 3 && s[0] == ' ' && s[2] == ' '
    ensures IsDayChar(s[1])
  {
    [' ', "MTWRFSU"[w], ' ']
  }

  /** Different weekdays get different letters, so comparing letters compares days. */
  lemma DayLetterInjective(a: Weekday, b: Weekday)
    ensures DayLetter(a) == DayLetter(b) <==> a == b
  {
    if DayLetter(a) == DayLetter(b) {
      assert DayLetter(a)[1] == DayLetter(b)[1];
    }
  }
}
