/**
 * One observed state of a student's code for a lab. The record carries the
 * fields the engine reads: the kind of run, the code, the time stamp and the
 * grading score. Identifiers (student, lab, submission) are the keys of the
 * top-level maps instead.
 */
module Submissions {
  import opened Lines

  /** `type` 0 is a develop (unsubmitted) run, `type` 1 a submit run. */
  datatype Kind = Develop | Submit

  /** `datetime.weekday()`: Monday is 0, Sunday is 6. */
  type Weekday = w: int | 0 <= w <= 6

  type Month = m: int | 1 <= m <= 12 witness 1

  type DayOfMonth = d: int | 1 <= d <= 31 witness 1

  /**
   * A time stamp: seconds on a common clock, the calendar day as a day
   * number, and the calendar fields the trails print. The fields are
   * supplied together; the model does not convert between them.
   */
  datatype Stamp = Stamp(seconds: int, dayNumber: int, month: Month, dayOfMonth: DayOfMonth, weekday: Weekday)

  /** A submission snapshot; `score` is the grade already truncated by `int()`. */
  datatype Submission = Submission(kind: Kind, code: string, time: Stamp, score: int)

  /** Non-blank line count of every run, in order. */
  function LineCounts(runs: seq<Submission>): (counts: seq<nat>)
    ensures |counts| == |runs|
    decreases |runs|
  {
    if runs == [] then [] else LineCounts(runs[..|runs| - 1]) + [LineCount(runs[|runs| - 1].code)]
  }

  /** Entry `i` of the counts is the line count of run `i`. */
  lemma {:induction false} LineCountAt(runs: seq<Submission>, i: nat)
    requires i < |runs|
    ensures LineCounts(runs)[i] == LineCount(runs[i].code)
    decreases |runs|
  {
    if i < |runs| - 1 {
      LineCountAt(runs[..|runs| - 1], i);
      assert runs[..|runs| - 1][i] == runs[i];
    }
  }

  /** The normalised code of every run, in order. */
  function NormalisedCodes(runs: seq<Submission>): (codes: seq<string>)
    ensures |codes| == |runs|
    decreases |runs|
  {
    if runs == [] then [] else NormalisedCodes(runs[..|runs| - 1]) + [Normalise(runs[|runs| - 1].code)]
  }

  /** Entry `i` of the normalised codes is the normalised code of run `i`. */
  lemma {:induction false} NormalisedCodeAt(runs: seq<Submission>, i: nat)
    requires i < |runs|
    ensures NormalisedCodes(runs)[i] == Normalise(runs[i].code)
    decreases |runs|
  {
    if i < |runs| - 1 {
      NormalisedCodeAt(runs[..|runs| - 1], i);
      assert runs[..|runs| - 1][i] == runs[i];
    }
  }
}
