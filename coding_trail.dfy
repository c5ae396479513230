/**
 * The coding trail of one student on one lab: the first run's date and
 * weekday letter, then for every run '-' (develop) or its score (submit),
 * with the weekday letter written again whenever the weekday changes and
 * the date written again when the day is at least a week past the last
 * date written.  Example: "02/10 W ---4 F 4,4--0,0 02/19 F 0,10".
 */
module CodingTrail {
  import opened Wrappers
  import opened Strings
  import opened Submissions
  import opened Sessions

  /** `n` as exactly two decimal digits, with a leading zero below 10. */
  function TwoDigits(n: nat): (s: string)
    requires n < 100
    ensures |s| == 2 && IsDigit(s[0]) && IsDigit(s[1])
  {
    [DigitChar(n / 10), DigitChar(n % 10)]
  }

  /** `strftime('%m/%d')`: month and day of the month, two digits each. */
  function DateLabel(s: Stamp): (date: string)
    ensures |date| == 5 && date[2] == '/'
  {
    TwoDigits(s.month) + "/" + TwoDigits(s.dayOfMonth)
  }

  /**
   * What a run writes after any date and weekday: '-' for a develop run,
   * else `str(int(score))`, after a comma unless `plain`.
   */
  function CodingEntry(kind: Kind, plain: bool, score: int): (e: string)
    ensures |e| >= 1
  {
    if kind == Develop then "-"
    else if plain then IntToString(score)
    else "," + IntToString(score)
  }

  /**
   * A later run starts a new week when its weekday differs from the
   * previous run's and its day is at least 7 days past the week marker.
   */
  predicate NewWeek(marker: int, prevWeekday: Weekday, stamp: Stamp) {
    prevWeekday != stamp.weekday && stamp.dayNumber - marker >= 7
  }

  /** The week marker after a run: moved to the run's day when a later run starts a new week. */
  function NextMarker(first: bool, marker: int, prevWeekday: Weekday, stamp: Stamp): int {
    if !first && NewWeek(marker, prevWeekday, stamp) then stamp.dayNumber else marker
  }

  /** What the first run writes: its date, its weekday letter and its entry, without a comma. */
  function FirstPiece(stamp: Stamp, kind: Kind, score: int): string {
    DateLabel(stamp) + DayLetter(stamp.weekday) + CodingEntry(kind, true, score)
  }

  /**
   * What a later run writes: when its weekday differs from the previous
   * run's, its weekday letter, preceded by " MM/DD" when it starts a new
   * week; then its entry, after a comma exactly when the previous run is a
   * submit run on the same weekday.
   */
  function LaterPiece(marker: int, prevWeekday: Weekday, prevKind: Kind, stamp: Stamp, kind: Kind, score: int): string {
    var changed := prevWeekday != stamp.weekday;
    var day := DayLetter(stamp.weekday);
    var head := if !changed then "" else if NewWeek(marker, prevWeekday, stamp) then " " + DateLabel(stamp) + day else day;
    head + CodingEntry(kind, prevKind == Develop || changed, score)
  }

  /** What one run writes, given the week marker before it. */
  function RunPiece(first: bool, marker: int, prevWeekday: Weekday, prevKind: Kind, stamp: Stamp, kind: Kind, score: int): string {
    if first then FirstPiece(stamp, kind, score) else LaterPiece(marker, prevWeekday, prevKind, stamp, kind, score)
  }

  /** The run whose kind Python reads as `run_type[i - 1]`: the previous one, or the last one for `i == 0`. */
  function PrevIndex(i: nat, n: nat): (j: nat)
    requires i < n
    ensures j < n
  {
    if i == 0 then n - 1 else i - 1
  }

  /** The lists the source fills first, one entry per run, all of one length. */
  predicate Aligned(stamps: seq<Stamp>, kinds: seq<Kind>, scores: seq<int>) {
    |stamps| == |kinds| == |scores|
  }

  /** The week marker before run `n`: the first run's day, moved by every run that starts a new week. */
  function WeekMarker(stamps: seq<Stamp>, n: nat): int
    requires 1 <= |stamps| && n <= |stamps|
  {
    if n <= 1 then stamps[0].dayNumber
    else NextMarker(false, WeekMarker(stamps, n - 1), stamps[n - 2].weekday, stamps[n - 1])
  }

  /** What run `k` adds to the trail. */
  function CodingPiece(stamps: seq<Stamp>, kinds: seq<Kind>, scores: seq<int>, k: nat): string
    requires Aligned(stamps, kinds, scores) && k < |stamps|
  {
    var j := PrevIndex(k, |stamps|);
    RunPiece(k == 0, WeekMarker(stamps, k), stamps[j].weekday, kinds[j], stamps[k], kinds[k], scores[k])
  }

  /** The pieces of the first `n` runs. */
  function CodingPieces(stamps: seq<Stamp>, kinds: seq<Kind>, scores: seq<int>, n: nat): (ps: seq<string>)
    requires Aligned(stamps, kinds, scores) && n <= |stamps|
    ensures |ps| == n
  {
    if n == 0 then [] else CodingPieces(stamps, kinds, scores, n - 1) + [CodingPiece(stamps, kinds, scores, n - 1)]
  }

  function Stamps(runs: seq<Submission>): (stamps: seq<Stamp>)
    ensures |stamps| == |runs|
    ensures forall k :: 0 <= k < |runs| ==> stamps[k] == runs[k].time
  {
    seq(|runs|, k requires 0 <= k < |runs| => runs[k].time)
  }

  function Kinds(runs: seq<Submission>): (kinds: seq<Kind>)
    ensures |kinds| == |runs|
    ensures forall k :: 0 <= k < |runs| ==> kinds[k] == runs[k].kind
  {
    seq(|runs|, k requires 0 <= k < |runs| => runs[k].kind)
  }

  /** The score of every submit run, -1 for develop runs. */
  function Scores(runs: seq<Submission>): (scores: seq<int>)
    ensures |scores| == |runs|
    ensures forall k :: 0 <= k < |runs| ==> scores[k] == (if runs[k].kind == Develop then -1 else runs[k].score)
  {
    seq(|runs|, k requires 0 <= k < |runs| => if runs[k].kind == Develop then -1 else runs[k].score)
  }

  /** The coding trail of the runs: their pieces one after the other. */
  function CodingTrailOf(runs: seq<Submission>): string {
    Concat(CodingPieces(Stamps(runs), Kinds(runs), Scores(runs), |runs|))
  }

  predicate EndsInSpace(t: string) {
    |t| > 0 && t[|t| - 1] == ' '
  }

  /**
   * One iteration of `assign_coding_trail`'s loop, for run `i`: it appends
   * the run's piece and moves the week marker. The source's test on the
   * trail's last character agrees with "the weekday changed", because a
   * weekday letter ends in a space and an entry never does.
   */
  method CodingPass(stamps: seq<Stamp>, kinds: seq<Kind>, scores: seq<int>, i: nat, trail: string, marker: int)
    returns (trail': string, marker': int)
    requires Aligned(stamps, kinds, scores) && i < |stamps|
    requires trail == Concat(CodingPieces(stamps, kinds, scores, i)) && marker == WeekMarker(stamps, i)
    ensures trail' == Concat(CodingPieces(stamps, kinds, scores, i + 1))
    ensures marker' == WeekMarker(stamps, i + 1)
  {
    var first := i == 0;
    var j := PrevIndex(i, |stamps|);
    var prevWeekday, prevKind := stamps[j].weekday, kinds[j];
    var stamp, kind, score := stamps[i], kinds[i], scores[i];
    if !first { PiecesEnd(stamps, kinds, scores, i); }
    var day := DayLetter(stamp.weekday);
    trail' := trail;
    marker' := marker;
    if first {
      trail' := DateLabel(stamp);
      trail' := trail' + day;
    } else {
      DayLetterInjective(prevWeekday, stamp.weekday);
      if DayLetter(prevWeekday) != day {
        if stamp.dayNumber - marker >= 7 {
          trail' := trail' + (" " + DateLabel(stamp));
          marker' := stamp.dayNumber;
        }
        DayEnd(trail', stamp.weekday);
        trail' := trail' + day;
      }
    }
    if kind == Develop {
      trail' := trail' + "-";
    } else if prevKind == Develop || first || EndsInSpace(trail') {
      trail' := trail' + IntToString(score);
    } else {
      trail' := trail' + ("," + IntToString(score));
    }
    if first {
      FirstPassPiece(stamp, kind, score);
    } else if prevWeekday == stamp.weekday {
      SameDayPassPiece(marker, prevWeekday, prevKind, stamp, kind, score, trail);
    } else if NewWeek(marker, prevWeekday, stamp) {
      NewWeekPassPiece(marker, prevWeekday, prevKind, stamp, kind, score, trail);
    } else {
      NewDayPassPiece(marker, prevWeekday, prevKind, stamp, kind, score, trail);
    }
    PassStep(stamps, kinds, scores, i, trail, marker, trail', marker');
  }

  /** `t` ends as an entry of a run of `kind` does: in '-' for a develop run, in a digit for a submit run. */
  predicate EndsInEntry(t: string, kind: Kind) {
    |t| > 0 && (if kind == Develop then t[|t| - 1] == '-' else IsDigit(t[|t| - 1]))
  }

  /** An entry ends in '-' (develop) or a digit (submit). */
  lemma EntryEnd(kind: Kind, plain: bool, score: int)
    ensures EndsInEntry(CodingEntry(kind, plain, score), kind)
  {
  }

  /** Text put in front of an ending does not change it, and an entry's ending is not a space. */
  lemma EndKept(a: string, b: string, kind: Kind)
    requires EndsInEntry(b, kind)
    ensures EndsInEntry(a + b, kind) && !EndsInSpace(a + b)
  {
    assert (a + b)[|a + b| - 1] == b[|b| - 1];
  }

  /** An entry holds no space and no '/', and starts with a comma exactly when it is a submit entry that is not plain. */
  lemma EntryChars(kind: Kind, plain: bool, score: int)
    ensures ' ' !in CodingEntry(kind, plain, score) && '/' !in CodingEntry(kind, plain, score)
    ensures CodingEntry(kind, plain, score)[0] == ',' <==> kind == Submit && !plain
  {
    var s := IntToString(score);
    IntToStringDigits(score);
    assert s[0] == '-' || IsDigit(s[0]);
    assert forall k :: 0 <= k < |s| ==> s[k] != ' ' && s[k] != '/' && s[k] != ',';
  }

  /** A weekday letter ends in a space. */
  lemma DayEnd(t: string, w: Weekday)
    ensures EndsInSpace(t + DayLetter(w))
  {
    var d := DayLetter(w);
    assert (t + d)[|t + d| - 1] == d[2];
  }

  /** The first run's text is its piece. */
  lemma FirstPassPiece(stamp: Stamp, kind: Kind, score: int)
    ensures DateLabel(stamp) + DayLetter(stamp.weekday) + CodingEntry(kind, true, score) == "" + FirstPiece(stamp, kind, score)
  {
  }

  /** A later run on the previous run's weekday writes only its entry. */
  lemma SameDayPassPiece(marker: int, prevWeekday: Weekday, prevKind: Kind, stamp: Stamp, kind: Kind, score: int, trail: string)
    requires prevWeekday == stamp.weekday
    ensures trail + CodingEntry(kind, prevKind == Develop, score) == trail + LaterPiece(marker, prevWeekday, prevKind, stamp, kind, score)
  {
    assert CodingEntry(kind, prevKind == Develop, score) == "" + CodingEntry(kind, prevKind == Develop, score);
  }

  /** A later run starting a new week writes its date, its weekday letter and its entry. */
  lemma NewWeekPassPiece(marker: int, prevWeekday: Weekday, prevKind: Kind, stamp: Stamp, kind: Kind, score: int, trail: string)
    requires NewWeek(marker, prevWeekday, stamp)
    ensures trail + (" " + DateLabel(stamp)) + DayLetter(stamp.weekday) + CodingEntry(kind, true, score) ==
      trail + LaterPiece(marker, prevWeekday, prevKind, stamp, kind, score)
  {
    var d := " " + DateLabel(stamp);
    var day := DayLetter(stamp.weekday);
    var e := CodingEntry(kind, true, score);
    assert trail + d + day + e == trail + (d + day + e);
  }

  /** A later run on another weekday of the same week writes its weekday letter and its entry. */
  lemma NewDayPassPiece(marker: int, prevWeekday: Weekday, prevKind: Kind, stamp: Stamp, kind: Kind, score: int, trail: string)
    requires prevWeekday != stamp.weekday && !NewWeek(marker, prevWeekday, stamp)
    ensures trail + DayLetter(stamp.weekday) + CodingEntry(kind, true, score) ==
      trail + LaterPiece(marker, prevWeekday, prevKind, stamp, kind, score)
  {
    var day := DayLetter(stamp.weekday);
    var e := CodingEntry(kind, true, score);
    assert trail + day + e == trail + (day + e);
  }

  /** The first loop of `assign_coding_trail`: the kind, time and score lists. */
  method CollectCodingData(runs: seq<Submission>) returns (kinds: seq<Kind>, stamps: seq<Stamp>, scores: seq<int>)
    ensures kinds == Kinds(runs) && stamps == Stamps(runs) && scores == Scores(runs)
  {
    kinds := [];
    stamps := [];
    scores := [];
    var k := 0;
    while k < |runs|
      invariant k <= |runs| && |kinds| == k && |stamps| == k && |scores| == k
      invariant forall j :: 0 <= j < k ==> kinds[j] == runs[j].kind && stamps[j] == runs[j].time
      invariant forall j :: 0 <= j < k ==> scores[j] == (if runs[j].kind == Develop then -1 else runs[j].score)
    {
      kinds := kinds + [runs[k].kind];
      stamps := stamps + [runs[k].time];
      if runs[k].kind == Develop {
        scores := scores + [-1];
      } else {
        scores := scores + [runs[k].score];
      }
      k := k + 1;
    }
    assert kinds == Kinds(runs);
    assert stamps == Stamps(runs);
    assert scores == Scores(runs);
  }

  /** The second loop of `assign_coding_trail`, over the collected lists. */
  method CodingLoop(stamps: seq<Stamp>, kinds: seq<Kind>, scores: seq<int>) returns (trail: string)
    requires Aligned(stamps, kinds, scores) && 1 <= |stamps|
    ensures trail == Concat(CodingPieces(stamps, kinds, scores, |stamps|))
  {
    var marker := stamps[0].dayNumber;
    trail := "";
    var i := 0;
    while i < |stamps|
      invariant i <= |stamps| && trail == Concat(CodingPieces(stamps, kinds, scores, i))
      invariant marker == WeekMarker(stamps, i)
    {
      trail, marker := CodingPass(stamps, kinds, scores, i, trail, marker);
      i := i + 1;
    }
    assert i == |stamps|;
  }

  /** A trail of at least one run ends in the last run's entry, never in a space. */
  lemma PiecesEnd(stamps: seq<Stamp>, kinds: seq<Kind>, scores: seq<int>, n: nat)
    requires Aligned(stamps, kinds, scores) && 1 <= n <= |stamps|
    ensures EndsInEntry(Concat(CodingPieces(stamps, kinds, scores, n)), kinds[n - 1])
    ensures !EndsInSpace(Concat(CodingPieces(stamps, kinds, scores, n)))
  {
    var k := n - 1;
    var j := PrevIndex(k, |stamps|);
    ConcatSnoc(CodingPieces(stamps, kinds, scores, k), CodingPiece(stamps, kinds, scores, k));
    PieceEnd(k == 0, WeekMarker(stamps, k), stamps[j].weekday, kinds[j], stamps[k], kinds[k], scores[k]);
    EndKept(Concat(CodingPieces(stamps, kinds, scores, k)), CodingPiece(stamps, kinds, scores, k), kinds[k]);
  }

  /** A run's piece ends in its entry. */
  lemma PieceEnd(first: bool, marker: int, prevWeekday: Weekday, prevKind: Kind, stamp: Stamp, kind: Kind, score: int)
    ensures EndsInEntry(RunPiece(first, marker, prevWeekday, prevKind, stamp, kind, score), kind)
  {
    var changed := prevWeekday != stamp.weekday;
    if first {
      EntryEnd(kind, true, score);
      EndKept(DateLabel(stamp) + DayLetter(stamp.weekday), CodingEntry(kind, true, score), kind);
    } else {
      var day := DayLetter(stamp.weekday);
      var head := if !changed then "" else if NewWeek(marker, prevWeekday, stamp) then " " + DateLabel(stamp) + day else day;
      EntryEnd(kind, prevKind == Develop || changed, score);
      EndKept(head, CodingEntry(kind, prevKind == Develop || changed, score), kind);
    }
  }

  /** One pass of the loop adds run `i`'s piece to the trail and moves the marker as the next run expects. */
  lemma PassStep(stamps: seq<Stamp>, kinds: seq<Kind>, scores: seq<int>, i: nat,
                 trail: string, marker: int, trail': string, marker': int)
    requires Aligned(stamps, kinds, scores) && i < |stamps|
    requires trail == Concat(CodingPieces(stamps, kinds, scores, i)) && marker == WeekMarker(stamps, i)
    requires trail' == (if i == 0 then "" else trail) + RunPiece(i == 0, marker, stamps[PrevIndex(i, |stamps|)].weekday,
               kinds[PrevIndex(i, |stamps|)], stamps[i], kinds[i], scores[i])
    requires marker' == NextMarker(i == 0, marker, stamps[PrevIndex(i, |stamps|)].weekday, stamps[i])
    ensures trail' == Concat(CodingPieces(stamps, kinds, scores, i + 1))
    ensures marker' == WeekMarker(stamps, i + 1)
  {
    ConcatSnoc(CodingPieces(stamps, kinds, scores, i), CodingPiece(stamps, kinds, scores, i));
  }

  /** A run's piece holds a '/' exactly when it writes a date: for the first run and for a run starting a new week. */
  lemma PieceDate(first: bool, marker: int, prevWeekday: Weekday, prevKind: Kind, stamp: Stamp, kind: Kind, score: int)
    ensures '/' in RunPiece(first, marker, prevWeekday, prevKind, stamp, kind, score) <==> first || NewWeek(marker, prevWeekday, stamp)
  {
    var date := DateLabel(stamp);
    var day := DayLetter(stamp.weekday);
    assert date[2] == '/';
    assert forall c :: c in day ==> IsDayChar(c) || c == ' ';
    EntryChars(kind, first || prevKind == Develop || prevWeekday != stamp.weekday, score);
  }

  /** A run's piece holds a space exactly when it writes a weekday letter: for the first run and when the weekday changes. */
  lemma PieceDay(first: bool, marker: int, prevWeekday: Weekday, prevKind: Kind, stamp: Stamp, kind: Kind, score: int)
    ensures ' ' in RunPiece(first, marker, prevWeekday, prevKind, stamp, kind, score) <==> first || prevWeekday != stamp.weekday
  {
    var day := DayLetter(stamp.weekday);
    assert day[0] == ' ';
    EntryChars(kind, first || prevKind == Develop || prevWeekday != stamp.weekday, score);
  }

  /** A run's piece starts with a comma exactly when it and the previous run are submit runs on one weekday. */
  lemma PieceComma(first: bool, marker: int, prevWeekday: Weekday, prevKind: Kind, stamp: Stamp, kind: Kind, score: int)
    ensures RunPiece(first, marker, prevWeekday, prevKind, stamp, kind, score)[0] == ',' <==>
      !first && prevWeekday == stamp.weekday && prevKind == Submit && kind == Submit
  {
    var date := DateLabel(stamp);
    assert date[0] == TwoDigits(stamp.month)[0];
    EntryChars(kind, first || prevKind == Develop || prevWeekday != stamp.weekday, score);
  }

  /** Run `k` writes a date: it is the first run, or it starts a new week. */
  predicate Dated(stamps: seq<Stamp>, k: nat)
    requires 1 <= |stamps| && k < |stamps|
  {
    k == 0 || NewWeek(WeekMarker(stamps, k), stamps[k - 1].weekday, stamps[k])
  }

  /** The last run before run `n` that writes a date. */
  function LastDated(stamps: seq<Stamp>, n: nat): (k: nat)
    requires 1 <= n <= |stamps|
    ensures k < n && Dated(stamps, k)
    ensures forall k' :: k < k' < n ==> !Dated(stamps, k')
  {
    if Dated(stamps, n - 1) then n - 1 else LastDated(stamps, n - 1)
  }

  /** The week marker before run `n` is the day of the last run before it that wrote a date. */
  lemma {:induction false} WeekMarkerIsLastDate(stamps: seq<Stamp>, n: nat)
    requires 1 <= n <= |stamps|
    ensures WeekMarker(stamps, n) == stamps[LastDated(stamps, n)].dayNumber
  {
    if n > 1 && !Dated(stamps, n - 1) {
      WeekMarkerIsLastDate(stamps, n - 1);
    }
  }

  /**
   * Run `k` writes a date exactly when it is the first run or its weekday
   * differs from the previous run's and its day is at least 7 days past the
   * last date written. A run on the previous run's weekday never writes
   * one, however many days later it comes.
   */
  lemma CodingDates(stamps: seq<Stamp>, kinds: seq<Kind>, scores: seq<int>, k: nat)
    requires Aligned(stamps, kinds, scores) && k < |stamps|
    ensures '/' in CodingPiece(stamps, kinds, scores, k) <==> Dated(stamps, k)
  {
    var j := PrevIndex(k, |stamps|);
    PieceDate(k == 0, WeekMarker(stamps, k), stamps[j].weekday, kinds[j], stamps[k], kinds[k], scores[k]);
  }

  /** Run `k` writes a weekday letter exactly when it is the first run or its weekday differs from the previous run's. */
  lemma CodingDays(stamps: seq<Stamp>, kinds: seq<Kind>, scores: seq<int>, k: nat)
    requires Aligned(stamps, kinds, scores) && k < |stamps|
    ensures ' ' in CodingPiece(stamps, kinds, scores, k) <==> k == 0 || stamps[k - 1].weekday != stamps[k].weekday
  {
    var j := PrevIndex(k, |stamps|);
    PieceDay(k == 0, WeekMarker(stamps, k), stamps[j].weekday, kinds[j], stamps[k], kinds[k], scores[k]);
  }

  /** Run `k`'s score follows a comma exactly when it and the previous run are submit runs on one weekday. */
  lemma CodingCommas(stamps: seq<Stamp>, kinds: seq<Kind>, scores: seq<int>, k: nat)
    requires Aligned(stamps, kinds, scores) && k < |stamps|
    ensures |CodingPiece(stamps, kinds, scores, k)| > 0
    ensures CodingPiece(stamps, kinds, scores, k)[0] == ',' <==>
      k > 0 && stamps[k - 1].weekday == stamps[k].weekday && kinds[k - 1] == Submit && kinds[k] == Submit
  {
    var j := PrevIndex(k, |stamps|);
    PieceComma(k == 0, WeekMarker(stamps, k), stamps[j].weekday, kinds[j], stamps[k], kinds[k], scores[k]);
  }

  /** Text appended after a prefix keeps it a prefix. */
  lemma PrefixKept(h: string, a: string, b: string)
    requires h <= a
    ensures h <= a + b
  {
    assert forall i :: 0 <= i < |h| ==> (a + b)[i] == a[i];
  }

  /** The pieces of the first `m` runs begin the pieces of the first `n`: a later run never rewrites an earlier piece. */
  lemma {:induction false} CodingPiecesPrefix(stamps: seq<Stamp>, kinds: seq<Kind>, scores: seq<int>, m: nat, n: nat)
    requires Aligned(stamps, kinds, scores) && m <= n <= |stamps|
    ensures CodingPieces(stamps, kinds, scores, m) <= CodingPieces(stamps, kinds, scores, n)
  {
    if m < n {
      CodingPiecesPrefix(stamps, kinds, scores, m, n - 1);
      SnocPrefix(CodingPieces(stamps, kinds, scores, n - 1), CodingPiece(stamps, kinds, scores, n - 1));
      PrefixTrans(CodingPieces(stamps, kinds, scores, m), CodingPieces(stamps, kinds, scores, n - 1), CodingPieces(stamps, kinds, scores, n));
    }
  }

  /** A trail of at least one run starts with the first run's date and weekday letter. */
  lemma PiecesStart(stamps: seq<Stamp>, kinds: seq<Kind>, scores: seq<int>, n: nat)
    requires Aligned(stamps, kinds, scores) && 1 <= n <= |stamps|
    ensures DateLabel(stamps[0]) + DayLetter(stamps[0].weekday) <= Concat(CodingPieces(stamps, kinds, scores, n))
  {
    var head := DateLabel(stamps[0]) + DayLetter(stamps[0].weekday);
    var ps := CodingPieces(stamps, kinds, scores, n);
    CodingPiecesPrefix(stamps, kinds, scores, 1, n);
    ConcatStart(ps);
    PrefixKept(head, head, CodingEntry(kinds[0], true, scores[0]));
    PrefixTrans(head, ps[0], Concat(ps));
  }

  /** The coding trail of at least one run starts with the first run's date and weekday letter. */
  lemma CodingTrailStart(runs: seq<Submission>)
    requires |runs| >= 1
    ensures DateLabel(runs[0].time) + DayLetter(runs[0].time.weekday) <= CodingTrailOf(runs)
  {
    PiecesStart(Stamps(runs), Kinds(runs), Scores(runs), |runs|);
  }

  /** The coding trail of at least one run ends in the last run's entry: '-' for a develop run, a digit for a submit run. */
  lemma CodingTrailEnd(runs: seq<Submission>)
    requires |runs| >= 1
    ensures EndsInEntry(CodingTrailOf(runs), runs[|runs| - 1].kind)
  {
    PiecesEnd(Stamps(runs), Kinds(runs), Scores(runs), |runs|);
  }

  /**
   * `assign_coding_trail(runs)`. With no runs the source fails on
   * `vals['datetime'][0]` (an IndexError); the model returns `None` then.
   */
  method AssignCodingTrail(runs: seq<Submission>) returns (trail: Option<string>)
    ensures trail.None? <==> |runs| == 0
    ensures trail.Some? ==> trail.value == CodingTrailOf(runs)
  {
    var kinds, stamps, scores := CollectCodingData(runs);
    if |runs| == 0 {
      return None;
    }
    var t := CodingLoop(stamps, kinds, scores);
    return Some(t);
  }
}
