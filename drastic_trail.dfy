/**
 * The drastic-change trail: the 1-based numbers of the runs whose code
 * changed drastically from the run just before, separated by ", ".
 * Example: `3, 10, 22`.
 */
module DrasticTrail {
  import opened Lines
  import opened Strings
  import opened Submissions
  import opened DiffRatio
  import opened LocTrail

  /**
   * One mark per run: run `k` is marked when it has a run before it and its
   * code changed drastically from that run's code.
   */
  function DrasticMarks(codes: seq<string>, differ: Differ): (marks: seq<bool>)
    ensures |marks| == |codes|
  {
    seq(|codes|, k requires 0 <= k < |codes| => k >= 1 && DrasticBetween(codes[k - 1], codes[k], differ))
  }

  lemma MarkAt(codes: seq<string>, differ: Differ, k: nat)
    requires k < |codes|
    ensures DrasticMarks(codes, differ)[k] <==> k >= 1 && DrasticBetween(codes[k - 1], codes[k], differ)
  {
  }

  /** The numbers (counting from 1) of the marked runs among the first `n`. */
  function Listed(marks: seq<bool>, n: nat): seq<nat>
    requires n <= |marks|
  {
    if n == 0 then [] else Listed(marks, n - 1) + (if marks[n - 1] then [n] else [])
  }

  /**
   * Run `k` is listed, by its number `k + 1`, exactly when it is marked;
   * every listed number is a run number; the list is strictly increasing.
   */
  lemma {:induction false} ListedMembers(marks: seq<bool>, n: nat)
    requires n <= |marks|
    ensures forall k :: 0 <= k < n ==> (k + 1 in Listed(marks, n) <==> marks[k])
    ensures forall m :: m in Listed(marks, n) ==> 1 <= m <= n
    ensures forall a, b :: 0 <= a < b < |Listed(marks, n)| ==> Listed(marks, n)[a] < Listed(marks, n)[b]
    decreases n
  {
    if n > 0 {
      ListedMembers(marks, n - 1);
      var prev := Listed(marks, n - 1);
      assert forall a :: 0 <= a < |prev| ==> prev[a] in prev;
    }
  }

  /** The numbers of the runs whose change is drastic, in order. */
  function DrasticRuns(codes: seq<string>, differ: Differ): seq<nat> {
    Listed(DrasticMarks(codes, differ), |codes|)
  }

  /**
   * Run `k` (0-based) is listed, by its number `k + 1`, exactly when it has
   * a run before it and changed drastically from it; the first run is never
   * listed; the numbers are strictly increasing.
   */
  lemma DrasticRunsMembers(codes: seq<string>, differ: Differ)
    ensures forall k :: 1 <= k < |codes| ==>
      (k + 1 in DrasticRuns(codes, differ) <==> DrasticBetween(codes[k - 1], codes[k], differ))
    ensures forall m :: m in DrasticRuns(codes, differ) ==> 2 <= m <= |codes|
    ensures forall a, b :: 0 <= a < b < |DrasticRuns(codes, differ)| ==>
      DrasticRuns(codes, differ)[a] < DrasticRuns(codes, differ)[b]
  {
    var marks := DrasticMarks(codes, differ);
    ListedMembers(marks, |codes|);
    if |codes| > 0 {
      MarkAt(codes, differ, 0);
    }
    forall k | 1 <= k < |codes|
      ensures k + 1 in DrasticRuns(codes, differ) <==> DrasticBetween(codes[k - 1], codes[k], differ)
    {
      MarkAt(codes, differ, k);
    }
  }

  /** `str()` of every run number, in order. */
  function Numerals(nums: seq<nat>): (parts: seq<string>)
    ensures |parts| == |nums|
    decreases |nums|
  {
    if nums == [] then [] else Numerals(nums[..|nums| - 1]) + [NatToString(nums[|nums| - 1])]
  }

  lemma NumeralsAppend(nums: seq<nat>, m: nat)
    ensures Numerals(nums + [m]) == Numerals(nums) + [NatToString(m)]
  {
    assert (nums + [m])[..|nums|] == nums;
  }

  /** The trail `assign_drastic_change_trail` returns for the normalised codes. */
  function DrasticTrailOf(codes: seq<string>, differ: Differ): string {
    Joined(Numerals(DrasticRuns(codes, differ)), ", ")
  }

  /**
   * `assign_drastic_change_trail(runs)` (incdev.py:342-372): every drastic
   * run's number followed by ", ", with the last separator cut off.
   */
  method AssignDrasticChangeTrail(runs: seq<Submission>, differ: Differ) returns (trail: string)
    ensures trail == DrasticTrailOf(NormalisedCodes(runs), differ)
  {
    ghost var codes := NormalisedCodes(runs);
    ghost var marks := DrasticMarks(codes, differ);
    trail := "";
    var runNum := 1;
    var prevCode := "";
    var i := 0;
    while i < |runs|
      invariant DrasticInvariant(codes, marks, i, trail, prevCode, runNum)
    {
      NormalisedCodeAt(runs, i);
      i, trail, prevCode, runNum := DrasticPass(runs[i].code, codes, marks, differ, i, trail, prevCode, runNum);
    }
    assert i == |codes|;
    DrasticFinish(marks, trail);
    trail := DropLast(trail, 2);
  }

  /** What the loop of `assign_drastic_change_trail` keeps after `i` runs. */
  predicate DrasticInvariant(codes: seq<string>, marks: seq<bool>, i: nat, trail: string, prevCode: string, runNum: int) {
    i <= |codes| == |marks| && runNum == i + 1
    && trail == MarkedPrefix(marks, i)
    && prevCode == (if i == 0 then "" else codes[i - 1])
    && (prevCode != "" ==> LineCount(prevCode) > 0)
  }

  /**
   * One pass of the loop: normalise run `i`, list it when its change is
   * drastic, and move on to the next run.
   */
  method DrasticPass(text: string, ghost codes: seq<string>, ghost marks: seq<bool>, differ: Differ,
                     i: nat, trail: string, prevCode: string, runNum: int)
    returns (next: nat, trail': string, code: string, runNum': int)
    requires i < |codes| && codes[i] == Normalise(text)
    requires i < |marks| && marks[i] == (i >= 1 && DrasticBetween(codes[i - 1], codes[i], differ))
    requires DrasticInvariant(codes, marks, i, trail, prevCode, runNum)
    ensures next == i + 1 && DrasticInvariant(codes, marks, next, trail', code, runNum')
  {
    var listed;
    code, listed := DrasticEntry(prevCode, text, codes[i], differ);
    DrasticAdvance(codes, marks, differ, i, trail, prevCode, runNum, code, listed);
    trail' := if listed then trail + NatToString(runNum) + ", " else trail;
    runNum' := runNum + 1;
    next := i + 1;
  }

  /**
   * The body of the loop for one run: normalise its code and decide whether
   * its change from the previous code is drastic.
   */
  method DrasticEntry(prevCode: string, text: string, ghost normalised: string, differ: Differ) returns (code: string, listed: bool)
    requires prevCode != "" ==> LineCount(prevCode) > 0
    requires normalised == Normalise(text)
    ensures code == normalised
    ensures code != "" ==> LineCount(code) > 0
    ensures listed == DrasticBetween(prevCode, code, differ)
  {
    var count;
    code, count := NormaliseCode(text);
    NormalisedHasLines(text);
    listed := false;
    if prevCode != "" {
      var diff := GetDiff(prevCode, code, differ);
      DrasticByCounts(prevCode, code, differ);
      if diff > DrasticThreshold {
        listed := true;
      }
    }
  }

  /** The invariant carries over to the next run once run `i` is handled. */
  lemma DrasticAdvance(codes: seq<string>, marks: seq<bool>, differ: Differ, i: nat, trail: string, prevCode: string,
                       runNum: int, code: string, listed: bool)
    requires i < |codes| && DrasticInvariant(codes, marks, i, trail, prevCode, runNum)
    requires marks[i] == (i >= 1 && DrasticBetween(codes[i - 1], codes[i], differ))
    requires code == codes[i] && (code != "" ==> LineCount(code) > 0)
    requires listed == DrasticBetween(prevCode, code, differ)
    ensures DrasticInvariant(codes, marks, i + 1, if listed then trail + NatToString(runNum) + ", " else trail, code, runNum + 1)
  {
    assert listed == marks[i];
  }

  /**
   * What the loop has appended after the first `n` runs: the number and a
   * separator for every marked run.
   */
  function MarkedPrefix(marks: seq<bool>, n: nat): string
    requires n <= |marks|
  {
    if n == 0 then "" else MarkedPrefix(marks, n - 1) + (if marks[n - 1] then NatToString(n) + ", " else "")
  }

  /** The loop's prefix is the terminated list of the marked run numbers. */
  lemma {:induction false} MarkedPrefixTerminated(marks: seq<bool>, n: nat)
    requires n <= |marks|
    ensures MarkedPrefix(marks, n) == Terminated(Numerals(Listed(marks, n)), ", ")
    decreases n
  {
    if n > 0 {
      MarkedPrefixTerminated(marks, n - 1);
      TerminatedExtend(Listed(marks, n - 1), n, marks[n - 1]);
    }
  }

  /** Listing one more number extends the terminated list by that number and a separator. */
  lemma TerminatedExtend(nums: seq<nat>, n: nat, listed: bool)
    ensures Terminated(Numerals(nums), ", ") + (if listed then NatToString(n) + ", " else "")
         == Terminated(Numerals(nums + (if listed then [n] else [])), ", ")
  {
    if listed {
      NumeralsAppend(nums, n);
      TerminatedAppend(Numerals(nums), NatToString(n), ", ");
    } else {
      assert nums + [] == nums;
    }
  }

  /** Cutting the last separator off the finished loop's trail gives the joined trail. */
  lemma DrasticFinish(marks: seq<bool>, trail: string)
    requires trail == MarkedPrefix(marks, |marks|)
    ensures DropLast(trail, 2) == Joined(Numerals(Listed(marks, |marks|)), ", ")
  {
    MarkedPrefixTerminated(marks, |marks|);
    DropSeparator(Numerals(Listed(marks, |marks|)), ", ");
  }

  /**
   * When the LOC trail's drastic list has one flag per run, the runs it
   * flags are exactly the runs the drastic-change trail lists.
   */
  lemma DrasticRunsMatchLocFlags(codes: seq<string>, differ: Differ)
    requires 1 <= |codes| && |DrasticFlags(codes, DrasticRule(differ), |codes|)| == |codes|
    ensures forall i :: 1 <= i < |codes| ==>
      (DrasticFlags(codes, DrasticRule(differ), |codes|)[i] <==> i + 1 in DrasticRuns(codes, differ))
  {
    DrasticRunsMembers(codes, differ);
    forall i | 1 <= i < |codes|
      ensures DrasticFlags(codes, DrasticRule(differ), |codes|)[i] <==> i + 1 in DrasticRuns(codes, differ)
    {
      DrasticAt(codes, DrasticRule(differ), |codes|, i);
    }
  }

  /** The trail has one comma fewer than it lists runs, and no comma when it lists none. */
  lemma {:induction false} JoinedNumeralsCommas(nums: seq<nat>)
    ensures Count(',', Joined(Numerals(nums), ", ")) == if nums == [] then 0 else |nums| - 1
    decreases |nums|
  {
    if |nums| == 1 {
      CountNatToString(',', nums[0]);
    } else if |nums| > 1 {
      var init := nums[..|nums| - 1];
      var last := nums[|nums| - 1];
      assert nums == init + [last];
      NumeralsAppend(init, last);
      assert Numerals(nums)[..|nums| - 1] == Numerals(init);
      JoinedNumeralsCommas(init);
      CountAppend(',', Joined(Numerals(init), ", "), ", ");
      CountAppend(',', Joined(Numerals(init), ", ") + ", ", NatToString(last));
      CountNatToString(',', last);
      assert Count(',', ", ") == 1 by {
        assert ", "[..1] == ",";
        assert ","[..0] == "";
      }
    }
  }

  /** The number of commas in the trail is one less than the number of drastic runs. */
  lemma DrasticTrailCommas(codes: seq<string>, differ: Differ)
    ensures var nums := DrasticRuns(codes, differ);
      Count(',', DrasticTrailOf(codes, differ)) == if nums == [] then 0 else |nums| - 1
  {
    JoinedNumeralsCommas(DrasticRuns(codes, differ));
  }
}
