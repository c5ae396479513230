/**
 * `run(data)`: for every student and every lab, the incremental-development
 * score and the five trails of the lab's runs. The input is keyed by
 * student id, then by lab id; so is the result. Python raises `IndexError`
 * for a lab with no runs or with a blank run before the last (the LOC trail
 * falls short), and the exception ends the whole call; the model returns
 * `None` then.
 */
module IncDev {
  import opened Wrappers
  import opened Submissions
  import opened DiffRatio
  import opened Relevance
  import opened LocTrail
  import opened Score
  import opened TimeTrail
  import opened CodingTrail
  import opened DrasticTrail

  /** What the source stores for one student's lab. */
  datatype LabResult = LabResult(
    incdevScore: int,
    scoreTrail: string,
    locTrail: string,
    timeTrail: string,
    codingTrail: string,
    drasticTrail: string)

  /** The runs of a lab on which the source raises `IndexError`. */
  predicate Fails(runs: seq<Submission>) {
    runs == [] || BlankBeforeLast(runs)
  }

  /** `r` holds the score and trails of `runs`, each as its own operation defines it. */
  ghost predicate LabFits(runs: seq<Submission>, differ: Differ, fmt: Render, r: LabResult) {
    && r.incdevScore == FinalScore(LineCounts(runs))
    && r.scoreTrail == ScoreTrail(runs, differ, fmt)
    && 1 <= |runs| && |DrasticFlags(NormalisedCodes(runs), DrasticRule(differ), |runs|)| == |runs|
    && r.locTrail == LocTrailOf(LineCounts(runs), DrasticFlags(NormalisedCodes(runs), DrasticRule(differ), |runs|),
         LocTags(LineCounts(runs), DrasticFlags(NormalisedCodes(runs), DrasticRule(differ), |runs|)), |runs|)
    && r.timeTrail == TimeTrailOf(runs)
    && r.codingTrail == CodingTrailOf(runs)
    && r.drasticTrail == DrasticTrailOf(NormalisedCodes(runs), differ)
  }

  /** One lab's results, or the results of every lab of one student, match their runs key by key. */
  ghost predicate LabsFit(labs: map<string, seq<Submission>>, differ: Differ, fmt: Render, results: map<string, LabResult>) {
    results.Keys == labs.Keys && forall l :: l in labs ==> LabFits(labs[l], differ, fmt, results[l])
  }

  /** The results of every student match the input student by student. */
  ghost predicate AllFit(data: map<string, map<string, seq<Submission>>>, differ: Differ, fmt: Render,
                   results: map<string, map<string, LabResult>>) {
    results.Keys == data.Keys && forall u :: u in data ==> LabsFit(data[u], differ, fmt, results[u])
  }

  /**
   * The body of `run`'s inner loop for one lab: the six assignments, in
   * the source's order. The LOC trail is the one whose failure shows.
   */
  method RunLab(runs: seq<Submission>, differ: Differ, fmt: Render) returns (result: Option<LabResult>)
    ensures result.None? <==> Fails(runs)
    ensures result.Some? ==> LabFits(runs, differ, fmt, result.value)
  {
    var score := AssignIncDevScore(runs);
    var scoreTrail := AssignIncDevScoreTrail(runs, differ, fmt);
    var locTrail := AssignLocTrail(runs, differ);
    if locTrail.None? {
      return None;
    }
    var timeTrail := AssignTimeTrail(runs);
    var codingTrail := AssignCodingTrail(runs);
    var drasticTrail := AssignDrasticChangeTrail(runs, differ);
    var lab := LabResult(score, scoreTrail, locTrail.value, timeTrail, codingTrail.value, drasticTrail);
    result := Some(lab);
  }

  /** A map whose every entry satisfies `ok` still does after one more entry that satisfies it. */
  lemma StoreKeeps<V>(done: map<string, V>, ok: (string, V) -> bool, key: string, v: V, stored: map<string, V>)
    requires forall k :: k in done ==> ok(k, done[k])
    requires ok(key, v) && stored == done[key := v]
    ensures forall k :: k in stored ==> ok(k, stored[k])
  {
  }

  /** The inner loop of `run`: every lab of one student, stopping at the first that fails. */
  method RunStudent(labs: map<string, seq<Submission>>, differ: Differ, fmt: Render)
    returns (results: Option<map<string, LabResult>>)
    ensures results.None? <==> exists l :: l in labs && Fails(labs[l])
    ensures results.Some? ==> LabsFit(labs, differ, fmt, results.value)
  {
    ghost var ok := (l: string, r: LabResult) => l in labs && !Fails(labs[l]) && LabFits(labs[l], differ, fmt, r);
    var rest := labs.Keys;
    var done: map<string, LabResult> := map[];
    while rest != {}
      invariant rest <= labs.Keys && done.Keys == labs.Keys - rest
      invariant forall l :: l in done ==> ok(l, done[l])
      decreases rest
    {
      var l :| l in rest;
      var r := RunLab(labs[l], differ, fmt);
      if r.None? {
        return None;
      }
      StoreKeeps(done, ok, l, r.value, done[l := r.value]);
      done := done[l := r.value];
      rest := rest - {l};
    }
    assert done.Keys == labs.Keys;
    return Some(done);
  }

  /**
   * `run(data)`: results for every student and lab of `data`, or `None`
   * when some lab fails. Which lab the source reaches first does not
   * matter: every lab is scored on its own runs only.
   */
  method Run(data: map<string, map<string, seq<Submission>>>, differ: Differ, fmt: Render)
    returns (results: Option<map<string, map<string, LabResult>>>)
    ensures results.None? <==> exists u, l :: u in data && l in data[u] && Fails(data[u][l])
    ensures results.Some? ==> AllFit(data, differ, fmt, results.value)
  {
    var rest := data.Keys;
    var done: map<string, map<string, LabResult>> := map[];
    while rest != {}
      invariant rest <= data.Keys && done.Keys == data.Keys - rest
      invariant forall u :: u in done ==> (forall l :: l in data[u] ==> !Fails(data[u][l])) && LabsFit(data[u], differ, fmt, done[u])
      decreases rest
    {
      var u :| u in rest;
      var r := RunStudent(data[u], differ, fmt);
      if r.None? {
        return None;
      }
      done := done[u := r.value];
      rest := rest - {u};
    }
    return Some(done);
  }
}
