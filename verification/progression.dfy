/** The progression engine and the submission handler: read-or-create
    progress, the sequential-step gate, the append-only result log and the
    record of a passed step. */
module Progression {
  import opened Http
  import opened Seqs
  import opened Schemas
  import opened Db
  import opened Grading

  /** Progress invariant: each record's completed steps hold no duplicate. */
  predicate ProgressWellFormed(progress: seq<Progress>) {
    && UniqueBy(progress, ProgressKey)
    && forall i :: 0 <= i < |progress| ==> NoDup(progress[i].completedSteps)
  }

  /** GET /progress/{user}/{domain}: the first record of that user and
      domain, or a fresh empty one that is inserted first. Only the progress
      collection can change, and only by that one insert. */
  function GetProgress(st: Store, userId: string, domain: string): (out: (Progress, Store))
    ensures out.0.userId == userId && out.0.domain == domain
    ensures out.1.(progress := st.progress) == st
    ensures HasKey(st.progress, ProgressKey, (userId, domain)) ==>
      out.1 == st && out.0 in st.progress
    ensures !HasKey(st.progress, ProgressKey, (userId, domain)) ==>
      && out.0.completedSteps == [] && out.0.scores == map[]
      && out.1.progress == st.progress + [out.0]
    ensures HasKey(out.1.progress, ProgressKey, (userId, domain))
  {
    match IndexOf(st.progress, ProgressKey, (userId, domain))
    case Some(i) => (st.progress[i], st)
    case None =>
      var p := EmptyProgress(userId, domain);
      var ps := st.progress + [p];
      assert ps[|st.progress|] == p;
      (p, st.(progress := ps))
  }

  /** A second read finds the record the first one created: same answer, no
      further insert. */
  lemma GetProgressIdempotent(st: Store, userId: string, domain: string)
    ensures var first := GetProgress(st, userId, domain);
      GetProgress(first.1, userId, domain) == first
  {
    var first := GetProgress(st, userId, domain);
    if !HasKey(st.progress, ProgressKey, (userId, domain)) {
      var n := |st.progress|;
      assert ProgressKey(first.1.progress[n]) == (userId, domain);
      assert forall j :: 0 <= j < n ==> first.1.progress[j] == st.progress[j];
    }
  }

  lemma GetProgressPreservesWellFormed(st: Store, userId: string, domain: string)
    requires ProgressWellFormed(st.progress)
    ensures ProgressWellFormed(GetProgress(st, userId, domain).1.progress)
  {
    var ps := GetProgress(st, userId, domain).1.progress;
    if !HasKey(st.progress, ProgressKey, (userId, domain)) {
      forall i, j | 0 <= i < j < |ps|
        ensures ProgressKey(ps[i]) != ProgressKey(ps[j])
      {
        assert ps[i] == st.progress[i];
      }
    }
  }

  /** The gate: step `order` is open when it is the first step (or lower),
      or when the step before it is completed. */
  predicate Unlocked(p: Progress, order: int) {
    order <= 1 || (order - 1) in p.completedSteps
  }

  /** `$addToSet` of the order and `$set` of its score on one record;
      nothing else about the record changes. */
  function Advance(p: Progress, order: int, score: int): (q: Progress)
    ensures q.userId == p.userId && q.domain == p.domain
    ensures order in q.completedSteps && p.completedSteps <= q.completedSteps
    ensures forall o :: o in q.completedSteps <==> o in p.completedSteps || o == order
    ensures NoDup(p.completedSteps) ==> NoDup(q.completedSteps)
    ensures q.scores.Keys == p.scores.Keys + {order} && q.scores[order] == score
    ensures forall o :: o in p.scores && o != order ==> q.scores[o] == p.scores[o]
  {
    p.(completedSteps := AddToSet(p.completedSteps, order), scores := p.scores[order := score])
  }

  /** Passing a step again leaves its completed set as the first pass left it. */
  lemma AdvanceTwiceKeepsCompleted(p: Progress, order: int, s1: int, s2: int)
    ensures Advance(Advance(p, order, s1), order, s2).completedSteps == Advance(p, order, s1).completedSteps
  {
  }

  /** The upserting update of a pass: advance the first record of the user
      and domain, or insert one holding just this step and score. */
  function RecordPass(progress: seq<Progress>, userId: string, domain: string, order: int, score: int): (r: seq<Progress>)
    ensures HasKey(progress, ProgressKey, (userId, domain)) ==>
      var i := IndexOf(progress, ProgressKey, (userId, domain)).value;
      && |r| == |progress|
      && r[i] == Advance(progress[i], order, score)
      && (forall j :: 0 <= j < |progress| && j != i ==> r[j] == progress[j])
    ensures !HasKey(progress, ProgressKey, (userId, domain)) ==>
      r == progress + [Progress(userId, domain, [order], map[order := score])]
  {
    match IndexOf(progress, ProgressKey, (userId, domain))
    case Some(i) => progress[i := Advance(progress[i], order, score)]
    case None =>
      progress + [Progress(userId, domain, [order], map[order := score])]
  }

  lemma RecordPassPreservesWellFormed(progress: seq<Progress>, userId: string, domain: string, order: int, score: int)
    requires ProgressWellFormed(progress)
    ensures ProgressWellFormed(RecordPass(progress, userId, domain, order, score))
  {
    var r := RecordPass(progress, userId, domain, order, score);
    if HasKey(progress, ProgressKey, (userId, domain)) {
      var i := IndexOf(progress, ProgressKey, (userId, domain)).value;
      forall a, b | 0 <= a < b < |r|
        ensures ProgressKey(r[a]) != ProgressKey(r[b])
      {
        assert ProgressKey(r[a]) == ProgressKey(progress[a]);
        assert ProgressKey(r[b]) == ProgressKey(progress[b]);
      }
    } else {
      forall a, b | 0 <= a < b < |r|
        ensures ProgressKey(r[a]) != ProgressKey(r[b])
      {
        if b == |progress| {
          assert r[a] == progress[a];
        }
      }
    }
  }

  /** The body of POST /assessments/submit. */
  datatype Submission = Submission(userId: string, domain: string, stepOrder: int, answers: seq<int>)

  /** The response: the logged result and "Passed" or "Failed". */
  datatype Verdict = Verdict(result: AssessmentResult, message: string)

  /** Whether the first roadmap of the domain has a step with the given
      order. */
  predicate HasStep(st: Store, domain: string, order: int) {
    && IndexOf(st.roadmaps, DomainOf, domain).Some?
    && IndexOf(st.roadmaps[IndexOf(st.roadmaps, DomainOf, domain).value].steps, OrderOf, order).Some?
  }

  /** The step a submission is graded against: the first step with the
      given order in the first roadmap of the domain. */
  function StepOf(st: Store, domain: string, order: int): (s: RoadmapStep)
    requires HasStep(st, domain, order)
    ensures s.order == order
    ensures exists i, k ::
      && 0 <= i < |st.roadmaps| && st.roadmaps[i].domain == domain
      && (forall j :: 0 <= j < i ==> st.roadmaps[j].domain != domain)
      && 0 <= k < |st.roadmaps[i].steps| && s == st.roadmaps[i].steps[k]
      && (forall m :: 0 <= m < k ==> st.roadmaps[i].steps[m].order != order)
  {
    var i := IndexOf(st.roadmaps, DomainOf, domain).value;
    var steps := st.roadmaps[i].steps;
    var k := IndexOf(steps, OrderOf, order).value;
    assert forall m :: 0 <= m < k ==> steps[m].order != order by {
      forall m | 0 <= m < k ensures steps[m].order != order {
        assert OrderOf(steps[m]) != order;
      }
    }
    assert forall j :: 0 <= j < i ==> st.roadmaps[j].domain != domain by {
      forall j | 0 <= j < i ensures st.roadmaps[j].domain != domain {
        assert DomainOf(st.roadmaps[j]) != domain;
      }
    }
    steps[k]
  }

  /** POST /assessments/submit. Unknown domain or step: 404 and nothing
      changes. Otherwise the progress record is read or created, and a
      closed gate answers 403 with nothing else changed. Otherwise the
      answers are scored against the step's key, one result is appended to
      the log, and on a pass the step is recorded in the progress. Users,
      roadmaps and resumes never change. */
  function Submit(st: Store, sub: Submission): (out: (Result<Verdict>, Store))
    ensures out.1.users == st.users && out.1.roadmaps == st.roadmaps && out.1.resumes == st.resumes
    ensures !HasStep(st, sub.domain, sub.stepOrder) ==> out.1 == st && out.0.Err? && out.0.error.status == NotFound
    ensures IndexOf(st.roadmaps, DomainOf, sub.domain).None? ==>
      out.0 == Err(HttpError(NotFound, "Roadmap not found"))
    ensures IndexOf(st.roadmaps, DomainOf, sub.domain).Some? && !HasStep(st, sub.domain, sub.stepOrder) ==>
      out.0 == Err(HttpError(NotFound, "Step not found"))
    ensures HasStep(st, sub.domain, sub.stepOrder) ==>
      var got := GetProgress(st, sub.userId, sub.domain);
      && (out.0.Err? <==> !Unlocked(got.0, sub.stepOrder))
      && (out.0.Err? ==> out.0.error == HttpError(Forbidden, "Complete previous step first") && out.1 == got.1)
    ensures out.0.Err? ==> out.1.results == st.results
    ensures out.0.Ok? ==>
      var r := out.0.value.result;
      var key := AnswerKey(StepOf(st, sub.domain, sub.stepOrder).questions);
      && HasStep(st, sub.domain, sub.stepOrder)
      && out.1.results == st.results + [r]
      && r == AssessmentResult(sub.userId, sub.domain, sub.stepOrder, r.score, |key|, r.passed)
      && r.score == |Matches(sub.answers, key)|
      && (r.passed <==> r.score >= PassMark(r.total))
      && (out.0.value.message == if r.passed then "Passed" else "Failed")
  {
    match IndexOf(st.roadmaps, DomainOf, sub.domain)
    case None => (Err(HttpError(NotFound, "Roadmap not found")), st)
    case Some(ri) =>
      var steps := st.roadmaps[ri].steps;
      match IndexOf(steps, OrderOf, sub.stepOrder)
      case None => (Err(HttpError(NotFound, "Step not found")), st)
      case Some(si) =>
        var got := GetProgress(st, sub.userId, sub.domain);
        if !Unlocked(got.0, sub.stepOrder) then
          (Err(HttpError(Forbidden, "Complete previous step first")), got.1)
        else
          var key := AnswerKey(steps[si].questions);
          var score := Score(sub.answers, key);
          assert score == |Matches(sub.answers, key)| by {
            ScoreCountsMatches(sub.answers, key);
          }
          var passed := Passes(score, |key|);
          var result := AssessmentResult(sub.userId, sub.domain, sub.stepOrder, score, |key|, passed);
          var logged := got.1.(results := got.1.results + [result]);
          if passed then
            (Ok(Verdict(result, "Passed")),
             logged.(progress := RecordPass(logged.progress, sub.userId, sub.domain, sub.stepOrder, score)))
          else
            (Ok(Verdict(result, "Failed")), logged)
  }

  /** The gate law: with the step before it not completed, a step past the
      first is refused whatever the answers; no result is logged and at most
      the empty progress record is created. */
  lemma SubmitGateLaw(st: Store, sub: Submission)
    requires HasStep(st, sub.domain, sub.stepOrder)
    requires sub.stepOrder > 1
    requires forall j :: 0 <= j < |st.progress| && st.progress[j].userId == sub.userId && st.progress[j].domain == sub.domain
               ==> (sub.stepOrder - 1) !in st.progress[j].completedSteps
    ensures Submit(st, sub).0 == Err(HttpError(Forbidden, "Complete previous step first"))
    ensures Submit(st, sub).1.results == st.results
    ensures Submit(st, sub).1.progress == st.progress
         || Submit(st, sub).1.progress == st.progress + [EmptyProgress(sub.userId, sub.domain)]
  {
    var got := GetProgress(st, sub.userId, sub.domain);
    if HasKey(st.progress, ProgressKey, (sub.userId, sub.domain)) {
      var j :| 0 <= j < |st.progress| && st.progress[j] == got.0;
    }
    assert !Unlocked(got.0, sub.stepOrder);
    assert got.1.results == st.results;
  }

  /** A failing submission changes progress only by the read-or-create. */
  lemma SubmitFailLeavesProgress(st: Store, sub: Submission)
    requires Submit(st, sub).0.Ok? && !Submit(st, sub).0.value.result.passed
    ensures Submit(st, sub).1.progress == GetProgress(st, sub.userId, sub.domain).1.progress
  {
  }

  /** A passing submission advances exactly the record the gate read: the
      step joins its completed set, its score is set, every other record
      stays as it was. */
  lemma SubmitPassRecordsStep(st: Store, sub: Submission)
    requires Submit(st, sub).0.Ok? && Submit(st, sub).0.value.result.passed
    ensures var before := GetProgress(st, sub.userId, sub.domain).1.progress;
      var after := Submit(st, sub).1.progress;
      var i := IndexOf(before, ProgressKey, (sub.userId, sub.domain)).value;
      && IndexOf(before, ProgressKey, (sub.userId, sub.domain)).Some?
      && |after| == |before|
      && after[i] == Advance(before[i], sub.stepOrder, Submit(st, sub).0.value.result.score)
      && (forall j :: 0 <= j < |before| && j != i ==> after[j] == before[j])
  {
  }

  /** Every submission keeps one progress record per user and domain, each
      with a duplicate-free completed set. */
  lemma SubmitPreservesProgressWellFormed(st: Store, sub: Submission)
    requires ProgressWellFormed(st.progress)
    ensures ProgressWellFormed(Submit(st, sub).1.progress)
  {
    if HasStep(st, sub.domain, sub.stepOrder) {
      GetProgressPreservesWellFormed(st, sub.userId, sub.domain);
      var out := Submit(st, sub);
      if out.0.Ok? && out.0.value.result.passed {
        RecordPassPreservesWellFormed(GetProgress(st, sub.userId, sub.domain).1.progress,
          sub.userId, sub.domain, sub.stepOrder, out.0.value.result.score);
      }
    }
  }

  /** Passing a step opens the next one for the same user and domain. */
  lemma SubmitPassOpensNextStep(st: Store, sub: Submission)
    requires Submit(st, sub).0.Ok? && Submit(st, sub).0.value.result.passed
    ensures Unlocked(GetProgress(Submit(st, sub).1, sub.userId, sub.domain).0, sub.stepOrder + 1)
  {
    var before := GetProgress(st, sub.userId, sub.domain).1.progress;
    var after := Submit(st, sub).1.progress;
    var key := (sub.userId, sub.domain);
    var i := IndexOf(before, ProgressKey, key).value;
    SubmitPassRecordsStep(st, sub);
    assert ProgressKey(after[i]) == key;
    forall j | 0 <= j < i
      ensures ProgressKey(after[j]) != key
    {
      assert after[j] == before[j];
    }
    assert IndexOf(after, ProgressKey, key) == Some(i);
  }
}
