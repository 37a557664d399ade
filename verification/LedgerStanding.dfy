/** Why the review ledger of a reachable run never stands in the run's own way. */
module LedgerStanding {
  import opened Basics
  import opened Gates
  import opened Records
  import opened CacheStore
  import opened Derivation
  import opened TypedSelection
  import opened AssurancePolicy
  import opened Lifecycle
  import opened LifecycleInvariant
  import opened LifecycleSafety

  /** Each review has a session and refers to evidence on record at its digest. */
  predicate AreWellMade(s: State)
    requires s.run.Some?
  {
    forall r :: r in s.reviews ==> IsWellMade(s.run.value.runId, s.evidence, r)
  }

  predicate IsWellMade(runId: string, evidence: seq<Evidence>, r: Review) {
    r.session != "" && forall ref :: ref in r.evidenceRefs ==> ref.runId == runId && IsOnRecord(evidence, ref.evidenceId, r.changeDigest)
  }

  predicate IsOnRecord(evidence: seq<Evidence>, id: Tick, digest: string) {
    exists e :: e in evidence && e.evidenceId == id && e.changeDigest == digest
  }

  lemma GrowthKeepsWellMade(runId: string, before: seq<Evidence>, after: seq<Evidence>, r: Review)
    requires before <= after && IsWellMade(runId, before, r)
    ensures IsWellMade(runId, after, r)
  {
    forall id, digest | IsOnRecord(before, id, digest) ensures IsOnRecord(after, id, digest) {
      var e :| e in before && e.evidenceId == id && e.changeDigest == digest;
      assert e in after;
    }
  }

  lemma SubmittedRefersToRecord(c: Context, s: State, i: ReviewInput)
    requires IsActive(c, s) && CanReview(c, s.run.value, i)
    ensures var r := SubmittedReview(c, s, i);
      forall ref :: ref in r.evidenceRefs ==> ref.runId == s.run.value.runId && IsOnRecord(s.evidence, ref.evidenceId, r.changeDigest)
  {
    var r := SubmittedReview(c, s, i);
    var current := CurrentEvidence(PolicyCase(c, s, SubmissionMode, None, i.plan));
    hide DeriveGateStates;
    forall ref | ref in r.evidenceRefs ensures ref.runId == s.run.value.runId && IsOnRecord(s.evidence, ref.evidenceId, r.changeDigest) {
      var k :| 0 <= k < |current| && RefsTo(s.run.value, current)[k] == ref;
      assert current[k] in current;
    }
  }

  lemma SubmittedIsWellMade(c: Context, s: State, i: ReviewInput)
    requires IsActive(c, s) && CanReview(c, s.run.value, i)
    requires Allowed(PolicyCase(c, s, SubmissionMode, Some(SubmittedReview(c, s, i)), i.plan))
    ensures IsWellMade(s.run.value.runId, s.evidence, SubmittedReview(c, s, i))
  {
    var r := SubmittedReview(c, s, i);
    var inp := PolicyCase(c, s, SubmissionMode, Some(r), i.plan);
    assert r in Submitted(inp) && r in CurrentReviews(inp);
    assert !Reported(inp, ReviewSessionMissing(r.role));
    hide AboutRun, AboutReviews, AboutRoles, Allowed, DeriveGateStates;
    assert !AboutReview(inp, r, ReviewSessionMissing(r.role));
    SubmittedRefersToRecord(c, s, i);
  }

  /** A step records at most one review, one that was submitted and allowed. */
  lemma StepRecords(c: Context, s: State, e: Event)
    requires Invariant(c, s) && IsOwn(c, s)
    ensures var t := Next(c, s, e);
      || t.reviews == s.reviews
      || (e.ReviewEvent? && IsActive(c, s) && CanReview(c, s.run.value, e.review)
          && Allowed(PolicyCase(c, s, SubmissionMode, Some(SubmittedReview(c, s, e.review)), e.review.plan))
          && t.reviews == s.reviews + [SubmittedReview(c, s, e.review)])
  {
    hide Invariant, Allowed, IsAcceptable, CanFinalize, CanStartAssurance, SubmittedReview, CanReview, PolicyCase;
  }

  lemma StepKeepsWellMade(c: Context, s: State, e: Event)
    requires Invariant(c, s) && (IsOwn(c, s) ==> AreWellMade(s))
    ensures IsOwn(c, Next(c, s, e)) ==> AreWellMade(Next(c, s, e))
  {
    var t := Next(c, s, e);
    if IsOwn(c, s) {
      StepExtends(c, s, e);
      StepRecords(c, s, e);
      hide Next, Invariant, IsWellMade, SubmittedReview, Allowed;
      if t.reviews != s.reviews {
        SubmittedIsWellMade(c, s, e.review);
      }
      forall r | r in t.reviews ensures IsWellMade(t.run.value.runId, t.evidence, r) {
        GrowthKeepsWellMade(s.run.value.runId, s.evidence, t.evidence, r);
      }
    } else if IsOwn(c, t) {
      FreshLedger(c, s, e);
    }
  }

  lemma FreshLedger(c: Context, s: State, e: Event)
    requires WellFormed(s.store) && !IsOwn(c, s) && IsOwn(c, Next(c, s, e))
    ensures Next(c, s, e).reviews == []
  {
    hide WellFormed, Allowed, CanFinalize, CanStartAssurance, IsAcceptable;
  }

  lemma {:induction false} HistoryIsWellMade(c: Context, s: State, events: seq<Event>)
    requires IsInitial(c, s)
    ensures IsOwn(c, History(c, s, events)) ==> AreWellMade(History(c, s, events))
  {
    if events == [] {
      assert !IsOwn(c, History(c, s, events));
    } else {
      var init := events[..|events| - 1];
      HistoryIsSound(c, s, init);
      HistoryIsWellMade(c, s, init);
      StepKeepsWellMade(c, History(c, s, init), events[|events| - 1]);
    }
  }

  /** Recorded by the run at its current digest. */
  predicate IsCurrentReview(run: Run, r: Review) {
    r.projectId == run.projectId && r.workOrderId == run.workOrderId && r.runId == run.runId && Some(r.changeDigest) == run.currentDigest
  }

  /** What an approval by this role may rely on. */
  predicate IsBacked(inp: PolicyInput, role: Role) {
    RoleGateIsSufficient(inp, role) && HasRelevantEvidence(inp, role)
  }

  /** A well-made review gives the policy nothing to report about itself. */
  lemma WellMadeIsClean(c: Context, s: State, r: Review, inp: PolicyInput, b: Blocker)
    requires Invariant(c, s) && IsActive(c, s)
    requires IsIndependent(s.run.value, r) && IsWellMade(s.run.value.runId, s.evidence, r) && IsCurrentReview(s.run.value, r)
    requires inp.run == s.run.value && inp.workOrder == c.workOrder && inp.projectId == c.projectId && inp.evidence == s.evidence
    requires r.verdict == Approved && inp.mode != StatusMode ==> IsBacked(inp, r.role)
    ensures ReviewMatches(inp, r) && !AboutReview(inp, r, b)
  {
    hide WellFormed, IsPast, IsCoherent, AttemptCounts, ReviewsAreIndependent, RoleGateIsSufficient, HasRelevantEvidence;
    forall ref | ref in r.evidenceRefs ensures exists e :: e in CurrentEvidence(inp) && RefOf(inp.run, e) == ref {
      var e :| e in s.evidence && e.evidenceId == ref.evidenceId && e.changeDigest == r.changeDigest;
      assert e in CurrentEvidence(inp) && RefOf(inp.run, e) == ref;
    }
    assert ReferencesAreCurrent(inp, r) && ReferencesAreOwn(inp, r);
    hide CurrentEvidence, IsWellMade;
  }

  /** Distinct times, and approvals of one digest by different roles in different sessions. */
  predicate AreDistinct(reviews: seq<Review>) {
    forall i, j :: 0 <= i < j < |reviews| ==> reviews[i].reviewId != reviews[j].reviewId && AreIndependent(reviews[i], reviews[j])
  }

  /** Such reviews, taken together, give it nothing to report either. */
  lemma DistinctAreClean(submitted: seq<Review>, m: Review -> bool, digest: Option<string>, b: Blocker)
    requires AreDistinct(submitted) && forall r :: m(r) ==> Some(r.changeDigest) == digest
    ensures !AboutReviews(Filter(submitted, m), b)
  {
    var current := Filter(submitted, m);
    match b
    case DuplicateReviewId(id) => AtMostOneOfBoth(submitted, m, WithReviewId(id));
    case DuplicateReviewApproval(role) => AtMostOneOfBoth(submitted, m, ApprovedBy(role));
    case DuplicateReviewSession(session) =>
      forall x, y | x in current && y in current ensures !ShareSession(x, y, session) {
        var i :| 0 <= i < |submitted| && submitted[i] == x;
        var j :| 0 <= j < |submitted| && submitted[j] == y;
        hide IsRecognized;
        assert i < j ==> AreIndependent(submitted[i], submitted[j]);
        assert j < i ==> AreIndependent(submitted[j], submitted[i]);
      }
    case _ =>
  }

  lemma ReviewsAreDistinct(c: Context, s: State)
    requires Invariant(c, s) && IsOwn(c, s)
    ensures AreDistinct(s.reviews)
  {
    hide WellFormed, IsCoherent, IsBound, IsIndependent, AreIndependent;
  }

  /** A review that may join the ledger. */
  predicate MayJoin(s: State, r: Review)
    requires s.run.Some?
  {
    && IsIndependent(s.run.value, r) && IsWellMade(s.run.value.runId, s.evidence, r) && IsCurrentReview(s.run.value, r)
    && forall x :: x in s.reviews ==> x.reviewId != r.reviewId && AreIndependent(x, r)
  }

  /** In a reachable state the policy reports nothing about reviews, nor about one that may join them, where approvals are backed. */
  lemma LedgerIsClean(c: Context, s: State, mode: Mode, candidate: Option<Review>, plan: Option<SelectionPlan>, b: Blocker)
    requires Invariant(c, s) && IsActive(c, s) && AreWellMade(s) && (candidate.Some? ==> MayJoin(s, candidate.value))
    requires mode != StatusMode ==>
      forall role :: role in s.run.value.requiredReviewers ==> IsBacked(PolicyCase(c, s, mode, candidate, plan), role)
    ensures var inp := PolicyCase(c, s, mode, candidate, plan);
      !AboutSomeReview(inp, CurrentReviews(inp), b) && !AboutReviews(CurrentReviews(inp), b)
  {
    var inp := PolicyCase(c, s, mode, candidate, plan);
    ReviewsAreDistinct(c, s);
    assert AreDistinct(Submitted(inp)) by { hide IsIndependent, IsWellMade, AreIndependent, Invariant, DeriveGateStates; }
    DistinctAreClean(Submitted(inp), MatchingReviews(inp.projectId, inp.workOrder, inp.run), inp.run.currentDigest, b);
    forall r | r in CurrentReviews(inp) ensures !AboutReview(inp, r, b) {
      hide AboutReview, IsBacked, DeriveGateStates, AreDistinct, AboutReviews;
      CurrentIsWellMade(c, s, inp, r);
      WellMadeIsClean(c, s, r, inp, b);
    }
  }

  lemma CurrentIsWellMade(c: Context, s: State, inp: PolicyInput, r: Review)
    requires Invariant(c, s) && IsActive(c, s) && AreWellMade(s) && (inp.candidate.Some? ==> MayJoin(s, inp.candidate.value))
    requires inp.run == s.run.value && inp.workOrder == c.workOrder && inp.projectId == c.projectId && inp.reviews == s.reviews
    requires r in CurrentReviews(inp)
    ensures IsIndependent(s.run.value, r) && IsWellMade(s.run.value.runId, s.evidence, r) && IsCurrentReview(s.run.value, r)
  {
    hide WellFormed, IsPast, IsCoherent, AttemptCounts, AreIndependent, IsWellMade;
    assert r in Submitted(inp);
  }

  /** So in every history the standing of an active run depends on the run, its bindings, its gates and its evidence alone. */
  lemma StandingIgnoresReviews(c: Context, s: State, events: seq<Event>, plan: Option<SelectionPlan>)
    requires IsInitial(c, s) && IsActive(c, History(c, s, events))
    ensures var inp := PolicyCase(c, History(c, s, events), StatusMode, None, plan);
      Allowed(inp) <==> forall b :: !AboutRun(inp, b)
  {
    var t := History(c, s, events);
    HistoryIsSound(c, s, events);
    HistoryIsWellMade(c, s, events);
    hide History, Invariant, AboutRun, AboutSomeReview, AboutReviews, AreWellMade, CurrentReviews, PolicyCase;
    var inp := PolicyCase(c, t, StatusMode, None, plan);
    assert inp.mode == StatusMode by { hide DeriveGateStates; }
    forall b ensures Reported(inp, b) <==> AboutRun(inp, b) {
      LedgerIsClean(c, t, StatusMode, None, plan, b);
    }
  }
}
