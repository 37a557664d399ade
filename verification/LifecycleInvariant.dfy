/** What every reachable state of the lifecycle satisfies. */
module LifecycleInvariant {
  import opened Basics
  import opened Gates
  import opened Records
  import opened CachePopulation
  import opened CacheStore
  import opened CacheDecision
  import opened CacheReuse
  import opened Derivation
  import opened TypedSelection
  import opened AssurancePolicy
  import opened Lifecycle

  /** A run as dispatch creates it for the work order; later steps keep these parts. */
  predicate IsBound(c: Context, run: Run) {
    && run.projectId == c.projectId && run.workOrderId == c.workOrder.workOrderId && run.runId != ""
    && run.requiredReviewers == RequiredOf(c.workOrder) && run.selectedGates == c.workOrder.qualityGates
    && run.implementerRole == ImplementationAgent
    && (run.implementerSession.Some? ==> run.implementerSession.value != "")
    && (c.workOrder.requiresImplementation ==> run.implementerSession.Some?)
  }

  predicate IsHardBlocker(b: RunBlocker) {
    !b.GateFailed?
  }

  /** Phase, status, digests and blockers agree. */
  predicate IsCoherent(run: Run) {
    && (run.phase in {Implement, Verify} ==> run.reviewedDigest == None)
    && (run.phase in {Verify, ReviewPhase} ==> Present(run.currentDigest))
    && (run.phase == ReviewPhase ==> run.reviewedDigest in {None, run.currentDigest})
    && (run.status == CorrectionStatus ==> run.phase == Implement && Present(run.currentDigest))
    && (run.status == Completed ==> run.phase == Stopped && run.scopeViolations == [] && Present(run.currentDigest))
    && (run.phase == Stopped ==> run.status in {Completed, BlockedStatus})
    && (run.status == BlockedStatus ==> exists b :: b in run.blockers && IsHardBlocker(b))
    && run.status != Failed
  }

  /** Both ledgers speak of this run only. */
  predicate LedgersAreOwn(s: State)
    requires s.run.Some?
  {
    var run := s.run.value;
    && (forall e :: e in s.evidence ==> e.projectId == run.projectId && e.workOrderId == run.workOrderId && e.runId == run.runId)
    && (forall r :: r in s.reviews ==> r.projectId == run.projectId && r.workOrderId == run.workOrderId && r.runId == run.runId)
  }

  function WithVerdict(verdict: Verdict): Review -> bool {
    (r: Review) => r.verdict == verdict
  }

  function Corrections(reviews: seq<Review>): nat {
    |Filter(reviews, WithVerdict(CorrectionNeeded))|
  }

  predicate AttemptCounts(s: State)
    requires s.run.Some?
  {
    s.run.value.attempt == 1 + Corrections(s.reviews)
  }

  /** One recorded review, on its own. */
  predicate IsIndependent(run: Run, r: Review) {
    && IsRecognized(r.role) && r.role in run.requiredReviewers
    && r.implementerRole == run.implementerRole && Some(r.implementerSession) == run.implementerSession
    && r.role != run.implementerRole && Some(r.session) != run.implementerSession
    && r.changeDigest != "" && !IsContradiction(r)
    && (r.verdict != Approved ==> r.findings != [] || r.reasonCodes != [])
  }

  /** Two approvals of one digest: different roles, hence different sessions. */
  predicate AreIndependent(x: Review, y: Review) {
    x.changeDigest == y.changeDigest && x.verdict == Approved && y.verdict == Approved ==> x.role != y.role && x.session != y.session
  }

  predicate ReviewsAreIndependent(s: State)
    requires s.run.Some?
  {
    && (forall r :: r in s.reviews ==> IsIndependent(s.run.value, r))
    && (forall i, j :: 0 <= i < j < |s.reviews| ==> AreIndependent(s.reviews[i], s.reviews[j]))
  }

  /** Times and ids recorded so far are in the past. */
  ghost predicate IsPast(s: State) {
    && IsDated(World(s.store, s.evidence, s.clock))
    && (forall e :: e in s.evidence ==> e.evidenceId < s.clock)
    && (forall r :: r in s.reviews ==> r.reviewId < s.clock)
    && (forall i, j :: 0 <= i < j < |s.reviews| ==> s.reviews[i].reviewId < s.reviews[j].reviewId)
  }

  ghost predicate OwnRunIsSound(c: Context, s: State)
    requires IsOwn(c, s)
  {
    && IsBound(c, s.run.value) && IsCoherent(s.run.value) && LedgersAreOwn(s) && AttemptCounts(s) && ReviewsAreIndependent(s)
  }

  ghost predicate Invariant(c: Context, s: State) {
    WellFormed(s.store) && IsPast(s) && (IsOwn(c, s) ==> OwnRunIsSound(c, s))
  }

  /** Before the first dispatch for the work order, with records of the past on file. */
  ghost predicate IsInitial(c: Context, s: State) {
    WellFormed(s.store) && IsPast(s) && !IsOwn(c, s)
  }

  lemma InitialIsSound(c: Context, s: State)
    requires IsInitial(c, s)
    ensures Invariant(c, s)
  {
  }

  /** Applying cache hits keeps times in the past and adds evidence of this run only. */
  lemma {:induction false} ApplyingKeepsPast(w: World, run: Run, a: Asker, states: seq<GateState>, gates: seq<Gate>)
    requires WellFormed(w.store) && IsDated(w) && forall e :: e in w.evidence ==> e.evidenceId < w.now
    ensures var u := AppliedToAll(w, run, a, states, gates);
      && IsDated(u) && w.now <= u.now && w.evidence <= u.evidence
      && (forall e :: e in u.evidence ==> e.evidenceId < u.now)
      && (forall i :: |w.evidence| <= i < |u.evidence| ==>
            u.evidence[i].projectId == run.projectId && u.evidence[i].workOrderId == run.workOrderId && u.evidence[i].runId == run.runId)
  {
    if gates == [] {
    } else {
      ApplyingKeepsPast(w, run, a, states, gates[..|gates| - 1]);
    }
  }

  /** A step that leaves the ledgers, the cache and the run's bindings alone need only keep the run coherent. */
  lemma RunStepKeeps(c: Context, s: State, t: State)
    requires Invariant(c, s) && IsOwn(c, s) && t.run.Some?
    requires t.store == s.store && t.evidence == s.evidence && t.reviews == s.reviews && s.clock <= t.clock
    requires HasSameBinding(s.run.value, t.run.value) && IsCoherent(t.run.value)
    ensures Invariant(c, t)
  {
    hide IsCoherent, WellFormed;
  }

  predicate HasSameBinding(r: Run, t: Run) {
    && t.projectId == r.projectId && t.workOrderId == r.workOrderId && t.runId == r.runId && t.attempt == r.attempt
    && t.requiredReviewers == r.requiredReviewers && t.selectedGates == r.selectedGates
    && t.implementerRole == r.implementerRole && t.implementerSession == r.implementerSession
  }

  lemma BlockingKeepsCoherent(run: Run, blockers: seq<RunBlocker>, b: RunBlocker)
    requires b in blockers && IsHardBlocker(b)
    ensures exists x :: x in Distinct(run.blockers + blockers) && IsHardBlocker(x)
  {
    assert b in Distinct(run.blockers + blockers);
  }

  lemma DirtyKeeps(c: Context, s: State)
    requires Invariant(c, s)
    ensures Invariant(c, BlockDirty(c, s))
  {
    if IsOwn(c, s) {
      BlockingKeepsCoherent(s.run.value, [DirtyWorktree], DirtyWorktree);
      RunStepKeeps(c, s, BlockDirty(c, s));
    }
  }

  lemma RedispatchKeeps(c: Context, s: State, session: Option<string>)
    requires Invariant(c, s) && IsOwn(c, s)
    requires session == s.run.value.implementerSession || s.run.value.implementerSession.None?
    requires session.Some? ==> session.value != ""
    requires c.workOrder.requiresImplementation ==> session.Some?
    ensures OwnRunIsSound(c, s.(run := Some(DispatchedRun(c, s, session)), clock := s.clock + 1, stage := ImplementStage))
  {
    hide WellFormed, IsPast;
  }

  lemma DispatchKeeps(c: Context, s: State, d: DispatchInput)
    requires Invariant(c, s)
    ensures Invariant(c, Dispatch(c, s, d).0)
  {
    hide IsCoherent, ReviewsAreIndependent, AttemptCounts, BlockDirty;
    DirtyKeeps(c, s);
    var session := ResolveImplementerSession(c.workOrder, BoundSession(c, s), d.session);
    if session.Some? && Dispatch(c, s, d) != (s, Dispatch(c, s, d).1) && !s.tree.dirty {
      if IsOwn(c, s) {
        RedispatchKeeps(c, s, session.value);
      } else {
        FirstDispatchIsSound(c, s, session.value);
      }
    }
  }

  lemma FirstDispatchIsSound(c: Context, s: State, session: Option<string>)
    requires !IsOwn(c, s) && (session.Some? ==> session.value != "")
    requires c.workOrder.requiresImplementation ==> session.Some?
    ensures OwnRunIsSound(c,
      s.(run := Some(DispatchedRun(c, s, session)), evidence := [], reviews := [], clock := s.clock + 1, stage := ImplementStage))
  {
  }

  lemma UnchangedKeeps(c: Context, s: State)
    requires Invariant(c, s) && IsOwn(c, s) && CanVerify(s.run.value)
    ensures Invariant(c, BlockUnchanged(s))
  {
    BlockingKeepsCoherent(s.run.value, [NoImplementationChange], NoImplementationChange);
    RunStepKeeps(c, s, BlockUnchanged(s));
  }

  lemma ViolationsKeep(c: Context, s: State)
    requires Invariant(c, s) && IsOwn(c, s) && ViolationsOf(s.tree) != []
    ensures Invariant(c, BlockViolations(s))
  {
    var found := ScopeBlockers(ViolationsOf(s.tree));
    assert found[0] in found;
    BlockingKeepsCoherent(s.run.value, found, found[0]);
    RunStepKeeps(c, s, BlockViolations(s));
  }

  lemma ReuseKeeps(c: Context, s: State, index: IndexInput)
    requires Invariant(c, s) && IsOwn(c, s)
    ensures Invariant(c, WithReuse(c, s, index))
    ensures s.evidence <= WithReuse(c, s, index).evidence
  {
    hide IsCoherent, IsBound, IsIndependent, AreIndependent, AppliedToAll;
    var run := s.run.value;
    ApplyingKeepsPast(World(s.store, s.evidence, s.clock), run, AskerOf(run, index.bundle, index.env), GateStatesOf(c, s), run.selectedGates);
    var t := WithReuse(c, s, index);
    forall e | e in t.evidence ensures e.projectId == run.projectId && e.workOrderId == run.workOrderId && e.runId == run.runId {
      var i :| 0 <= i < |t.evidence| && t.evidence[i] == e;
      if i < |s.evidence| { assert s.evidence[i] == e; }
    }
  }

  lemma VerifyKeeps(c: Context, s: State, index: IndexInput)
    requires Invariant(c, s)
    ensures Invariant(c, VerifyStep(c, s, index).0)
  {
    hide Invariant, WithReuse, Verified, BlockUnchanged, BlockViolations;
    if IsActive(c, s) && CanVerify(s.run.value) {
      if c.workOrder.requiresImplementation && s.tree.files == [] {
        UnchangedKeeps(c, s);
      } else if ViolationsOf(s.tree) != [] {
        ViolationsKeep(c, s);
      } else {
        VerifiedKeeps(c, s);
        ReuseKeeps(c, Verified(s), index);
      }
    }
  }

  lemma VerifiedKeeps(c: Context, s: State)
    requires Invariant(c, s) && IsOwn(c, s) && CanVerify(s.run.value)
    ensures IsOwn(c, Verified(s)) && Invariant(c, Verified(s))
  {
    RunStepKeeps(c, s, Verified(s));
  }

  lemma AppendedEvidenceKeeps(c: Context, s: State, i: EvidenceInput)
    requires Invariant(c, s) && IsOwn(c, s) && IsAcceptable(s.run.value, i)
    ensures Invariant(c, WithEvidence(s, i))
  {
    PopulatingKeepsWellFormed(s, i);
    hide IsCoherent, IsBound, IsIndependent, AreIndependent, WellFormed, IsCacheable;
  }

  lemma RefreshingKeepsCoherent(run: Run, states: seq<GateState>)
    requires IsCoherent(run)
    ensures IsCoherent(run.(blockers := RefreshBlockers(run.blockers, states)))
  {
    hide FailedGates;
    if run.status == BlockedStatus {
      var b :| b in run.blockers && IsHardBlocker(b);
      assert b in RefreshBlockers(run.blockers, states);
    }
  }

  lemma EvidenceKeeps(c: Context, s: State, i: EvidenceInput)
    requires Invariant(c, s)
    ensures Invariant(c, RecordEvidence(c, s, i).0)
  {
    if RecordEvidence(c, s, i).1 == Done {
      AppendedEvidenceKeeps(c, s, i);
      hide IsAcceptable, WithEvidence, RefreshBlockers, IsCoherent, WellFormed;
      var t := WithEvidence(s, i);
      RefreshingKeepsCoherent(t.run.value, GateStatesOf(c, t));
      RunStepKeeps(c, t, RecordEvidence(c, s, i).0);
    }
  }

  lemma StartKeeps(c: Context, s: State, plan: Option<SelectionPlan>)
    requires Invariant(c, s)
    ensures Invariant(c, StartAssurance(c, s, plan).0)
  {
    hide WellFormed, Allowed, NonReviewGatesPass;
    if StartAssurance(c, s, plan).1 == Done {
      RunStepKeeps(c, s, StartAssurance(c, s, plan).0);
    }
  }

  lemma FinalizeKeeps(c: Context, s: State, plan: Option<SelectionPlan>)
    requires Invariant(c, s)
    ensures Invariant(c, Finalize(c, s, plan).0)
  {
    hide Allowed, AllGatesPass, IndependentApproves, RequiredRolesApprove, AcceptanceIsEvidenced;
    if IsActive(c, s) && s.run.value.status != Completed && CanFinalize(c, s, plan) {
      RunStepKeeps(c, s, Finalize(c, s, plan).0);
    }
  }

  lemma ExpandKeeps(c: Context, s: State, i: ExpandInput)
    requires Invariant(c, s)
    ensures Invariant(c, ExpandContext(c, s, i).0)
  {
    if ExpandContext(c, s, i).1 == Done {
      RunStepKeeps(c, s, ExpandContext(c, s, i).0);
    }
  }

  lemma SharedRoleIsReported(rs: seq<Review>, x: Review, r: Review)
    requires x in rs && x.verdict == Approved && r.verdict == Approved && x.role == r.role && IsRecognized(r.role)
    ensures AboutReviews(rs + [r], DuplicateReviewApproval(r.role))
  {
    FilterAppend(rs, r, ApprovedBy(r.role));
    assert x in Filter(rs, ApprovedBy(r.role));
  }

  lemma SharedSessionIsReported(rs: seq<Review>, x: Review, r: Review)
    requires x in rs && x.verdict == Approved && r.verdict == Approved && IsRecognized(x.role) && IsRecognized(r.role)
    requires x.role != r.role && x.session == r.session
    ensures AboutReviews(rs + [r], DuplicateReviewSession(r.session))
  {
    assert x in rs + [r] && r in rs + [r] && ShareSession(x, r, r.session);
  }

  /** What an allowed submission says about the candidate and the approvals it joins. */
  lemma SubmissionIsIndependent(c: Context, s: State, r: Review, plan: Option<SelectionPlan>, x: Review)
    requires s.run.Some? && Allowed(PolicyCase(c, s, SubmissionMode, Some(r), plan))
    requires MatchingReviews(c.projectId, c.workOrder, s.run.value)(r) && IsRecognized(r.role)
    requires x in s.reviews && MatchingReviews(c.projectId, c.workOrder, s.run.value)(x) && IsRecognized(x.role)
    ensures AreIndependent(x, r)
  {
    hide AboutRun, AboutRoles, AboutSomeReview, AboutReviews;
    var inp := PolicyCase(c, s, SubmissionMode, Some(r), plan);
    var p := MatchingReviews(c.projectId, c.workOrder, s.run.value);
    FilterAppend(s.reviews, r, p);
    assert CurrentReviews(inp) == Filter(s.reviews, p) + [r];
    assert !Reported(inp, DuplicateReviewApproval(r.role)) && !Reported(inp, DuplicateReviewSession(r.session));
    if x.verdict == Approved && r.verdict == Approved {
      if x.role == r.role { SharedRoleIsReported(Filter(s.reviews, p), x, r); }
      if x.role != r.role && x.session == r.session { SharedSessionIsReported(Filter(s.reviews, p), x, r); }
    }
  }

  lemma CandidateIsConsistent(inp: PolicyInput, r: Review, plan: Option<SelectionPlan>)
    requires Allowed(inp) && r in CurrentReviews(inp) && IsRecognized(r.role)
    ensures !IsContradiction(r)
  {
    hide AboutRun, AboutReviews, AboutRoles, CurrentReviews, AboutReviewer, AboutApproval;
    assert !Reported(inp, ApprovalContradictsHigh(r.role)) && !Reported(inp, ApprovalContradictsCritical(r.role));
    assert !AboutReview(inp, r, ApprovalContradictsHigh(r.role)) && !AboutReview(inp, r, ApprovalContradictsCritical(r.role));
  }

  /** A submitted review is well made, and an allowed one joins the approvals already there. */
  lemma SubmissionKeepsIndependence(c: Context, s: State, i: ReviewInput)
    requires Invariant(c, s) && IsActive(c, s) && CanReview(c, s.run.value, i)
    requires Allowed(PolicyCase(c, s, SubmissionMode, Some(SubmittedReview(c, s, i)), i.plan))
    ensures IsIndependent(s.run.value, SubmittedReview(c, s, i))
    ensures forall x :: x in s.reviews ==> AreIndependent(x, SubmittedReview(c, s, i))
  {
    hide Allowed, WellFormed, IsCoherent;
    var r := SubmittedReview(c, s, i);
    var inp := PolicyCase(c, s, SubmissionMode, Some(r), i.plan);
    assert MatchingReviews(c.projectId, c.workOrder, s.run.value)(r);
    assert r in Submitted(inp);
    CandidateIsConsistent(inp, r, i.plan);
    forall x | x in s.reviews ensures AreIndependent(x, r) {
      if Some(x.changeDigest) == s.run.value.currentDigest {
        assert MatchingReviews(c.projectId, c.workOrder, s.run.value)(x);
        SubmissionIsIndependent(c, s, r, i.plan, x);
      }
    }
  }

  lemma ReviewedRunIsCoherent(run: Run, role: Role, verdict: Verdict)
    requires IsCoherent(run) && run.phase == ReviewPhase && Present(run.currentDigest)
    requires run.status !in {Completed, BlockedStatus, Failed}
    ensures IsCoherent(ReviewedRun(run, role, verdict))
  {
    BlockingKeepsCoherent(run, [ReviewBlockedBy(role)], ReviewBlockedBy(role));
  }

  lemma AppendKeepsIndependence(run: Run, reviews: seq<Review>, r: Review)
    requires forall i, j :: 0 <= i < j < |reviews| ==> AreIndependent(reviews[i], reviews[j])
    requires forall x :: x in reviews ==> AreIndependent(x, r)
    ensures forall i, j :: 0 <= i < j < |reviews + [r]| ==> AreIndependent((reviews + [r])[i], (reviews + [r])[j])
  {
    hide AreIndependent;
  }

  lemma JoiningKeeps(c: Context, s: State, t: State, r: Review)
    requires Invariant(c, s) && IsOwn(c, s) && t.run.Some?
    requires t.store == s.store && t.evidence == s.evidence && t.reviews == s.reviews + [r] && t.clock == s.clock + 1
    requires IsCoherent(t.run.value) && HasSameBinding(s.run.value.(attempt := t.run.value.attempt), t.run.value)
    requires t.run.value.attempt == s.run.value.attempt + if r.verdict == CorrectionNeeded then 1 else 0
    requires r.reviewId == s.clock
    requires r.projectId == s.run.value.projectId && r.workOrderId == s.run.value.workOrderId && r.runId == s.run.value.runId
    requires IsIndependent(s.run.value, r) && forall x :: x in s.reviews ==> AreIndependent(x, r)
    ensures Invariant(c, t)
  {
    hide IsCoherent, WellFormed, IsPast, ReviewsAreIndependent, AttemptCounts, LedgersAreOwn, IsIndependent, AreIndependent;
    JoiningKeepsPast(s, t, r);
    JoiningKeepsIndependence(s, t, r);
    JoiningKeepsCount(s, t, r);
    JoiningKeepsLedgers(s, t, r);
  }

  lemma JoiningKeepsPast(s: State, t: State, r: Review)
    requires IsPast(s) && t.store == s.store && t.evidence == s.evidence && t.reviews == s.reviews + [r] && t.clock == s.clock + 1
    requires r.reviewId == s.clock
    ensures IsPast(t)
  {
    hide IsDated;
    LaterIsDated(World(s.store, s.evidence, s.clock), t.clock);
  }

  lemma JoiningKeepsIndependence(s: State, t: State, r: Review)
    requires s.run.Some? && t.run.Some? && ReviewsAreIndependent(s) && t.reviews == s.reviews + [r]
    requires HasSameBinding(s.run.value.(attempt := t.run.value.attempt), t.run.value)
    requires IsIndependent(s.run.value, r) && forall x :: x in s.reviews ==> AreIndependent(x, r)
    ensures ReviewsAreIndependent(t)
  {
    hide AreIndependent, IsContradiction, IsRecognized;
    AppendKeepsIndependence(s.run.value, s.reviews, r);
  }

  lemma JoiningKeepsCount(s: State, t: State, r: Review)
    requires s.run.Some? && t.run.Some? && AttemptCounts(s) && t.reviews == s.reviews + [r]
    requires t.run.value.attempt == s.run.value.attempt + if r.verdict == CorrectionNeeded then 1 else 0
    ensures AttemptCounts(t)
  {
    FilterAppend(s.reviews, r, WithVerdict(CorrectionNeeded));
  }

  lemma JoiningKeepsLedgers(s: State, t: State, r: Review)
    requires s.run.Some? && t.run.Some? && LedgersAreOwn(s) && t.evidence == s.evidence && t.reviews == s.reviews + [r]
    requires HasSameBinding(s.run.value.(attempt := t.run.value.attempt), t.run.value)
    requires r.projectId == s.run.value.projectId && r.workOrderId == s.run.value.workOrderId && r.runId == s.run.value.runId
    ensures LedgersAreOwn(t)
  {
  }

  lemma LaterIsDated(w: World, later: Tick)
    requires IsDated(w) && w.now <= later
    ensures IsDated(w.(now := later))
  {
  }

  lemma ReviewKeeps(c: Context, s: State, i: ReviewInput)
    requires Invariant(c, s)
    ensures Invariant(c, RecordReview(c, s, i).0)
  {
    if IsActive(c, s) && CanReview(c, s.run.value, i) {
      var r := SubmittedReview(c, s, i);
      if Allowed(PolicyCase(c, s, SubmissionMode, Some(r), i.plan)) {
        hide IsCoherent, AreIndependent, IsIndependent, Allowed, WellFormed, PolicyCase, CurrentEvidence;
        SubmissionKeepsIndependence(c, s, i);
        ReviewedRunIsCoherent(s.run.value, i.role, i.verdict);
        JoiningKeeps(c, s, RecordReview(c, s, i).0, r);
      }
    }
  }

  /** Every event keeps the invariant. */
  lemma NextKeeps(c: Context, s: State, e: Event)
    requires Invariant(c, s)
    ensures Invariant(c, Next(c, s, e))
  {
    hide OwnRunIsSound;
    match e
    case EditTree(tree) => EditKeeps(c, s, tree);
    case DispatchEvent(d) => DispatchKeeps(c, s, d);
    case VerifyEvent(index) => VerifyKeeps(c, s, index);
    case EvidenceEvent(i) => EvidenceKeeps(c, s, i);
    case StartEvent(plan) => StartKeeps(c, s, plan);
    case ReviewEvent(i) => ReviewKeeps(c, s, i);
    case FinalizeEvent(plan) => FinalizeKeeps(c, s, plan);
    case ExpandEvent(i) => ExpandKeeps(c, s, i);
  }

  lemma EditKeeps(c: Context, s: State, tree: Tree)
    requires Invariant(c, s)
    ensures Invariant(c, s.(tree := tree))
  {
  }

  /** The invariant holds in every reachable state. */
  lemma {:induction false} HistoryIsSound(c: Context, s: State, events: seq<Event>)
    requires IsInitial(c, s)
    ensures Invariant(c, History(c, s, events))
  {
    if events == [] {
      InitialIsSound(c, s);
    } else {
      HistoryIsSound(c, s, events[..|events| - 1]);
      NextKeeps(c, History(c, s, events[..|events| - 1]), events[|events| - 1]);
    }
  }
}
