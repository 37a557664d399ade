/** The execution engine: a run, its ledgers and the cache, updated step by step. */
module Execution {
  import opened Basics
  import opened Gates
  import opened Records
  import opened CacheIntegrity
  import opened CachePopulation
  import opened CacheStore
  import opened CacheEngine
  import opened TypedSelection
  import opened AssurancePolicy
  import opened Lifecycle
  import opened LifecycleInvariant
  import opened LifecycleSafety
  import opened LifecycleSteps
  import opened ApprovalBacking
  import opened EvidenceRecording

  datatype Refusal =
    | MissingDigest | NotReviewed | NoImplementer | DigestMoved | Violations | SelectionInvalid
    | Policy(Blocker) | UnknownGate(Gate) | PendingGate(Gate) | FailingGate(Gate)
    | NoIndependentReview | CorrectionIsNoApproval | NotApproved | SelfReview | SameSession | ForeignImplementer
    | ReviewedDigestDiffers | ReviewIsStale | MissingReviewer(Role) | NoAcceptanceEvidence | StillBlocked

  /** Adds a refusal when something is wrong. */
  function Note(refusals: seq<Refusal>, wrong: bool, why: Refusal): (r: seq<Refusal>)
    ensures r == [] <==> refusals == [] && !wrong
  {
    if wrong then refusals + [why] else refusals
  }

  method NoteGates(refusals: seq<Refusal>, states: seq<GateState>) returns (r: seq<Refusal>)
    ensures r == [] <==> refusals == [] && AllGatesPass(states)
  {
    r := refusals;
    for i := 0 to |states|
      invariant r == [] <==> refusals == [] && AllGatesPass(states[..i])
    {
      assert states[..i + 1] == states[..i] + [states[i]];
      r := Note(r, !IsKnownGate(states[i].gate), Refusal.UnknownGate(states[i].gate));
      r := Note(r, states[i].status == GatePending, PendingGate(states[i].gate));
      r := Note(r, states[i].status in {GateFail, GateBlocked}, FailingGate(states[i].gate));
    }
    assert states[..|states|] == states;
  }

  /** What finalizing asks of the earliest independent review. */
  method NoteIndependent(refusals: seq<Refusal>, s: Lifecycle.State) returns (r: seq<Refusal>)
    requires s.run.Some?
    ensures r == [] <==> refusals == [] && IndependentApproves(s)
  {
    var run := s.run.value;
    var independent := IndependentReviewAt(s.reviews, run.currentDigest);
    if independent.None? {
      return Note(refusals, true, NoIndependentReview);
    }
    var review := independent.value;
    if review.verdict == CorrectionNeeded {
      return Note(refusals, true, CorrectionIsNoApproval);
    }
    if review.verdict != Approved {
      return Note(refusals, true, NotApproved);
    }
    r := Note(refusals, review.role == review.implementerRole, SelfReview);
    r := Note(r, review.session == review.implementerSession, SameSession);
    r := Note(r, Present(run.implementerSession) && Some(review.implementerSession) != run.implementerSession, ForeignImplementer);
    r := Note(r, Present(run.reviewedDigest) && run.reviewedDigest != run.currentDigest, ReviewedDigestDiffers);
    r := Note(r, s.tree.digest != review.changeDigest, ReviewIsStale);
  }

  method NoteReviewers(refusals: seq<Refusal>, s: Lifecycle.State) returns (r: seq<Refusal>)
    requires s.run.Some?
    ensures r == [] <==> refusals == [] && RequiredRolesApprove(s)
  {
    r := refusals;
    var roles := s.run.value.requiredReviewers;
    for i := 0 to |roles|
      invariant r == [] <==> refusals == [] && forall role :: role in roles[..i] ==> HasApproval(s, role)
    {
      assert roles[..i + 1] == roles[..i] + [roles[i]];
      r := Note(r, !HasApproval(s, roles[i]), MissingReviewer(roles[i]));
    }
    assert roles[..|roles|] == roles;
  }

  predicate HasApproval(s: Lifecycle.State, role: Role)
    requires s.run.Some?
  {
    exists r :: r in s.reviews && Some(r.changeDigest) == s.run.value.currentDigest && r.role == role && r.verdict == Approved
  }

  /** Every reason against finalizing, gathered before any is acted on. */
  method RefusalsToFinalize(c: Context, s: Lifecycle.State, plan: Option<SelectionPlan>) returns (r: seq<Refusal>)
    requires s.run.Some?
    ensures r == [] <==> CanFinalize(c, s, plan)
  {
    var run := s.run.value;
    r := Note([], !Present(run.currentDigest), Refusal.MissingDigest);
    r := Note(r, run.phase in {Implement, Verify} || run.status == CorrectionStatus, NotReviewed);
    r := Note(r, c.workOrder.requiresImplementation && !Present(run.implementerSession), NoImplementer);
    r := Note(r, Present(run.currentDigest) && Some(s.tree.digest) != run.currentDigest, DigestMoved);
    r := Note(r, run.scopeViolations != [], Violations);
    r := Note(r, plan.None?, SelectionInvalid);
    var states := GateStatesOf(c, s);
    var policy := EvaluateAssurancePolicy(PolicyCase(c, s, FinalizeMode, None, plan));
    r := Note(r, !policy.allowed, if policy.blockers == [] then SelectionInvalid else Policy(policy.blockers[0]));
    r := NoteGates(r, states);
    r := NoteIndependent(r, s);
    r := NoteReviewers(r, s);
    r := Note(r, !AcceptanceIsEvidenced(c, s), NoAcceptanceEvidence);
    r := Note(r, run.blockers != [] && run.status == BlockedStatus, StillBlocked);
    hide Allowed, AllGatesPass, IndependentApproves, RequiredRolesApprove, AcceptanceIsEvidenced;
  }

  /** The events lead from a start before the first dispatch to this state. */
  ghost predicate IsReached(c: Context, start: Lifecycle.State, past: seq<Event>, s: Lifecycle.State) {
    IsInitial(c, start) && s == History(c, start, past)
  }

  lemma ReachedByNext(c: Context, start: Lifecycle.State, past: seq<Event>, e: Event, s: Lifecycle.State)
    requires IsReached(c, start, past, s)
    ensures WellFormed(s.store) && IsReached(c, start, past + [e], Next(c, s, e))
  {
    assert (past + [e])[..|past|] == past;
    hide Next;
  }

  /** Each operation, logged as its event, reaches the state it leaves. */
  lemma Logged(c: Context, start: Lifecycle.State, past: seq<Event>, e: Event, s: Lifecycle.State)
    requires IsReached(c, start, past, s)
    ensures WellFormed(s.store)
    ensures e.EditTree? ==> IsReached(c, start, past + [e], s.(tree := e.tree))
    ensures e.DispatchEvent? ==> IsReached(c, start, past + [e], Dispatch(c, s, e.dispatch).0)
    ensures e.VerifyEvent? ==> IsReached(c, start, past + [e], VerifyStep(c, s, e.index).0)
    ensures e.EvidenceEvent? ==> IsReached(c, start, past + [e], RecordEvidence(c, s, e.evidence).0)
    ensures e.StartEvent? ==> IsReached(c, start, past + [e], StartAssurance(c, s, e.plan).0)
    ensures e.ReviewEvent? ==> IsReached(c, start, past + [e], RecordReview(c, s, e.review).0)
    ensures e.FinalizeEvent? ==> IsReached(c, start, past + [e], Finalize(c, s, e.plan).0)
    ensures e.ExpandEvent? ==> IsReached(c, start, past + [e], ExpandContext(c, s, e.expand).0)
  {
    hide IsReached, Dispatch, VerifyStep, RecordEvidence, StartAssurance, RecordReview, Finalize, ExpandContext;
    ReachedByNext(c, start, past, e, s);
  }

  /** A reached state is sound and, where completed, supported by its ledgers. */
  lemma ReachedIsSafe(c: Context, start: Lifecycle.State, past: seq<Event>, s: Lifecycle.State)
    requires IsReached(c, start, past, s)
    ensures Invariant(c, s) && (IsCompleted(c, s) ==> IsSupported(c, s))
  {
    hide Next, Invariant, IsSupported, IsCompleted, IsInitial;
    HistoryIsSound(c, start, past);
    CompletionSafety(c, start, past);
  }

  lemma VerifiedExactlyWhen(c: Context, s: Lifecycle.State, index: IndexInput)
    requires WellFormed(s.store)
    ensures VerifyStep(c, s, index).1 == Done <==> IsVerifiable(c, s) && !IsMissingChange(c, s) && IsWithinScope(s.tree)
  {
    hide VerifyStep;
    VerifyingMeans(c, s, index);
  }

  predicate IsRecordAdded(s: Lifecycle.State, i: EvidenceInput, evidence: seq<Evidence>) {
    s.run.Some? && |evidence| == |s.evidence| + 1 && evidence[..|s.evidence|] == s.evidence && IsRecordOf(s.run.value, i, evidence[|s.evidence|])
  }

  lemma RecordedAsAdmitted(c: Context, s: Lifecycle.State, i: EvidenceInput)
    requires Invariant(c, s)
    ensures var (t, outcome) := RecordEvidence(c, s, i);
      && (outcome == Done <==> IsAdmitted(c, s, i))
      && (outcome == Refused ==> t == s)
      && (outcome == Done ==> s.run.Some? && t.run.Some? && IsRecordAdded(s, i, t.evidence))
      && (outcome == Done && Objects(i) ==> s.run.value.currentDigest.Some? && IsRejected(t, s.run.value.currentDigest.value))
  {
    hide RecordEvidence, IsRecordOf, Objects, IsRejected, Invariant;
    RecordingMeans(c, s, i);
    if IsAdmitted(c, s, i) && Objects(i) {
      ObjectingRejects(c, s, i);
    }
  }

  /** An accepted approval was warranted by the plan and the ledger it joined. */
  lemma ReviewedAsAllowed(c: Context, s: Lifecycle.State, i: ReviewInput)
    ensures RecordReview(c, s, i).1 == Done ==>
      && IsReviewable(c, s, i)
      && (i.verdict == Approved ==> IsWarranted(PolicyCase(c, s, SubmissionMode, None, i.plan), i.role))
  {
    ReviewingMeans(c, s, i);
    ReviewableExactlyWhen(c, s, i);
    if RecordReview(c, s, i).1 == Done && i.verdict == Approved {
      hide RecordReview, IsReviewable;
      WarrantedSubmission(c, s, i);
    }
  }

  lemma WarrantedSubmission(c: Context, s: Lifecycle.State, i: ReviewInput)
    requires IsActive(c, s) && CanReview(c, s.run.value, i) && i.verdict == Approved
    requires Allowed(PolicyCase(c, s, SubmissionMode, Some(SubmittedReview(c, s, i)), i.plan))
    ensures IsWarranted(PolicyCase(c, s, SubmissionMode, None, i.plan), i.role)
  {
    hide Allowed, GateStatesOf, CurrentEvidence;
    var r := SubmittedReview(c, s, i);
    var inp := PolicyCase(c, s, SubmissionMode, Some(r), i.plan);
    assert r in Submitted(inp) && r in CurrentReviews(inp);
    hide IsWarranted, CurrentReviews, CanReview;
    AllowedApprovalsAreWarranted(inp, r);
    WarrantIgnoresCandidate(inp, i.role);
  }

  lemma WarrantIgnoresCandidate(inp: PolicyInput, role: Role)
    requires IsWarranted(inp, role)
    ensures IsWarranted(inp.(candidate := None), role)
  {
    if inp.plan.Some? {
      assert forall gate :: HasCurrentPass(inp, gate) == HasCurrentPass(inp.(candidate := None), gate);
      hide HasCurrentPass, IsCoveredFirstBy, IsAnsweredBy, IsDecidedBy;
    }
  }

  lemma FinalizedExactlyWhen(c: Context, s: Lifecycle.State, plan: Option<SelectionPlan>)
    ensures Finalize(c, s, plan).1 == Done <==> HasConsistentRun(c, s) && (s.run.value.status == Completed || IsFinalizable(c, s, plan))
  {
    hide Finalize, IsFinalizable;
    FinalizingMeans(c, s, plan);
  }

  lemma FinalizingCompletes(c: Context, s: Lifecycle.State, plan: Option<SelectionPlan>)
    ensures Finalize(c, s, plan).1 == Done ==> IsCompleted(c, Finalize(c, s, plan).0)
  {
    hide CanFinalize;
  }

  /** Whatever an engine has been through, its state is sound and, once completed, supported by its ledgers. */
  lemma EngineIsSafe(e: Engine)
    requires e.Valid()
    ensures Invariant(e.context, e.Snapshot())
    ensures IsCompleted(e.context, e.Snapshot()) ==> IsSupported(e.context, e.Snapshot())
  {
    hide IsReached, Invariant, IsSupported, IsCompleted;
    ReachedIsSafe(e.context, e.start, e.past, e.Snapshot());
  }

  /** A digest its ledgers reject is none it will be completed at, whatever it goes through next. */
  lemma EngineNeverCompletesAtRejected(e: Engine, future: seq<Event>, digest: string, later: Lifecycle.State)
    requires e.Valid() && IsOwn(e.context, e.Snapshot()) && IsRejected(e.Snapshot(), digest)
    requires IsReached(e.context, e.start, e.past + future, later)
    ensures IsOwn(e.context, later) && !(later.run.value.status == Completed && later.run.value.currentDigest == Some(digest))
  {
    hide Next, IsRejected, IsInitial;
    RejectedStaysRejected(e.context, e.start, e.past, future, digest);
  }

  class Engine {
    const context: Context
    const cache: EvidenceCache
    var run: Option<Run>
    var evidence: seq<Evidence>
    var reviews: seq<Review>
    var tree: Tree
    var clock: Tick
    var stage: Stage
    ghost const start: Lifecycle.State
    ghost var past: seq<Event>

    function Snapshot(): Lifecycle.State
      reads this, cache
    {
      Lifecycle.State(run, evidence, reviews, cache.Contents(), tree, clock, stage)
    }

    /** The state is the one the events so far lead to. */
    ghost predicate Valid()
      reads this, cache
    {
      cache.Valid() && IsReached(context, start, past, Snapshot())
    }

    constructor (c: Context, t: Tree)
      ensures Valid() && context == c && fresh(cache) && past == []
      ensures Snapshot() == Lifecycle.State(None, [], [], Store.Store(map[], NoIndex, map[]), t, 0, PlanStage)
    {
      context := c;
      cache := new EvidenceCache();
      run, evidence, reviews, tree, clock, stage := None, [], [], t, 0, PlanStage;
      start := Lifecycle.State(None, [], [], Store.Store(map[], NoIndex, map[]), t, 0, PlanStage);
      past := [];
    }

    /** Someone edits the working tree. */
    method Edit(t: Tree)
      requires Valid()
      modifies this
      ensures Valid() && past == old(past) + [EditTree(t)]
      ensures Snapshot() == old(Snapshot()).(tree := t)
    {
      hide IsReached;
      Logged(context, start, past, EditTree(t), Snapshot());
      past := past + [EditTree(t)];
      tree := t;
    }

    method RunDispatch(d: DispatchInput) returns (outcome: Outcome)
      requires Valid()
      modifies this
      ensures Valid() && past == old(past) + [DispatchEvent(d)]
      ensures (Snapshot(), outcome) == Dispatch(context, old(Snapshot()), d)
      ensures outcome == Done ==> !tree.dirty && IsOpen(context, Snapshot())
      ensures old(IsOwn(context, Snapshot())) ==> IsOwn(context, Snapshot()) && Extends(old(Snapshot()), Snapshot()) && reviews == old(reviews)
      ensures old(IsCompleted(context, Snapshot())) ==>
        outcome == Refused && (IsCompleted(context, Snapshot()) <==> !(tree.dirty && MayDispatch(context, old(Snapshot()), d)))
    {
      hide IsReached, Dispatch, Invariant, IsSupported, Extends, IsOpen, MayDispatch;
      Logged(context, start, past, DispatchEvent(d), Snapshot());
      ReachedIsSafe(context, start, past, Snapshot());
      DispatchMeans(context, Snapshot(), d);
      past := past + [DispatchEvent(d)];
      outcome := ApplyDispatch(d);
    }

    /** The step itself. */
    method ApplyDispatch(d: DispatchInput) returns (outcome: Outcome)
      requires cache.Valid()
      modifies this
      ensures cache.Valid() && past == old(past) && (Snapshot(), outcome) == Dispatch(context, old(Snapshot()), d)
    {
      var s := Snapshot();
      if !MayDispatch(context, s, d) {
        return Refused;
      }
      var own := IsOwn(context, s);
      if tree.dirty {
        if own {
          run := Some(run.value.(status := BlockedStatus, phase := Stopped, blockers := Distinct(run.value.blockers + [DirtyWorktree])));
        }
        clock := clock + 1;
        return Refused;
      }
      if d.model != ModelReady {
        return Refused;
      }
      if own && run.value.status == Completed {
        return Refused;
      }
      var session := ResolveImplementerSession(context.workOrder, BoundSession(context, s), d.session);
      if session.None? {
        return Refused;
      }
      if own && run.value.status !in {Failed, BlockedStatus} {
        return Done;
      }
      if !d.withinBudget {
        return Refused;
      }
      if !own {
        evidence, reviews := [], [];
      }
      run := Some(DispatchedRun(context, s, session.value));
      clock, stage := clock + 1, ImplementStage;
      outcome := Done;
    }

    method RunVerify(index: IndexInput) returns (outcome: Outcome, pending: seq<Gate>)
      requires Valid()
      modifies this, cache
      ensures Valid() && past == old(past) + [VerifyEvent(index)]
      ensures (Snapshot(), outcome) == VerifyStep(context, old(Snapshot()), index)
      ensures outcome == Done
        <==> old(IsVerifiable(context, Snapshot())) && !old(IsMissingChange(context, Snapshot())) && IsWithinScope(old(tree))
      ensures outcome == Done ==> pending == PendingGates(GateStatesOf(context, Snapshot()))
    {
      hide IsReached, VerifyStep, IsVerifiable, IsMissingChange, IsWithinScope;
      VerifiedExactlyWhen(context, Snapshot(), index);
      Logged(context, start, past, VerifyEvent(index), Snapshot());
      past := past + [VerifyEvent(index)];
      outcome, pending := ApplyVerify(index);
    }

    method ApplyVerify(index: IndexInput) returns (outcome: Outcome, pending: seq<Gate>)
      requires cache.Valid()
      modifies this, cache
      ensures cache.Valid() && past == old(past) && (Snapshot(), outcome) == VerifyStep(context, old(Snapshot()), index)
      ensures outcome == Done ==> pending == PendingGates(GateStatesOf(context, Snapshot()))
    {
      pending := [];
      var s := Snapshot();
      if !IsActive(context, s) || !CanVerify(run.value) {
        return Refused, pending;
      }
      if context.workOrder.requiresImplementation && tree.files == [] {
        run := Some(run.value.(status := BlockedStatus, blockers := Distinct(run.value.blockers + [NoImplementationChange])));
        clock := clock + 1;
        return Refused, pending;
      }
      var violations := ViolationsOf(tree);
      if violations != [] {
        run := Some(run.value.(status := BlockedStatus, phase := Stopped, currentDigest := Some(tree.digest),
                               changedFiles := PathsOf(tree), scopeViolations := violations,
                               blockers := Distinct(run.value.blockers + ScopeBlockers(violations))));
        clock, stage := clock + 1, StoppedStage;
        return Refused, pending;
      }
      run := Some(VerifiedRun(run.value, tree));
      clock, stage := clock + 1, VerifyStage;
      assert Snapshot() == Verified(s);
      var states := GateStatesOf(context, Snapshot());
      evidence, clock := cache.ApplyEligibleCacheHits(run.value, index.bundle, index.env, states, evidence, clock);
      pending := PendingGates(GateStatesOf(context, Snapshot()));
      outcome := Done;
    }

    method RunEvidenceRecord(i: EvidenceInput) returns (outcome: Outcome)
      requires Valid()
      modifies this, cache
      ensures Valid() && past == old(past) + [EvidenceEvent(i)]
      ensures (Snapshot(), outcome) == RecordEvidence(context, old(Snapshot()), i)
      ensures outcome == Done <==> old(IsAdmitted(context, Snapshot(), i))
      ensures outcome == Refused ==> Snapshot() == old(Snapshot())
      ensures outcome == Done ==> run.Some? && IsRecordAdded(old(Snapshot()), i, evidence)
      ensures outcome == Done && Objects(i) ==> old(run).value.currentDigest.Some? && IsRejected(Snapshot(), old(run).value.currentDigest.value)
    {
      hide IsReached, RecordEvidence, IsAdmitted, IsRecordOf, Objects, IsRejected, Invariant, IsSupported;
      ReachedIsSafe(context, start, past, Snapshot());
      RecordedAsAdmitted(context, Snapshot(), i);
      Logged(context, start, past, EvidenceEvent(i), Snapshot());
      past := past + [EvidenceEvent(i)];
      outcome := ApplyEvidence(i);
    }

    method ApplyEvidence(i: EvidenceInput) returns (outcome: Outcome)
      requires cache.Valid()
      modifies this, cache
      ensures cache.Valid() && past == old(past) && (Snapshot(), outcome) == RecordEvidence(context, old(Snapshot()), i)
    {
      if !IsActive(context, Snapshot()) || !IsAcceptable(run.value, i) {
        return Refused;
      }
      hide IsAcceptable, WithEvidence;
      AppendEvidence(i);
      run := Some(run.value.(blockers := RefreshBlockers(run.value.blockers, GateStatesOf(context, Snapshot()))));
      outcome := Done;
    }

    /** Persists accepted evidence, then offers a PASS to the cache. */
    method AppendEvidence(i: EvidenceInput)
      requires cache.Valid() && run.Some? && IsAcceptable(run.value, i)
      modifies this, cache
      ensures cache.Valid() && past == old(past) && Snapshot() == WithEvidence(old(Snapshot()), i)
    {
      hide IsAcceptable, IsCacheable, RecordedEvidence, RecordOf, Persisted;
      var e := RecordedEvidence(run.value, i, clock);
      evidence := evidence + [e];
      if e.status == EvidencePass && i.index.bundle.Some? {
        var _ := cache.PopulateFromEvidence(run.value.projectId, PathSet(run.value.changedFiles), e, i.index.bundle.value, i.index.env, clock + 1);
      }
      clock := clock + 2;
    }

    method RunAssuranceStart(plan: Option<SelectionPlan>) returns (outcome: Outcome)
      requires Valid()
      modifies this
      ensures Valid() && past == old(past) + [StartEvent(plan)]
      ensures (Snapshot(), outcome) == StartAssurance(context, old(Snapshot()), plan)
    {
      hide IsReached;
      Logged(context, start, past, StartEvent(plan), Snapshot());
      past := past + [StartEvent(plan)];
      var s := Snapshot();
      if !IsActive(context, s) || run.value.phase !in {Verify, ReviewPhase} || !Present(run.value.currentDigest) {
        return Refused;
      }
      if !NonReviewGatesPass(GateStatesOf(context, s)) || plan.None? {
        return Refused;
      }
      var policy := EvaluateAssurancePolicy(PolicyCase(context, s, StatusMode, None, plan));
      if !policy.allowed {
        return Refused;
      }
      run := Some(run.value.(phase := ReviewPhase, status := InProgress));
      clock, stage := clock + 1, ReviewStage;
      outcome := Done;
    }

    method RunAssuranceRecord(i: ReviewInput) returns (outcome: Outcome)
      requires Valid()
      modifies this
      ensures Valid() && past == old(past) + [ReviewEvent(i)]
      ensures (Snapshot(), outcome) == RecordReview(context, old(Snapshot()), i)
      ensures outcome == Done ==> old(IsReviewable(context, Snapshot(), i))
      ensures outcome == Done && i.verdict == Approved ==>
        IsWarranted(PolicyCase(context, old(Snapshot()), SubmissionMode, None, i.plan), i.role)
    {
      hide IsReached, RecordReview, IsReviewable, IsWarranted;
      ReviewedAsAllowed(context, Snapshot(), i);
      Logged(context, start, past, ReviewEvent(i), Snapshot());
      past := past + [ReviewEvent(i)];
      outcome := ApplyReview(i);
    }

    method ApplyReview(i: ReviewInput) returns (outcome: Outcome)
      requires cache.Valid()
      modifies this
      ensures cache.Valid() && past == old(past) && (Snapshot(), outcome) == RecordReview(context, old(Snapshot()), i)
    {
      var s := Snapshot();
      if !IsActive(context, s) || !CanReview(context, run.value, i) {
        return Refused;
      }
      var review := SubmittedReview(context, s, i);
      var policy := EvaluateAssurancePolicy(PolicyCase(context, s, SubmissionMode, Some(review), i.plan));
      if !policy.allowed {
        return Refused;
      }
      reviews := reviews + [review];
      run := Some(ReviewedRun(run.value, i.role, i.verdict));
      clock, stage := clock + 1, StageAfterReview(i.verdict);
      outcome := Done;
    }

    method RunFinalize(plan: Option<SelectionPlan>) returns (outcome: Outcome, refusals: seq<Refusal>)
      requires Valid()
      modifies this
      ensures Valid() && past == old(past) + [FinalizeEvent(plan)]
      ensures (Snapshot(), outcome) == Finalize(context, old(Snapshot()), plan)
      ensures outcome == Done <==>
        old(HasConsistentRun(context, Snapshot())) && (old(run).value.status == Completed || IsFinalizable(context, old(Snapshot()), plan))
      ensures outcome == Done ==> refusals == [] && IsCompleted(context, Snapshot()) && IsSupported(context, Snapshot())
    {
      hide IsReached, Finalize, Invariant, IsSupported, IsFinalizable, HasConsistentRun;
      FinalizedExactlyWhen(context, Snapshot(), plan);
      Logged(context, start, past, FinalizeEvent(plan), Snapshot());
      past := past + [FinalizeEvent(plan)];
      FinalizingCompletes(context, Snapshot(), plan);
      ReachedIsSafe(context, start, past, Finalize(context, Snapshot(), plan).0);
      outcome, refusals := ApplyFinalize(plan);
    }

    method ApplyFinalize(plan: Option<SelectionPlan>) returns (outcome: Outcome, refusals: seq<Refusal>)
      requires cache.Valid()
      modifies this
      ensures cache.Valid() && past == old(past) && (Snapshot(), outcome) == Finalize(context, old(Snapshot()), plan)
      ensures outcome == Done ==> refusals == []
    {
      var s := Snapshot();
      refusals := [];
      if !IsActive(context, s) {
        return Refused, refusals;
      }
      if run.value.status == Completed {
        return Done, refusals;
      }
      refusals := RefusalsToFinalize(context, s, plan);
      if refusals != [] {
        return Refused, refusals;
      }
      run := Some(run.value.(phase := Stopped, status := Completed));
      clock, stage := clock + 1, StoppedStage;
      outcome := Done;
    }

    method RunContextExpand(i: ExpandInput) returns (outcome: Outcome)
      requires Valid()
      modifies this
      ensures Valid() && past == old(past) + [ExpandEvent(i)]
      ensures (Snapshot(), outcome) == ExpandContext(context, old(Snapshot()), i)
      ensures outcome == Refused ==> Snapshot() == old(Snapshot())
      ensures old(run).Some? ==> run.Some? && GateStatesOf(context, Snapshot()) == GateStatesOf(context, old(Snapshot()))
      ensures old(run).Some? ==> forall plan :: CanFinalize(context, Snapshot(), plan) <==> CanFinalize(context, old(Snapshot()), plan)
    {
      hide IsReached, CanFinalize;
      if run.Some? {
        forall plan {
          ExpandingIsNeutral(context, Snapshot(), i, plan);
        }
      }
      Logged(context, start, past, ExpandEvent(i), Snapshot());
      past := past + [ExpandEvent(i)];
      if !IsActive(context, Snapshot()) || run.value.radius >= LAST_RADIUS {
        return Refused;
      }
      var next := run.value.radius + 1;
      if (next == LAST_RADIUS && !i.approveC5) || !i.withinBudget {
        return Refused;
      }
      run := Some(run.value.(radius := next));
      clock := clock + 1;
      outcome := Done;
    }
  }

  function PendingGates(states: seq<GateState>): seq<Gate> {
    var pending := Filter(states, (g: GateState) => g.status == GatePending);
    seq(|pending|, i requires 0 <= i < |pending| => pending[i].gate)
  }

  /** The gates reported as pending are those whose state is. */
  lemma PendingGatesAreThose(states: seq<GateState>, gate: Gate)
    ensures gate in PendingGates(states) <==> exists s :: s in states && s.gate == gate && s.status == GatePending
  {
    var pending := Filter(states, (g: GateState) => g.status == GatePending);
    assert |PendingGates(states)| == |pending|;
    if s :| s in states && s.gate == gate && s.status == GatePending {
      assert s in pending;
      var k :| 0 <= k < |pending| && pending[k] == s;
      assert PendingGates(states)[k] == gate;
    }
    if gate in PendingGates(states) {
      var k :| 0 <= k < |pending| && PendingGates(states)[k] == gate;
      assert pending[k] in pending;
    }
  }
}
