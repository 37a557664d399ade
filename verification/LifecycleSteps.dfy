/** What each lifecycle operation accepts and leaves behind, read off the run, the work order and the tree. */
module LifecycleSteps {
  import opened Basics
  import opened Gates
  import opened Records
  import opened CacheStore
  import opened Derivation
  import opened TypedSelection
  import opened AssurancePolicy
  import opened Lifecycle
  import opened Objections

  predicate HasOwnRun(c: Context, s: State) {
    s.run.Some? && s.run.value.workOrderId == c.workOrder.workOrderId
  }

  predicate HasConsistentRun(c: Context, s: State) {
    HasOwnRun(c, s) && c.projectId == c.workOrder.projectId && s.run.value.projectId == c.projectId
  }

  predicate HasDigest(run: Run) {
    run.currentDigest.Some? && run.currentDigest.value != ""
  }

  /** Dispatch. */

  /** The session a run of the work order is bound to; an empty one binds nothing. */
  function BoundTo(c: Context, s: State): string {
    if HasOwnRun(c, s) && s.run.value.implementerSession.Some? then s.run.value.implementerSession.value else ""
  }

  /** A bound session must be named again, or may be left out where nothing is to be implemented; without one, a session is
      needed where something is. */
  predicate SessionIsAccepted(c: Context, s: State, d: DispatchInput) {
    if BoundTo(c, s) != "" then d.session == BoundTo(c, s) || (d.session == "" && !c.workOrder.requiresImplementation)
    else d.session != "" || !c.workOrder.requiresImplementation
  }

  /** The run on file needs no new dispatch. */
  predicate IsUnderway(c: Context, s: State) {
    HasOwnRun(c, s) && s.run.value.status != Failed && s.run.value.status != BlockedStatus
  }

  predicate IsPlanned(c: Context, s: State, d: DispatchInput) {
    (s.stage == PlanStage || s.stage == ImplementStage || HasOwnRun(c, s)) && !c.workOrder.draft && d.selectionIsBound
  }

  predicate IsDispatchable(c: Context, s: State, d: DispatchInput) {
    && IsPlanned(c, s, d) && !s.tree.dirty && d.model == ModelReady
    && !(HasOwnRun(c, s) && s.run.value.status == Completed)
    && SessionIsAccepted(c, s, d) && (IsUnderway(c, s) || d.withinBudget)
  }

  /** A run dispatched for the work order. */
  ghost predicate IsNewlyDispatched(c: Context, s: State, d: DispatchInput, run: Run) {
    && run.projectId == c.projectId && run.workOrderId == c.workOrder.workOrderId && run.radius == c.workOrder.radius
    && run.phase == Implement && run.status == Ready && run.implementerRole == ImplementationAgent
    && run.implementerSession == (if BoundTo(c, s) != "" then Some(BoundTo(c, s)) else if d.session != "" then Some(d.session) else None)
    && run.selectedGates == c.workOrder.qualityGates
    && (forall r :: r in run.requiredReviewers <==> r in c.workOrder.assuranceReviewers && r != OtherRole(""))
    && (forall i, j :: 0 <= i < j < |run.requiredReviewers| ==> run.requiredReviewers[i] != run.requiredReviewers[j])
    && run.currentDigest == None && run.reviewedDigest == None
    && run.changedFiles == [] && run.scopeViolations == [] && run.blockers == []
    && (HasOwnRun(c, s) ==> run.runId == s.run.value.runId && run.attempt == s.run.value.attempt)
    && (!HasOwnRun(c, s) ==> run.attempt == 1)
  }

  lemma DispatchingMeans(c: Context, s: State, d: DispatchInput)
    ensures var (t, outcome) := Dispatch(c, s, d);
      && (outcome == Done <==> IsDispatchable(c, s, d))
      && (outcome == Done && IsUnderway(c, s) ==> t == s)
      && (outcome == Done && !IsUnderway(c, s) ==>
            && t.run.Some? && IsNewlyDispatched(c, s, d, t.run.value) && t.stage == ImplementStage
            && t.evidence == (if HasOwnRun(c, s) then s.evidence else []) && t.reviews == (if HasOwnRun(c, s) then s.reviews else []))
      && (outcome == Refused && !(IsPlanned(c, s, d) && s.tree.dirty) ==> t == s)
      && t.store == s.store && t.tree == s.tree
  {
    var r := RequiredOf(c.workOrder);
    assert forall x :: x in r <==> x in c.workOrder.assuranceReviewers && x != OtherRole("");
  }

  /** A dirty tree blocks and stops the work order's run, if there is one, and says why. */
  lemma DispatchingDirtyMeans(c: Context, s: State, d: DispatchInput)
    requires IsPlanned(c, s, d) && s.tree.dirty
    ensures var (t, outcome) := Dispatch(c, s, d);
      && outcome == Refused && t.evidence == s.evidence && t.reviews == s.reviews
      && (!HasOwnRun(c, s) ==> t.run == s.run)
      && (HasOwnRun(c, s) ==>
            && t.run.Some? && t.run.value == s.run.value.(status := BlockedStatus, phase := Stopped, blockers := t.run.value.blockers)
            && forall b :: b in t.run.value.blockers <==> b in s.run.value.blockers || b == DirtyWorktree)
  {
  }

  /** Verify. */

  predicate IsPermitted(f: ChangedFile) {
    f.classification == InScope || f.classification == Supporting
  }

  predicate IsVerifiable(c: Context, s: State) {
    && HasConsistentRun(c, s) && s.run.value.status != Completed && s.run.value.status != Failed
    && (s.run.value.phase == Implement || s.run.value.phase == Verify || s.run.value.phase == ReviewPhase
        || s.run.value.status == CorrectionStatus)
  }

  predicate IsMissingChange(c: Context, s: State) {
    c.workOrder.requiresImplementation && s.tree.files == []
  }

  predicate IsWithinScope(tree: Tree) {
    forall f :: f in tree.files ==> IsPermitted(f)
  }

  lemma ViolationsAreForbidden(tree: Tree)
    ensures forall f :: f in ViolationsOf(tree) <==> f in tree.files && !IsPermitted(f)
    ensures ViolationsOf(tree) == [] <==> IsWithinScope(tree)
  {
    forall f ensures f in ViolationsOf(tree) <==> f in tree.files && !IsPermitted(f) {
      match f.classification
      case InScope =>
      case Supporting =>
      case OutOfScope =>
      case Sensitive =>
    }
    if ViolationsOf(tree) != [] { assert ViolationsOf(tree)[0] in ViolationsOf(tree); }
  }

  /** Verification is done exactly on a change within scope; the run is then at the tree's digest and free of violations. */
  lemma VerifyingMeans(c: Context, s: State, index: IndexInput)
    requires WellFormed(s.store)
    ensures var (t, outcome) := VerifyStep(c, s, index);
      && (outcome == Done <==> IsVerifiable(c, s) && !IsMissingChange(c, s) && IsWithinScope(s.tree))
      && (outcome == Done ==>
            && t.stage == VerifyStage && t.run.Some? && t.run.value == s.run.value.(phase := Verify, status := InProgress, currentDigest := Some(s.tree.digest),
                 changedFiles := t.run.value.changedFiles, scopeViolations := [], blockers := [],
                 reviewedDigest := if s.run.value.phase == ReviewPhase then None else s.run.value.reviewedDigest)
            && |t.run.value.changedFiles| == |s.tree.files|
            && (forall i :: 0 <= i < |s.tree.files| ==> t.run.value.changedFiles[i] == s.tree.files[i].path))
      && (!IsVerifiable(c, s) ==> t == s) && t.reviews == s.reviews && t.tree == s.tree
  {
    ViolationsAreForbidden(s.tree);
    hide ViolationsOf, DeriveGateStates;
  }

  /** A tree with a file out of scope or sensitive blocks and stops the run, with exactly those files as violations. */
  lemma VerifyingViolationsMeans(c: Context, s: State, index: IndexInput)
    requires WellFormed(s.store) && IsVerifiable(c, s) && !IsMissingChange(c, s) && !IsWithinScope(s.tree)
    ensures var (t, outcome) := VerifyStep(c, s, index);
      && outcome == Refused && t.run.Some? && t.stage == StoppedStage
      && t.run.value.status == BlockedStatus && t.run.value.phase == Stopped && t.run.value.currentDigest == Some(s.tree.digest)
      && (forall f :: f in t.run.value.scopeViolations <==> f in s.tree.files && !IsPermitted(f))
      && (forall b :: b in t.run.value.blockers <==>
            b in s.run.value.blockers || (b.ScopeBlocker? && b.file in s.tree.files && !IsPermitted(b.file)))
      && t.evidence == s.evidence && t.reviews == s.reviews && t.store == s.store
  {
    ViolationsAreForbidden(s.tree);
    hide ViolationsOf, DeriveGateStates;
    var found := ViolationsOf(s.tree);
    forall b ensures b in ScopeBlockers(found) <==> b.ScopeBlocker? && b.file in found {
      if b.ScopeBlocker? && b.file in found {
        var i :| 0 <= i < |found| && found[i] == b.file;
        assert ScopeBlockers(found)[i] == b;
      }
    }
  }

  /** Where a change is asked for and there is none, the run is blocked in its phase. */
  lemma VerifyingNothingMeans(c: Context, s: State, index: IndexInput)
    requires WellFormed(s.store) && IsVerifiable(c, s) && IsMissingChange(c, s)
    ensures var (t, outcome) := VerifyStep(c, s, index);
      && outcome == Refused && t.run.Some?
      && t.run.value == s.run.value.(status := BlockedStatus, blockers := t.run.value.blockers)
      && (forall b :: b in t.run.value.blockers <==> b in s.run.value.blockers || b == NoImplementationChange)
      && t.evidence == s.evidence && t.reviews == s.reviews && t.store == s.store
  {
    hide ViolationsOf, DeriveGateStates;
  }

  /** Start assurance. */

  ghost predicate CommandGatesPass(c: Context, s: State)
    requires s.run.Some?
  {
    forall g :: g in s.run.value.selectedGates && g != SecurityReview && g != PerformanceCheck ==>
      StatusOf(g, s.run.value.currentDigest, s.evidence, s.reviews, ValidationFor(c, s.run.value, s.store)) == GatePass
  }

  lemma NonReviewGatesMean(c: Context, s: State)
    requires s.run.Some?
    ensures NonReviewGatesPass(GateStatesOf(c, s)) <==> CommandGatesPass(c, s)
  {
    hide StatusOf, DeriveGate;
    var run, states := s.run.value, GateStatesOf(c, s);
    var v := ValidationFor(c, run, s.store);
    forall i | 0 <= i < |run.selectedGates|
      ensures states[i].gate == run.selectedGates[i]
      ensures states[i].status == StatusOf(run.selectedGates[i], run.currentDigest, s.evidence, s.reviews, v)
    {
      StateIsOfGate(run.selectedGates[i], run.currentDigest, s.evidence, s.reviews, v);
    }
    if NonReviewGatesPass(states) {
      forall g | g in run.selectedGates && g != SecurityReview && g != PerformanceCheck
        ensures StatusOf(g, run.currentDigest, s.evidence, s.reviews, v) == GatePass
      {
        var i :| 0 <= i < |run.selectedGates| && run.selectedGates[i] == g;
        assert states[i] in states && !IsReviewGate(g);
      }
    }
  }

  lemma StateIsOfGate(gate: Gate, digest: Option<string>, evidence: seq<Evidence>, reviews: seq<Review>, v: Option<Validation>)
    ensures DeriveGate(gate, digest, evidence, reviews, v).gate == gate
    ensures DeriveGate(gate, digest, evidence, reviews, v).status == StatusOf(gate, digest, evidence, reviews, v)
  {
  }

  /** Review opens exactly for a verified run whose gates without a review all pass and whose standing the policy allows. */
  lemma StartingMeans(c: Context, s: State, plan: Option<SelectionPlan>)
    ensures var (t, outcome) := StartAssurance(c, s, plan);
      && (outcome == Done <==>
            && HasConsistentRun(c, s) && (s.run.value.phase == Verify || s.run.value.phase == ReviewPhase) && HasDigest(s.run.value)
            && CommandGatesPass(c, s) && plan.Some? && Allowed(PolicyCase(c, s, StatusMode, None, plan)))
      && (outcome == Refused ==> t == s)
      && (outcome == Done ==> t == s.(run := Some(s.run.value.(phase := ReviewPhase, status := InProgress)), clock := t.clock, stage := ReviewStage))
  {
    hide Allowed, NonReviewGatesPass, CommandGatesPass, PolicyCase, DeriveGateStates;
    if s.run.Some? { NonReviewGatesMean(c, s); }
    hide GateStatesOf;
  }

  /** Record a review. */

  /** Who may review what: an active review of a verified run, by a required role other than the implementer's, in another
      session, naming no other implementer. */
  predicate IsReviewable(c: Context, s: State, i: ReviewInput) {
    && HasConsistentRun(c, s) && s.run.value.phase == ReviewPhase
    && s.run.value.status != Completed && s.run.value.status != BlockedStatus && s.run.value.status != Failed
    && HasDigest(s.run.value) && s.run.value.implementerSession.Some? && s.run.value.implementerSession != Some("")
    && (i.implementerSession == "" || i.implementerSession == s.run.value.implementerSession.value)
    && i.role != s.run.value.implementerRole && i.role != ImplementationAgent && i.session != s.run.value.implementerSession.value
    && (i.role == IndependentReviewer || i.role == SecurityReviewer || i.role == PerformanceReviewer || i.role == ReliabilityReviewer)
    && i.role in s.run.value.requiredReviewers && i.findings.Some? && i.plan.Some?
  }

  lemma ReviewableExactlyWhen(c: Context, s: State, i: ReviewInput)
    ensures IsActive(c, s) && CanReview(c, s.run.value, i) <==> IsReviewable(c, s, i)
  {
  }

  /** The review is what was submitted, by this run at its digest; a negative one without findings says why. */
  predicate IsReviewOf(run: Run, i: ReviewInput, r: Review) {
    && r.projectId == run.projectId && r.workOrderId == run.workOrderId && r.runId == run.runId && Some(r.changeDigest) == run.currentDigest
    && r.role == i.role && r.session == i.session && r.verdict == i.verdict && Some(r.findings) == i.findings
    && r.implementerRole == run.implementerRole && Some(r.implementerSession) == run.implementerSession
    && (r.reasonCodes == [] <==> r.findings != [] || r.verdict == Approved)
  }

  predicate IsOfRunAtDigest(c: Context, run: Run, e: Evidence) {
    e.projectId == c.projectId && e.workOrderId == run.workOrderId && e.runId == run.runId && Some(e.changeDigest) == run.currentDigest
  }

  lemma RefsMean(run: Run, current: seq<Evidence>, ref: EvidenceRef)
    ensures ref in RefsTo(run, current) <==> ref.runId == run.runId && exists e :: e in current && e.evidenceId == ref.evidenceId
  {
    assert forall k :: 0 <= k < |current| ==> RefsTo(run, current)[k] == EvidenceRef(run.runId, current[k].evidenceId);
    if ref.runId == run.runId && exists e :: e in current && e.evidenceId == ref.evidenceId {
      var e :| e in current && e.evidenceId == ref.evidenceId;
      var k :| 0 <= k < |current| && current[k] == e;
      assert RefsTo(run, current)[k] == ref;
    }
    if ref in RefsTo(run, current) {
      var k :| 0 <= k < |current| && RefsTo(run, current)[k] == ref;
      assert current[k] in current;
    }
  }

  /** It refers to all evidence of the run at its digest, and to nothing else. */
  lemma ReviewRefersToAll(c: Context, s: State, i: ReviewInput, ref: EvidenceRef)
    requires IsReviewable(c, s, i)
    ensures ref in SubmittedReview(c, s, i).evidenceRefs <==>
      ref.runId == s.run.value.runId && exists e :: e in s.evidence && IsOfRunAtDigest(c, s.run.value, e) && e.evidenceId == ref.evidenceId
  {
    hide DeriveGateStates;
    var current := CurrentEvidence(PolicyCase(c, s, SubmissionMode, None, i.plan));
    RefsMean(s.run.value, current, ref);
    hide RefsTo;
    assert forall e :: e in current <==> e in s.evidence && IsOfRunAtDigest(c, s.run.value, e);
  }

  /** What a verdict does to the run. */
  ghost predicate IsMovedBy(run: Run, i: ReviewInput, after: Run) {
    match i.verdict
    case Approved => after == run.(reviewedDigest := run.currentDigest)
    case CorrectionNeeded =>
      after == run.(phase := Implement, status := CorrectionStatus, attempt := run.attempt + 1, reviewedDigest := None)
    case VerdictBlocked =>
      && after == run.(status := BlockedStatus, phase := Stopped, blockers := after.blockers)
      && forall b :: b in after.blockers <==> b in run.blockers || b == ReviewBlockedBy(i.role)
  }

  /** A review is recorded exactly when it may be given and the policy allows it with the ledger; the run then moves with it. */
  lemma ReviewingMeans(c: Context, s: State, i: ReviewInput)
    ensures var (t, outcome) := RecordReview(c, s, i);
      && (outcome == Done <==>
            IsReviewable(c, s, i) && Allowed(PolicyCase(c, s, SubmissionMode, Some(SubmittedReview(c, s, i)), i.plan)))
      && (outcome == Refused ==> t == s)
      && (outcome == Done ==>
            && |t.reviews| == |s.reviews| + 1 && t.reviews[..|s.reviews|] == s.reviews
            && IsReviewOf(s.run.value, i, t.reviews[|s.reviews|]) && t.reviews[|s.reviews|].reviewId == s.clock
            && t.run.Some? && IsMovedBy(s.run.value, i, t.run.value)
            && t.stage == (match i.verdict case Approved => ReviewStage case CorrectionNeeded => ImplementStage case VerdictBlocked => StoppedStage)
            && t.evidence == s.evidence && t.store == s.store && t.tree == s.tree)
  {
    ReviewableExactlyWhen(c, s, i);
    if IsReviewable(c, s, i) {
      SubmittedIsReview(c, s, i);
    }
    hide Allowed, CanReview, IsReviewable, SubmittedReview, PolicyCase, IsReviewOf, DeriveGateStates;
  }

  lemma SubmittedIsReview(c: Context, s: State, i: ReviewInput)
    requires IsReviewable(c, s, i)
    ensures CanReview(c, s.run.value, i)
    ensures IsReviewOf(s.run.value, i, SubmittedReview(c, s, i)) && SubmittedReview(c, s, i).reviewId == s.clock
  {
    hide CurrentEvidence, DeriveGateStates;
    match i.verdict
    case Approved =>
    case CorrectionNeeded =>
    case VerdictBlocked =>
  }

  /** Finalize. */

  /** Of the digest's independent reviews this is the earliest. */
  predicate IsFirstIndependent(s: State, k: int)
    requires s.run.Some?
  {
    && 0 <= k < |s.reviews| && s.reviews[k].role == IndependentReviewer && Some(s.reviews[k].changeDigest) == s.run.value.currentDigest
    && forall j :: 0 <= j < k ==> !(s.reviews[j].role == IndependentReviewer && Some(s.reviews[j].changeDigest) == s.run.value.currentDigest)
  }

  ghost predicate FirstIndependentStands(s: State)
    requires s.run.Some?
  {
    exists k :: IsFirstIndependent(s, k) && s.reviews[k].verdict == Approved
      && s.reviews[k].role != s.reviews[k].implementerRole && s.reviews[k].session != s.reviews[k].implementerSession
      && (s.run.value.implementerSession.Some? && s.run.value.implementerSession != Some("") ==>
            Some(s.reviews[k].implementerSession) == s.run.value.implementerSession)
  }

  ghost predicate EveryGateStands(c: Context, s: State)
    requires s.run.Some?
  {
    forall g :: g in s.run.value.selectedGates ==>
      && !g.OtherGate?
      && StatusOf(g, s.run.value.currentDigest, s.evidence, s.reviews, ValidationFor(c, s.run.value, s.store)) == GatePass
  }

  /** A reviewed, unblocked run at the live digest, without violations, whose gates pass, whose first independent review and
      required roles approve, whose acceptance is evidenced and which the policy allows. */
  ghost predicate IsFinalizable(c: Context, s: State, plan: Option<SelectionPlan>)
    requires s.run.Some?
  {
    var run := s.run.value;
    && HasDigest(run) && run.phase != Implement && run.phase != Verify && run.status != CorrectionStatus
    && (c.workOrder.requiresImplementation ==> run.implementerSession.Some? && run.implementerSession != Some(""))
    && Some(s.tree.digest) == run.currentDigest && run.scopeViolations == []
    && (run.status == BlockedStatus ==> run.blockers == [])
    && (run.reviewedDigest.Some? && run.reviewedDigest != Some("") ==> run.reviewedDigest == run.currentDigest)
    && EveryGateStands(c, s) && FirstIndependentStands(s)
    && (forall role :: role in run.requiredReviewers ==>
          exists r :: r in s.reviews && Some(r.changeDigest) == run.currentDigest && r.role == role && r.verdict == Approved)
    && (c.workOrder.hasAcceptanceCriteria ==>
          exists e :: e in s.evidence && Some(e.changeDigest) == run.currentDigest && e.status == EvidencePass)
    && plan.Some? && Allowed(PolicyCase(c, s, FinalizeMode, None, plan))
  }

  lemma NoneIsIndependent(reviews: seq<Review>, digest: Option<string>)
    requires IndependentReviewAt(reviews, digest).None?
    ensures forall j :: 0 <= j < |reviews| ==> !(reviews[j].role == IndependentReviewer && Some(reviews[j].changeDigest) == digest)
  {
    var at := Filter(reviews, AtDigest(digest));
    assert forall r :: r in at ==> (r in Filter(at, ByRole(IndependentReviewer)) <==> r.role == IndependentReviewer);
    assert forall j :: 0 <= j < |reviews| ==> reviews[j] in reviews;
  }

  lemma FirstIndependentMeans(s: State)
    requires s.run.Some?
    ensures var first := IndependentReviewAt(s.reviews, s.run.value.currentDigest);
      && (first.None? ==> forall k :: !IsFirstIndependent(s, k))
      && (first.Some? ==> exists k :: IsFirstIndependent(s, k) && s.reviews[k] == first.value)
  {
    hide IndependentReviewAt;
    var digest := s.run.value.currentDigest;
    if IndependentReviewAt(s.reviews, digest).None? {
      NoneIsIndependent(s.reviews, digest);
    } else {
      var k := FirstIndependentIndex(s.reviews, digest);
      NoneIsIndependent(s.reviews[..k], digest);
      assert forall j :: 0 <= j < k ==> s.reviews[..k][j] == s.reviews[j];
      assert IsFirstIndependent(s, k);
    }
  }

  lemma IndependentStandsMeans(s: State)
    requires s.run.Some? && Some(s.tree.digest) == s.run.value.currentDigest
    ensures IndependentApproves(s) <==>
      && FirstIndependentStands(s)
      && (s.run.value.reviewedDigest.Some? && s.run.value.reviewedDigest != Some("") ==> s.run.value.reviewedDigest == s.run.value.currentDigest)
  {
    FirstIndependentMeans(s);
    hide IndependentReviewAt;
    if FirstIndependentStands(s) {
      var k :| IsFirstIndependent(s, k) && s.reviews[k].verdict == Approved
        && s.reviews[k].role != s.reviews[k].implementerRole && s.reviews[k].session != s.reviews[k].implementerSession
        && (s.run.value.implementerSession.Some? && s.run.value.implementerSession != Some("") ==>
              Some(s.reviews[k].implementerSession) == s.run.value.implementerSession);
      var first := IndependentReviewAt(s.reviews, s.run.value.currentDigest);
      assert first.Some?;
      var m :| IsFirstIndependent(s, m) && s.reviews[m] == first.value;
      assert m == k;
    }
  }

  lemma GatesStandMeans(c: Context, s: State)
    requires s.run.Some?
    ensures AllGatesPass(GateStatesOf(c, s)) <==> EveryGateStands(c, s)
  {
    hide StatusOf, DeriveGate;
    var run, states := s.run.value, GateStatesOf(c, s);
    var v := ValidationFor(c, run, s.store);
    forall i | 0 <= i < |run.selectedGates|
      ensures states[i].gate == run.selectedGates[i]
      ensures states[i].status == StatusOf(run.selectedGates[i], run.currentDigest, s.evidence, s.reviews, v)
    {
      StateIsOfGate(run.selectedGates[i], run.currentDigest, s.evidence, s.reviews, v);
    }
    forall g ensures IsKnownGate(g) <==> !g.OtherGate? { KnownMeans(g); }
    hide IsKnownGate;
    if AllGatesPass(states) {
      forall g | g in run.selectedGates
        ensures !g.OtherGate? && StatusOf(g, run.currentDigest, s.evidence, s.reviews, v) == GatePass
      {
        var i :| 0 <= i < |run.selectedGates| && run.selectedGates[i] == g;
        assert states[i] in states;
      }
    }
  }

  lemma KnownMeans(gate: Gate)
    ensures IsKnownGate(gate) <==> !gate.OtherGate?
  {
  }

  lemma FinalizableExactlyWhen(c: Context, s: State, plan: Option<SelectionPlan>)
    requires s.run.Some?
    ensures CanFinalize(c, s, plan) <==> IsFinalizable(c, s, plan)
  {
    GatesStandMeans(c, s);
    if Some(s.tree.digest) == s.run.value.currentDigest {
      IndependentStandsMeans(s);
    }
    hide Allowed, AllGatesPass, EveryGateStands, FirstIndependentStands, IndependentApproves, GateStatesOf, PolicyCase;
  }

  /** Completion is granted exactly then, or had been before. */
  lemma FinalizingMeans(c: Context, s: State, plan: Option<SelectionPlan>)
    ensures var (t, outcome) := Finalize(c, s, plan);
      && (outcome == Done <==> HasConsistentRun(c, s) && (s.run.value.status == Completed || IsFinalizable(c, s, plan)))
      && (outcome == Refused || (s.run.Some? && s.run.value.status == Completed) ==> t == s)
      && (outcome == Done && s.run.value.status != Completed ==>
            t == s.(run := Some(s.run.value.(phase := Stopped, status := Completed)), clock := t.clock, stage := StoppedStage))
  {
    if s.run.Some? { FinalizableExactlyWhen(c, s, plan); }
    hide CanFinalize, IsFinalizable;
  }

  /** Expand. */

  lemma ExpandingMeans(c: Context, s: State, i: ExpandInput)
    ensures var (t, outcome) := ExpandContext(c, s, i);
      && (outcome == Done <==>
            HasConsistentRun(c, s) && s.run.value.radius < 5 && (s.run.value.radius == 4 ==> i.approveC5) && i.withinBudget)
      && (outcome == Refused ==> t == s)
      && (outcome == Done ==> t == s.(run := Some(s.run.value.(radius := s.run.value.radius + 1)), clock := t.clock))
  {
  }

  /** Runs dispatched at different times have different ids. */
  lemma NewRunsAreNamedApart(workOrder: WorkOrder, x: Tick, y: Tick)
    ensures NewRunId(workOrder, x) == NewRunId(workOrder, y) ==> x == y
  {
    assert |NewRunId(workOrder, x)| == |"er:" + workOrder.workOrderId + ":"| + x;
    assert |NewRunId(workOrder, y)| == |"er:" + workOrder.workOrderId + ":"| + y;
  }
}
