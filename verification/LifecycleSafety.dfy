/** What holds over whole histories: sound completion, permanent rejection, one implementer. */
module LifecycleSafety {
  import opened Basics
  import opened Gates
  import opened Records
  import opened CacheStore
  import opened CacheReuse
  import opened Derivation
  import opened TypedSelection
  import opened AssurancePolicy
  import opened Lifecycle
  import opened LifecycleInvariant

  /** The ledgers only grow, and the run keeps its identity and its implementer. */
  predicate Extends(s: State, t: State)
    requires s.run.Some?
  {
    && t.run.Some? && t.run.value.runId == s.run.value.runId
    && (s.run.value.implementerSession.Some? ==> t.run.value.implementerSession == s.run.value.implementerSession)
    && s.evidence <= t.evidence && s.reviews <= t.reviews
  }

  lemma VerifyExtends(c: Context, s: State, index: IndexInput)
    requires Invariant(c, s) && IsOwn(c, s)
    ensures IsOwn(c, VerifyStep(c, s, index).0) && Extends(s, VerifyStep(c, s, index).0)
  {
    if IsActive(c, s) && CanVerify(s.run.value) {
      VerifiedKeeps(c, s);
      ReuseKeeps(c, Verified(s), index);
    }
    hide Invariant, WellFormed;
  }

  lemma DispatchExtends(c: Context, s: State, d: DispatchInput)
    requires Invariant(c, s) && IsOwn(c, s)
    ensures IsOwn(c, Dispatch(c, s, d).0) && Extends(s, Dispatch(c, s, d).0)
  {
    hide WellFormed, IsPast, IsCoherent, ReviewsAreIndependent, AttemptCounts, LedgersAreOwn;
  }

  lemma StepExtends(c: Context, s: State, e: Event)
    requires Invariant(c, s) && IsOwn(c, s)
    ensures IsOwn(c, Next(c, s, e)) && Extends(s, Next(c, s, e))
  {
    hide WellFormed, IsPast, IsCoherent, ReviewsAreIndependent, AttemptCounts, LedgersAreOwn, Allowed, CanFinalize, CanStartAssurance, IsAcceptable, VerifyStep, IsBound;
    match e
    case DispatchEvent(d) => DispatchExtends(c, s, d);
    case VerifyEvent(index) => VerifyExtends(c, s, index);
    case _ =>
  }

  /** Along any continuation the run, its ledgers so far and its implementer session stay. */
  lemma {:induction false} HistoryExtends(c: Context, s: State, events: seq<Event>)
    requires Invariant(c, s) && IsOwn(c, s)
    ensures Invariant(c, History(c, s, events)) && IsOwn(c, History(c, s, events)) && Extends(s, History(c, s, events))
  {
    if events == [] {
    } else {
      hide Invariant;
      var init := events[..|events| - 1];
      HistoryExtends(c, s, init);
      StepExtends(c, History(c, s, init), events[|events| - 1]);
      NextKeeps(c, History(c, s, init), events[|events| - 1]);
    }
  }

  /** What the ledgers say for a completed run. */

  function ApprovalAt(role: Role, digest: Option<string>): Review -> bool {
    (r: Review) => r.role == role && r.verdict == Approved && Some(r.changeDigest) == digest
  }

  ghost predicate EveryGatePasses(c: Context, s: State)
    requires s.run.Some?
  {
    forall g :: g in s.run.value.selectedGates ==>
      StatusOf(g, s.run.value.currentDigest, s.evidence, s.reviews, ValidationFor(c, s.run.value, s.store)) == GatePass
  }

  predicate OneApprovalPerRole(s: State)
    requires s.run.Some?
  {
    forall role :: role in s.run.value.requiredReviewers ==> |Filter(s.reviews, ApprovalAt(role, s.run.value.currentDigest))| == 1
  }

  predicate BothApprove(x: Review, y: Review, digest: Option<string>) {
    x.role != y.role && ApprovalAt(x.role, digest)(x) && ApprovalAt(y.role, digest)(y)
  }

  predicate ApproversAreDistinct(s: State)
    requires s.run.Some?
  {
    var run := s.run.value;
    && (forall r :: r in s.reviews && Some(r.changeDigest) == run.currentDigest && r.verdict == Approved ==>
          Some(r.session) != run.implementerSession && r.role != run.implementerRole)
    && (forall x, y :: x in s.reviews && y in s.reviews && BothApprove(x, y, run.currentDigest) ==> x.session != y.session)
  }

  predicate FirstIndependentApproves(s: State)
    requires s.run.Some?
  {
    var first := IndependentReviewAt(s.reviews, s.run.value.currentDigest);
    first.Some? && first.value.verdict == Approved
  }

  ghost predicate IsSupported(c: Context, s: State)
    requires s.run.Some?
  {
    && s.run.value.scopeViolations == []
    && EveryGatePasses(c, s) && OneApprovalPerRole(s) && ApproversAreDistinct(s)
    && FirstIndependentApproves(s) && IndependentReviewer in s.run.value.requiredReviewers
  }

  predicate IsCompleted(c: Context, s: State) {
    IsOwn(c, s) && s.run.value.status == Completed
  }

  lemma DerivedGatesPass(c: Context, s: State)
    requires s.run.Some? && AllGatesPass(GateStatesOf(c, s))
    ensures EveryGatePasses(c, s)
  {
    var states := GateStatesOf(c, s);
    forall g | g in s.run.value.selectedGates
      ensures StatusOf(g, s.run.value.currentDigest, s.evidence, s.reviews, ValidationFor(c, s.run.value, s.store)) == GatePass
    {
      var i :| 0 <= i < |s.run.value.selectedGates| && s.run.value.selectedGates[i] == g;
      assert states[i] in states;
    }
  }

  lemma AtMostOneApproval(reviews: seq<Review>, role: Role, digest: Option<string>)
    requires forall i, j :: 0 <= i < j < |reviews| ==> AreIndependent(reviews[i], reviews[j])
    ensures |Filter(reviews, ApprovalAt(role, digest))| <= 1
  {
    AtMostOne(reviews, ApprovalAt(role, digest));
  }

  lemma RolesApproveOnce(c: Context, s: State)
    requires Invariant(c, s) && IsOwn(c, s) && RequiredRolesApprove(s)
    ensures OneApprovalPerRole(s)
  {
    forall role | role in s.run.value.requiredReviewers
      ensures |Filter(s.reviews, ApprovalAt(role, s.run.value.currentDigest))| == 1
    {
      AtMostOneApproval(s.reviews, role, s.run.value.currentDigest);
      var r :| r in s.reviews && Some(r.changeDigest) == s.run.value.currentDigest && r.role == role && r.verdict == Approved;
      assert r in Filter(s.reviews, ApprovalAt(role, s.run.value.currentDigest));
    }
  }

  lemma ApproversDiffer(c: Context, s: State)
    requires Invariant(c, s) && IsOwn(c, s)
    ensures ApproversAreDistinct(s)
  {
    var run := s.run.value;
    hide WellFormed, IsPast, IsCoherent, IsBound;
    forall x, y | x in s.reviews && y in s.reviews && BothApprove(x, y, run.currentDigest)
      ensures x.session != y.session
    {
      var i :| 0 <= i < |s.reviews| && s.reviews[i] == x;
      var j :| 0 <= j < |s.reviews| && s.reviews[j] == y;
      assert AreIndependent(s.reviews[i], s.reviews[j]) || AreIndependent(s.reviews[j], s.reviews[i]);
    }
  }

  lemma FirstIndependentIsRequired(c: Context, s: State)
    requires Invariant(c, s) && IsOwn(c, s) && FirstIndependentApproves(s)
    ensures IndependentReviewer in s.run.value.requiredReviewers
  {
    var found := Filter(Filter(s.reviews, AtDigest(s.run.value.currentDigest)), ByRole(IndependentReviewer));
    assert found[0] in found;
    assert IsIndependent(s.run.value, found[0]);
  }

  /** A run that may be finalized is supported by its ledgers. */
  lemma FinalizableIsSupported(c: Context, s: State, plan: Option<SelectionPlan>)
    requires Invariant(c, s) && IsActive(c, s) && CanFinalize(c, s, plan)
    ensures IsSupported(c, s)
  {
    DerivedGatesPass(c, s);
    RolesApproveOnce(c, s);
    ApproversDiffer(c, s);
    FirstIndependentIsRequired(c, s);
    hide Allowed, Invariant, EveryGatePasses, AllGatesPass, OneApprovalPerRole, ApproversAreDistinct;
  }

  /** Support depends on the ledgers, the cache, and what the run is bound to. */
  lemma SupportIsFramed(c: Context, s: State, t: State)
    requires s.run.Some? && t.run.Some? && HasSameBinding(s.run.value, t.run.value) && IsSupported(c, s)
    requires t.evidence == s.evidence && t.reviews == s.reviews && t.store == s.store
    requires t.run.value.currentDigest == s.run.value.currentDigest && t.run.value.scopeViolations == s.run.value.scopeViolations
    ensures IsSupported(c, t)
  {
    assert ValidationFor(c, t.run.value, t.store) == ValidationFor(c, s.run.value, s.store);
  }

  /** Of all events only a dispatch on a dirty tree takes completion away; it is checked before completion is. */
  lemma CompletionIsLostOnlyToDirt(c: Context, s: State, e: Event)
    requires Invariant(c, s) && IsCompleted(c, s)
    ensures IsCompleted(c, Next(c, s, e)) <==> !(e.DispatchEvent? && s.tree.dirty && MayDispatch(c, s, e.dispatch))
    ensures var t := Next(c, s, e);
      IsOwn(c, t) && HasSameBinding(s.run.value, t.run.value)
      && t.evidence == s.evidence && t.reviews == s.reviews && t.store == s.store
      && t.run.value.currentDigest == s.run.value.currentDigest && t.run.value.scopeViolations == s.run.value.scopeViolations
  {
    hide WellFormed, IsPast, LedgersAreOwn, AttemptCounts, ReviewsAreIndependent, Allowed;
  }

  /** Only finalizing completes a run: at a live digest equal to the verified one, with the ledgers in support. */
  lemma CompletingStep(c: Context, s: State, e: Event)
    requires Invariant(c, s) && !IsCompleted(c, s) && IsCompleted(c, Next(c, s, e))
    ensures e.FinalizeEvent? && IsActive(c, s) && CanFinalize(c, s, e.plan)
    ensures Some(s.tree.digest) == s.run.value.currentDigest == Next(c, s, e).run.value.currentDigest
    ensures IsSupported(c, Next(c, s, e))
  {
    hide WellFormed, IsPast, LedgersAreOwn, AttemptCounts, ReviewsAreIndependent, Allowed, IsCoherent;
    OnlyFinalizeCompletes(c, s, e);
    FinalizableIsSupported(c, s, e.plan);
    hide IsSupported;
    SupportIsFramed(c, s, Next(c, s, e));
  }

  lemma OnlyFinalizeCompletes(c: Context, s: State, e: Event)
    requires Invariant(c, s) && !IsCompleted(c, s) && IsCompleted(c, Next(c, s, e))
    ensures e.FinalizeEvent? && IsActive(c, s) && CanFinalize(c, s, e.plan)
  {
    hide CanFinalize, Allowed, WellFormed, IsPast, IsCoherent, ReviewsAreIndependent, AttemptCounts, LedgersAreOwn;
  }

  lemma SupportedStep(c: Context, s: State, e: Event)
    requires Invariant(c, s) && IsCompleted(c, Next(c, s, e)) && (IsCompleted(c, s) ==> IsSupported(c, s))
    ensures IsSupported(c, Next(c, s, e))
    ensures IsCompleted(c, s) ==> Next(c, s, e).run.value.currentDigest == s.run.value.currentDigest
  {
    hide Invariant, IsSupported, CanFinalize, IsActive;
    if IsCompleted(c, s) {
      CompletionIsLostOnlyToDirt(c, s, e);
      hide Next;
      SupportIsFramed(c, s, Next(c, s, e));
    } else {
      CompletingStep(c, s, e);
    }
  }

  /** Completion safety over every history: for any interleaving of operations and outside edits, whenever the run is
      completed, the ledgers support it at its digest. */
  lemma {:induction false} CompletionSafety(c: Context, s: State, events: seq<Event>)
    requires IsInitial(c, s)
    ensures IsCompleted(c, History(c, s, events)) ==> IsSupported(c, History(c, s, events))
  {
    if events == [] {
    } else {
      hide Next, Invariant, IsSupported;
      HistoryIsSound(c, s, events[..|events| - 1]);
      CompletionSafety(c, s, events[..|events| - 1]);
      if IsCompleted(c, History(c, s, events)) {
        SupportedStep(c, History(c, s, events[..|events| - 1]), events[|events| - 1]);
      }
    }
  }

  /** And some step completed it, at that digest, while the working tree was live at that digest. */
  lemma {:induction false} CompletionWasLive(c: Context, s: State, events: seq<Event>) returns (k: nat)
    requires IsInitial(c, s) && IsCompleted(c, History(c, s, events))
    ensures k < |events| && IsCompletingStep(c, s, events, k)
    ensures History(c, s, events[..k]).run.value.currentDigest == History(c, s, events).run.value.currentDigest
  {
    hide Next, Invariant, IsSupported, CanFinalize;
    if events == [] {
      assert false;
    } else {
      var init, last := events[..|events| - 1], events[|events| - 1];
      var before := History(c, s, init);
      HistoryIsSound(c, s, init);
      CompletionSafety(c, s, init);
      SupportedStep(c, before, last);
      if IsCompleted(c, before) {
        k := CompletionWasLive(c, s, init);
        assert init[..k] == events[..k] && init[k] == events[k];
      } else {
        k := |events| - 1;
        CompletingStep(c, before, last);
      }
    }
  }

  /** The k-th event finalized the run while the live digest was the verified one. */
  ghost predicate IsCompletingStep(c: Context, s: State, events: seq<Event>, k: nat)
    requires WellFormed(s.store) && k < |events|
  {
    var before := History(c, s, events[..k]);
    && events[k].FinalizeEvent? && IsActive(c, before) && before.run.value.status != Completed
    && CanFinalize(c, before, events[k].plan)
    && Some(before.tree.digest) == before.run.value.currentDigest
  }

  /** A digest the ledgers reject. */

  predicate HasObjection(s: State, digest: string)
    requires s.run.Some?
  {
    exists e :: e in s.evidence && e.changeDigest == digest && e.status != EvidencePass
      && e.gate in s.run.value.selectedGates && !IsReviewGate(e.gate)
  }

  predicate HasNegativeReview(s: State, digest: string)
    requires s.run.Some?
  {
    exists r, g :: r in s.reviews && r.changeDigest == digest && (r.verdict != Approved || IsContradiction(r))
      && g in s.run.value.selectedGates && ContractOf(g) == Some(ReviewContract(r.role))
  }

  predicate FirstIndependentObjects(s: State, digest: string)
    requires s.run.Some?
  {
    var first := IndependentReviewAt(s.reviews, Some(digest));
    first.Some? && first.value.verdict != Approved
  }

  predicate IsRejected(s: State, digest: string)
    requires s.run.Some?
  {
    digest != "" && (HasObjection(s, digest) || HasNegativeReview(s, digest) || FirstIndependentObjects(s, digest))
  }

  lemma FilterKeepsPrefix<T(!new)>(s: seq<T>, t: seq<T>, p: T -> bool)
    requires s <= t
    ensures Filter(s, p) <= Filter(t, p)
  {
    assert t == s + t[|s|..];
    FilterConcat(s, t[|s|..], p);
  }

  /** Growing ledgers keep a rejection. */
  lemma RejectionIsKept(s: State, t: State, digest: string)
    requires s.run.Some? && IsRejected(s, digest) && Extends(s, t)
    requires t.run.value.selectedGates == s.run.value.selectedGates
    ensures IsRejected(t, digest)
  {
    assert forall e :: e in s.evidence ==> e in t.evidence;
    assert forall r :: r in s.reviews ==> r in t.reviews;
    FilterKeepsPrefix(s.reviews, t.reviews, AtDigest(Some(digest)));
    FilterKeepsPrefix(Filter(s.reviews, AtDigest(Some(digest))), Filter(t.reviews, AtDigest(Some(digest))), ByRole(IndependentReviewer));
  }

  /** A supported run is at no rejected digest. */
  lemma SupportExcludesRejection(c: Context, s: State, digest: string)
    requires Invariant(c, s) && IsOwn(c, s) && IsSupported(c, s) && s.run.value.currentDigest == Some(digest)
    ensures !IsRejected(s, digest)
  {
    ObjectionFailsGate(c, s, digest);
    NegativeReviewFailsGate(c, s, digest);
  }

  lemma ObjectionFailsGate(c: Context, s: State, digest: string)
    requires Invariant(c, s) && IsOwn(c, s) && EveryGatePasses(c, s) && s.run.value.currentDigest == Some(digest)
    ensures !HasObjection(s, digest)
  {
    hide WellFormed, IsPast, IsCoherent, ReviewsAreIndependent, AttemptCounts;
    var v := ValidationFor(c, s.run.value, s.store);
    forall e | e in s.evidence && e.changeDigest == digest && e.gate in s.run.value.selectedGates && !IsReviewGate(e.gate)
      ensures e.status == EvidencePass
    {
      assert Counting(e.gate, Some(digest), v)(e);
      EvidenceStatusMeaning(e.gate, Some(digest), s.evidence, s.reviews, v);
    }
  }

  lemma NegativeReviewFailsGate(c: Context, s: State, digest: string)
    requires Invariant(c, s) && IsOwn(c, s) && EveryGatePasses(c, s) && s.run.value.currentDigest == Some(digest) && digest != ""
    ensures !HasNegativeReview(s, digest)
  {
    hide WellFormed, IsPast, IsCoherent, AttemptCounts, IsIndependent, AreIndependent, DeriveGateStates;
    var v := ValidationFor(c, s.run.value, s.store);
    forall r, g | r in s.reviews && r.changeDigest == digest && g in s.run.value.selectedGates && ContractOf(g) == Some(ReviewContract(r.role))
      ensures r.verdict == Approved && !IsContradiction(r)
    {
      assert IsReviewGate(g) && StatusOf(g, Some(digest), s.evidence, s.reviews, v) == GatePass;
      var current := Filter(s.reviews, CountingReviews(r.role, Some(digest), v));
      assert r in current;
      assert Adjudicate(current) == GatePass;
    }
  }

  /** A rejected digest stays rejected: no later sequence of operations and edits completes the run there. */
  lemma RejectedStaysRejected(c: Context, s: State, past: seq<Event>, future: seq<Event>, digest: string)
    requires IsInitial(c, s)
    requires IsOwn(c, History(c, s, past)) && IsRejected(History(c, s, past), digest)
    ensures var t := History(c, s, past + future);
      IsOwn(c, t) && IsRejected(t, digest) && !(t.run.value.status == Completed && t.run.value.currentDigest == Some(digest))
  {
    var now := History(c, s, past);
    HistoryIsSound(c, s, past);
    HistoryIsSound(c, s, past + future);
    HistoryConcat(c, s, past, future);
    HistoryExtends(c, now, future);
    hide History;
    var t := History(c, s, past + future);
    RejectionIsKept(now, t, digest);
    CompletionSafety(c, s, past + future);
    if t.run.value.status == Completed && t.run.value.currentDigest == Some(digest) {
      SupportExcludesRejection(c, t, digest);
      assert false;
    }
  }

  lemma {:induction false} HistoryConcat(c: Context, s: State, past: seq<Event>, future: seq<Event>)
    requires WellFormed(s.store)
    ensures History(c, s, past + future) == History(c, History(c, s, past), future)
  {
    if future == [] {
      assert past + future == past;
    } else {
      var init := future[..|future| - 1];
      assert (past + future)[..|past + future| - 1] == past + init;
      HistoryConcat(c, s, past, init);
    }
  }

  /** The run is open to work, under an implementer where the work order asks for one. */
  predicate IsOpen(c: Context, s: State) {
    && IsOwn(c, s) && s.run.value.status in {Ready, InProgress, CorrectionStatus}
    && (c.workOrder.requiresImplementation ==> Present(s.run.value.implementerSession))
  }

  /** Nothing is verified or reviewed yet. */
  predicate IsAtTheStart(run: Run) {
    run.phase == Implement && run.currentDigest == None && run.reviewedDigest == None && run.blockers == [] && run.scopeViolations == []
  }

  /** What dispatching means: an accepted dispatch finds a clean tree and leaves an open run, the one that was open or one at
      the start; the ledgers of the work order, its implementer and its attempts stay; a completed run is never reopened. */
  lemma DispatchMeans(c: Context, s: State, d: DispatchInput)
    requires Invariant(c, s)
    ensures var (t, outcome) := Dispatch(c, s, d);
      && (outcome == Done ==> !s.tree.dirty && IsOpen(c, t) && (if IsOpen(c, s) then t == s else IsAtTheStart(t.run.value)))
      && (IsOwn(c, s) ==> IsOwn(c, t) && Extends(s, t) && t.run.value.attempt == s.run.value.attempt && t.reviews == s.reviews)
      && (IsCompleted(c, s) ==> outcome == Refused && (IsCompleted(c, t) <==> !(s.tree.dirty && MayDispatch(c, s, d))))
      && (!s.tree.dirty && outcome == Refused ==> t == s) && t.tree == s.tree
  {
    hide WellFormed, IsPast, ReviewsAreIndependent, AttemptCounts, LedgersAreOwn;
  }

  /** The policy reads nothing of the run's radius. */
  lemma PolicyIgnoresRadius(x: PolicyInput, y: PolicyInput)
    requires y == x.(run := x.run.(radius := y.run.radius))
    ensures Allowed(x) <==> Allowed(y)
  {
    FilterCongruence(x.evidence, MatchingEvidence(x.projectId, x.workOrder, x.run), MatchingEvidence(y.projectId, y.workOrder, y.run));
    FilterCongruence(Submitted(x), MatchingReviews(x.projectId, x.workOrder, x.run), MatchingReviews(y.projectId, y.workOrder, y.run));
    assert CurrentEvidence(x) == CurrentEvidence(y) && CurrentReviews(x) == CurrentReviews(y);
    forall b ensures Reported(x, b) == Reported(y, b) {
      RadiusIsNotReported(x, y, b);
    }
  }

  lemma RadiusIsNotReported(x: PolicyInput, y: PolicyInput, b: Blocker)
    requires y == x.(run := x.run.(radius := y.run.radius))
    requires CurrentEvidence(x) == CurrentEvidence(y) && CurrentReviews(x) == CurrentReviews(y)
    ensures Reported(x, b) == Reported(y, b)
  {
    hide CurrentEvidence, CurrentReviews, Filter;
    assert AboutRun(x, b) == AboutRun(y, b) by {
      assert PlanIsValid(x) == PlanIsValid(y);
      if b.CurrentFailBlockedEvidence? { assert forall e :: Contradicts(x, e, b.gate) == Contradicts(y, e, b.gate); }
    }
    forall r | r in CurrentReviews(x) ensures AboutReview(x, r, b) == AboutReview(y, r, b) {
      RadiusIsNoMatter(x, y, r, b);
    }
    hide AboutRun, AboutReview;
  }

  lemma RadiusIsNoMatter(x: PolicyInput, y: PolicyInput, r: Review, b: Blocker)
    requires y == x.(run := x.run.(radius := y.run.radius)) && CurrentEvidence(x) == CurrentEvidence(y)
    ensures AboutReview(x, r, b) == AboutReview(y, r, b)
  {
    hide CurrentEvidence, Filter, ReferencesAreCurrent, ReferencesAreOwn, HasRelevantEvidence, RoleGateIsSufficient;
    RadiusAndRole(x, y, r.role);
    RadiusAndReferences(x, y, r);
    assert AboutReviewer(x, r, b) == AboutReviewer(y, r, b);
    assert AboutContent(x, r, b) == AboutContent(y, r, b);
    assert AboutApproval(x, r, b) == AboutApproval(y, r, b);
    hide AboutReviewer, AboutContent, AboutApproval;
  }

  lemma RadiusAndRole(x: PolicyInput, y: PolicyInput, role: Role)
    requires y == x.(run := x.run.(radius := y.run.radius)) && CurrentEvidence(x) == CurrentEvidence(y)
    ensures HasRelevantEvidence(x, role) == HasRelevantEvidence(y, role)
    ensures RoleGateIsSufficient(x, role) == RoleGateIsSufficient(y, role)
  {
    hide CurrentEvidence, Filter, LookupStatus;
    assert RoleObligations(x, role) == RoleObligations(y, role);
    if x.plan.Some? { assert forall o :: IsDischarged(x, role, o) == IsDischarged(y, role, o); }
  }

  lemma RadiusAndReferences(x: PolicyInput, y: PolicyInput, r: Review)
    requires y == x.(run := x.run.(radius := y.run.radius)) && CurrentEvidence(x) == CurrentEvidence(y)
    ensures ReferencesAreCurrent(x, r) == ReferencesAreCurrent(y, r) && ReferencesAreOwn(x, r) == ReferencesAreOwn(y, r)
  {
    hide CurrentEvidence;
    assert forall e :: RefOf(x.run, e) == RefOf(y.run, e);
  }

  /** Widening the context changes neither what the ledgers prove nor what may be finalized. */
  lemma ExpandingIsNeutral(c: Context, s: State, i: ExpandInput, plan: Option<SelectionPlan>)
    requires s.run.Some?
    ensures var t := ExpandContext(c, s, i).0;
      && t.run.Some? && s.run.value.radius <= t.run.value.radius && (s.run.value.radius <= LAST_RADIUS ==> t.run.value.radius <= LAST_RADIUS)
      && (s.run.value.radius < LAST_RADIUS == t.run.value.radius ==> i.approveC5)
      && t.evidence == s.evidence && t.reviews == s.reviews && GateStatesOf(c, t) == GateStatesOf(c, s)
      && (CanFinalize(c, t, plan) <==> CanFinalize(c, s, plan)) && (IsCompleted(c, t) <==> IsCompleted(c, s))
  {
    var t := ExpandContext(c, s, i).0;
    var x, y := PolicyCase(c, s, FinalizeMode, None, plan), PolicyCase(c, t, FinalizeMode, None, plan);
    assert GateStatesOf(c, t) == GateStatesOf(c, s);
    hide GateStatesOf, DeriveGateStates;
    PolicyIgnoresRadius(x, y);
    hide Allowed, AllGatesPass;
  }

  /** What verifying gains from the cache: the pending eligible gates that were a hit at the verified digest pass,
      and every other gate stands as the ledgers alone have it. */
  lemma VerificationReuses(c: Context, s: State, index: IndexInput, gate: Gate)
    requires Invariant(c, s) && VerifyStep(c, s, index).1 == Done
    ensures var u, t := Verified(s), VerifyStep(c, s, index).0;
      var before := StatusOf(gate, u.run.value.currentDigest, u.evidence, u.reviews, ValidationFor(c, u.run.value, u.store));
      && t.run == u.run && t.reviews == u.reviews && u.evidence <= t.evidence
      && StatusOf(gate, t.run.value.currentDigest, t.evidence, t.reviews, ValidationFor(c, t.run.value, t.store))
        == if before == GatePending && gate in u.run.value.selectedGates && IsCacheEligibleGate(gate)
             && IsApplied(u.store, u.run.value, AskerOf(u.run.value, index.bundle, index.env), gate)
           then GatePass else before
  {
    hide IsCoherent, ReviewsAreIndependent, AttemptCounts, LedgersAreOwn;
    VerifiedKeeps(c, s);
    var u := Verified(s);
    ReuseKeeps(c, u, index);
    ApplicationRefinesDerivation(World(u.store, u.evidence, u.clock), u.run.value, AskerOf(u.run.value, index.bundle, index.env), u.reviews, gate);
  }
}
