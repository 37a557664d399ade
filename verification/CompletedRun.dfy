/** Concrete histories: one that completes, and one that completes although two reviewers objected to the same digest. */
module CompletedRun {
  import opened Basics
  import opened Gates
  import opened Records
  import opened CacheIntegrity
  import opened CacheStore
  import opened CacheDecision
  import opened CacheReuse
  import opened CacheValidity
  import opened Derivation
  import opened TypedSelection
  import opened AssurancePolicy
  import opened Lifecycle
  import opened LifecycleInvariant
  import opened LifecycleSafety
  import opened LedgerStanding
  import opened Objections

  const REVIEWERS := [IndependentReviewer, ReliabilityReviewer]
  const WORK_ORDER := WorkOrder("wo", "p", false, true, REVIEWERS, [RollbackValidation], true, 1)
  const CONTEXT := Context("p", WORK_ORDER)

  const ROLLBACK := Obligation(Obliged("rollback"), GateObligation, Some(RollbackValidation), Some(GateEvidence(RollbackValidation)), None)

  function Assurance(role: Role): Obligation {
    Obligation(AssuranceOf(role), AssuranceObligation, None, None, Some(role))
  }

  function CoveredBy(o: Obligation, role: Role): Coverage {
    Coverage(o.id, o.kind, o.gate, o.evidence, role)
  }

  const REQUIRED := [ROLLBACK, Assurance(IndependentReviewer), Assurance(ReliabilityReviewer)]
  const COVERED := [
    CoveredBy(ROLLBACK, ReliabilityReviewer), CoveredBy(Assurance(IndependentReviewer), IndependentReviewer),
    CoveredBy(Assurance(ReliabilityReviewer), ReliabilityReviewer)]
  const CONTENT := PlanContent(true, "p", "wo", 0, 0, 0, [ImplementationAgent], REVIEWERS, REQUIRED, COVERED)
  const PLAN := Some(SelectionPlan(CONTENT, CONTENT))

  const CLEAN: Tree := Tree(false, "clean", [])
  const EDITED: Tree := Tree(true, "edited", [ChangedFile("src/a.ts", InScope)])
  const NO_INDEX := IndexInput(None, Env(map[], map[], "linux"))
  const ROLLED_BACK := EvidenceInput(
    RollbackValidation, CommandEvidence, "npm run rollback", Some(0), Attached("rollback.txt", "out"), NoAttachment, None, NO_INDEX)

  function SaysInput(role: Role, session: string, verdict: Verdict): ReviewInput {
    ReviewInput(role, session, "", verdict, Some([]), PLAN)
  }

  function Says(role: Role, session: string, verdict: Verdict): Event {
    ReviewEvent(SaysInput(role, session, verdict))
  }

  const START := State(None, [], [], Store(map[], NoIndex, map[]), CLEAN, 0, PlanStage)

  const ORDER := DispatchInput("implementer", true, ModelReady, true)

  const TO_EVIDENCE := [DispatchEvent(ORDER), EditTree(EDITED), VerifyEvent(NO_INDEX), EvidenceEvent(ROLLED_BACK)]

  const TO_REVIEW := TO_EVIDENCE + [StartEvent(PLAN)]

  const APPROVED := [
    Says(IndependentReviewer, "reader", Approved), Says(ReliabilityReviewer, "operator", Approved), FinalizeEvent(PLAN)]

  const BACK_TO_REVIEW := [VerifyEvent(NO_INDEX), StartEvent(PLAN)]

  const OBJECTED :=
    [Says(ReliabilityReviewer, "operator", CorrectionNeeded)] + BACK_TO_REVIEW
    + [Says(IndependentReviewer, "reader", Approved), Says(IndependentReviewer, "second reader", CorrectionNeeded)] + BACK_TO_REVIEW
    + [Says(ReliabilityReviewer, "operator", Approved), FinalizeEvent(PLAN)]

  /** The selection plan. */

  lemma SoleMatch<T(!new)>(s: seq<T>, p: T -> bool, i: nat)
    requires i < |s| && p(s[i]) && forall j :: 0 <= j < |s| && j != i ==> !p(s[j])
    ensures Filter(s, p) == [s[i]]
  {
    assert s == s[..i] + [s[i]] + s[i + 1..];
    FilterConcat(s[..i] + [s[i]], s[i + 1..], p);
    FilterAppend(s[..i], s[i], p);
    FilterNone(s[..i], p);
    FilterNone(s[i + 1..], p);
  }

  lemma EachIsCovered(i: nat)
    requires i < |REQUIRED|
    ensures |COVERED| == |REQUIRED| && Filter(COVERED, Covering(REQUIRED[i].id)) == [COVERED[i]]
  {
    SoleMatch(COVERED, Covering(REQUIRED[i].id), i);
  }

  lemma CoverageHolds()
    ensures CoverageIsExact(REQUIRED, COVERED, [ImplementationAgent] + REVIEWERS)
  {
    forall o | o in REQUIRED ensures |Filter(COVERED, Covering(o.id))| == 1 {
      var i :| 0 <= i < |REQUIRED| && REQUIRED[i] == o;
      EachIsCovered(i);
    }
    forall c | c in COVERED ensures Fits(c, REQUIRED, [ImplementationAgent] + REVIEWERS) {
      var i :| 0 <= i < |COVERED| && COVERED[i] == c;
      assert Covers(c, REQUIRED[i], [ImplementationAgent] + REVIEWERS);
    }
  }

  predicate IsOrdered(inp: PolicyInput) {
    && inp.projectId == "p" && inp.workOrder == WORK_ORDER && inp.plan == PLAN
    && inp.run.selectedGates == [RollbackValidation] && inp.run.requiredReviewers == REVIEWERS
  }

  lemma PlanHolds(inp: PolicyInput)
    requires IsOrdered(inp)
    ensures PlanIsValid(inp)
  {
    CoverageHolds();
    hide CoverageIsExact;
    assert REQUIRED[0] == ROLLBACK && REQUIRED[1] == Assurance(IndependentReviewer) && REQUIRED[2] == Assurance(ReliabilityReviewer);
    assert RequiresGate(REQUIRED, RollbackValidation);
    assert RequiresId(REQUIRED, AssuranceOf(IndependentReviewer)) && RequiresId(REQUIRED, AssuranceOf(ReliabilityReviewer));
  }

  /** With the rollback evidence on record both reviewers' obligations are discharged. */
  lemma RolesAreBacked(inp: PolicyInput, role: Role)
    requires IsOrdered(inp) && role in REVIEWERS
    requires exists e :: e in CurrentEvidence(inp) && e.gate == RollbackValidation && e.status == EvidencePass
    requires LookupStatus(inp.gateStates, RollbackValidation) == Some(GatePass)
    ensures IsBacked(inp, role)
  {
    hide CurrentEvidence, LookupStatus, Filter;
    var obligations := RoleObligations(inp, role);
    var own := Assurance(role);
    assert own in REQUIRED by { assert REQUIRED[1] == Assurance(IndependentReviewer) && REQUIRED[2] == Assurance(ReliabilityReviewer); }
    assert own in obligations by { assert OfRole(role)(own); }
    if role == ReliabilityReviewer {
      forall o | o in obligations ensures IsDischarged(inp, role, o) {
        assert OfRole(role)(o) && o in REQUIRED;
        var i :| 0 <= i < |REQUIRED| && REQUIRED[i] == o;
        EachIsCovered(i);
        assert i == 0 || i == 2;
      }
    }
  }

  /** Where the histories stand between events. */

  predicate IsRollbackEvidence(runId: string, e: Evidence) {
    && e.projectId == "p" && e.workOrderId == "wo" && e.runId == runId && e.changeDigest == "edited"
    && e.gate == RollbackValidation && e.kind == CommandEvidence && e.status == EvidencePass
    && e.command == Some("npm run rollback") && e.exitCode == Some(0)
    && e.outputRef == Some("rollback.txt") && e.outputDigest == Some("out") && e.source == Executed
  }

  /** The run in the given phase, verified at the edited tree, with its rollback evidence on record. */
  ghost predicate IsAt(s: State, phase: Phase, status: Status, reviewed: Option<string>) {
    && WellFormed(s.store) && s.tree == EDITED && s.run.Some?
    && var run := s.run.value;
    && run.projectId == "p" && run.workOrderId == "wo" && run.phase == phase && run.status == status
    && run.implementerRole == ImplementationAgent && run.implementerSession == Some("implementer")
    && run.requiredReviewers == REVIEWERS && run.selectedGates == [RollbackValidation]
    && run.currentDigest == Some("edited") && run.reviewedDigest == reviewed
    && run.scopeViolations == [] && run.blockers == []
    && |s.evidence| == 1 && IsRollbackEvidence(run.runId, s.evidence[0])
    && forall r :: r in s.reviews ==> r.changeDigest == "edited"
  }

  /** What every state of a history offers besides. */
  ghost predicate IsSound(s: State) {
    s.run.Some? && Invariant(CONTEXT, s) && AreWellMade(s)
  }

  ghost predicate Stands(s: State, phase: Phase, status: Status, reviewed: Option<string>) {
    WellFormed(s.store) && s.run.Some? && IsAt(s, phase, status, reviewed) && IsSound(s)
  }

  lemma IsWhereItIs(s: State, phase: Phase, status: Status, reviewed: Option<string>)
    requires IsAt(s, phase, status, reviewed)
    ensures IsActive(CONTEXT, s) && WellFormed(s.store) && s.run.value.status == status && s.run.value.currentDigest == Some("edited")
  {
  }

  lemma RolesOfWorkOrder()
    ensures RequiredOf(WORK_ORDER) == REVIEWERS
  {
    FilterAll(REVIEWERS, (r: Role) => r != OtherRole(""));
    var init := REVIEWERS[..1];
    assert REVIEWERS[..|REVIEWERS| - 1] == init == [IndependentReviewer];
    assert init[..0] == [];
    assert Distinct(init) == [IndependentReviewer];
  }

  lemma {:induction false} FilterAll<T(!new)>(s: seq<T>, p: T -> bool)
    requires forall x :: x in s ==> p(x)
    ensures Filter(s, p) == s
  {
    if s == [] {
      assert Filter(s, p) == [];
    } else {
      assert s == s[..|s| - 1] + [s[|s| - 1]];
      FilterAll(s[..|s| - 1], p);
    }
  }

  lemma GatePasses(s: State, phase: Phase, status: Status, reviewed: Option<string>)
    requires IsAt(s, phase, status, reviewed)
    ensures GateStatesOf(CONTEXT, s) == [GateState(RollbackValidation, GatePass, Some(s.evidence[0].evidenceId))]
  {
    var v := ValidationFor(CONTEXT, s.run.value, s.store);
    var e := s.evidence[0];
    assert s.evidence == [e];
    SoleMatch([e], Counting(RollbackValidation, Some("edited"), v), 0);
    SoleMatch([e], Proving(RollbackValidation, Some("edited"), v), 0);
    FilterNone([e], WithStatus(EvidenceBlocked));
    FilterNone([e], WithStatus(EvidenceFail));
  }

  lemma EvidenceIsCurrent(s: State, inp: PolicyInput, phase: Phase, status: Status, reviewed: Option<string>)
    requires IsAt(s, phase, status, reviewed)
    requires inp.run == s.run.value && inp.projectId == "p" && inp.workOrder == WORK_ORDER && inp.evidence == s.evidence
    ensures CurrentEvidence(inp) == s.evidence
  {
    FilterAll(s.evidence, MatchingEvidence("p", WORK_ORDER, inp.run));
  }

  lemma RunIsClean(inp: PolicyInput, b: Blocker)
    requires IsOrdered(inp) && PlanIsValid(inp)
    requires inp.run.currentDigest == Some("edited") && inp.run.implementerSession == Some("implementer")
    requires inp.run.scopeViolations == [] && inp.run.reviewedDigest in {None, Some("edited")}
    requires forall g :: g in inp.gateStates ==> g.status == GatePass
    requires forall e :: e in CurrentEvidence(inp) ==> e.status == EvidencePass
    ensures !AboutRun(inp, b)
  {
    hide PlanIsValid, CurrentEvidence;
    BoundAsOrdered(inp);
    hide RolesAreBound, GatesAreBound;
    assert forall e, gate :: e in CurrentEvidence(inp) ==> !Contradicts(inp, e, gate);
  }

  lemma BoundAsOrdered(inp: PolicyInput)
    requires IsOrdered(inp)
    ensures RolesAreBound(inp) && GatesAreBound(inp)
  {
    assert forall r :: r in REVIEWERS ==> IsRecognized(r);
  }

  predicate IsApprovedBy(s: State, role: Role) {
    exists r :: r in s.reviews && r.role == role && r.verdict == Approved && IsOfRun(s.run, r)
  }

  predicate IsOfRun(run: Option<Run>, r: Review) {
    run.Some? && IsCurrentReview(run.value, r)
  }

  lemma RolesAreClean(inp: PolicyInput, s: State, b: Blocker)
    requires IsOrdered(inp) && inp.reviews == s.reviews && s.run == Some(inp.run)
    requires inp.run.projectId == "p" && inp.run.workOrderId == "wo"
    requires inp.mode == SubmissionMode ==> inp.candidate.Some? && inp.candidate.value.role in REVIEWERS && IsCurrentReview(inp.run, inp.candidate.value)
    requires inp.mode == FinalizeMode ==> forall role :: role in REVIEWERS ==> IsApprovedBy(s, role)
    ensures !AboutRoles(inp, b)
  {
    if b.MissingRequiredReviewer? && inp.mode == FinalizeMode && b.role in REVIEWERS {
      var r :| r in s.reviews && r.role == b.role && r.verdict == Approved && IsOfRun(s.run, r);
      assert r in Submitted(inp) && r in CurrentReviews(inp) && r in Filter(CurrentReviews(inp), ApprovedBy(b.role));
    }
  }

  /** Standing there, the policy allows whatever has the reviews it needs. */
  lemma CaseIsAllowed(s: State, mode: Mode, candidate: Option<Review>, phase: Phase, status: Status, reviewed: Option<string>)
    requires Stands(s, phase, status, reviewed) && reviewed in {None, Some("edited")} && (candidate.Some? ==> MayJoin(s, candidate.value))
    requires mode == SubmissionMode ==> candidate.Some? && candidate.value.role in REVIEWERS
    requires mode == FinalizeMode ==> forall role :: role in REVIEWERS ==> IsApprovedBy(s, role)
    ensures Allowed(PolicyCase(CONTEXT, s, mode, candidate, PLAN))
  {
    hide Invariant, AreWellMade, DeriveGateStates, GateStatesOf, IsActive, IsAt, PolicyCase, IsIndependent, IsWellMade, IsCurrentReview,
      AreIndependent, CurrentEvidence, CurrentReviews, AboutRun, AboutRoles, AboutReviews, AboutSomeReview, PlanIsValid, IsBacked, IsApprovedBy;
    var inp := PolicyCase(CONTEXT, s, mode, candidate, PLAN);
    CaseIsPlain(s, mode, candidate, phase, status, reviewed);
    GatePasses(s, phase, status, reviewed);
    EvidenceIsCurrent(s, inp, phase, status, reviewed);
    IsWhereItIs(s, phase, status, reviewed);
    PlanHolds(inp);
    assert candidate.Some? ==> IsCurrentReview(inp.run, candidate.value);
    hide MayJoin;
    assert forall role :: role in REVIEWERS ==> IsBacked(inp, role) by {
      assert s.evidence[0] in CurrentEvidence(inp);
      forall role | role in REVIEWERS ensures IsBacked(inp, role) { RolesAreBacked(inp, role); }
    }
    forall b ensures !Reported(inp, b) {
      RunIsClean(inp, b);
      LedgerIsClean(CONTEXT, s, mode, candidate, PLAN, b);
      RolesAreClean(inp, s, b);
    }
  }

  lemma CaseIsPlain(s: State, mode: Mode, candidate: Option<Review>, phase: Phase, status: Status, reviewed: Option<string>)
    requires IsAt(s, phase, status, reviewed)
    ensures var inp := PolicyCase(CONTEXT, s, mode, candidate, PLAN);
      && IsOrdered(inp) && inp.mode == mode && inp.candidate == candidate && inp.reviews == s.reviews && inp.evidence == s.evidence
      && inp.run == s.run.value && inp.run.projectId == "p" && inp.run.workOrderId == "wo"
      && inp.run.currentDigest == Some("edited") && inp.run.implementerSession == Some("implementer")
      && inp.run.scopeViolations == [] && inp.run.reviewedDigest == reviewed
      && inp.gateStates == GateStatesOf(CONTEXT, s)
      && LookupStatus([GateState(RollbackValidation, GatePass, Some(s.evidence[0].evidenceId))], RollbackValidation) == Some(GatePass)
      && s.evidence == [s.evidence[0]] && s.evidence[0].gate == RollbackValidation && s.evidence[0].status == EvidencePass
  {
    hide DeriveGateStates;
  }

  /** Steps. */

  datatype Said = Said(role: Role, session: string, verdict: Verdict)

  function Outline(reviews: seq<Review>): seq<Said> {
    seq(|reviews|, i requires 0 <= i < |reviews| => Said(reviews[i].role, reviews[i].session, reviews[i].verdict))
  }

  /** Nobody approved in this role or in this session. */
  predicate IsNewApproval(said: seq<Said>, role: Role, session: string) {
    forall i :: 0 <= i < |said| && said[i].verdict == Approved ==> said[i].role != role && said[i].session != session
  }

  /** From s to t these reviews were added, and so many corrections asked for. */
  ghost predicate Leads(s: State, t: State, said: seq<Said>, corrections: nat) {
    && s.run.Some? && t.run.Some? && Outline(t.reviews) == Outline(s.reviews) + said
    && t.run.value.attempt == s.run.value.attempt + corrections
  }

  lemma SoundStep(s: State, e: Event)
    requires IsActive(CONTEXT, s) && IsSound(s)
    ensures WellFormed(s.store) && Next(CONTEXT, s, e).run.Some? && IsSound(Next(CONTEXT, s, e))
  {
    hide Next, WellFormed, IsPast, IsCoherent, AreWellMade;
    NextKeeps(CONTEXT, s, e);
    StepExtends(CONTEXT, s, e);
    StepKeepsWellMade(CONTEXT, s, e);
  }

  lemma StartResult(s: State)
    requires IsAt(s, Verify, InProgress, None) && Allowed(PolicyCase(CONTEXT, s, StatusMode, None, PLAN))
    ensures var t := StartAssurance(CONTEXT, s, PLAN).0;
      IsAt(t, ReviewPhase, InProgress, None) && Leads(s, t, [], 0)
  {
    hide Allowed, PolicyCase, IsRollbackEvidence, DeriveGateStates;
    GatePasses(s, Verify, InProgress, None);
    hide GateStatesOf;
    assert Outline(s.reviews) + [] == Outline(s.reviews);
  }

  lemma StartStep(s: State)
    requires Stands(s, Verify, InProgress, None)
    ensures Stands(Next(CONTEXT, s, StartEvent(PLAN)), ReviewPhase, InProgress, None)
    ensures Leads(s, Next(CONTEXT, s, StartEvent(PLAN)), [], 0)
  {
    hide Allowed, IsSound, IsAt, PolicyCase, StartAssurance, Leads;
    CaseIsAllowed(s, StatusMode, None, Verify, InProgress, None);
    IsWhereItIs(s, Verify, InProgress, None);
    SoundStep(s, StartEvent(PLAN));
    StartResult(s);
  }

  lemma CandidateIsFair(s: State, role: Role, session: string, verdict: Verdict, reviewed: Option<string>)
    requires IsAt(s, ReviewPhase, InProgress, reviewed) && role in REVIEWERS && session != "" && session != "implementer"
    ensures CanReview(CONTEXT, s.run.value, SaysInput(role, session, verdict))
    ensures var r := SubmittedReview(CONTEXT, s, SaysInput(role, session, verdict));
      && IsIndependent(s.run.value, r) && IsCurrentReview(s.run.value, r) && r.reviewId == s.clock && r.changeDigest == "edited"
      && r.role == role && r.session == session && r.verdict == verdict
  {
    hide CurrentEvidence, IsRollbackEvidence, DeriveGateStates;
  }

  /** Approvals on record differ from a new one in role and session. */
  lemma ApprovalIsNew(reviews: seq<Review>, r: Review)
    requires r.verdict == Approved ==> IsNewApproval(Outline(reviews), r.role, r.session)
    ensures forall x :: x in reviews ==> AreIndependent(x, r)
  {
    forall x | x in reviews ensures AreIndependent(x, r) {
      var k :| 0 <= k < |reviews| && reviews[k] == x;
      assert Outline(reviews)[k] == Said(x.role, x.session, x.verdict);
    }
  }

  lemma RecordedBefore(s: State)
    requires IsSound(s)
    ensures forall x :: x in s.reviews ==> x.reviewId < s.clock
  {
    hide OwnRunIsSound, AreWellMade, WellFormed;
  }

  lemma CandidateMayJoin(s: State, role: Role, session: string, verdict: Verdict, reviewed: Option<string>)
    requires Stands(s, ReviewPhase, InProgress, reviewed) && role in REVIEWERS && session != "" && session != "implementer"
    requires verdict == Approved ==> IsNewApproval(Outline(s.reviews), role, session)
    ensures var i := SaysInput(role, session, verdict);
      CanReview(CONTEXT, s.run.value, i) && MayJoin(s, SubmittedReview(CONTEXT, s, i))
  {
    hide IsAt, IsSound, CanReview, SubmittedReview, IsIndependent, AreIndependent, IsOnRecord, IsNewApproval, PolicyCase;
    IsWhereItIs(s, ReviewPhase, InProgress, reviewed);
    CandidateIsFair(s, role, session, verdict, reviewed);
    var i := SaysInput(role, session, verdict);
    SubmittedRefersToRecord(CONTEXT, s, i);
    ApprovalIsNew(s.reviews, SubmittedReview(CONTEXT, s, i));
    RecordedBefore(s);
  }

  lemma ReviewIsRecorded(s: State, i: ReviewInput)
    requires IsActive(CONTEXT, s) && CanReview(CONTEXT, s.run.value, i)
    requires Allowed(PolicyCase(CONTEXT, s, SubmissionMode, Some(SubmittedReview(CONTEXT, s, i)), i.plan))
    ensures RecordReview(CONTEXT, s, i).0 == s.(run := Some(ReviewedRun(s.run.value, i.role, i.verdict)),
      reviews := s.reviews + [SubmittedReview(CONTEXT, s, i)], clock := s.clock + 1, stage := StageAfterReview(i.verdict))
  {
    hide Allowed, CanReview, SubmittedReview, PolicyCase;
  }

  function PhaseAfter(verdict: Verdict): Phase {
    if verdict == Approved then ReviewPhase else Implement
  }

  function StatusAfter(verdict: Verdict): Status {
    if verdict == Approved then InProgress else CorrectionStatus
  }

  function ReviewedAfter(verdict: Verdict): Option<string> {
    if verdict == Approved then Some("edited") else None
  }

  function CorrectionsOf(verdict: Verdict): nat {
    if verdict == Approved then 0 else 1
  }

  lemma ReviewResult(s: State, role: Role, session: string, verdict: Verdict, reviewed: Option<string>)
    requires IsAt(s, ReviewPhase, InProgress, reviewed) && role in REVIEWERS && session != "" && session != "implementer"
    requires verdict != VerdictBlocked && CanReview(CONTEXT, s.run.value, SaysInput(role, session, verdict))
    requires var i := SaysInput(role, session, verdict);
      Allowed(PolicyCase(CONTEXT, s, SubmissionMode, Some(SubmittedReview(CONTEXT, s, i)), PLAN))
    ensures var t := RecordReview(CONTEXT, s, SaysInput(role, session, verdict)).0;
      && IsAt(t, PhaseAfter(verdict), StatusAfter(verdict), ReviewedAfter(verdict))
      && Leads(s, t, [Said(role, session, verdict)], CorrectionsOf(verdict))
  {
    hide Allowed, PolicyCase, RecordReview, CanReview, SubmittedReview, IsRollbackEvidence;
    IsWhereItIs(s, ReviewPhase, InProgress, reviewed);
    CandidateIsFair(s, role, session, verdict, reviewed);
    var r := SubmittedReview(CONTEXT, s, SaysInput(role, session, verdict));
    ReviewIsRecorded(s, SaysInput(role, session, verdict));
    assert Outline(s.reviews + [r]) == Outline(s.reviews) + [Said(role, session, verdict)];
  }

  lemma ReviewStep(s: State, role: Role, session: string, verdict: Verdict, reviewed: Option<string>)
    requires Stands(s, ReviewPhase, InProgress, reviewed) && reviewed in {None, Some("edited")} && role in REVIEWERS
    requires session != "" && session != "implementer" && verdict != VerdictBlocked
    requires verdict == Approved ==> IsNewApproval(Outline(s.reviews), role, session)
    ensures Stands(Next(CONTEXT, s, Says(role, session, verdict)), PhaseAfter(verdict), StatusAfter(verdict), ReviewedAfter(verdict))
    ensures Leads(s, Next(CONTEXT, s, Says(role, session, verdict)), [Said(role, session, verdict)], CorrectionsOf(verdict))
  {
    hide Allowed, PolicyCase, IsSound, IsAt, RecordReview, Leads, SubmittedReview, CanReview, MayJoin, IsNewApproval;
    var i := SaysInput(role, session, verdict);
    IsWhereItIs(s, ReviewPhase, InProgress, reviewed);
    CandidateMayJoin(s, role, session, verdict, reviewed);
    CandidateIsFair(s, role, session, verdict, reviewed);
    CaseIsAllowed(s, SubmissionMode, Some(SubmittedReview(CONTEXT, s, i)), ReviewPhase, InProgress, reviewed);
    SoundStep(s, Says(role, session, verdict));
    ReviewResult(s, role, session, verdict, reviewed);
  }

  /** Verifying the same tree after a correction: the evidence still counts, and nothing is asked of the cache. */
  lemma ReverifyResult(s: State)
    requires IsAt(s, Implement, CorrectionStatus, None)
    ensures var t := VerifyStep(CONTEXT, s, NO_INDEX).0; IsAt(t, Verify, InProgress, None) && Leads(s, t, [], 0)
  {
    hide IsRollbackEvidence, DeriveGateStates, AppliedToAll;
    assert Outline(s.reviews) + [] == Outline(s.reviews);
    NothingViolates();
    var u := Verified(s);
    NothingIsReused(World(u.store, u.evidence, u.clock), u.run.value, AskerOf(u.run.value, NO_INDEX.bundle, NO_INDEX.env), GateStatesOf(CONTEXT, u));
  }

  lemma ReverifyStep(s: State)
    requires Stands(s, Implement, CorrectionStatus, None)
    ensures Stands(Next(CONTEXT, s, VerifyEvent(NO_INDEX)), Verify, InProgress, None)
    ensures Leads(s, Next(CONTEXT, s, VerifyEvent(NO_INDEX)), [], 0)
  {
    hide IsSound, IsAt, VerifyStep, Leads;
    IsWhereItIs(s, Implement, CorrectionStatus, None);
    SoundStep(s, VerifyEvent(NO_INDEX));
    ReverifyResult(s);
  }

  lemma LeadsTo(s: State, t: State, said: seq<Said>, corrections: nat)
    requires Leads(s, t, said, corrections)
    ensures s.run.Some? && t.run.Some? && Outline(t.reviews) == Outline(s.reviews) + said
    ensures t.run.value.attempt == s.run.value.attempt + corrections
  {
  }

  lemma LeadsOn(s: State, t: State, u: State, first: seq<Said>, second: seq<Said>, a: nat, b: nat)
    requires Leads(s, t, first, a) && Leads(t, u, second, b)
    ensures Leads(s, u, first + second, a + b)
  {
    assert Outline(s.reviews) + first + second == Outline(s.reviews) + (first + second);
  }

  lemma BackToReview(s: State)
    requires Stands(s, Implement, CorrectionStatus, None)
    ensures Stands(History(CONTEXT, s, BACK_TO_REVIEW), ReviewPhase, InProgress, None) && Leads(s, History(CONTEXT, s, BACK_TO_REVIEW), [], 0)
  {
    hide Next, IsAt, Leads;
    var t := Next(CONTEXT, s, VerifyEvent(NO_INDEX));
    ReverifyStep(s);
    StartStep(t);
    LastEvent(CONTEXT, s, BACK_TO_REVIEW, 0);
    LastEvent(CONTEXT, s, BACK_TO_REVIEW, 1);
    assert BACK_TO_REVIEW[..0] == [] && BACK_TO_REVIEW[..2] == BACK_TO_REVIEW;
    LeadsOn(s, t, History(CONTEXT, s, BACK_TO_REVIEW), [], [], 0, 0);
  }

  /** In what was said, the k-th is the first by the independent reviewer, and an approval. */
  predicate FirstReadApproves(said: seq<Said>, k: nat) {
    && k < |said| && said[k].role == IndependentReviewer && said[k].verdict == Approved
    && forall j :: 0 <= j < k ==> said[j].role != IndependentReviewer
  }

  lemma FirstReadIsFirst(reviews: seq<Review>, k: nat)
    requires FirstReadApproves(Outline(reviews), k) && forall r :: r in reviews ==> r.changeDigest == "edited"
    ensures IndependentReviewAt(reviews, Some("edited")) == Some(reviews[k]) && reviews[k].verdict == Approved
  {
    var first := reviews[k];
    assert Outline(reviews)[k] == Said(first.role, first.session, first.verdict) && first in reviews;
    var earlier := Filter(reviews[..k], AtDigest(Some("edited")));
    forall x | x in earlier ensures !ByRole(IndependentReviewer)(x) {
      var j :| 0 <= j < k && reviews[j] == x;
      assert Outline(reviews)[j] == Said(x.role, x.session, x.verdict);
    }
    FilterNone(earlier, ByRole(IndependentReviewer));
    FirstIndependentIs(reviews, k, Some("edited"));
  }

  lemma RecordedIsIndependent(s: State, r: Review)
    requires IsActive(CONTEXT, s) && IsSound(s) && r in s.reviews
    ensures IsIndependent(s.run.value, r)
  {
    hide AreWellMade, WellFormed, IsPast, IsCoherent, AreIndependent, IsIndependent;
  }

  lemma FinalChecksHold(s: State, reviewed: Option<string>, k: nat)
    requires Stands(s, ReviewPhase, InProgress, reviewed) && reviewed in {None, Some("edited")} && FirstReadApproves(Outline(s.reviews), k)
    requires forall role :: role in REVIEWERS ==> IsApprovedBy(s, role)
    ensures RunIsFinalizable(CONTEXT, s) && IndependentApproves(s) && RequiredRolesApprove(s) && AcceptanceIsEvidenced(CONTEXT, s)
  {
    hide IsSound, IndependentReviewAt, FirstReadApproves;
    FirstReadIsFirst(s.reviews, k);
    IsWhereItIs(s, ReviewPhase, InProgress, reviewed);
    assert k < |Outline(s.reviews)| by { assert FirstReadApproves(Outline(s.reviews), k); FirstReadIsThere(s.reviews, k); }
    assert s.reviews[k] in s.reviews && s.evidence[0] in s.evidence;
    RecordedIsIndependent(s, s.reviews[k]);
    assert IndependentApproves(s);
  }

  lemma FirstReadIsThere(reviews: seq<Review>, k: nat)
    requires FirstReadApproves(Outline(reviews), k)
    ensures k < |reviews|
  {
  }

  lemma MayBeFinalized(s: State, reviewed: Option<string>, k: nat)
    requires Stands(s, ReviewPhase, InProgress, reviewed) && reviewed in {None, Some("edited")} && FirstReadApproves(Outline(s.reviews), k)
    requires forall role :: role in REVIEWERS ==> IsApprovedBy(s, role)
    ensures CanFinalize(CONTEXT, s, PLAN)
  {
    hide Allowed, IsAt, IsSound, RunIsFinalizable, IndependentApproves, RequiredRolesApprove, AcceptanceIsEvidenced, GateStatesOf, PolicyCase,
      FirstReadApproves, IsApprovedBy;
    IsWhereItIs(s, ReviewPhase, InProgress, reviewed);
    GatePasses(s, ReviewPhase, InProgress, reviewed);
    CaseIsAllowed(s, FinalizeMode, None, ReviewPhase, InProgress, reviewed);
    FinalChecksHold(s, reviewed, k);
  }

  lemma FinalizeStep(s: State, reviewed: Option<string>, k: nat)
    requires Stands(s, ReviewPhase, InProgress, reviewed) && reviewed in {None, Some("edited")} && FirstReadApproves(Outline(s.reviews), k)
    requires forall role :: role in REVIEWERS ==> IsApprovedBy(s, role)
    ensures IsDone(Next(CONTEXT, s, FinalizeEvent(PLAN))) && Leads(s, Next(CONTEXT, s, FinalizeEvent(PLAN)), [], 0)
  {
    hide CanFinalize, IsSound, Next, FirstReadApproves, IsApprovedBy;
    MayBeFinalized(s, reviewed, k);
    IsWhereItIs(s, ReviewPhase, InProgress, reviewed);
    Finalizing(CONTEXT, s, PLAN);
  }

  /** Completed, with every review at the completed digest. */
  predicate IsDone(t: State) {
    && IsCompleted(CONTEXT, t) && t.run.value.currentDigest == Some("edited") && t.run.value.selectedGates == [RollbackValidation]
    && forall r :: r in t.reviews ==> r.changeDigest == "edited"
  }

  lemma Finalizing(c: Context, s: State, plan: Option<SelectionPlan>)
    requires WellFormed(s.store) && IsActive(c, s) && s.run.value.status != Completed && CanFinalize(c, s, plan)
    ensures var t := Next(c, s, FinalizeEvent(plan));
      IsCompleted(c, t) && t.reviews == s.reviews && t.run.value.attempt == s.run.value.attempt
      && t.run.value.currentDigest == s.run.value.currentDigest && t.run.value.selectedGates == s.run.value.selectedGates
  {
    hide CanFinalize, WellFormed;
  }

  lemma RecordedIsCurrent(s: State, r: Review)
    requires IsActive(CONTEXT, s) && IsSound(s) && r in s.reviews && Some(r.changeDigest) == s.run.value.currentDigest
    ensures IsOfRun(s.run, r)
  {
    hide AreWellMade, WellFormed, IsPast, IsCoherent, ReviewsAreIndependent, IsBound, AttemptCounts;
  }

  lemma SaidApproved(s: State, said: seq<Said>, i: nat)
    requires IsActive(CONTEXT, s) && IsSound(s) && Outline(s.reviews) == said && i < |said| && said[i].verdict == Approved
    requires forall r :: r in s.reviews ==> Some(r.changeDigest) == s.run.value.currentDigest
    ensures IsApprovedBy(s, said[i].role)
  {
    hide IsSound, IsOfRun;
    assert Outline(s.reviews)[i] == said[i] && s.reviews[i] in s.reviews;
    RecordedIsCurrent(s, s.reviews[i]);
  }

  lemma BothApproved(s: State, reviewed: Option<string>, said: seq<Said>, i: nat, j: nat)
    requires Stands(s, ReviewPhase, InProgress, reviewed) && Outline(s.reviews) == said && i < |said| && j < |said|
    requires said[i].verdict == said[j].verdict == Approved && said[i].role == IndependentReviewer && said[j].role == ReliabilityReviewer
    ensures forall role :: role in REVIEWERS ==> IsApprovedBy(s, role)
  {
    hide IsSound, IsApprovedBy;
    IsWhereItIs(s, ReviewPhase, InProgress, reviewed);
    hide IsActive;
    SaidApproved(s, said, i);
    SaidApproved(s, said, j);
  }

  /** The beginning of both histories. */

  const RUN_ID := NewRunId(WORK_ORDER, 0)

  const DISPATCHED := Run(RUN_ID, "p", "wo", 1, Implement, Ready, 1, ImplementationAgent, Some("implementer"),
    REVIEWERS, [RollbackValidation], None, None, [], [], [])

  const FIRST_VERIFIED := DISPATCHED.(phase := Verify, status := InProgress, currentDigest := Some("edited"), changedFiles := ["src/a.ts"])

  const EDITED_STATE := START.(run := Some(DISPATCHED), tree := EDITED, clock := 1, stage := ImplementStage)

  lemma LastEvent(c: Context, s: State, events: seq<Event>, k: nat)
    requires WellFormed(s.store) && k < |events|
    ensures History(c, s, events[..k + 1]) == Next(c, History(c, s, events[..k]), events[k])
  {
    assert events[..k + 1][..k] == events[..k];
  }

  lemma FirstEvent(c: Context, s: State, events: seq<Event>)
    requires WellFormed(s.store) && events != []
    ensures History(c, s, events[..1]) == Next(c, s, events[0])
  {
    hide Next;
    LastEvent(c, s, events, 0);
  }

  lemma FirstDispatched()
    ensures Dispatch(CONTEXT, START, ORDER).0 == START.(run := Some(DISPATCHED), clock := 1, stage := ImplementStage)
  {
    hide RequiredOf;
    RolesOfWorkOrder();
    assert ResolveImplementerSession(WORK_ORDER, None, "implementer") == Some(Some("implementer"));
    assert DispatchedRun(CONTEXT, START, Some("implementer")) == DISPATCHED;
  }

  lemma FirstEdited()
    ensures History(CONTEXT, START, TO_EVIDENCE[..2]) == EDITED_STATE
  {
    FirstDispatched();
    hide Dispatch;
    LastEvent(CONTEXT, START, TO_EVIDENCE, 0);
    LastEvent(CONTEXT, START, TO_EVIDENCE, 1);
    assert TO_EVIDENCE[..0] == [];
  }

  lemma FirstVerified() returns (s: State)
    ensures s == History(CONTEXT, START, TO_EVIDENCE[..3])
    ensures s.run == Some(FIRST_VERIFIED) && s.evidence == [] && s.reviews == [] && s.tree == EDITED
  {
    FirstEdited();
    hide History;
    s := Next(CONTEXT, EDITED_STATE, VerifyEvent(NO_INDEX));
    assert s == History(CONTEXT, START, TO_EVIDENCE[..3]) by { LastEvent(CONTEXT, START, TO_EVIDENCE, 2); }
    NothingViolates();
    assert PathsOf(EDITED) == ["src/a.ts"];
    var u := Verified(EDITED_STATE);
    var a := AskerOf(u.run.value, NO_INDEX.bundle, NO_INDEX.env);
    NothingIsReused(World(u.store, u.evidence, u.clock), u.run.value, a, GateStatesOf(CONTEXT, u));
    hide AppliedToAll;
  }

  lemma RollbackIsAccepted(s: State)
    requires s.run == Some(FIRST_VERIFIED) && s.evidence == []
    ensures IsAcceptable(FIRST_VERIFIED, ROLLED_BACK) && IsRollbackEvidence(RUN_ID, RecordedEvidence(FIRST_VERIFIED, ROLLED_BACK, s.clock))
    ensures WithEvidence(s, ROLLED_BACK)
      == s.(evidence := [RecordedEvidence(FIRST_VERIFIED, ROLLED_BACK, s.clock)], clock := s.clock + 2)
  {
  }

  lemma NothingFails(states: seq<GateState>)
    requires forall g :: g in states ==> g.status == GatePass
    ensures RefreshBlockers([], states) == []
  {
    FilterNone(states, (g: GateState) => g.status in {GateFail, GateBlocked});
  }

  lemma RollbackIsAt(s: State)
    requires WellFormed(s.store) && s.run == Some(FIRST_VERIFIED) && s.evidence == [] && s.reviews == [] && s.tree == EDITED
    ensures IsAcceptable(s.run.value, ROLLED_BACK) && IsAt(WithEvidence(s, ROLLED_BACK), Verify, InProgress, None)
    ensures WithEvidence(s, ROLLED_BACK).run == s.run && WithEvidence(s, ROLLED_BACK).reviews == []
  {
    RollbackIsAccepted(s);
    hide IsAcceptable, WithEvidence, RecordedEvidence, IsRollbackEvidence;
  }

  lemma RollbackResult(s: State)
    requires WellFormed(s.store) && s.run == Some(FIRST_VERIFIED) && s.evidence == [] && s.reviews == [] && s.tree == EDITED
    ensures RecordEvidence(CONTEXT, s, ROLLED_BACK).0 == WithEvidence(s, ROLLED_BACK)
  {
    hide DeriveGateStates, IsAcceptable, WithEvidence, RefreshBlockers, IsRollbackEvidence, RecordedEvidence;
    RollbackIsAt(s);
    var t := WithEvidence(s, ROLLED_BACK);
    GatePasses(t, Verify, InProgress, None);
    NothingFails(GateStatesOf(CONTEXT, t));
  }

  /** Recording the rollback output in the verified run. */
  lemma EvidenceStep(s: State)
    requires WellFormed(s.store) && IsSound(s) && s.run == Some(FIRST_VERIFIED) && s.evidence == [] && s.reviews == [] && s.tree == EDITED
    ensures Stands(Next(CONTEXT, s, EvidenceEvent(ROLLED_BACK)), Verify, InProgress, None) && Leads(s, Next(CONTEXT, s, EvidenceEvent(ROLLED_BACK)), [], 0)
  {
    hide IsAcceptable, WithEvidence, IsSound, IsAt, RecordEvidence;
    SoundStep(s, EvidenceEvent(ROLLED_BACK));
    RollbackIsAt(s);
    RollbackResult(s);
  }

  lemma StartIsInitial()
    ensures IsInitial(CONTEXT, START)
  {
  }

  lemma ReachVerified() returns (s: State)
    ensures s == History(CONTEXT, START, TO_EVIDENCE[..3]) && IsSound(s)
    ensures WellFormed(s.store) && s.run == Some(FIRST_VERIFIED) && s.evidence == [] && s.reviews == [] && s.tree == EDITED
  {
    hide History, Invariant, AreWellMade, IsInitial;
    StartIsInitial();
    s := FirstVerified();
    HistoryIsSound(CONTEXT, START, TO_EVIDENCE[..3]);
    HistoryIsWellMade(CONTEXT, START, TO_EVIDENCE[..3]);
  }

  /** In review, with nothing said yet. */
  ghost predicate IsUnread(s: State) {
    Stands(s, ReviewPhase, InProgress, None) && s.reviews == [] && s.run.value.attempt == 1
  }

  lemma ReachReview()
    ensures IsUnread(History(CONTEXT, START, TO_REVIEW))
  {
    hide History, Next, IsAt, IsSound;
    var verified := ReachVerified();
    EvidenceStep(verified);
    LastEvent(CONTEXT, START, TO_EVIDENCE, 3);
    assert TO_EVIDENCE[..4] == TO_EVIDENCE == TO_REVIEW[..4] && TO_REVIEW[..5] == TO_REVIEW;
    StartStep(History(CONTEXT, START, TO_EVIDENCE));
    LastEvent(CONTEXT, START, TO_REVIEW, 4);
  }

  const BOTH := [Said(IndependentReviewer, "reader", Approved), Said(ReliabilityReviewer, "operator", Approved)]

  lemma AfterApprovals(s: State)
    requires IsUnread(s)
    ensures IsDone(History(CONTEXT, s, APPROVED))
  {
    hide Next, IsAt, IsSound, IsDone, History, Leads;
    ReviewStep(s, IndependentReviewer, "reader", Approved, None);
    var read := Next(CONTEXT, s, APPROVED[0]);
    assert Outline(s.reviews) == [];
    assert Outline(read.reviews) == BOTH[..1] by { assert BOTH[..1] == [BOTH[0]]; LeadsTo(s, read, BOTH[..1], 0); }
    ReviewStep(read, ReliabilityReviewer, "operator", Approved, Some("edited"));
    var both := Next(CONTEXT, read, APPROVED[1]);
    assert Outline(both.reviews) == BOTH by { assert BOTH[1..] == [BOTH[1]]; LeadsTo(read, both, BOTH[1..], 0); }
    BothApproved(both, Some("edited"), BOTH, 0, 1);
    FinalizeStep(both, Some("edited"), 0);
    FirstEvent(CONTEXT, s, APPROVED);
    LastEvent(CONTEXT, s, APPROVED, 1);
    LastEvent(CONTEXT, s, APPROVED, 2);
    assert APPROVED[..3] == APPROVED;
  }

  /** A history from the first dispatch reaches completion. */
  lemma CompletionIsReachable()
    ensures IsInitial(CONTEXT, START)
    ensures IsCompleted(CONTEXT, History(CONTEXT, START, TO_REVIEW + APPROVED))
  {
    hide History, IsUnread;
    StartIsInitial();
    ReachReview();
    HistoryConcat(CONTEXT, START, TO_REVIEW, APPROVED);
    AfterApprovals(History(CONTEXT, START, TO_REVIEW));
  }

  /** What the second history leaves in the ledger. */
  const SAID := [
    Said(ReliabilityReviewer, "operator", CorrectionNeeded), Said(IndependentReviewer, "reader", Approved),
    Said(IndependentReviewer, "second reader", CorrectionNeeded), Said(ReliabilityReviewer, "operator", Approved)]

  /** The reliability reviewer's first review asks for a correction, then the independent reviewer approves. */
  lemma AfterFirstObjection(s: State)
    requires Stands(s, ReviewPhase, InProgress, None) && s.reviews == []
    ensures Stands(History(CONTEXT, s, OBJECTED[..4]), ReviewPhase, InProgress, Some("edited"))
    ensures Leads(s, History(CONTEXT, s, OBJECTED[..4]), SAID[..2], 1)
  {
    hide Next, IsAt, IsSound, Leads, History;
    assert SAID[..1] == [SAID[0]] && SAID[1..2] == [SAID[1]];
    var corrected := Next(CONTEXT, s, OBJECTED[0]);
    ReviewStep(s, ReliabilityReviewer, "operator", CorrectionNeeded, None);
    LeadsTo(s, corrected, SAID[..1], 1);
    var back := History(CONTEXT, corrected, BACK_TO_REVIEW);
    BackToReview(corrected);
    LeadsTo(corrected, back, [], 0);
    ReviewStep(back, IndependentReviewer, "reader", Approved, None);
    FirstEvent(CONTEXT, s, OBJECTED);
    LastEvent(CONTEXT, s, OBJECTED, 3);
    assert OBJECTED[..3] == OBJECTED[..1] + BACK_TO_REVIEW;
    HistoryConcat(CONTEXT, s, OBJECTED[..1], BACK_TO_REVIEW);
    LeadsOn(s, corrected, back, SAID[..1], [], 1, 0);
    LeadsOn(s, back, History(CONTEXT, s, OBJECTED[..4]), SAID[..1], SAID[1..2], 1, 0);
    assert SAID[..1] + [] == SAID[..1] && SAID[..1] + SAID[1..2] == SAID[..2];
  }

  /** The independent reviewer then asks for a correction, the reliability reviewer approves, and the run completes. */
  lemma AfterSecondObjection(s: State)
    requires Stands(s, ReviewPhase, InProgress, Some("edited")) && Outline(s.reviews) == SAID[..2]
    ensures IsDone(History(CONTEXT, s, OBJECTED[4..])) && Leads(s, History(CONTEXT, s, OBJECTED[4..]), SAID[2..], 1)
  {
    hide Next, IsAt, IsSound, Leads, History, IsDone;
    assert SAID[2..3] == [SAID[2]] && SAID[3..] == [SAID[3]];
    var events := OBJECTED[4..];
    var corrected := Next(CONTEXT, s, events[0]);
    ReviewStep(s, IndependentReviewer, "second reader", CorrectionNeeded, Some("edited"));
    LeadsTo(s, corrected, SAID[2..3], 1);
    var back := History(CONTEXT, corrected, BACK_TO_REVIEW);
    BackToReview(corrected);
    LeadsTo(corrected, back, [], 0);
    var both := Next(CONTEXT, back, events[3]);
    ReviewStep(back, ReliabilityReviewer, "operator", Approved, None);
    LeadsTo(back, both, SAID[3..], 0);
    assert Outline(both.reviews) == SAID;
    BothApproved(both, Some("edited"), SAID, 1, 3);
    FinalizeStep(both, Some("edited"), 1);
    var done := Next(CONTEXT, both, events[4]);
    LeadsTo(both, done, [], 0);
    FirstEvent(CONTEXT, s, events);
    LastEvent(CONTEXT, s, events, 3);
    LastEvent(CONTEXT, s, events, 4);
    assert events[..3] == events[..1] + BACK_TO_REVIEW && events[..5] == events;
    HistoryConcat(CONTEXT, s, events[..1], BACK_TO_REVIEW);
    assert Leads(s, done, SAID[2..], 1) by { LeadsFrom(s, done, SAID[2..], 1); }
  }

  lemma LeadsFrom(s: State, t: State, said: seq<Said>, corrections: nat)
    requires s.run.Some? && t.run.Some? && Outline(t.reviews) == Outline(s.reviews) + said
    requires t.run.value.attempt == s.run.value.attempt + corrections
    ensures Leads(s, t, said, corrections)
  {
  }

  /** An objection to the digest the run is at, which decides nothing. */
  predicate IsIdleObjection(t: State, i: nat) {
    IsObjection(t, i) && !Decides(t.run.value.selectedGates, t.reviews[..i], t.reviews[i])
  }

  /** A history that completes although the reliability reviewer, at first, and the independent reviewer, having approved,
      each asked for a correction of the same digest. */
  lemma LaterObjectionDoesNotPreventCompletion()
    ensures var t := History(CONTEXT, START, TO_REVIEW + OBJECTED);
      && IsCompleted(CONTEXT, t) && t.run.value.attempt == 3 && Outline(t.reviews) == SAID
      && IsIdleObjection(t, 0) && IsIdleObjection(t, 2)
  {
    hide History, IsAt, IsSound, IsIdleObjection;
    ReachReview();
    var s := History(CONTEXT, START, TO_REVIEW);
    HistoryConcat(CONTEXT, START, TO_REVIEW, OBJECTED);
    var half := History(CONTEXT, s, OBJECTED[..4]);
    AfterFirstObjection(s);
    AfterSecondObjection(half);
    HistoryConcat(CONTEXT, s, OBJECTED[..4], OBJECTED[4..]);
    assert OBJECTED == OBJECTED[..4] + OBJECTED[4..];
    var t := History(CONTEXT, START, TO_REVIEW + OBJECTED);
    assert Outline(t.reviews) == SAID[..2] + SAID[2..] == SAID;
    ObjectionsAreIdle(t);
  }

  lemma SaidAt(t: State, i: nat)
    requires Outline(t.reviews) == SAID && i < 4
    ensures |t.reviews| == 4 && t.reviews[i] in t.reviews && t.reviews[i].role == SAID[i].role && t.reviews[i].verdict == SAID[i].verdict
  {
    assert Outline(t.reviews)[i] == SAID[i];
  }

  lemma ObjectionsAreIdle(t: State)
    requires IsDone(t) && Outline(t.reviews) == SAID
    ensures IsIdleObjection(t, 0) && IsIdleObjection(t, 2)
  {
    SaidAt(t, 0);
    SaidAt(t, 1);
    SaidAt(t, 2);
    hide Outline;
    var earlier := t.reviews[..2];
    assert t.reviews[1] in earlier by { assert earlier[1] == t.reviews[1]; }
    assert t.reviews[1] in Filter(Filter(earlier, AtDigest(Some("edited"))), ByRole(IndependentReviewer));
  }

  lemma NothingViolates()
    ensures ViolationsOf(EDITED) == []
  {
    FilterNone(EDITED.files, (f: ChangedFile) => IsViolation(f));
  }

  /** Without an index the cache refuses, so the ledger is left as it was. */
  lemma NothingIsReused(w: World, run: Run, a: Asker, states: seq<GateState>)
    requires WellFormed(w.store) && a.bundle.None?
    ensures AppliedToAll(w, run, a, states, [RollbackValidation]).evidence == w.evidence
  {
    assert [RollbackValidation][..0] == [];
    assert AppliedToAll(w, run, a, states, [RollbackValidation]) == AppliedTo(w, run, a, states, RollbackValidation);
  }
}
