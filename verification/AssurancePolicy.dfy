/** The assurance policy: an accumulating loop and the declarative predicate it refines. */
module AssurancePolicy {
  import opened Basics
  import opened Gates
  import opened Records
  import opened TypedSelection

  datatype Blocker =
    | CurrentDigestRequired | ImplementerSessionRequired | ScopeViolation | ReviewedDigestMismatch
    | RequiredRoleBindingMismatch | SelectedGateBindingMismatch | SpecialistSelectionInvalid
    | NonReviewGateNotPass(gate: Gate, status: GateStatus) | CurrentFailBlockedEvidence(gate: Gate)
    | DuplicateReviewId(id: Tick) | DuplicateReviewSession(session: string)
    | UnknownReviewerRole(role: Role) | ReviewerRoleNotRequired(asked: Option<Role>)
    | StaleReviewDigest(role: Role) | ReviewSessionMissing(role: Role)
    | ImplementerRoleReview(role: Role) | ReviewIdentityMismatch(role: Role)
    | ReviewImplementerSessionMismatch(role: Role) | ImplementerSessionReview(role: Role)
    | EvidenceReferenceMismatch(role: Role) | EvidenceIdentityMismatch(role: Role)
    | ApprovalContradictsHigh(role: Role) | ApprovalContradictsCritical(role: Role)
    | NegativeVerdictReasonRequired(role: Role) | DuplicateReviewApproval(role: Role)
    | RoleGateMismatch(role: Role) | ReliabilityObligationUnsatisfied(role: Role)
    | PerformanceEvidenceMissing(role: Role) | TypedObligationUnsatisfied(role: Role)
    | MissingRequiredReviewer(role: Role) | ReviewNotApproved(role: Role)

  predicate IsRecognized(role: Role) {
    role in {IndependentReviewer, SecurityReviewer, PerformanceReviewer, ReliabilityReviewer}
  }

  function RoleGates(role: Role): seq<Gate> {
    match role
    case SecurityReviewer => [SecurityReview]
    case PerformanceReviewer => [PerformanceCheck]
    case ReliabilityReviewer => [DatabaseMigration, RollbackValidation]
    case _ => []
  }

  function NamedRoles(roles: seq<Role>): set<Role> {
    set r | r in roles && r != OtherRole("")
  }

  function NamedGates(gates: seq<Gate>): set<Gate> {
    set g | g in gates && g != OtherGate("")
  }

  /** Identity filters. */

  function MatchingReviews(projectId: string, workOrder: WorkOrder, run: Run): Review -> bool {
    (r: Review) =>
      && r.projectId == projectId == workOrder.projectId
      && r.workOrderId == workOrder.workOrderId && r.runId == run.runId
      && Some(r.changeDigest) == run.currentDigest
  }

  function MatchingEvidence(projectId: string, workOrder: WorkOrder, run: Run): Evidence -> bool {
    (e: Evidence) =>
      && e.projectId == projectId == workOrder.projectId
      && e.workOrderId == workOrder.workOrderId && e.runId == run.runId
      && Some(e.changeDigest) == run.currentDigest
  }

  predicate ReviewMatches(inp: PolicyInput, r: Review) {
    MatchingReviews(inp.projectId, inp.workOrder, inp.run)(r)
  }

  function Submitted(inp: PolicyInput): seq<Review> {
    inp.reviews + if inp.candidate.Some? then [inp.candidate.value] else []
  }

  function CurrentReviews(inp: PolicyInput): seq<Review> {
    Filter(Submitted(inp), MatchingReviews(inp.projectId, inp.workOrder, inp.run))
  }

  function CurrentEvidence(inp: PolicyInput): seq<Evidence> {
    Filter(inp.evidence, MatchingEvidence(inp.projectId, inp.workOrder, inp.run))
  }

  /** Obligations and evidence a role answers for. */

  function OfRole(role: Role): Obligation -> bool {
    (o: Obligation) =>
      o.specialist == Some(role) || (o.kind == GateObligation && o.gate.Some? && o.gate.value in RoleGates(role))
  }

  function RoleObligations(inp: PolicyInput, role: Role): seq<Obligation> {
    if inp.plan.None? then [] else Filter(inp.plan.value.content.required, OfRole(role))
  }

  function GateTheRoleNeeds(role: Role): Option<Gate> {
    match role
    case SecurityReviewer => Some(SecurityReview)
    case PerformanceReviewer => Some(PerformanceCheck)
    case ReliabilityReviewer => Some(RollbackValidation)
    case _ => None
  }

  predicate IsDischarged(inp: PolicyInput, role: Role, o: Obligation)
    requires inp.plan.Some?
  {
    var matches := Filter(inp.plan.value.content.covered, Covering(o.id));
    && matches != []
    && matches[0].specialist == role && matches[0].gate == o.gate && matches[0].evidence == o.evidence
    && ((o.kind != GateObligation && o.kind != EvidenceObligation)
        || (o.gate.Some? && ContractOf(o.gate.value) == Some(ReviewContract(role)))
        || exists e :: e in CurrentEvidence(inp) && e.status == EvidencePass && Some(e.gate) == o.gate)
  }

  predicate HasRelevantEvidence(inp: PolicyInput, role: Role) {
    if role == IndependentReviewer then
      exists o :: o in RoleObligations(inp, role) && o.kind == AssuranceObligation && o.specialist == Some(role)
    else
      && inp.plan.Some? && RoleObligations(inp, role) != []
      && (GateTheRoleNeeds(role).Some? ==> GateTheRoleNeeds(role).value in inp.run.selectedGates)
      && forall o :: o in RoleObligations(inp, role) ==> IsDischarged(inp, role, o)
  }

  /** The last snapshot wins, as in a map built from the list. */
  function LookupStatus(states: seq<GateState>, gate: Gate): Option<GateStatus> {
    if states == [] then None
    else if states[|states| - 1].gate == gate then Some(states[|states| - 1].status)
    else LookupStatus(states[..|states| - 1], gate)
  }

  /** An approval proves its own review gate; a role's other selected gates must already pass. */
  predicate RoleGateIsSufficient(inp: PolicyInput, role: Role) {
    forall g :: g in RoleGates(role) && g in inp.run.selectedGates ==>
      (role in {SecurityReviewer, PerformanceReviewer} && ContractOf(g) == Some(ReviewContract(role)))
      || LookupStatus(inp.gateStates, g) == Some(GatePass)
  }

  function RefOf(run: Run, e: Evidence): EvidenceRef {
    EvidenceRef(run.runId, e.evidenceId)
  }

  predicate ReferencesAreCurrent(inp: PolicyInput, r: Review) {
    forall ref :: ref in r.evidenceRefs ==> exists e :: e in CurrentEvidence(inp) && RefOf(inp.run, e) == ref
  }

  predicate ReferencesAreOwn(inp: PolicyInput, r: Review) {
    forall ref :: ref in r.evidenceRefs ==> ref.runId == inp.run.runId
  }

  function RequiredRoles(inp: PolicyInput): set<Role> {
    NamedRoles(inp.run.requiredReviewers)
  }

  function ApprovedBy(role: Role): Review -> bool {
    (r: Review) => r.verdict == Approved && r.role == role && IsRecognized(role)
  }

  function WithReviewId(id: Tick): Review -> bool {
    (r: Review) => r.reviewId == id
  }

  predicate CandidateIsValid(inp: PolicyInput) {
    && inp.candidate.Some? && IsRecognized(inp.candidate.value.role)
    && inp.candidate.value.role in RequiredRoles(inp)
    && Some(inp.candidate.value.changeDigest) == inp.run.currentDigest
  }

  /** What the policy reports, declaratively: about the run and its gates, about one review,
      about several reviews, and about roles left without an approval. */

  predicate AboutRunState(inp: PolicyInput, b: Blocker) {
    match b
    case CurrentDigestRequired => !Present(inp.run.currentDigest)
    case ImplementerSessionRequired => !Present(inp.run.implementerSession)
    case ScopeViolation => inp.run.scopeViolations != []
    case ReviewedDigestMismatch => Present(inp.run.reviewedDigest) && inp.run.reviewedDigest != inp.run.currentDigest
    case _ => false
  }

  predicate RolesAreBound(inp: PolicyInput) {
    && RequiredRoles(inp) == NamedRoles(inp.workOrder.assuranceReviewers)
    && forall r :: r in RequiredRoles(inp) ==> IsRecognized(r)
  }

  predicate GatesAreBound(inp: PolicyInput) {
    && NamedGates(inp.run.selectedGates) == NamedGates(inp.workOrder.qualityGates)
    && forall g :: g in inp.run.selectedGates ==> IsKnownGate(g)
  }

  predicate AboutBindings(inp: PolicyInput, b: Blocker) {
    match b
    case RequiredRoleBindingMismatch => !RolesAreBound(inp)
    case SelectedGateBindingMismatch => !GatesAreBound(inp)
    case SpecialistSelectionInvalid => !PlanIsValid(inp)
    case _ => false
  }

  predicate FailsGate(s: GateState, gate: Gate, status: GateStatus) {
    s.gate == gate && s.status == status && !IsReviewGate(gate) && status != GatePass
  }

  predicate AboutGates(inp: PolicyInput, b: Blocker) {
    b.NonReviewGateNotPass? && exists s :: s in inp.gateStates && FailsGate(s, b.gate, b.status)
  }

  predicate Contradicts(inp: PolicyInput, e: Evidence, gate: Gate) {
    e.gate == gate && gate in inp.run.selectedGates && e.status != EvidencePass && !IsReviewGate(gate)
  }

  predicate AboutEvidence(inp: PolicyInput, b: Blocker) {
    b.CurrentFailBlockedEvidence? && exists e :: e in CurrentEvidence(inp) && Contradicts(inp, e, b.gate)
  }

  predicate AboutRun(inp: PolicyInput, b: Blocker) {
    AboutRunState(inp, b) || AboutBindings(inp, b) || AboutGates(inp, b) || AboutEvidence(inp, b)
  }

  /** Who reviewed, for whom. */
  predicate AboutReviewer(inp: PolicyInput, r: Review, b: Blocker) {
    match b
    case ReviewerRoleNotRequired(Some(role)) => role == r.role && role !in RequiredRoles(inp)
    case ReviewSessionMissing(role) => role == r.role && r.session == ""
    case ImplementerRoleReview(role) => role == r.role && role == inp.run.implementerRole
    case ReviewIdentityMismatch(role) => role == r.role && r.implementerRole != inp.run.implementerRole
    case ReviewImplementerSessionMismatch(role) =>
      role == r.role && (!Present(inp.run.implementerSession) || Some(r.implementerSession) != inp.run.implementerSession)
    case ImplementerSessionReview(role) => role == r.role && Some(r.session) == inp.run.implementerSession
    case _ => false
  }

  /** What the review says and refers to. */
  predicate AboutContent(inp: PolicyInput, r: Review, b: Blocker) {
    match b
    case EvidenceReferenceMismatch(role) => role == r.role && !ReferencesAreCurrent(inp, r)
    case EvidenceIdentityMismatch(role) => role == r.role && !ReferencesAreOwn(inp, r)
    case ApprovalContradictsHigh(role) => role == r.role && r.verdict == Approved && High in r.findings
    case ApprovalContradictsCritical(role) => role == r.role && r.verdict == Approved && Critical in r.findings
    case NegativeVerdictReasonRequired(role) =>
      role == r.role && r.verdict != Approved && r.findings == [] && r.reasonCodes == []
    case _ => false
  }

  /** What an approval needs before it may be submitted or relied on. */
  predicate AboutApproval(inp: PolicyInput, r: Review, b: Blocker) {
    r.verdict == Approved && inp.mode != StatusMode &&
    match b
    case RoleGateMismatch(role) => role == r.role && role != ReliabilityReviewer && !RoleGateIsSufficient(inp, role)
    case ReliabilityObligationUnsatisfied(role) => role == r.role && role == ReliabilityReviewer && !RoleGateIsSufficient(inp, role)
    case PerformanceEvidenceMissing(role) => role == r.role && role == PerformanceReviewer && !HasRelevantEvidence(inp, role)
    case TypedObligationUnsatisfied(role) => role == r.role && role != PerformanceReviewer && !HasRelevantEvidence(inp, role)
    case _ => false
  }

  predicate AboutReview(inp: PolicyInput, r: Review, b: Blocker) {
    if IsRecognized(r.role) then AboutReviewer(inp, r, b) || AboutContent(inp, r, b) || AboutApproval(inp, r, b)
    else b == UnknownReviewerRole(r.role)
  }

  predicate ShareSession(x: Review, y: Review, session: string) {
    && x.verdict == Approved && y.verdict == Approved && IsRecognized(x.role) && IsRecognized(y.role)
    && x.session == session && y.session == session && x.role != y.role
  }

  predicate AboutReviews(rs: seq<Review>, b: Blocker) {
    match b
    case DuplicateReviewId(id) => |Filter(rs, WithReviewId(id))| >= 2
    case DuplicateReviewApproval(role) => |Filter(rs, ApprovedBy(role))| >= 2
    case DuplicateReviewSession(session) => exists x, y :: x in rs && y in rs && ShareSession(x, y, session)
    case _ => false
  }

  predicate AboutRoles(inp: PolicyInput, b: Blocker) {
    match b
    case MissingRequiredReviewer(role) =>
      inp.mode == FinalizeMode && role in RequiredRoles(inp) && Filter(CurrentReviews(inp), ApprovedBy(role)) == []
    case ReviewerRoleNotRequired(None) => inp.mode == SubmissionMode && !CandidateIsValid(inp)
    case _ => false
  }

  predicate AboutSomeReview(inp: PolicyInput, rs: seq<Review>, b: Blocker) {
    exists r :: r in rs && AboutReview(inp, r, b)
  }

  predicate Reported(inp: PolicyInput, b: Blocker) {
    || AboutRun(inp, b)
    || AboutSomeReview(inp, CurrentReviews(inp), b)
    || AboutReviews(CurrentReviews(inp), b)
    || AboutRoles(inp, b)
  }

  ghost predicate Allowed(inp: PolicyInput) {
    forall b :: !Reported(inp, b)
  }

  /** The accumulating evaluation. */

  function Push(bs: seq<Blocker>, condition: bool, b: Blocker): (r: seq<Blocker>)
    ensures forall x :: x in r <==> x in bs || (condition && x == b)
  {
    if condition then bs + [b] else bs
  }

  method CheckRunState(inp: PolicyInput) returns (bs: seq<Blocker>)
    ensures forall b :: b in bs <==> AboutRunState(inp, b)
  {
    bs := Push([], !Present(inp.run.currentDigest), CurrentDigestRequired);
    bs := Push(bs, !Present(inp.run.implementerSession), ImplementerSessionRequired);
    bs := Push(bs, inp.run.scopeViolations != [], ScopeViolation);
    bs := Push(bs, Present(inp.run.reviewedDigest) && inp.run.reviewedDigest != inp.run.currentDigest, ReviewedDigestMismatch);
  }

  method CheckBindings(inp: PolicyInput) returns (bs: seq<Blocker>)
    ensures forall b :: b in bs <==> AboutBindings(inp, b)
  {
    var planIsValid := TypedSelectionPlanIsValid(inp);
    bs := Push([], !RolesAreBound(inp), RequiredRoleBindingMismatch);
    bs := Push(bs, !GatesAreBound(inp), SelectedGateBindingMismatch);
    bs := Push(bs, !planIsValid, SpecialistSelectionInvalid);
  }

  method CheckGates(inp: PolicyInput) returns (bs: seq<Blocker>)
    ensures forall b :: b in bs <==> AboutGates(inp, b)
  {
    bs := [];
    for i := 0 to |inp.gateStates|
      invariant forall b :: b in bs ==> AboutGates(inp, b)
      invariant forall b: Blocker, k :: 0 <= k < i && b.NonReviewGateNotPass? && FailsGate(inp.gateStates[k], b.gate, b.status) ==> b in bs
    {
      var s := inp.gateStates[i];
      assert s in inp.gateStates;
      assert !IsReviewGate(s.gate) && s.status != GatePass ==> FailsGate(s, s.gate, s.status);
      bs := Push(bs, !IsReviewGate(s.gate) && s.status != GatePass, NonReviewGateNotPass(s.gate, s.status));
    }
  }

  method CheckEvidence(inp: PolicyInput) returns (bs: seq<Blocker>)
    ensures forall b :: b in bs <==> AboutEvidence(inp, b)
  {
    bs := [];
    var current := CurrentEvidence(inp);
    for i := 0 to |current|
      invariant forall b :: b in bs ==> AboutEvidence(inp, b)
      invariant forall b: Blocker, k :: 0 <= k < i && b.CurrentFailBlockedEvidence? && Contradicts(inp, current[k], b.gate) ==> b in bs
    {
      var e := current[i];
      assert e in current;
      bs := Push(bs, e.gate in inp.run.selectedGates && e.status != EvidencePass && !IsReviewGate(e.gate), CurrentFailBlockedEvidence(e.gate));
    }
  }

  method CheckRun(inp: PolicyInput) returns (bs: seq<Blocker>)
    ensures forall b :: b in bs <==> AboutRun(inp, b)
  {
    var state := CheckRunState(inp);
    var bindings := CheckBindings(inp);
    var gates := CheckGates(inp);
    var evidence := CheckEvidence(inp);
    bs := state + bindings + gates + evidence;
  }

  predicate IsAboutSession(b: Blocker) {
    b.ReviewSessionMissing? || b.ReviewImplementerSessionMismatch? || b.ImplementerSessionReview?
  }

  method CheckSessions(inp: PolicyInput, r: Review) returns (bs: seq<Blocker>)
    ensures forall b :: b in bs <==> AboutReviewer(inp, r, b) && IsAboutSession(b)
  {
    hide RequiredRoles, Present;
    bs := Push([], r.session == "", ReviewSessionMissing(r.role));
    bs := Push(bs, !Present(inp.run.implementerSession) || Some(r.implementerSession) != inp.run.implementerSession,
      ReviewImplementerSessionMismatch(r.role));
    bs := Push(bs, Some(r.session) == inp.run.implementerSession, ImplementerSessionReview(r.role));
  }

  method CheckReviewer(inp: PolicyInput, r: Review) returns (bs: seq<Blocker>)
    ensures forall b :: b in bs <==> AboutReviewer(inp, r, b)
  {
    hide RequiredRoles, Present;
    bs := Push([], r.role !in RequiredRoles(inp), ReviewerRoleNotRequired(Some(r.role)));
    bs := Push(bs, r.role == inp.run.implementerRole, ImplementerRoleReview(r.role));
    bs := Push(bs, r.implementerRole != inp.run.implementerRole, ReviewIdentityMismatch(r.role));
    assert forall b :: b in bs <==> AboutReviewer(inp, r, b) && !IsAboutSession(b);
    var sessions := CheckSessions(inp, r);
    hide AboutReviewer, IsAboutSession;
    bs := bs + sessions;
  }

  method CheckContent(inp: PolicyInput, r: Review) returns (bs: seq<Blocker>)
    ensures forall b :: b in bs <==> AboutContent(inp, r, b)
  {
    bs := Push([], !ReferencesAreCurrent(inp, r), EvidenceReferenceMismatch(r.role));
    bs := Push(bs, !ReferencesAreOwn(inp, r), EvidenceIdentityMismatch(r.role));
    bs := Push(bs, r.verdict == Approved && High in r.findings, ApprovalContradictsHigh(r.role));
    bs := Push(bs, r.verdict == Approved && Critical in r.findings, ApprovalContradictsCritical(r.role));
    bs := Push(bs, r.verdict != Approved && r.findings == [] && r.reasonCodes == [], NegativeVerdictReasonRequired(r.role));
  }

  method CheckApproval(inp: PolicyInput, r: Review) returns (bs: seq<Blocker>)
    ensures forall b :: b in bs <==> AboutApproval(inp, r, b)
  {
    hide RoleGateIsSufficient, HasRelevantEvidence;
    bs := [];
    if r.verdict == Approved && inp.mode != StatusMode {
      bs := Push(bs, !RoleGateIsSufficient(inp, r.role),
        if r.role == ReliabilityReviewer then ReliabilityObligationUnsatisfied(r.role) else RoleGateMismatch(r.role));
      bs := Push(bs, !HasRelevantEvidence(inp, r.role),
        if r.role == PerformanceReviewer then PerformanceEvidenceMissing(r.role) else TypedObligationUnsatisfied(r.role));
    }
  }

  method CheckReview(inp: PolicyInput, r: Review) returns (bs: seq<Blocker>)
    requires ReviewMatches(inp, r)
    ensures forall b :: b in bs <==> AboutReview(inp, r, b)
  {
    if !IsRecognized(r.role) {
      return [UnknownReviewerRole(r.role)];
    }
    var reviewer := CheckReviewer(inp, r);
    var content := CheckContent(inp, r);
    var approval := CheckApproval(inp, r);
    bs := Push(reviewer, !ReviewMatches(inp, r), StaleReviewDigest(r.role)) + content + approval;
  }

  datatype PolicyResult = PolicyResult(
    allowed: bool, blockers: seq<Blocker>, satisfied: seq<Role>, pending: seq<Role>, blocked: seq<Role>)

  /** Approvals by role and approved sessions, as the loop over reviews collects them. */

  ghost predicate ApprovalsMirror(approvals: map<Role, seq<Review>>, rs: seq<Review>) {
    forall role :: (if role in approvals then approvals[role] else []) == Filter(rs, ApprovedBy(role))
  }

  ghost predicate SessionsMirror(sessions: map<string, Role>, rs: seq<Review>) {
    && (forall r :: r in rs && r.verdict == Approved && IsRecognized(r.role) ==> r.session in sessions)
    && (forall s :: s in sessions ==>
          exists r :: r in rs && r.verdict == Approved && IsRecognized(r.role) && r.session == s && r.role == sessions[s])
  }

  lemma DuplicateIdStep(rs: seq<Review>, r: Review, id: Tick)
    ensures |Filter(rs + [r], WithReviewId(id))| >= 2
       <==> |Filter(rs, WithReviewId(id))| >= 2 || (id == r.reviewId && exists x :: x in rs && x.reviewId == id)
  {
    FilterAppend(rs, r, WithReviewId(id));
    var before := Filter(rs, WithReviewId(id));
    if before != [] { assert before[0] in before; }
  }

  /** One more review: what the loop adds is what the declarative reading adds. */
  lemma AboutReviewsStep(rs: seq<Review>, r: Review, sessions: map<string, Role>, b: Blocker)
    requires SessionsMirror(sessions, rs)
    ensures var approves := r.verdict == Approved && IsRecognized(r.role);
      AboutReviews(rs + [r], b) <==>
        || AboutReviews(rs, b)
        || (b == DuplicateReviewId(r.reviewId) && exists x :: x in rs && x.reviewId == r.reviewId)
        || (b == DuplicateReviewApproval(r.role) && approves && Filter(rs, ApprovedBy(r.role)) != [])
        || (b == DuplicateReviewSession(r.session) && approves && r.session in sessions && sessions[r.session] != r.role)
  {
    hide Filter, ShareSession, SessionsMirror;
    match b
    case DuplicateReviewId(id) => DuplicateIdStep(rs, r, id);
    case DuplicateReviewApproval(role) => FilterAppend(rs, r, ApprovedBy(role));
    case DuplicateReviewSession(session) => SharedSessionStep(rs, r, sessions, session);
    case _ =>
  }

  lemma SharedSessionStep(rs: seq<Review>, r: Review, sessions: map<string, Role>, session: string)
    requires SessionsMirror(sessions, rs)
    ensures AboutReviews(rs + [r], DuplicateReviewSession(session)) <==>
        || AboutReviews(rs, DuplicateReviewSession(session))
        || (session == r.session && r.verdict == Approved && IsRecognized(r.role) && session in sessions && sessions[session] != r.role)
  {
    if session in sessions {
      var w :| w in rs && w.verdict == Approved && IsRecognized(w.role) && w.session == session && w.role == sessions[session];
      assert w in rs + [r] && r in rs + [r];
      if session == r.session && r.verdict == Approved && IsRecognized(r.role) && sessions[session] != r.role {
        assert ShareSession(w, r, session);
      }
      if x, y :| x in rs + [r] && y in rs + [r] && ShareSession(x, y, session) {
        if x in rs && y in rs {
        } else if x == r {
          assert y in rs;
          assert w.role != y.role ==> ShareSession(w, y, session);
        } else {
          assert x in rs;
          assert w.role != x.role ==> ShareSession(w, x, session);
        }
      }
    }
    if x, y :| x in rs && y in rs && ShareSession(x, y, session) {
      assert x in rs + [r] && y in rs + [r];
    }
  }

  ghost predicate BlockersMirror(inp: PolicyInput, bs: seq<Blocker>, rs: seq<Review>) {
    forall b :: b in bs <==> AboutSomeReview(inp, rs, b) || AboutReviews(rs, b)
  }

  method CheckReviews(inp: PolicyInput, current: seq<Review>) returns (bs: seq<Blocker>, approvals: map<Role, seq<Review>>)
    requires forall r :: r in current ==> ReviewMatches(inp, r)
    ensures BlockersMirror(inp, bs, current)
    ensures ApprovalsMirror(approvals, current)
  {
    bs, approvals := [], map[];
    var sessions: map<string, Role> := map[];
    var ids: set<Tick> := {};
    for i := 0 to |current|
      invariant BlockersMirror(inp, bs, current[..i])
      invariant ApprovalsMirror(approvals, current[..i])
      invariant SessionsMirror(sessions, current[..i])
      invariant IdsMirror(ids, current[..i])
    {
      var r := current[i];
      assert current[..i + 1] == current[..i] + [r];
      bs := JudgeNext(inp, current[..i], r, bs, approvals, sessions, ids);
      ApprovalsStep(approvals, current[..i], r);
      SessionsStep(sessions, current[..i], r);
      IdsStep(ids, current[..i], r);
      ids := ids + {r.reviewId};
      if r.verdict == Approved && IsRecognized(r.role) {
        approvals := approvals[r.role := (if r.role in approvals then approvals[r.role] else []) + [r]];
        if !(r.session in sessions && sessions[r.session] != r.role) {
          sessions := sessions[r.session := r.role];
        }
      }
    }
    assert current[..|current|] == current;
  }

  ghost predicate IdsMirror(ids: set<Tick>, rs: seq<Review>) {
    forall id :: id in ids <==> exists x :: x in rs && x.reviewId == id
  }

  lemma IdsStep(ids: set<Tick>, rs: seq<Review>, r: Review)
    requires IdsMirror(ids, rs)
    ensures IdsMirror(ids + {r.reviewId}, rs + [r])
  {
    assert r in rs + [r];
    assert forall x :: x in rs ==> x in rs + [r];
  }

  method JudgeNext(inp: PolicyInput, ghost seen: seq<Review>, r: Review, bs: seq<Blocker>,
    approvals: map<Role, seq<Review>>, sessions: map<string, Role>, ids: set<Tick>) returns (next: seq<Blocker>)
    requires BlockersMirror(inp, bs, seen) && ReviewMatches(inp, r)
    requires ApprovalsMirror(approvals, seen) && SessionsMirror(sessions, seen) && IdsMirror(ids, seen)
    ensures BlockersMirror(inp, next, seen + [r])
  {
    var own := CheckReview(inp, r);
    var approves := r.verdict == Approved && IsRecognized(r.role);
    var prior := if r.role in approvals then approvals[r.role] else [];
    assert prior == Filter(seen, ApprovedBy(r.role));
    next := Push(bs, r.reviewId in ids, DuplicateReviewId(r.reviewId));
    next := Push(next, approves && r.session in sessions && sessions[r.session] != r.role, DuplicateReviewSession(r.session));
    next := Push(next, approves && |prior| > 0, DuplicateReviewApproval(r.role));
    next := next + own;
    LoopStep(inp, seen, r, sessions);
  }

  /** What one iteration adds, for every blocker. */
  lemma LoopStep(inp: PolicyInput, rs: seq<Review>, r: Review, sessions: map<string, Role>)
    requires SessionsMirror(sessions, rs)
    ensures forall b :: AboutSomeReview(inp, rs + [r], b) || AboutReviews(rs + [r], b) <==>
      || AboutSomeReview(inp, rs, b) || AboutReviews(rs, b) || AboutReview(inp, r, b)
      || ((exists x :: x in rs && x.reviewId == r.reviewId) && b == DuplicateReviewId(r.reviewId))
      || (r.verdict == Approved && IsRecognized(r.role) && r.session in sessions && sessions[r.session] != r.role
          && b == DuplicateReviewSession(r.session))
      || (r.verdict == Approved && IsRecognized(r.role) && Filter(rs, ApprovedBy(r.role)) != []
          && b == DuplicateReviewApproval(r.role))
  {
    forall b ensures AboutSomeReview(inp, rs + [r], b) <==> AboutSomeReview(inp, rs, b) || AboutReview(inp, r, b) {
      SomeReviewStep(inp, rs, r, b);
    }
    forall b {
      AboutReviewsStep(rs, r, sessions, b);
    }
  }

  lemma SomeReviewStep(inp: PolicyInput, rs: seq<Review>, r: Review, b: Blocker)
    ensures AboutSomeReview(inp, rs + [r], b) <==> AboutSomeReview(inp, rs, b) || AboutReview(inp, r, b)
  {
    assert r in rs + [r];
    assert forall x :: x in rs ==> x in rs + [r];
  }

  /** Recording an approval keeps the map of approvals in step with the reviews seen. */
  lemma ApprovalsStep(approvals: map<Role, seq<Review>>, rs: seq<Review>, r: Review)
    requires ApprovalsMirror(approvals, rs)
    ensures var prior := if r.role in approvals then approvals[r.role] else [];
      ApprovalsMirror(if r.verdict == Approved && IsRecognized(r.role) then approvals[r.role := prior + [r]] else approvals, rs + [r])
  {
    var prior := if r.role in approvals then approvals[r.role] else [];
    var next := if r.verdict == Approved && IsRecognized(r.role) then approvals[r.role := prior + [r]] else approvals;
    forall role ensures (if role in next then next[role] else []) == Filter(rs + [r], ApprovedBy(role)) {
      FilterAppend(rs, r, ApprovedBy(role));
      assert (if role in approvals then approvals[role] else []) == Filter(rs, ApprovedBy(role));
    }
  }

  /** A session keeps the role that first approved with it. */
  lemma SessionsStep(sessions: map<string, Role>, rs: seq<Review>, r: Review)
    requires SessionsMirror(sessions, rs)
    ensures SessionsMirror(
      if r.verdict == Approved && IsRecognized(r.role) && !(r.session in sessions && sessions[r.session] != r.role)
      then sessions[r.session := r.role] else sessions, rs + [r])
  {
    assert r in rs + [r];
    assert forall x :: x in rs ==> x in rs + [r];
  }

  method CheckRoles(inp: PolicyInput, pending: seq<Role>, approvals: map<Role, seq<Review>>) returns (bs: seq<Blocker>)
    requires ApprovalsMirror(approvals, CurrentReviews(inp))
    requires forall role :: role in pending <==> role in RequiredRoles(inp) && Filter(CurrentReviews(inp), ApprovedBy(role)) == []
    ensures forall b :: b in bs <==> AboutRoles(inp, b)
  {
    bs := [];
    if inp.mode == FinalizeMode {
      for i := 0 to |pending|
        invariant forall b: Blocker :: b in bs <==> b.MissingRequiredReviewer? && b.role in pending[..i]
      {
        assert pending[..i + 1] == pending[..i] + [pending[i]];
        bs := Push(bs, true, MissingRequiredReviewer(pending[i]));
      }
      assert pending[..|pending|] == pending;
      ghost var missing := bs;
      var required := Distinct(inp.run.requiredReviewers);
      for i := 0 to |required|
        invariant bs == missing
      {
        var role := required[i];
        var approved := if role in approvals then approvals[role] else [];
        assert approved == Filter(CurrentReviews(inp), ApprovedBy(role));
        if approved != [] {
          assert approved[0] in approved;
          bs := Push(bs, approved[0].verdict != Approved, ReviewNotApproved(role));
        }
      }
    }
    bs := Push(bs, inp.mode == SubmissionMode && !CandidateIsValid(inp), ReviewerRoleNotRequired(None));
  }

  method EvaluateAssurancePolicy(inp: PolicyInput) returns (result: PolicyResult)
    ensures forall b :: b in result.blockers <==> Reported(inp, b)
    ensures result.allowed <==> Allowed(inp)
    ensures forall role :: role in result.satisfied <==> role in RequiredRoles(inp) && Filter(CurrentReviews(inp), ApprovedBy(role)) != []
    ensures forall role :: role in result.pending <==> role in RequiredRoles(inp) && Filter(CurrentReviews(inp), ApprovedBy(role)) == []
    ensures forall role :: role in result.blocked <==>
      role in RequiredRoles(inp) && exists r :: r in CurrentReviews(inp) && r.role == role && r.verdict == VerdictBlocked
  {
    var blockers := CheckRun(inp);
    var current := CurrentReviews(inp);
    var byReviews, approvals := CheckReviews(inp, current);
    blockers := blockers + byReviews;
    var required := Distinct(Filter(inp.run.requiredReviewers, (r: Role) => r != OtherRole("")));
    assert forall r :: r in required <==> r in RequiredRoles(inp);
    var satisfied := Filter(required, (role: Role) => role in approvals && |approvals[role]| > 0);
    var blocked := Filter(required, (role: Role) => exists r :: r in current && r.role == role && r.verdict == VerdictBlocked);
    var pending := Filter(required, (role: Role) => role !in satisfied);
    var byRoles := CheckRoles(inp, pending, approvals);
    blockers := blockers + byRoles;
    if blockers != [] { assert blockers[0] in blockers; }
    result := PolicyResult(blockers == [], blockers, satisfied, pending, blocked);
  }

  /** Everything the policy reads besides the reviews. */
  predicate SameCase(x: PolicyInput, y: PolicyInput) {
    x == y.(mode := x.mode, reviews := x.reviews, candidate := x.candidate)
  }

  lemma RelevantEvidenceIgnoresReviews(x: PolicyInput, y: PolicyInput, role: Role)
    requires SameCase(x, y)
    ensures HasRelevantEvidence(x, role) == HasRelevantEvidence(y, role)
  {
    assert CurrentEvidence(x) == CurrentEvidence(y);
    assert RoleObligations(x, role) == RoleObligations(y, role);
    if x.plan.Some? {
      assert forall o :: IsDischarged(x, role, o) == IsDischarged(y, role, o);
    }
  }

  /** A review is judged on its own and on the case; a mode that asks less reports no more. */
  lemma ReviewJudgedAlike(x: PolicyInput, y: PolicyInput, r: Review, b: Blocker)
    requires SameCase(x, y) && (x.mode == StatusMode || y.mode != StatusMode)
    ensures AboutReview(x, r, b) ==> AboutReview(y, r, b)
  {
    RelevantEvidenceIgnoresReviews(x, y, r.role);
    assert CurrentEvidence(x) == CurrentEvidence(y);
    assert AboutReviewer(x, r, b) == AboutReviewer(y, r, b);
    assert AboutContent(x, r, b) == AboutContent(y, r, b);
    assert RoleGateIsSufficient(x, r.role) == RoleGateIsSufficient(y, r.role);
  }

  lemma RunJudgedAlike(x: PolicyInput, y: PolicyInput, b: Blocker)
    requires SameCase(x, y)
    ensures AboutRun(x, b) == AboutRun(y, b)
  {
    match b
    case SpecialistSelectionInvalid => assert PlanIsValid(x) == PlanIsValid(y);
    case CurrentFailBlockedEvidence(gate) =>
      assert forall e :: Contradicts(x, e, gate) == Contradicts(y, e, gate);
      assert CurrentEvidence(x) == CurrentEvidence(y);
    case _ =>
  }

  lemma PermutedReviewsJudgedAlike(r1: seq<Review>, r2: seq<Review>, b: Blocker)
    requires multiset(r1) == multiset(r2)
    ensures AboutReviews(r1, b) == AboutReviews(r2, b)
  {
    assert forall r :: r in r1 <==> r in multiset(r1);
    assert forall r :: r in r2 <==> r in multiset(r2);
    match b
    case DuplicateReviewId(id) => FilterPermutation(r1, r2, WithReviewId(id));
    case DuplicateReviewApproval(role) => FilterPermutation(r1, r2, ApprovedBy(role));
    case _ =>
  }

  /** What is reported does not depend on the order in which reviews were recorded. */
  lemma BlockersIgnoreReviewOrder(inp: PolicyInput, reordered: seq<Review>)
    requires multiset(inp.reviews) == multiset(reordered)
    ensures forall b :: Reported(inp, b) <==> Reported(inp.(reviews := reordered), b)
  {
    var other := inp.(reviews := reordered);
    assert multiset(Submitted(inp)) == multiset(Submitted(other));
    FilterPermutation(Submitted(inp), Submitted(other), MatchingReviews(inp.projectId, inp.workOrder, inp.run));
    var r1, r2 := CurrentReviews(inp), CurrentReviews(other);
    assert forall r :: r in r1 <==> r in multiset(r1);
    assert forall r :: r in r2 <==> r in multiset(r2);
    forall b ensures Reported(inp, b) <==> Reported(other, b) {
      RunJudgedAlike(inp, other, b);
      forall r ensures AboutReview(inp, r, b) == AboutReview(other, r, b) {
        ReviewJudgedAlike(inp, other, r, b);
        ReviewJudgedAlike(other, inp, r, b);
      }
      PermutedReviewsJudgedAlike(r1, r2, b);
      PermutedRolesJudgedAlike(inp, other, b);
    }
  }

  lemma PermutedRolesJudgedAlike(x: PolicyInput, y: PolicyInput, b: Blocker)
    requires SameCase(x, y) && x.mode == y.mode && x.candidate == y.candidate
    requires multiset(CurrentReviews(x)) == multiset(CurrentReviews(y))
    ensures AboutRoles(x, b) == AboutRoles(y, b)
  {
    if b.MissingRequiredReviewer? {
      FilterPermutation(CurrentReviews(x), CurrentReviews(y), ApprovedBy(b.role));
    }
  }

  /** A run that may be finalized is also in good standing. */
  lemma FinalizeAllowedImpliesStatusAllowed(inp: PolicyInput)
    requires inp.mode == FinalizeMode && Allowed(inp)
    ensures Allowed(inp.(mode := StatusMode))
  {
    StrictModeImpliesStatus(inp, inp.(mode := StatusMode));
  }

  lemma StrictModeImpliesStatus(strict: PolicyInput, status: PolicyInput)
    requires SameCase(status, strict) && status.mode == StatusMode && strict.mode != StatusMode
    requires CurrentReviews(strict) == CurrentReviews(status)
    requires Allowed(strict)
    ensures Allowed(status)
  {
    forall b ensures !Reported(status, b) {
      RunJudgedAlike(strict, status, b);
      assert !Reported(strict, b);
      forall r | r in CurrentReviews(status) ensures !AboutReview(status, r, b) {
        ReviewJudgedAlike(status, strict, r, b);
        assert !AboutSomeReview(strict, CurrentReviews(strict), b);
      }
    }
  }

  /** An accepted submission leaves the ledger in good standing with the candidate in it. */
  lemma SubmissionAllowedImpliesStatusAllowed(inp: PolicyInput)
    requires inp.mode == SubmissionMode && Allowed(inp)
    ensures inp.candidate.Some?
    ensures Allowed(inp.(mode := StatusMode, reviews := inp.reviews + [inp.candidate.value], candidate := None))
  {
    assert !Reported(inp, ReviewerRoleNotRequired(None));
    var after := inp.(mode := StatusMode, reviews := inp.reviews + [inp.candidate.value], candidate := None);
    assert Submitted(after) == Submitted(inp);
    StrictModeImpliesStatus(inp, after);
  }
}
