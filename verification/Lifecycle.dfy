/** The execution lifecycle: what each operation does to a run, its ledgers and the cache. */
module Lifecycle {
  import opened Basics
  import opened Gates
  import opened Records
  import opened CacheIntegrity
  import opened CacheValidity
  import opened CachePopulation
  import opened CacheStore
  import opened CacheReuse
  import opened Derivation
  import opened TypedSelection
  import opened AssurancePolicy

  /** What stays fixed along a run. */
  datatype Context = Context(projectId: string, workOrder: WorkOrder)

  /** The working tree as change detection sees it; anyone may edit it between steps. */
  datatype Tree = Tree(dirty: bool, digest: ContentDigest, files: seq<ChangedFile>)

  datatype Stage = IntakeStage | ClassifyStage | PlanStage | ImplementStage | VerifyStage | ReviewStage | StoppedStage

  datatype State = State(
    run: Option<Run>, evidence: seq<Evidence>, reviews: seq<Review>,
    store: Store, tree: Tree, clock: Tick, stage: Stage)

  datatype Outcome = Done | Refused

  datatype ModelOutcome = ModelReady | ModelUnavailable | ModelBlocked

  /** A referenced output or file: absent, refused by the path and type checks, or read and hashed. */
  datatype Attachment = NoAttachment | RejectedAttachment | Attached(ref: string, digest: ContentDigest)

  datatype DispatchInput = DispatchInput(session: string, selectionIsBound: bool, model: ModelOutcome, withinBudget: bool)

  datatype IndexInput = IndexInput(bundle: Option<Bundle>, env: Env)

  datatype EvidenceInput = EvidenceInput(
    gate: Gate, kind: EvidenceKind, command: string, exitCode: Option<int>,
    output: Attachment, file: Attachment, status: Option<EvidenceStatus>, index: IndexInput)

  datatype ReviewInput = ReviewInput(
    role: Role, session: string, implementerSession: string, verdict: Verdict,
    findings: Option<seq<Severity>>, plan: Option<SelectionPlan>)

  datatype ExpandInput = ExpandInput(approveC5: bool, withinBudget: bool)

  /** The run on file belongs to the planned work order. */
  predicate IsOwn(c: Context, s: State) {
    s.run.Some? && s.run.value.workOrderId == c.workOrder.workOrderId
  }

  /** Every operation but dispatch starts from a run consistent with its work order. */
  predicate IsActive(c: Context, s: State) {
    IsOwn(c, s) && c.projectId == c.workOrder.projectId && s.run.value.projectId == c.projectId
  }

  function ValidationFor(c: Context, run: Run, store: Store): Option<Validation> {
    Some(Validation(c.projectId, run.workOrderId, run.runId, store))
  }

  function GateStatesOf(c: Context, s: State): seq<GateState>
    requires s.run.Some?
  {
    DeriveGateStates(s.run.value.selectedGates, s.run.value.currentDigest, s.evidence, s.reviews,
      ValidationFor(c, s.run.value, s.store))
  }

  function PolicyCase(c: Context, s: State, mode: Mode, candidate: Option<Review>, plan: Option<SelectionPlan>): PolicyInput
    requires s.run.Some?
  {
    PolicyInput(mode, c.projectId, c.workOrder, s.run.value, GateStatesOf(c, s), s.evidence, s.reviews, candidate, plan)
  }

  /** Dispatch. */

  /** None where the provided session cannot be accepted. */
  function ResolveImplementerSession(workOrder: WorkOrder, bound: Option<string>, provided: string): Option<Option<string>> {
    if Present(bound) then
      if provided == bound.value || (provided == "" && !workOrder.requiresImplementation) then Some(bound) else None
    else if provided != "" then Some(Some(provided))
    else if workOrder.requiresImplementation then None
    else Some(None)
  }

  function BoundSession(c: Context, s: State): Option<string> {
    if IsOwn(c, s) then s.run.value.implementerSession else None
  }

  function RequiredOf(workOrder: WorkOrder): seq<Role> {
    Distinct(Filter(workOrder.assuranceReviewers, (r: Role) => r != OtherRole("")))
  }

  function NewRunId(workOrder: WorkOrder, now: Tick): string {
    "er:" + workOrder.workOrderId + ":" + seq(now, _ => '.')
  }

  function DispatchedRun(c: Context, s: State, session: Option<string>): Run {
    var own := IsOwn(c, s);
    Run(
      if own then s.run.value.runId else NewRunId(c.workOrder, s.clock), c.projectId, c.workOrder.workOrderId,
      if own then s.run.value.attempt else 1, Implement, Ready, c.workOrder.radius,
      ImplementationAgent, session, RequiredOf(c.workOrder), c.workOrder.qualityGates,
      None, None, [], [], [])
  }

  predicate MayDispatch(c: Context, s: State, d: DispatchInput) {
    (s.stage in {PlanStage, ImplementStage} || IsOwn(c, s)) && !c.workOrder.draft && d.selectionIsBound
  }

  function BlockDirty(c: Context, s: State): State {
    if IsOwn(c, s) then
      s.(run := Some(s.run.value.(status := BlockedStatus, phase := Stopped,
                                  blockers := Distinct(s.run.value.blockers + [DirtyWorktree]))), clock := s.clock + 1)
    else s.(clock := s.clock + 1)
  }

  function Dispatch(c: Context, s: State, d: DispatchInput): (State, Outcome) {
    if !MayDispatch(c, s, d) then (s, Refused)
    else if s.tree.dirty then (BlockDirty(c, s), Refused)
    else if d.model != ModelReady || (IsOwn(c, s) && s.run.value.status == Completed) then (s, Refused)
    else
      var session := ResolveImplementerSession(c.workOrder, BoundSession(c, s), d.session);
      if session.None? then (s, Refused)
      else if IsOwn(c, s) && s.run.value.status !in {Failed, BlockedStatus} then (s, Done)
      else if !d.withinBudget then (s, Refused)
      else
        (s.(run := Some(DispatchedRun(c, s, session.value)),
            evidence := if IsOwn(c, s) then s.evidence else [],
            reviews := if IsOwn(c, s) then s.reviews else [],
            clock := s.clock + 1, stage := ImplementStage), Done)
  }

  /** Verify. */

  predicate IsViolation(f: ChangedFile) {
    f.classification in {OutOfScope, Sensitive}
  }

  function ViolationsOf(tree: Tree): seq<ChangedFile> {
    Filter(tree.files, (f: ChangedFile) => IsViolation(f))
  }

  function PathsOf(tree: Tree): seq<string> {
    seq(|tree.files|, i requires 0 <= i < |tree.files| => tree.files[i].path)
  }

  predicate CanVerify(run: Run) {
    run.status !in {Completed, Failed} && (run.phase in {Implement, Verify, ReviewPhase} || run.status == CorrectionStatus)
  }

  function BlockUnchanged(s: State): State
    requires s.run.Some?
  {
    s.(run := Some(s.run.value.(status := BlockedStatus, blockers := Distinct(s.run.value.blockers + [NoImplementationChange]))),
       clock := s.clock + 1)
  }

  function ScopeBlockers(files: seq<ChangedFile>): seq<RunBlocker> {
    seq(|files|, i requires 0 <= i < |files| => ScopeBlocker(files[i]))
  }

  function BlockViolations(s: State): State
    requires s.run.Some?
  {
    var run, violations := s.run.value, ViolationsOf(s.tree);
    s.(run := Some(run.(status := BlockedStatus, phase := Stopped, currentDigest := Some(s.tree.digest),
                        changedFiles := PathsOf(s.tree), scopeViolations := violations,
                        blockers := Distinct(run.blockers + ScopeBlockers(violations)))),
       clock := s.clock + 1, stage := StoppedStage)
  }

  function VerifiedRun(run: Run, tree: Tree): Run {
    run.(phase := Verify, status := InProgress, currentDigest := Some(tree.digest), changedFiles := PathsOf(tree),
         scopeViolations := [], blockers := [], reviewedDigest := if run.phase == ReviewPhase then None else run.reviewedDigest)
  }

  /** The verified run before cached evidence is applied to it. */
  function Verified(s: State): State
    requires s.run.Some?
  {
    s.(run := Some(VerifiedRun(s.run.value, s.tree)), clock := s.clock + 1, stage := VerifyStage)
  }

  ghost function WithReuse(c: Context, s: State, index: IndexInput): (r: State)
    requires s.run.Some? && WellFormed(s.store)
    ensures WellFormed(r.store)
  {
    var run := s.run.value;
    var w := AppliedToAll(World(s.store, s.evidence, s.clock), run, AskerOf(run, index.bundle, index.env), GateStatesOf(c, s), run.selectedGates);
    s.(store := w.store, evidence := w.evidence, clock := w.now)
  }

  ghost function VerifyStep(c: Context, s: State, index: IndexInput): (r: (State, Outcome))
    requires WellFormed(s.store)
    ensures WellFormed(r.0.store)
  {
    if !IsActive(c, s) || !CanVerify(s.run.value) then (s, Refused)
    else if c.workOrder.requiresImplementation && s.tree.files == [] then (BlockUnchanged(s), Refused)
    else if ViolationsOf(s.tree) != [] then (BlockViolations(s), Refused)
    else (WithReuse(c, Verified(s), index), Done)
  }

  /** Record evidence. */

  predicate CanRecordEvidence(run: Run, gate: Gate) {
    && Present(run.currentDigest)
    && (run.phase in {Verify, ReviewPhase} || run.status == CorrectionStatus)
    && IsKnownGate(gate) && gate in run.selectedGates && !IsReviewGate(gate)
  }

  /** None where the exit code is missing or contradicts the claimed status. */
  function EffectiveStatus(i: EvidenceInput): Option<EvidenceStatus> {
    if i.kind == CommandEvidence && (i.exitCode.None? || (i.status == Some(EvidencePass) && i.exitCode != Some(0))) then None
    else if i.status == Some(EvidenceBlocked) then Some(EvidenceBlocked)
    else if i.kind == CommandEvidence then Some(if i.exitCode == Some(0) then EvidencePass else EvidenceFail)
    else if i.status.Some? then i.status
    else Some(EvidencePass)
  }

  function RefOfAttachment(a: Attachment): Option<string> {
    if a.Attached? then Some(a.ref) else None
  }

  function DigestOfAttachment(a: Attachment): Option<string> {
    if a.Attached? then Some(a.digest) else None
  }

  predicate IsConcrete(a: Attachment) {
    a.Attached? && a.ref != ""
  }

  predicate MeetsPassContract(def: GateDef, i: EvidenceInput) {
    && i.kind in def.kinds
    && (def.contract == CommandContract || i.kind == CommandEvidence ==>
          i.kind == CommandEvidence && i.command != "" && i.exitCode == Some(0) && IsConcrete(i.output))
    && (i.kind == FileEvidence ==> IsConcrete(i.file))
    && (i.kind == InvariantEvidence ==> IsConcrete(i.output) || IsConcrete(i.file))
  }

  predicate IsAcceptable(run: Run, i: EvidenceInput) {
    && CanRecordEvidence(run, i.gate)
    && EffectiveStatus(i).Some? && !i.output.RejectedAttachment? && !i.file.RejectedAttachment?
    && (EffectiveStatus(i) == Some(EvidencePass) ==> MeetsPassContract(GateDefOf(i.gate).value, i))
  }

  function RecordedEvidence(run: Run, i: EvidenceInput, now: Tick): Evidence
    requires IsAcceptable(run, i)
  {
    Evidence(now, run.projectId, run.workOrderId, run.runId, run.currentDigest.value, i.gate, i.kind, EffectiveStatus(i).value,
      if i.command != "" then Some(i.command) else None, if i.kind == CommandEvidence then i.exitCode else None,
      RefOfAttachment(i.output), DigestOfAttachment(i.output), RefOfAttachment(i.file), DigestOfAttachment(i.file), Executed)
  }

  /** Accepted evidence of a PASS proves its gate. */
  lemma AcceptedPassProves(run: Run, i: EvidenceInput, now: Tick, v: Option<Validation>)
    requires IsAcceptable(run, i) && EffectiveStatus(i) == Some(EvidencePass)
    ensures Proves(RecordedEvidence(run, i, now), i.gate, run.currentDigest, v)
  {
  }

  function PathSet(paths: seq<string>): set<string> {
    set p | p in paths
  }

  /** The cache after evidence was offered to it; a refused write is not an error here. */
  function PopulatedStore(s: Store, run: Run, e: Evidence, index: IndexInput, now: Tick): Store {
    if e.status == EvidencePass && index.bundle.Some? && IsCacheable(run.projectId, e, index.bundle.value, index.env)
    then Persisted(s, RecordOf(run.projectId, PathSet(run.changedFiles), e, index.bundle.value, index.env, now)).0
    else s
  }

  function FailedGates(states: seq<GateState>): seq<RunBlocker> {
    var failed := Filter(states, (g: GateState) => g.status in {GateFail, GateBlocked});
    seq(|failed|, i requires 0 <= i < |failed| => GateFailed(failed[i].gate))
  }

  function RefreshBlockers(blockers: seq<RunBlocker>, states: seq<GateState>): seq<RunBlocker> {
    var others := Filter(blockers, (b: RunBlocker) => !b.GateFailed?);
    if FailedGates(states) == [] then others else Distinct(others + FailedGates(states))
  }

  function WithEvidence(s: State, i: EvidenceInput): State
    requires s.run.Some? && IsAcceptable(s.run.value, i)
  {
    var e := RecordedEvidence(s.run.value, i, s.clock);
    s.(evidence := s.evidence + [e], store := PopulatedStore(s.store, s.run.value, e, i.index, s.clock + 1), clock := s.clock + 2)
  }

  function RecordEvidence(c: Context, s: State, i: EvidenceInput): (State, Outcome) {
    if !IsActive(c, s) || !IsAcceptable(s.run.value, i) then (s, Refused)
    else
      var t := WithEvidence(s, i);
      (t.(run := Some(t.run.value.(blockers := RefreshBlockers(t.run.value.blockers, GateStatesOf(c, t))))), Done)
  }

  /** Start assurance. */

  predicate NonReviewGatesPass(states: seq<GateState>) {
    forall g :: g in states && !IsReviewGate(g.gate) ==> g.status == GatePass
  }

  ghost predicate CanStartAssurance(c: Context, s: State, plan: Option<SelectionPlan>)
    requires s.run.Some?
  {
    && s.run.value.phase in {Verify, ReviewPhase} && Present(s.run.value.currentDigest)
    && NonReviewGatesPass(GateStatesOf(c, s)) && plan.Some?
    && Allowed(PolicyCase(c, s, StatusMode, None, plan))
  }

  ghost function StartAssurance(c: Context, s: State, plan: Option<SelectionPlan>): (State, Outcome) {
    if !IsActive(c, s) || !CanStartAssurance(c, s, plan) then (s, Refused)
    else (s.(run := Some(s.run.value.(phase := ReviewPhase, status := InProgress)), clock := s.clock + 1, stage := ReviewStage), Done)
  }

  /** Record a review. */

  predicate CanReview(c: Context, run: Run, i: ReviewInput) {
    && run.phase == ReviewPhase && run.status !in {Completed, BlockedStatus, Failed}
    && Present(run.currentDigest) && Present(run.implementerSession)
    && (i.implementerSession == "" || Some(i.implementerSession) == run.implementerSession)
    && i.role != run.implementerRole && i.role != ImplementationAgent
    && Some(i.session) != run.implementerSession
    && IsRecognized(i.role) && i.role in run.requiredReviewers
    && i.findings.Some? && i.plan.Some?
  }

  function ReasonsFor(verdict: Verdict, findings: seq<Severity>): seq<ReasonCode> {
    if findings != [] then []
    else match verdict
      case VerdictBlocked => [ReviewBlockedReason]
      case CorrectionNeeded => [CorrectionRequiredReason]
      case Approved => []
  }

  function RefsTo(run: Run, current: seq<Evidence>): seq<EvidenceRef> {
    seq(|current|, i requires 0 <= i < |current| => RefOf(run, current[i]))
  }

  function SubmittedReview(c: Context, s: State, i: ReviewInput): Review
    requires s.run.Some? && CanReview(c, s.run.value, i)
  {
    var run := s.run.value;
    Review(s.clock, run.projectId, run.workOrderId, run.runId, run.currentDigest.value, i.role, i.session,
      run.implementerRole, run.implementerSession.value, i.verdict, i.findings.value, ReasonsFor(i.verdict, i.findings.value),
      RefsTo(run, CurrentEvidence(PolicyCase(c, s, SubmissionMode, None, i.plan))))
  }

  function ReviewedRun(run: Run, role: Role, verdict: Verdict): Run {
    match verdict
    case CorrectionNeeded => run.(phase := Implement, status := CorrectionStatus, attempt := run.attempt + 1, reviewedDigest := None)
    case VerdictBlocked => run.(status := BlockedStatus, phase := Stopped, blockers := Distinct(run.blockers + [ReviewBlockedBy(role)]))
    case Approved => run.(reviewedDigest := run.currentDigest)
  }

  function StageAfterReview(verdict: Verdict): Stage {
    match verdict case CorrectionNeeded => ImplementStage case VerdictBlocked => StoppedStage case Approved => ReviewStage
  }

  ghost function RecordReview(c: Context, s: State, i: ReviewInput): (State, Outcome) {
    if !IsActive(c, s) || !CanReview(c, s.run.value, i) then (s, Refused)
    else
      var review := SubmittedReview(c, s, i);
      if !Allowed(PolicyCase(c, s, SubmissionMode, Some(review), i.plan)) then (s, Refused)
      else (s.(run := Some(ReviewedRun(s.run.value, i.role, i.verdict)), reviews := s.reviews + [review],
               clock := s.clock + 1, stage := StageAfterReview(i.verdict)), Done)
  }

  /** Finalize. */

  function AtDigest(digest: Option<string>): Review -> bool {
    (r: Review) => Some(r.changeDigest) == digest
  }

  function ByRole(role: Role): Review -> bool {
    (r: Review) => r.role == role
  }

  /** The earliest independent review of a digest: later ones are not looked at. */
  function IndependentReviewAt(reviews: seq<Review>, digest: Option<string>): Option<Review> {
    var found := Filter(Filter(reviews, AtDigest(digest)), ByRole(IndependentReviewer));
    if found == [] then None else Some(found[0])
  }

  predicate RunIsFinalizable(c: Context, s: State)
    requires s.run.Some?
  {
    var run := s.run.value;
    && Present(run.currentDigest) && run.phase !in {Implement, Verify} && run.status != CorrectionStatus
    && (c.workOrder.requiresImplementation ==> Present(run.implementerSession))
    && Some(s.tree.digest) == run.currentDigest && run.scopeViolations == []
    && !(run.blockers != [] && run.status == BlockedStatus)
  }

  predicate AllGatesPass(states: seq<GateState>) {
    forall g :: g in states ==> IsKnownGate(g.gate) && g.status == GatePass
  }

  predicate IndependentApproves(s: State)
    requires s.run.Some?
  {
    var run := s.run.value;
    var independent := IndependentReviewAt(s.reviews, run.currentDigest);
    && independent.Some? && independent.value.verdict == Approved
    && independent.value.role != independent.value.implementerRole
    && independent.value.session != independent.value.implementerSession
    && (Present(run.implementerSession) ==> Some(independent.value.implementerSession) == run.implementerSession)
    && (Present(run.reviewedDigest) ==> run.reviewedDigest == run.currentDigest)
    && s.tree.digest == independent.value.changeDigest
  }

  predicate RequiredRolesApprove(s: State)
    requires s.run.Some?
  {
    forall role :: role in s.run.value.requiredReviewers ==>
      exists r :: r in s.reviews && Some(r.changeDigest) == s.run.value.currentDigest && r.role == role && r.verdict == Approved
  }

  predicate AcceptanceIsEvidenced(c: Context, s: State)
    requires s.run.Some?
  {
    c.workOrder.hasAcceptanceCriteria ==>
      exists e :: e in s.evidence && Some(e.changeDigest) == s.run.value.currentDigest && e.status == EvidencePass
  }

  ghost predicate CanFinalize(c: Context, s: State, plan: Option<SelectionPlan>)
    requires s.run.Some?
  {
    && RunIsFinalizable(c, s) && plan.Some?
    && Allowed(PolicyCase(c, s, FinalizeMode, None, plan))
    && AllGatesPass(GateStatesOf(c, s))
    && IndependentApproves(s) && RequiredRolesApprove(s) && AcceptanceIsEvidenced(c, s)
  }

  ghost function Finalize(c: Context, s: State, plan: Option<SelectionPlan>): (State, Outcome) {
    if !IsActive(c, s) then (s, Refused)
    else if s.run.value.status == Completed then (s, Done)
    else if !CanFinalize(c, s, plan) then (s, Refused)
    else (s.(run := Some(s.run.value.(phase := Stopped, status := Completed)), clock := s.clock + 1, stage := StoppedStage), Done)
  }

  /** Expand the context radius. */

  const LAST_RADIUS := 5

  function ExpandContext(c: Context, s: State, i: ExpandInput): (State, Outcome) {
    if !IsActive(c, s) || s.run.value.radius >= LAST_RADIUS then (s, Refused)
    else if (s.run.value.radius + 1 == LAST_RADIUS && !i.approveC5) || !i.withinBudget then (s, Refused)
    else (s.(run := Some(s.run.value.(radius := s.run.value.radius + 1)), clock := s.clock + 1), Done)
  }

  /** A history interleaves operations with edits by others. */
  datatype Event =
    | EditTree(tree: Tree) | DispatchEvent(dispatch: DispatchInput) | VerifyEvent(index: IndexInput)
    | EvidenceEvent(evidence: EvidenceInput) | StartEvent(plan: Option<SelectionPlan>) | ReviewEvent(review: ReviewInput)
    | FinalizeEvent(plan: Option<SelectionPlan>) | ExpandEvent(expand: ExpandInput)

  ghost function Next(c: Context, s: State, e: Event): (t: State)
    requires WellFormed(s.store)
    ensures WellFormed(t.store)
  {
    match e
    case EditTree(tree) => s.(tree := tree)
    case DispatchEvent(d) => Dispatch(c, s, d).0
    case VerifyEvent(index) => VerifyStep(c, s, index).0
    case EvidenceEvent(i) => PopulatingKeepsWellFormed(s, i); RecordEvidence(c, s, i).0
    case StartEvent(plan) => StartAssurance(c, s, plan).0
    case ReviewEvent(i) => RecordReview(c, s, i).0
    case FinalizeEvent(plan) => Finalize(c, s, plan).0
    case ExpandEvent(i) => ExpandContext(c, s, i).0
  }

  lemma PopulatingKeepsWellFormed(s: State, i: EvidenceInput)
    requires WellFormed(s.store)
    ensures s.run.Some? && IsAcceptable(s.run.value, i) ==> WellFormed(WithEvidence(s, i).store)
  {
    hide WellFormed, Persisted, RecordOf, IsCacheable, DeriveGateStates, RefreshBlockers;
    if s.run.Some? && IsAcceptable(s.run.value, i) && i.index.bundle.Some? {
      var e := RecordedEvidence(s.run.value, i, s.clock);
      PersistKeepsWellFormed(s.store,
        RecordOf(s.run.value.projectId, PathSet(s.run.value.changedFiles), e, i.index.bundle.value, i.index.env, s.clock + 1));
    }
  }

  ghost function History(c: Context, s: State, events: seq<Event>): (t: State)
    requires WellFormed(s.store)
    ensures WellFormed(t.store)
  {
    if events == [] then s else Next(c, History(c, s, events[..|events| - 1]), events[|events| - 1])
  }
}
