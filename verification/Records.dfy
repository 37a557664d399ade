/** The durable entities of an execution run. */
module Records {
  import opened Basics
  import opened Gates

  /** Ids hash the creation time, which strictly increases, so a tick stands for both. */
  type Tick = nat

  /** A SHA-256 text is never empty. */
  type ContentDigest = s: string | s != "" witness "0"

  datatype GateStatus = GatePending | GatePass | GateFail | GateBlocked

  datatype GateState = GateState(gate: Gate, status: GateStatus, evidenceId: Option<Tick>)

  datatype EvidenceStatus = EvidencePass | EvidenceFail | EvidenceBlocked

  /** The identity of a gate's reuse contract: a digest of exactly these parts. */
  datatype ContractIdentity = ContractIdentity(gate: Gate, command: Option<string>)

  datatype ToolIdentity = ToolIdentity(
    producerFamily: Option<string>, producerVersion: Option<string>, others: map<string, string>)

  /** The digest that binds a cached PASS to its inputs, as the record of what it hashes. */
  datatype ReuseProof = ReuseProof(
    projectId: string, contract: ContractIdentity, command: Option<string>,
    basis: map<string, ContentDigest>, manifests: map<string, ContentDigest>,
    tools: ToolIdentity, environment: Option<string>, policy: string)

  datatype EvidenceSource =
    | Executed
    | CacheReuse(
        recordId: Option<string>, sourceEvidenceId: Option<Tick>, decisionId: Option<Tick>,
        proof: Option<ReuseProof>, contract: Option<ContractIdentity>)

  datatype Evidence = Evidence(
    evidenceId: Tick, projectId: string, workOrderId: string, runId: string,
    changeDigest: string, gate: Gate, kind: EvidenceKind, status: EvidenceStatus,
    command: Option<string>, exitCode: Option<int>,
    outputRef: Option<string>, outputDigest: Option<string>,
    fileRef: Option<string>, fileDigest: Option<string>,
    source: EvidenceSource)

  datatype Verdict = Approved | CorrectionNeeded | VerdictBlocked

  datatype Severity = Low | Medium | High | Critical

  datatype EvidenceRef = EvidenceRef(runId: string, evidenceId: Tick)

  datatype ReasonCode = ReviewBlockedReason | CorrectionRequiredReason

  datatype Review = Review(
    reviewId: Tick, projectId: string, workOrderId: string, runId: string, changeDigest: string,
    role: Role, session: string, implementerRole: Role, implementerSession: string,
    verdict: Verdict, findings: seq<Severity>, reasonCodes: seq<ReasonCode>, evidenceRefs: seq<EvidenceRef>)

  datatype Phase = Implement | Verify | ReviewPhase | Stopped

  datatype Status = Ready | InProgress | CorrectionStatus | BlockedStatus | Completed | Failed

  datatype Classification = InScope | Supporting | OutOfScope | Sensitive

  datatype ChangedFile = ChangedFile(path: string, classification: Classification)

  datatype RunBlocker =
    | DirtyWorktree | NoImplementationChange | ScopeBlocker(file: ChangedFile)
    | ReviewBlockedBy(role: Role) | GateFailed(gate: Gate)

  datatype Run = Run(
    runId: string, projectId: string, workOrderId: string, attempt: nat,
    phase: Phase, status: Status, radius: nat,
    implementerRole: Role, implementerSession: Option<string>,
    requiredReviewers: seq<Role>, selectedGates: seq<Gate>,
    currentDigest: Option<string>, reviewedDigest: Option<string>,
    changedFiles: seq<string>, scopeViolations: seq<ChangedFile>,
    blockers: seq<RunBlocker>)

  datatype WorkOrder = WorkOrder(
    workOrderId: string, projectId: string, draft: bool, requiresImplementation: bool,
    assuranceReviewers: seq<Role>, qualityGates: seq<Gate>, hasAcceptanceCriteria: bool, radius: nat)

  datatype ObligationKind =
    | DomainObligation | GateObligation | EvidenceObligation
    | AssuranceObligation | AreaObligation | DependencyObligation

  datatype ObligationId = AssuranceOf(role: Role) | Obliged(name: string)

  datatype Obligation = Obligation(
    id: ObligationId, kind: ObligationKind, gate: Option<Gate>, evidence: Option<EvidenceName>,
    specialist: Option<Role>)

  datatype Coverage = Coverage(
    id: ObligationId, kind: ObligationKind, gate: Option<Gate>, evidence: Option<EvidenceName>,
    specialist: Role)

  datatype PlanContent = PlanContent(
    isSelected: bool, projectId: string, workOrderId: string,
    unmetCoverage: nat, unmetObligations: nat, blockedReasons: nat,
    selected: seq<Role>, assurance: seq<Role>,
    required: seq<Obligation>, covered: seq<Coverage>)

  /** `digestOf` is what the stored selection digest was computed from. */
  datatype SelectionPlan = SelectionPlan(content: PlanContent, digestOf: PlanContent)
}
