/** The gate registry: what evidence each gate accepts and which gates a review decides. */
module Gates {
  import opened Basics

  datatype Gate =
    | Static | UnitTest | IntegrationTest | ContractTest | Build
    | SecurityReview | DependencyAudit | PerformanceCheck | ArchitectureConformance
    | DatabaseMigration | RollbackValidation | Web3Unit | Web3Fuzz | Web3Invariant
    | FinancialNumericalValidation | SimulationInvariant | ReleaseCheck
    | OtherGate(name: string)

  /** Reviewer, implementer and specialist identifiers live in one name space. */
  datatype Role =
    | IndependentReviewer | SecurityReviewer | PerformanceReviewer | ReliabilityReviewer
    | ImplementationAgent
    | OtherRole(name: string)

  datatype EvidenceKind = CommandEvidence | FileEvidence | InvariantEvidence | ReviewEvidence

  datatype ContractKind = CommandContract | InvariantContract | ReviewContract(reviewer: Role)

  datatype EvidenceName = GateEvidence(gate: Gate) | OtherEvidence(name: string)

  datatype GateDef = GateDef(contract: ContractKind, kinds: set<EvidenceKind>, evidence: EvidenceName)

  const COMMAND_KINDS := {CommandEvidence}
  const INVARIANT_KINDS := {InvariantEvidence, FileEvidence, CommandEvidence}
  const REVIEW_KINDS := {ReviewEvidence}

  function ContractOf(gate: Gate): Option<ContractKind> {
    match gate
    case OtherGate(_) => None
    case SecurityReview => Some(ReviewContract(SecurityReviewer))
    case PerformanceCheck => Some(ReviewContract(PerformanceReviewer))
    case ArchitectureConformance | Web3Invariant | FinancialNumericalValidation | SimulationInvariant =>
      Some(InvariantContract)
    case _ => Some(CommandContract)
  }

  /** The registry lookup; None for an id the registry does not list. */
  function GateDefOf(gate: Gate): Option<GateDef> {
    match ContractOf(gate)
    case None => None
    case Some(CommandContract) => Some(GateDef(CommandContract, COMMAND_KINDS, GateEvidence(gate)))
    case Some(InvariantContract) => Some(GateDef(InvariantContract, INVARIANT_KINDS, GateEvidence(gate)))
    case Some(ReviewContract(role)) => Some(GateDef(ReviewContract(role), REVIEW_KINDS, GateEvidence(gate)))
  }

  predicate IsKnownGate(gate: Gate) {
    GateDefOf(gate).Some?
  }

  predicate IsReviewGate(gate: Gate) {
    GateDefOf(gate).Some? && GateDefOf(gate).value.contract.ReviewContract?
  }

  /** The gates whose PASS a cache may stand in for. */
  const ELIGIBLE_GATES := {Static, UnitTest, ContractTest, Build, Web3Unit}

  predicate IsCacheEligibleGate(gate: Gate) {
    !IsReviewGate(gate) && gate != IntegrationTest && gate in ELIGIBLE_GATES
  }

  /** Cached proof only ever replaces running a command. */
  lemma EligibleGatesAreCommandGates(gate: Gate)
    requires IsCacheEligibleGate(gate)
    ensures GateDefOf(gate) == Some(GateDef(CommandContract, {CommandEvidence}, GateEvidence(gate)))
  {
  }
}
