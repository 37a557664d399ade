/** The evidence cache's records and what makes evidence derived from them trustworthy. */
module CacheIntegrity {
  import opened Basics
  import opened Gates
  import opened Records

  datatype CacheStatus = Reusable | Stale | Historical | NotReusable

  datatype CacheRecord = CacheRecord(
    id: string, projectId: string, gate: Gate, evidenceId: Tick, kind: EvidenceKind,
    changeDigest: string, command: Option<string>,
    contract: ContractIdentity, proof: ReuseProof, tools: ToolIdentity, environment: Option<string>,
    basisPaths: set<string>, basis: map<string, ContentDigest>, manifests: map<string, ContentDigest>, policy: string,
    outputDigest: Option<string>, fileDigest: Option<string>, createdAt: Tick,
    eligibleClass: bool, reusable: bool, status: CacheStatus)

  datatype DecisionKind = Hit | Miss | StaleDecision | NotReusableDecision | BlockedDecision

  datatype Decision = Decision(
    id: Tick, projectId: string, workOrderId: Option<string>, runId: Option<string>, gate: Gate,
    candidate: Option<string>, kind: DecisionKind, maySatisfyGate: bool,
    liveDigest: Option<string>, contract: ContractIdentity, proof: Option<ReuseProof>)

  datatype IndexEntry = IndexEntry(id: string, gate: Gate, reusable: bool, status: CacheStatus)

  datatype IndexFile = NoIndex | CorruptIndex | IndexOf(projectId: string, entries: seq<IndexEntry>)

  datatype Store = Store(records: map<string, CacheRecord>, index: IndexFile, decisions: map<Tick, Decision>)

  /** What the persisted record alone must satisfy before anything may be derived from it. */
  predicate IsSemanticallyValid(r: CacheRecord) {
    var def := GateDefOf(r.gate);
    && def.Some? && IsCacheEligibleGate(r.gate)
    && r.kind in def.value.kinds
    && r.status == Reusable && r.reusable && r.eligibleClass
    && (r.kind == CommandEvidence ==>
          && HasText(r.command) && HasText(r.outputDigest)
          && HasText(r.tools.producerFamily) && HasText(r.tools.producerVersion))
    && (r.kind == FileEvidence ==> HasText(r.fileDigest))
    && (r.kind == InvariantEvidence ==> HasText(r.outputDigest) || HasText(r.fileDigest))
  }

  predicate HasConcreteGateProof(e: Evidence) {
    var def := GateDefOf(e.gate);
    && def.Some? && e.kind in def.value.kinds
    && if def.value.contract == CommandContract || e.kind == CommandEvidence then
         && e.kind == CommandEvidence && HasText(e.command) && e.exitCode == Some(0)
         && HasText(e.outputRef) && HasText(e.outputDigest)
       else if e.kind == FileEvidence then HasText(e.fileRef) && HasText(e.fileDigest)
       else if e.kind == InvariantEvidence then
         (HasText(e.outputRef) && HasText(e.outputDigest)) || (HasText(e.fileRef) && HasText(e.fileDigest))
       else false
  }

  /** Who is asking whether reused evidence still stands, and for what. */
  datatype ReuseContext = ReuseContext(
    projectId: string, workOrderId: string, runId: string, gate: Gate, changeDigest: Option<string>)

  /** Reused evidence names everything it was derived from and belongs to the asking run. */
  predicate ClaimIsComplete(c: ReuseContext, e: Evidence) {
    && e.source.CacheReuse?
    && GateDefOf(c.gate).Some? && e.kind in GateDefOf(c.gate).value.kinds
    && HasConcreteGateProof(e)
    && HasText(e.source.recordId) && e.source.sourceEvidenceId.Some? && e.source.decisionId.Some?
    && e.source.proof.Some? && e.source.contract.Some?
    && e.projectId == c.projectId && e.gate == c.gate
    && Present(c.changeDigest) && c.changeDigest == Some(e.changeDigest)
    && (c.workOrderId != "" ==> e.workOrderId == c.workOrderId)
    && (c.runId != "" ==> e.runId == c.runId)
  }

  /** A stored decision that says HIT for exactly this evidence. */
  predicate DecisionBacks(d: Decision, c: ReuseContext, e: Evidence)
    requires e.source.CacheReuse?
  {
    && Some(d.id) == e.source.decisionId
    && d.projectId == c.projectId && d.gate == c.gate
    && (c.workOrderId != "" ==> d.workOrderId == Some(c.workOrderId))
    && (c.runId != "" ==> d.runId == Some(c.runId))
    && d.liveDigest == Some(e.changeDigest)
    && d.kind == Hit && d.maySatisfyGate
    && d.candidate == e.source.recordId
    && d.proof == e.source.proof
    && Some(d.contract) == e.source.contract
  }

  /** A stored record, still reusable, that this evidence repeats. */
  predicate RecordBacks(r: CacheRecord, c: ReuseContext, e: Evidence)
    requires e.source.CacheReuse?
  {
    && Some(r.id) == e.source.recordId
    && r.projectId == c.projectId && r.gate == c.gate
    && Some(r.evidenceId) == e.source.sourceEvidenceId
    && IsSemanticallyValid(r)
    && Some(r.proof) == e.source.proof
    && Some(r.contract) == e.source.contract
  }

  /** Reused evidence traces to a stored HIT and to a reusable record; executed evidence needs neither. */
  predicate ReuseIsValid(s: Store, c: ReuseContext, e: Evidence) {
    e.source.CacheReuse? ==>
      && ClaimIsComplete(c, e)
      && e.source.decisionId.value in s.decisions
      && DecisionBacks(s.decisions[e.source.decisionId.value], c, e)
      && e.source.recordId.value in s.records
      && RecordBacks(s.records[e.source.recordId.value], c, e)
  }

  datatype ReuseReason =
    | UnknownGate | MissingDigest | KindNotAllowed | ContractInvalid | MissingField(nat)
    | ProjectMismatch | GateMismatch | DigestMismatch | WorkOrderMismatch | RunMismatch
    | MissingDecision | DecisionMismatch(nat) | MissingRecord | RecordMismatch(nat)

  /** Records a reason when a condition fails. */
  function Demand(reasons: seq<ReuseReason>, ok: bool, reason: ReuseReason): (r: seq<ReuseReason>)
    ensures r == [] <==> ok && reasons == []
  {
    if ok then reasons else reasons + [reason]
  }

  method CheckClaim(c: ReuseContext, e: Evidence) returns (reasons: seq<ReuseReason>)
    requires e.source.CacheReuse?
    ensures reasons == [] <==> ClaimIsComplete(c, e)
  {
    var def := GateDefOf(c.gate);
    reasons := Demand([], def.Some?, UnknownGate);
    reasons := Demand(reasons, Present(c.changeDigest), MissingDigest);
    reasons := Demand(reasons, def.Some? ==> e.kind in def.value.kinds, KindNotAllowed);
    reasons := Demand(reasons, HasConcreteGateProof(e), ContractInvalid);
    reasons := Demand(reasons, HasText(e.source.recordId), MissingField(0));
    reasons := Demand(reasons, e.source.sourceEvidenceId.Some?, MissingField(1));
    reasons := Demand(reasons, e.source.decisionId.Some?, MissingField(2));
    reasons := Demand(reasons, e.source.proof.Some?, MissingField(3));
    reasons := Demand(reasons, e.source.contract.Some?, MissingField(4));
    reasons := Demand(reasons, e.projectId == c.projectId, ProjectMismatch);
    reasons := Demand(reasons, e.gate == c.gate, GateMismatch);
    reasons := Demand(reasons, Some(e.changeDigest) == c.changeDigest, DigestMismatch);
    reasons := Demand(reasons, c.workOrderId != "" ==> e.workOrderId == c.workOrderId, WorkOrderMismatch);
    reasons := Demand(reasons, c.runId != "" ==> e.runId == c.runId, RunMismatch);
  }

  method CheckDecision(d: Decision, c: ReuseContext, e: Evidence) returns (reasons: seq<ReuseReason>)
    requires e.source.CacheReuse?
    ensures reasons == [] <==> DecisionBacks(d, c, e)
  {
    reasons := Demand([], Some(d.id) == e.source.decisionId, DecisionMismatch(0));
    reasons := Demand(reasons, d.projectId == c.projectId, DecisionMismatch(1));
    reasons := Demand(reasons, d.gate == c.gate, DecisionMismatch(2));
    reasons := Demand(reasons, c.workOrderId != "" ==> d.workOrderId == Some(c.workOrderId), DecisionMismatch(3));
    reasons := Demand(reasons, c.runId != "" ==> d.runId == Some(c.runId), DecisionMismatch(4));
    reasons := Demand(reasons, d.liveDigest == Some(e.changeDigest), DecisionMismatch(5));
    reasons := Demand(reasons, d.kind == Hit && d.maySatisfyGate, DecisionMismatch(6));
    reasons := Demand(reasons, d.candidate == e.source.recordId, DecisionMismatch(7));
    reasons := Demand(reasons, d.proof == e.source.proof, DecisionMismatch(8));
    reasons := Demand(reasons, Some(d.contract) == e.source.contract, DecisionMismatch(9));
  }

  method CheckRecord(before: seq<ReuseReason>, r: CacheRecord, c: ReuseContext, e: Evidence) returns (reasons: seq<ReuseReason>)
    requires e.source.CacheReuse?
    ensures reasons == [] <==> before == [] && RecordBacks(r, c, e)
  {
    reasons := Demand(before, Some(r.id) == e.source.recordId, RecordMismatch(0));
    reasons := Demand(reasons, r.projectId == c.projectId, RecordMismatch(1));
    reasons := Demand(reasons, r.gate == c.gate, RecordMismatch(2));
    reasons := Demand(reasons, Some(r.evidenceId) == e.source.sourceEvidenceId, RecordMismatch(3));
    reasons := Demand(reasons, IsSemanticallyValid(r), RecordMismatch(4));
    reasons := Demand(reasons, Some(r.proof) == e.source.proof, RecordMismatch(5));
    reasons := Demand(reasons, Some(r.contract) == e.source.contract, RecordMismatch(6));
  }

  /** The accumulating check accepts exactly the evidence that traces. */
  method ValidateCacheReuseEvidence(s: Store, c: ReuseContext, e: Evidence)
    returns (valid: bool, reasons: seq<ReuseReason>)
    ensures valid <==> ReuseIsValid(s, c, e)
    ensures valid <==> reasons == []
  {
    if e.source.Executed? {
      return true, [];
    }
    reasons := CheckClaim(c, e);
    if reasons != [] {
      return false, reasons;
    }
    if e.source.decisionId.value !in s.decisions {
      return false, [MissingDecision];
    }
    reasons := CheckDecision(s.decisions[e.source.decisionId.value], c, e);
    if e.source.recordId.value !in s.records {
      return false, [MissingRecord] + reasons;
    }
    reasons := CheckRecord(reasons, s.records[e.source.recordId.value], c, e);
    valid := reasons == [];
  }
}
