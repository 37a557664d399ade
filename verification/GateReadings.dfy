/** When a gate passes, fails or blocks, read off the records themselves. */
module GateReadings {
  import opened Basics
  import opened Gates
  import opened Records
  import opened CacheIntegrity
  import opened Derivation

  predicate TakesCommands(gate: Gate) {
    gate in {
      Static, UnitTest, IntegrationTest, ContractTest, Build, DependencyAudit, DatabaseMigration, RollbackValidation,
      Web3Unit, Web3Fuzz, ReleaseCheck}
  }

  predicate TakesInvariants(gate: Gate) {
    gate in {ArchitectureConformance, Web3Invariant, FinancialNumericalValidation, SimulationInvariant}
  }

  /** The registry: commands for eleven gates, invariants, files or commands for four, a review for two, nothing for others. */
  lemma RegistryTakes(gate: Gate)
    ensures TakesCommands(gate) <==> GateDefOf(gate) == Some(GateDef(CommandContract, {CommandEvidence}, GateEvidence(gate)))
    ensures TakesInvariants(gate)
      <==> GateDefOf(gate) == Some(GateDef(InvariantContract, {InvariantEvidence, FileEvidence, CommandEvidence}, GateEvidence(gate)))
    ensures IsReviewGate(gate) <==> gate == SecurityReview || gate == PerformanceCheck
    ensures TakesCommands(gate) || TakesInvariants(gate) ==> !IsReviewGate(gate)
    ensures IsKnownGate(gate) <==> TakesCommands(gate) || TakesInvariants(gate) || gate == SecurityReview || gate == PerformanceCheck
  {
    EveryGateIsOfAKind(gate);
  }

  lemma EveryGateIsOfAKind(gate: Gate)
    ensures TakesCommands(gate) || TakesInvariants(gate) || gate == SecurityReview || gate == PerformanceCheck || gate.OtherGate?
    ensures gate.OtherGate? ==> GateDefOf(gate) == None
  {
  }

  predicate IsFilled(text: Option<string>) {
    text.Some? && text.value != ""
  }

  /** What was run or found, with its digest. */
  predicate ShowsProof(e: Evidence, gate: Gate) {
    match e.kind
    case CommandEvidence =>
      && (TakesCommands(gate) || TakesInvariants(gate))
      && IsFilled(e.command) && e.exitCode == Some(0) && IsFilled(e.outputRef) && IsFilled(e.outputDigest)
    case FileEvidence => TakesInvariants(gate) && IsFilled(e.fileRef) && IsFilled(e.fileDigest)
    case InvariantEvidence =>
      && TakesInvariants(gate)
      && ((IsFilled(e.outputRef) && IsFilled(e.outputDigest)) || (IsFilled(e.fileRef) && IsFilled(e.fileDigest)))
    case ReviewEvidence => false
  }

  /** Reused evidence names what it was derived from. */
  predicate NamesItsOrigin(e: Evidence) {
    e.source.CacheReuse? ==>
      && IsFilled(e.source.recordId) && e.source.sourceEvidenceId.Some? && e.source.decisionId.Some?
      && e.source.proof.Some? && e.source.contract.Some?
  }

  lemma SatisfiesExactlyWhen(e: Evidence, gate: Gate)
    ensures GateDefOf(gate).Some? && EvidenceSatisfiesGate(e, GateDefOf(gate).value)
      <==> e.status == EvidencePass && ShowsProof(e, gate) && NamesItsOrigin(e)
  {
    RegistryTakes(gate);
    EveryGateIsOfAKind(gate);
    if IsReviewGate(gate) {
      assert GateDefOf(gate).value.kinds == {ReviewEvidence};
    }
    hide GateDefOf, TakesCommands, TakesInvariants;
    match e.kind
    case CommandEvidence =>
    case FileEvidence =>
    case InvariantEvidence =>
    case ReviewEvidence =>
  }

  /** What the integrity check of reused evidence asks of its proof: the same, with something written in each text. */
  lemma ConcreteExactlyWhen(e: Evidence)
    ensures HasConcreteGateProof(e) <==>
      match e.kind
      case CommandEvidence =>
        && (TakesCommands(e.gate) || TakesInvariants(e.gate))
        && HasText(e.command) && e.exitCode == Some(0) && HasText(e.outputRef) && HasText(e.outputDigest)
      case FileEvidence => TakesInvariants(e.gate) && HasText(e.fileRef) && HasText(e.fileDigest)
      case InvariantEvidence =>
        && TakesInvariants(e.gate)
        && ((HasText(e.outputRef) && HasText(e.outputDigest)) || (HasText(e.fileRef) && HasText(e.fileDigest)))
      case ReviewEvidence => false
  {
    RegistryTakes(e.gate);
    EveryGateIsOfAKind(e.gate);
    if IsReviewGate(e.gate) {
      assert GateDefOf(e.gate).value.kinds == {ReviewEvidence};
    }
    hide GateDefOf, TakesCommands, TakesInvariants, HasText;
  }

  /** A record of this run, for this gate, at this digest. */
  predicate IsFor(e: Evidence, gate: Gate, digest: Option<string>, v: Validation) {
    && e.gate == gate && Some(e.changeDigest) == digest
    && e.projectId == v.projectId && e.workOrderId == v.workOrderId && e.runId == v.runId
  }

  /** It proves the gate: executed here, or reused and still backed by the cache. */
  predicate ProvesHere(e: Evidence, gate: Gate, digest: Option<string>, v: Validation) {
    && IsFor(e, gate, digest, v) && e.status == EvidencePass && ShowsProof(e, gate) && NamesItsOrigin(e)
    && (e.source.CacheReuse? ==> ReuseIsValid(v.store, ReuseContext(v.projectId, v.workOrderId, v.runId, gate, digest), e))
  }

  lemma ProvesHereExactlyWhen(e: Evidence, gate: Gate, digest: Option<string>, v: Validation)
    ensures Counting(gate, digest, Some(v))(e) <==> IsFor(e, gate, digest, v)
    ensures IsFor(e, gate, digest, v) && Proving(gate, digest, Some(v))(e) <==> ProvesHere(e, gate, digest, v)
  {
    SatisfiesExactlyWhen(e, gate);
    hide EvidenceSatisfiesGate, ShowsProof, NamesItsOrigin, GateDefOf, ReuseIsValid;
  }

  /** A gate no review decides blocks on one blocking record, else fails on one failing, else passes on one proof, else waits. */
  lemma EvidenceGateReads(gate: Gate, digest: Option<string>, evidence: seq<Evidence>, reviews: seq<Review>, v: Validation)
    requires gate != SecurityReview && gate != PerformanceCheck
    ensures var s := StatusOf(gate, digest, evidence, reviews, Some(v));
      && (s == GateBlocked <==> exists e :: e in evidence && IsFor(e, gate, digest, v) && e.status == EvidenceBlocked)
      && (s == GateBlocked || s == GateFail <==> exists e :: e in evidence && IsFor(e, gate, digest, v) && e.status != EvidencePass)
      && (s == GatePass <==>
            && (exists e :: e in evidence && ProvesHere(e, gate, digest, v))
            && forall e :: e in evidence && IsFor(e, gate, digest, v) ==> e.status == EvidencePass)
  {
    RegistryTakes(gate);
    forall e ensures Counting(gate, digest, Some(v))(e) <==> IsFor(e, gate, digest, v)
      ensures IsFor(e, gate, digest, v) && Proving(gate, digest, Some(v))(e) <==> ProvesHere(e, gate, digest, v)
    {
      ProvesHereExactlyWhen(e, gate, digest, v);
    }
    hide StatusOf, ProvesHere, IsFor, Counting, Proving;
    EvidenceStatusMeaning(gate, digest, evidence, reviews, Some(v));
  }

  predicate IsReviewFor(r: Review, reviewer: Role, digest: Option<string>, v: Validation) {
    && r.role == reviewer && Some(r.changeDigest) == digest
    && r.projectId == v.projectId && r.workOrderId == v.workOrderId && r.runId == v.runId
  }

  predicate ContradictsItself(r: Review) {
    r.verdict == Approved && exists i :: 0 <= i < |r.findings| && (r.findings[i] == High || r.findings[i] == Critical)
  }

  /** A review gate, at a digest, fails on an approval with a serious finding, else blocks on a blocking review, else fails on a
      correction, else passes on an approval, else waits. */
  lemma ReviewGateReads(gate: Gate, digest: Option<string>, evidence: seq<Evidence>, reviews: seq<Review>, v: Validation)
    requires gate == SecurityReview || gate == PerformanceCheck
    ensures var s := StatusOf(gate, digest, evidence, reviews, Some(v));
      var reviewer := if gate == SecurityReview then SecurityReviewer else PerformanceReviewer;
      && (digest == None || digest == Some("") ==> s == GatePending)
      && (digest != None && digest != Some("") ==>
            && (s == GatePass <==>
                  && (exists r :: r in reviews && IsReviewFor(r, reviewer, digest, v))
                  && forall r :: r in reviews && IsReviewFor(r, reviewer, digest, v) ==> r.verdict == Approved && !ContradictsItself(r))
            && (s == GateBlocked <==>
                  && (exists r :: r in reviews && IsReviewFor(r, reviewer, digest, v) && r.verdict == VerdictBlocked)
                  && forall r :: r in reviews && IsReviewFor(r, reviewer, digest, v) ==> !ContradictsItself(r))
            && (s == GatePending <==> forall r :: r in reviews ==> !IsReviewFor(r, reviewer, digest, v)))
  {
    var reviewer := if gate == SecurityReview then SecurityReviewer else PerformanceReviewer;
    var p := CountingReviews(reviewer, digest, Some(v));
    assert IsReviewGate(gate) && GateDefOf(gate).value.contract.reviewer == reviewer;
    assert forall r :: p(r) <==> IsReviewFor(r, reviewer, digest, v);
    hide CountingReviews, GateDefOf;
    assert Present(digest) ==> StatusOf(gate, digest, evidence, reviews, Some(v)) == Adjudicate(Filter(reviews, p));
    hide StatusOf, IsReviewFor;
    AdjudicationReads(Filter(reviews, p));
  }

  lemma AdjudicationReads(current: seq<Review>)
    ensures var s := Adjudicate(current);
      && (s == GatePass <==> current != [] && forall r :: r in current ==> r.verdict == Approved && !ContradictsItself(r))
      && (s == GateBlocked <==>
            (exists r :: r in current && r.verdict == VerdictBlocked) && forall r :: r in current ==> !ContradictsItself(r))
      && (s == GatePending <==> current == [])
  {
    assert forall r :: IsContradiction(r) <==> ContradictsItself(r);
    hide IsContradiction, ContradictsItself;
    if current != [] { assert current[0] in current; }
  }

  lemma {:induction false} LastMatch(evidence: seq<Evidence>, p: Evidence -> bool) returns (k: nat)
    requires Filter(evidence, p) != []
    ensures k < |evidence| && p(evidence[k]) && evidence[k] == Filter(evidence, p)[|Filter(evidence, p)| - 1]
    ensures forall j :: k < j < |evidence| ==> !p(evidence[j])
  {
    var init, last := evidence[..|evidence| - 1], evidence[|evidence| - 1];
    if p(last) {
      k := |evidence| - 1;
    } else {
      k := LastMatch(init, p);
    }
  }

  /** A passing gate names the last proof on record. */
  lemma PassNamesLastProof(gate: Gate, digest: Option<string>, evidence: seq<Evidence>, reviews: seq<Review>, v: Validation) returns (k: nat)
    requires gate != SecurityReview && gate != PerformanceCheck && StatusOf(gate, digest, evidence, reviews, Some(v)) == GatePass
    ensures k < |evidence| && ProvesHere(evidence[k], gate, digest, v)
    ensures DeriveGate(gate, digest, evidence, reviews, Some(v)).evidenceId == Some(evidence[k].evidenceId)
    ensures forall j :: k < j < |evidence| ==> !ProvesHere(evidence[j], gate, digest, v)
  {
    RegistryTakes(gate);
    var counts, proves := Counting(gate, digest, Some(v)), Proving(gate, digest, Some(v));
    var both := Both(counts, proves);
    forall e ensures both(e) <==> ProvesHere(e, gate, digest, v) { ProvesHereExactlyWhen(e, gate, digest, v); }
    var state := DeriveGate(gate, digest, evidence, reviews, Some(v));
    assert state == Grade(gate, Filter(evidence, counts), proves) && state.status == GatePass;
    hide ProvesHere, Counting, Proving, DeriveGate, StatusOf, Grade, Filter, Both;
    FilterTwiceIsBoth(evidence, counts, proves);
    GradePassNames(gate, Filter(evidence, counts), proves);
    k := LastMatch(evidence, both);
  }

  lemma GradePassNames(gate: Gate, current: seq<Evidence>, proves: Evidence -> bool)
    requires Grade(gate, current, proves).status == GatePass
    ensures var passing := Filter(current, proves);
      passing != [] && Grade(gate, current, proves).evidenceId == Some(passing[|passing| - 1].evidenceId)
  {
  }
}
