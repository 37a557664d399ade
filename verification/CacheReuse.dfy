/** Applying cache hits to a run, and why the result refines gate derivation. */
module CacheReuse {
  import opened Basics
  import opened Gates
  import opened Records
  import opened CacheIntegrity
  import opened CacheValidity
  import opened CacheStore
  import opened CacheSearch
  import opened CacheDecision
  import opened Derivation

  /** The cache, the evidence ledger and the clock. */
  datatype World = World(store: Store, evidence: seq<Evidence>, now: Tick)

  function AskerOf(run: Run, bundle: Option<Bundle>, env: Env): Asker {
    Asker(run.projectId, Some(run.workOrderId), Some(run.runId), run.currentDigest, bundle, env)
  }

  function FirstStatus(gate: Gate, states: seq<GateState>): Option<GateStatus> {
    if states == [] then None
    else if states[0].gate == gate then Some(states[0].status)
    else FirstStatus(gate, states[1..])
  }

  /** Only an eligible gate still pending is offered a cached PASS. */
  predicate IsOffered(gate: Gate, states: seq<GateState>) {
    IsCacheEligibleGate(gate) && FirstStatus(gate, states) in {None, Some(GatePending)}
  }

  const SIDECAR_PREFIX := "sidecar://cache/evidence/"

  /** The evidence a hit on a record contributes. */
  function DerivedEvidence(run: Run, digest: string, r: CacheRecord, d: Decision): Evidence {
    Evidence(
      d.id + 1, run.projectId, run.workOrderId, run.runId, digest, d.gate, r.kind, EvidencePass,
      r.command, if r.kind == CommandEvidence then Some(0) else None,
      if Present(r.outputDigest) then Some(SIDECAR_PREFIX + r.id) else None, r.outputDigest,
      None, r.fileDigest,
      CacheReuse(Some(r.id), Some(r.evidenceId), Some(d.id), d.proof, Some(d.contract)))
  }

  /** A hit is applied when the run has a digest to attach it to and the record's id is not blank. */
  ghost predicate IsApplied(s: Store, run: Run, a: Asker, gate: Gate)
    requires WellFormed(s)
  {
    IsHit(s, a, gate) && Present(run.currentDigest) && HasInk(CandidateOf(s, a, gate).value)
  }

  ghost function Derived(s: Store, run: Run, a: Asker, gate: Gate, now: Tick): Evidence
    requires WellFormed(s) && IsApplied(s, run, a, gate)
  {
    DerivedEvidence(run, run.currentDigest.value, s.records[CandidateOf(s, a, gate).value], DecisionOf(s, a, gate, now))
  }

  ghost function AppliedTo(w: World, run: Run, a: Asker, states: seq<GateState>, gate: Gate): (r: World)
    requires WellFormed(w.store)
    ensures WellFormed(r.store)
  {
    if IsCacheEligibleGate(gate) && !IsOffered(gate, states) then w
    else
      EvaluationAges(w.store, a, gate, w.now);
      var store := Evaluated(w.store, a, gate, w.now);
      if IsOffered(gate, states) && IsApplied(w.store, run, a, gate) then
        World(store, w.evidence + [Derived(w.store, run, a, gate, w.now)], w.now + 2)
      else World(store, w.evidence, w.now + 1)
  }

  ghost function AppliedToAll(w: World, run: Run, a: Asker, states: seq<GateState>, gates: seq<Gate>): (r: World)
    requires WellFormed(w.store)
    ensures WellFormed(r.store)
  {
    if gates == [] then w
    else AppliedTo(AppliedToAll(w, run, a, states, gates[..|gates| - 1]), run, a, states, gates[|gates| - 1])
  }

  function ContextOf(run: Run, gate: Gate): ReuseContext {
    ReuseContext(run.projectId, run.workOrderId, run.runId, gate, run.currentDigest)
  }

  lemma InkAppends(prefix: string, text: string)
    requires HasInk(prefix)
    ensures HasInk(prefix + text)
  {
    if !IsBlank(prefix[0]) {
    } else {
      InkAppends(prefix[1..], text);
      assert (prefix + text)[1..] == prefix[1..] + text;
    }
  }

  /** What a decision and a record must share for the evidence made from them to stand. */
  predicate Supports(run: Run, r: CacheRecord, d: Decision) {
    && Present(run.currentDigest) && IsCacheEligibleGate(d.gate)
    && r.projectId == run.projectId == d.projectId && r.gate == d.gate && IsSemanticallyValid(r) && HasInk(r.id)
    && d.kind == Hit && d.maySatisfyGate && d.candidate == Some(r.id) && d.proof == Some(r.proof) && d.contract == r.contract
    && d.workOrderId == Some(run.workOrderId) && d.runId == Some(run.runId) && d.liveDigest == run.currentDigest
  }

  lemma SupportedEvidenceIsValid(t: Store, run: Run, r: CacheRecord, d: Decision)
    requires Supports(run, r, d)
    requires r.id in t.records && t.records[r.id] == r && d.id in t.decisions && t.decisions[d.id] == d
    ensures var e := DerivedEvidence(run, run.currentDigest.value, r, d);
      ReuseIsValid(t, ContextOf(run, d.gate), e) && HasConcreteGateProof(e) && e.kind == CommandEvidence
  {
    EligibleGatesAreCommandGates(d.gate);
    InkAppends(SIDECAR_PREFIX, r.id);
    hide HasInk;
  }

  /** The evidence of an applied hit traces to the decision and the record just stored. */
  lemma DerivedEvidenceIsValid(s: Store, run: Run, a: Asker, gate: Gate, now: Tick)
    requires WellFormed(s) && IsApplied(s, run, a, gate) && a == AskerOf(run, a.bundle, a.env)
    ensures ReuseIsValid(Evaluated(s, a, gate, now), ContextOf(run, gate), Derived(s, run, a, gate, now))
    ensures HasConcreteGateProof(Derived(s, run, a, gate, now))
    ensures Derived(s, run, a, gate, now).kind == CommandEvidence
  {
    HitIsUsable(s, a, gate);
    HitContractIsLive(s, a, gate);
    EvaluationAges(s, a, gate, now);
    AgingKeepsHits(s, Evaluated(s, a, gate, now), gate, a);
    hide IsSemanticallyValid, HasInk, IsCacheEligibleGate, ReuseIsValid, HasConcreteGateProof, Ages, MarkedBy, IsCurrent;
    var r := s.records[CandidateOf(s, a, gate).value];
    assert r.id == CandidateOf(s, a, gate).value;
    SupportedEvidenceIsValid(Evaluated(s, a, gate, now), run, r, DecisionOf(s, a, gate, now));
  }

  lemma HitContractIsLive(s: Store, a: Asker, gate: Gate)
    requires WellFormed(s) && IsHit(s, a, gate)
    ensures s.records[CandidateOf(s, a, gate).value].contract == ContractFor(gate, a.env)
  {
    HitIsUsable(s, a, gate);
    assert !HasChanged(s.records[CandidateOf(s, a, gate).value], a.bundle.value, a.env, ContractChanged);
  }

  /** Every decision the store and the ledger speak of was made before now. */
  ghost predicate IsDated(w: World) {
    && (forall d :: d in w.store.decisions ==> d < w.now)
    && (forall e :: e in w.evidence && e.source.CacheReuse? && e.source.decisionId.Some? ==> e.source.decisionId.value < w.now)
  }

  ghost predicate KeepsDecisions(w: World, u: World) {
    && w.now <= u.now
    && (forall d :: d in w.store.decisions ==> d in u.store.decisions && u.store.decisions[d] == w.store.decisions[d])
    && (forall d :: d in u.store.decisions ==> d in w.store.decisions || w.now <= d < u.now)
  }

  /** Records outside the offered gates are left alone. */
  ghost predicate TouchesOnly(w: World, u: World, gates: set<Gate>) {
    && u.store.records.Keys == w.store.records.Keys
    && forall id :: id in w.store.records && w.store.records[id].gate !in gates ==> u.store.records[id] == w.store.records[id]
  }

  ghost function OfferedAmong(gates: seq<Gate>, states: seq<GateState>): set<Gate> {
    set g | g in gates && IsOffered(g, states)
  }

  /** Evidence an application added: it stands in the store reached, for a gate that was a hit at the start. */
  ghost predicate IsFreshProof(start: Store, store: Store, run: Run, a: Asker, offered: set<Gate>, e: Evidence)
    requires WellFormed(start)
  {
    && e.gate in offered && IsApplied(start, run, a, e.gate)
    && e.status == EvidencePass && e.kind == CommandEvidence && e.source.CacheReuse?
    && HasConcreteGateProof(e)
    && e.projectId == run.projectId && e.workOrderId == run.workOrderId && e.runId == run.runId
    && e.source.recordId.Some? && e.source.recordId.value in store.records
    && IsUsable(store.records[e.source.recordId.value], e.gate, LiveOf(a))
    && ReuseIsValid(store, ContextOf(run, e.gate), e)
  }

  ghost predicate Progress(w: World, u: World, run: Run, a: Asker, offered: set<Gate>)
    requires WellFormed(w.store)
  {
    && WellFormed(u.store) && Ages(w.store, u.store, a) && KeepsDecisions(w, u) && TouchesOnly(w, u, offered)
    && w.evidence <= u.evidence
    && (forall i :: |w.evidence| <= i < |u.evidence| ==> IsFreshProof(w.store, u.store, run, a, offered, u.evidence[i]))
    && (forall g :: g in offered && IsApplied(w.store, run, a, g) ==>
          exists i :: |w.evidence| <= i < |u.evidence| && u.evidence[i].gate == g)
  }

  lemma StepKeepsDecisions(w: World, run: Run, a: Asker, states: seq<GateState>, gate: Gate)
    requires WellFormed(w.store) && forall d :: d in w.store.decisions ==> d < w.now
    ensures var u := AppliedTo(w, run, a, states, gate);
      && KeepsDecisions(w, u) && Ages(w.store, u.store, a) && w.evidence <= u.evidence
      && TouchesOnly(w, u, OfferedAmong([gate], states))
      && forall d :: d in u.store.decisions ==> d < u.now
  {
    if !IsCacheEligibleGate(gate) || IsOffered(gate, states) {
      EvaluationAges(w.store, a, gate, w.now);
      forall id | id in w.store.records && w.store.records[id].gate !in OfferedAmong([gate], states)
        ensures id !in MarkedBy(w.store, a, gate)
      {
      }
    }
  }

  lemma FreshProofSurvives(start: Store, s: Store, t: Store, run: Run, a: Asker, offered: set<Gate>, more: set<Gate>, e: Evidence)
    requires WellFormed(start) && IsFreshProof(start, s, run, a, offered, e) && offered <= more
    requires Ages(s, t, a) && forall d :: d in s.decisions ==> d in t.decisions && t.decisions[d] == s.decisions[d]
    ensures IsFreshProof(start, t, run, a, more, e)
  {
    var id := e.source.recordId.value;
    assert HasOnlyAged(s.records[id], t.records[id], a);
    assert t.records[id] == s.records[id];
  }

  lemma StepAddsFreshProof(w: World, run: Run, a: Asker, states: seq<GateState>, gate: Gate)
    requires WellFormed(w.store) && a == AskerOf(run, a.bundle, a.env)
    requires IsOffered(gate, states) && IsApplied(w.store, run, a, gate)
    ensures var u := AppliedTo(w, run, a, states, gate);
      u.evidence == w.evidence + [Derived(w.store, run, a, gate, w.now)]
      && IsFreshProof(w.store, u.store, run, a, {gate}, Derived(w.store, run, a, gate, w.now))
  {
    DerivedEvidenceIsValid(w.store, run, a, gate, w.now);
    HitIsUsable(w.store, a, gate);
    EvaluationAges(w.store, a, gate, w.now);
    AgingKeepsHits(w.store, Evaluated(w.store, a, gate, w.now), gate, a);
  }

  lemma ProgressIsReflexive(w: World, run: Run, a: Asker)
    requires WellFormed(w.store)
    ensures Progress(w, w, run, a, {})
  {
  }

  lemma KeepingComposes(w: World, u: World, v: World, a: Asker, some: set<Gate>, more: set<Gate>)
    requires KeepsDecisions(w, u) && KeepsDecisions(u, v)
    requires TouchesOnly(w, u, some) && TouchesOnly(u, v, more) && Ages(w.store, u.store, a)
    ensures KeepsDecisions(w, v) && TouchesOnly(w, v, some + more)
  {
    forall id | id in w.store.records && w.store.records[id].gate !in some + more
      ensures v.store.records[id] == w.store.records[id]
    {
      assert u.store.records[id] == w.store.records[id];
    }
  }

  lemma HitStaysAdded(w: World, u: World, run: Run, a: Asker, states: seq<GateState>, some: set<Gate>, gate: Gate, g: Gate)
    requires WellFormed(w.store) && Progress(w, u, run, a, some) && a == AskerOf(run, a.bundle, a.env)
    requires IsApplied(u.store, run, a, gate) <==> IsApplied(w.store, run, a, gate)
    requires g in some || g in OfferedAmong([gate], states)
    requires IsApplied(w.store, run, a, g)
    ensures var v := AppliedTo(u, run, a, states, gate);
      exists i :: |w.evidence| <= i < |v.evidence| && v.evidence[i].gate == g
  {
    hide IsFreshProof, IsApplied, Evaluated, Ages, KeepsDecisions, TouchesOnly;
    var v := AppliedTo(u, run, a, states, gate);
    assert u.evidence <= v.evidence;
    if g in some {
      assert exists i :: |w.evidence| <= i < |u.evidence| && u.evidence[i].gate == g;
    } else {
      StepAddsFreshProof(u, run, a, states, gate);
    }
    HitIsAdded(|w.evidence|, u.evidence, v.evidence, g);
  }

  /** One more gate extends what an application has achieved so far. */
  lemma ProgressExtends(w: World, u: World, run: Run, a: Asker, states: seq<GateState>, some: set<Gate>, gate: Gate)
    requires WellFormed(w.store) && Progress(w, u, run, a, some) && a == AskerOf(run, a.bundle, a.env)
    requires forall d :: d in u.store.decisions ==> d < u.now
    ensures Progress(w, AppliedTo(u, run, a, states, gate), run, a, some + OfferedAmong([gate], states))
  {
    var v, more := AppliedTo(u, run, a, states, gate), some + OfferedAmong([gate], states);
    StepKeepsDecisions(u, run, a, states, gate);
    AgesIsTransitive(w.store, u.store, v.store, a);
    KeepingComposes(w, u, v, a, some, OfferedAmong([gate], states));
    AgingKeepsHits(w.store, u.store, gate, a);
    assert IsApplied(u.store, run, a, gate) <==> IsApplied(w.store, run, a, gate);
    forall i | |w.evidence| <= i < |v.evidence| ensures IsFreshProof(w.store, v.store, run, a, more, v.evidence[i]) {
      EvidenceStaysFresh(w, u, v, run, a, states, some, gate, i);
    }
    forall g | g in more && IsApplied(w.store, run, a, g)
      ensures exists i :: |w.evidence| <= i < |v.evidence| && v.evidence[i].gate == g
    {
      HitStaysAdded(w, u, run, a, states, some, gate, g);
    }
  }

  lemma EvidenceStaysFresh(w: World, u: World, v: World, run: Run, a: Asker, states: seq<GateState>, some: set<Gate>, gate: Gate, i: nat)
    requires WellFormed(w.store) && WellFormed(u.store) && a == AskerOf(run, a.bundle, a.env)
    requires i < |u.evidence| ==> IsFreshProof(w.store, u.store, run, a, some, u.evidence[i])
    requires v == AppliedTo(u, run, a, states, gate)
    requires Ages(u.store, v.store, a) && KeepsDecisions(u, v) && u.evidence <= v.evidence && i < |v.evidence|
    requires IsApplied(u.store, run, a, gate) <==> IsApplied(w.store, run, a, gate)
    ensures IsFreshProof(w.store, v.store, run, a, some + OfferedAmong([gate], states), v.evidence[i])
  {
    var more := some + OfferedAmong([gate], states);
    if i < |u.evidence| {
      hide IsFreshProof, Ages, AppliedTo;
      assert v.evidence[i] == u.evidence[i];
      FreshProofSurvives(w.store, u.store, v.store, run, a, some, more, u.evidence[i]);
    } else {
      StepAddsFreshProof(u, run, a, states, gate);
      assert gate in OfferedAmong([gate], states);
    }
  }

  lemma HitIsAdded(base: nat, before: seq<Evidence>, after: seq<Evidence>, gate: Gate)
    requires base <= |before| && before <= after
    requires (exists i :: base <= i < |before| && before[i].gate == gate) || (|before| < |after| && after[|before|].gate == gate)
    ensures exists i :: base <= i < |after| && after[i].gate == gate
  {
    if i :| base <= i < |before| && before[i].gate == gate {
      assert after[i].gate == gate;
    }
  }

  /** What applying to a list of gates achieves, all told against the store it started from. */
  lemma {:induction false} ApplicationProgress(w: World, run: Run, a: Asker, states: seq<GateState>, gates: seq<Gate>)
    requires WellFormed(w.store) && a == AskerOf(run, a.bundle, a.env)
    requires forall d :: d in w.store.decisions ==> d < w.now
    ensures Progress(w, AppliedToAll(w, run, a, states, gates), run, a, OfferedAmong(gates, states))
    ensures var u := AppliedToAll(w, run, a, states, gates); forall d :: d in u.store.decisions ==> d < u.now
  {
    if gates == [] {
      ProgressIsReflexive(w, run, a);
      assert OfferedAmong(gates, states) == {};
    } else {
      var init, last := gates[..|gates| - 1], gates[|gates| - 1];
      ApplicationProgress(w, run, a, states, init);
      var u := AppliedToAll(w, run, a, states, init);
      ProgressExtends(w, u, run, a, states, OfferedAmong(init, states), last);
      StepKeepsDecisions(u, run, a, states, last);
      assert gates == init + [last];
      assert OfferedAmong(gates, states) == OfferedAmong(init, states) + OfferedAmong([last], states);
    }
  }

  /** Reuse that stood before still stands, unless its record's gate was offered; reuse that did not, does not now. */
  lemma ReuseIsFramed(w: World, u: World, a: Asker, offered: set<Gate>, c: ReuseContext, e: Evidence)
    requires IsDated(w) && e in w.evidence && e.gate == c.gate
    requires Ages(w.store, u.store, a) && KeepsDecisions(w, u) && TouchesOnly(w, u, offered)
    ensures ReuseIsValid(u.store, c, e) ==> ReuseIsValid(w.store, c, e)
    ensures ReuseIsValid(w.store, c, e) && c.gate !in offered ==> ReuseIsValid(u.store, c, e)
  {
    if e.source.CacheReuse? && ClaimIsComplete(c, e) && e.source.recordId.value in w.store.records {
      var id := e.source.recordId.value;
      assert HasOnlyAged(w.store.records[id], u.store.records[id], a);
    }
  }

  function ValidationOf(run: Run, store: Store): Option<Validation> {
    Some(Validation(run.projectId, run.workOrderId, run.runId, store))
  }

  lemma ProvesIsFramed(w: World, u: World, run: Run, a: Asker, offered: set<Gate>, gate: Gate, e: Evidence)
    requires IsDated(w) && e in w.evidence && e.gate == gate
    requires Ages(w.store, u.store, a) && KeepsDecisions(w, u) && TouchesOnly(w, u, offered)
    ensures Proves(e, gate, run.currentDigest, ValidationOf(run, u.store)) ==> Proves(e, gate, run.currentDigest, ValidationOf(run, w.store))
    ensures Proves(e, gate, run.currentDigest, ValidationOf(run, w.store)) && gate !in offered ==>
      Proves(e, gate, run.currentDigest, ValidationOf(run, u.store))
  {
    ReuseIsFramed(w, u, a, offered, ContextOf(run, gate), e);
  }

  lemma FreshProofProves(start: Store, store: Store, run: Run, a: Asker, offered: set<Gate>, e: Evidence)
    requires WellFormed(start) && IsFreshProof(start, store, run, a, offered, e)
    ensures Counts(e, e.gate, run.currentDigest, ValidationOf(run, store))
    ensures Proves(e, e.gate, run.currentDigest, ValidationOf(run, store))
  {
    HasTextIsPresent(e.command);
    HasTextIsPresent(e.outputRef);
    HasTextIsPresent(e.outputDigest);
    HasTextIsPresent(e.source.recordId);
  }

  lemma {:induction false} FirstStatusIsDerived(gates: seq<Gate>, digest: Option<string>, evidence: seq<Evidence>, reviews: seq<Review>, v: Option<Validation>, gate: Gate)
    requires gate in gates
    ensures FirstStatus(gate, DeriveGateStates(gates, digest, evidence, reviews, v)) == Some(StatusOf(gate, digest, evidence, reviews, v))
  {
    var states := DeriveGateStates(gates, digest, evidence, reviews, v);
    DerivedForItsGate(gates[0], digest, evidence, reviews, v);
    hide DeriveGate;
    if gates[0] != gate {
      assert states[1..] == DeriveGateStates(gates[1..], digest, evidence, reviews, v);
      FirstStatusIsDerived(gates[1..], digest, evidence, reviews, v, gate);
    }
  }

  lemma DerivedForItsGate(gate: Gate, digest: Option<string>, evidence: seq<Evidence>, reviews: seq<Review>, v: Option<Validation>)
    ensures DeriveGate(gate, digest, evidence, reviews, v).gate == gate
  {
    hide Filter, ReviewGateStatus;
  }

  ghost predicate SomeObjection(evidence: seq<Evidence>, counts: Evidence -> bool) {
    exists e :: e in evidence && counts(e) && e.status != EvidencePass
  }

  ghost predicate SomeBlock(evidence: seq<Evidence>, counts: Evidence -> bool) {
    exists e :: e in evidence && counts(e) && e.status == EvidenceBlocked
  }

  ghost predicate SomeProof(evidence: seq<Evidence>, counts: Evidence -> bool, proves: Evidence -> bool) {
    exists e :: e in evidence && counts(e) && proves(e)
  }

  lemma StatusFromParts(gate: Gate, digest: Option<string>, evidence: seq<Evidence>, reviews: seq<Review>, v: Option<Validation>)
    requires !IsReviewGate(gate)
    ensures var s, counts := StatusOf(gate, digest, evidence, reviews, v), Counting(gate, digest, v);
      s == if SomeBlock(evidence, counts) then GateBlocked
           else if SomeObjection(evidence, counts) then GateFail
           else if SomeProof(evidence, counts, Proving(gate, digest, v)) then GatePass
           else GatePending
  {
    EvidenceStatusMeaning(gate, digest, evidence, reviews, v);
  }

  /** What an application adds or ages leaves blocks and objections as they were, and makes a proof exactly for its hits. */
  lemma PartsAfterApplication(w: World, u: World, run: Run, a: Asker, offered: set<Gate>, gate: Gate)
    requires WellFormed(w.store) && IsDated(w) && Progress(w, u, run, a, offered)
    ensures var before, after := ValidationOf(run, w.store), ValidationOf(run, u.store);
      var c0, c1 := Counting(gate, run.currentDigest, before), Counting(gate, run.currentDigest, after);
      && (SomeBlock(u.evidence, c1) <==> SomeBlock(w.evidence, c0))
      && (SomeObjection(u.evidence, c1) <==> SomeObjection(w.evidence, c0))
  {
    var c0, c1 := Counting(gate, run.currentDigest, ValidationOf(run, w.store)), Counting(gate, run.currentDigest, ValidationOf(run, u.store));
    forall e | e in u.evidence && e.status != EvidencePass ensures e in w.evidence {
      var i :| 0 <= i < |u.evidence| && u.evidence[i] == e;
      assert i < |w.evidence| ==> w.evidence[i] == e;
    }
    assert forall e :: e in w.evidence ==> e in u.evidence;
    assert forall e :: c0(e) <==> c1(e);
  }

  ghost predicate HasProof(w: World, run: Run, gate: Gate) {
    SomeProof(w.evidence, Counting(gate, run.currentDigest, ValidationOf(run, w.store)), Proving(gate, run.currentDigest, ValidationOf(run, w.store)))
  }

  lemma HasProofFrom(w: World, run: Run, gate: Gate, e: Evidence)
    requires e in w.evidence && Counts(e, gate, run.currentDigest, ValidationOf(run, w.store))
    requires Proves(e, gate, run.currentDigest, ValidationOf(run, w.store))
    ensures HasProof(w, run, gate)
  {
    assert Counting(gate, run.currentDigest, ValidationOf(run, w.store))(e);
    assert Proving(gate, run.currentDigest, ValidationOf(run, w.store))(e);
  }

  lemma ProofOf(w: World, run: Run, gate: Gate) returns (e: Evidence)
    requires HasProof(w, run, gate)
    ensures e in w.evidence && Counts(e, gate, run.currentDigest, ValidationOf(run, w.store))
    ensures Proves(e, gate, run.currentDigest, ValidationOf(run, w.store))
  {
    e :| e in w.evidence && Counting(gate, run.currentDigest, ValidationOf(run, w.store))(e)
      && Proving(gate, run.currentDigest, ValidationOf(run, w.store))(e);
  }

  /** A proof found afterwards was there before, or is what a hit contributed. */
  lemma NewProofsAreHits(w: World, u: World, run: Run, a: Asker, offered: set<Gate>, gate: Gate)
    requires WellFormed(w.store) && IsDated(w) && Progress(w, u, run, a, offered) && HasProof(u, run, gate)
    ensures HasProof(w, run, gate) || (gate in offered && IsApplied(w.store, run, a, gate))
  {
    var e := ProofOf(u, run, gate);
    var i :| 0 <= i < |u.evidence| && u.evidence[i] == e;
    if i < |w.evidence| {
      assert w.evidence[i] == e;
      ProvesIsFramed(w, u, run, a, offered, gate, e);
      HasProofFrom(w, run, gate, e);
    } else {
      assert IsFreshProof(w.store, u.store, run, a, offered, e);
    }
  }

  lemma OldProofsSurvive(w: World, u: World, run: Run, a: Asker, offered: set<Gate>, gate: Gate)
    requires WellFormed(w.store) && IsDated(w) && Progress(w, u, run, a, offered) && HasProof(w, run, gate) && gate !in offered
    ensures HasProof(u, run, gate)
  {
    var e := ProofOf(w, run, gate);
    ProvesIsFramed(w, u, run, a, offered, gate, e);
    HasProofFrom(u, run, gate, e);
  }

  lemma HitsAreProofs(w: World, u: World, run: Run, a: Asker, offered: set<Gate>, gate: Gate)
    requires WellFormed(w.store) && Progress(w, u, run, a, offered)
    requires gate in offered && IsApplied(w.store, run, a, gate)
    ensures HasProof(u, run, gate)
  {
    var i :| |w.evidence| <= i < |u.evidence| && u.evidence[i].gate == gate;
    assert IsFreshProof(w.store, u.store, run, a, offered, u.evidence[i]);
    FreshProofProves(w.store, u.store, run, a, offered, u.evidence[i]);
    HasProofFrom(u, run, gate, u.evidence[i]);
  }

  lemma StatusAfterApplication(w: World, u: World, run: Run, a: Asker, offered: set<Gate>, reviews: seq<Review>, gate: Gate)
    requires WellFormed(w.store) && IsDated(w) && Progress(w, u, run, a, offered) && !IsReviewGate(gate)
    requires gate in offered ==> StatusOf(gate, run.currentDigest, w.evidence, reviews, ValidationOf(run, w.store)) == GatePending
    ensures StatusOf(gate, run.currentDigest, u.evidence, reviews, ValidationOf(run, u.store))
      == if gate in offered && IsApplied(w.store, run, a, gate) then GatePass
         else StatusOf(gate, run.currentDigest, w.evidence, reviews, ValidationOf(run, w.store))
  {
    StatusFromParts(gate, run.currentDigest, w.evidence, reviews, ValidationOf(run, w.store));
    StatusFromParts(gate, run.currentDigest, u.evidence, reviews, ValidationOf(run, u.store));
    PartsAfterApplication(w, u, run, a, offered, gate);
    if HasProof(u, run, gate) { NewProofsAreHits(w, u, run, a, offered, gate); }
    if HasProof(w, run, gate) && gate !in offered { OldProofsSurvive(w, u, run, a, offered, gate); }
    if gate in offered && IsApplied(w.store, run, a, gate) { HitsAreProofs(w, u, run, a, offered, gate); }
  }

  /** Deriving after an application turns to PASS exactly the pending eligible gates that were a hit, and changes no other status. */
  lemma ApplicationRefinesDerivation(w: World, run: Run, a: Asker, reviews: seq<Review>, gate: Gate)
    requires WellFormed(w.store) && IsDated(w) && a == AskerOf(run, a.bundle, a.env)
    ensures var d := run.currentDigest;
      var states := DeriveGateStates(run.selectedGates, d, w.evidence, reviews, ValidationOf(run, w.store));
      var u := AppliedToAll(w, run, a, states, run.selectedGates);
      var before := StatusOf(gate, d, w.evidence, reviews, ValidationOf(run, w.store));
      StatusOf(gate, d, u.evidence, reviews, ValidationOf(run, u.store))
        == if before == GatePending && gate in run.selectedGates && IsCacheEligibleGate(gate) && IsApplied(w.store, run, a, gate)
           then GatePass else before
  {
    hide IsApplied, AppliedToAll;
    var d, v0 := run.currentDigest, ValidationOf(run, w.store);
    var states := DeriveGateStates(run.selectedGates, d, w.evidence, reviews, v0);
    var u := AppliedToAll(w, run, a, states, run.selectedGates);
    var offered := OfferedAmong(run.selectedGates, states);
    if IsReviewGate(gate) {
      ReviewsIgnoreStore(gate, d, reviews, v0.value, u.store);
      assert ValidationOf(run, u.store) == Some(v0.value.(store := u.store));
    } else {
      ApplicationProgress(w, run, a, states, run.selectedGates);
      if gate in run.selectedGates {
        FirstStatusIsDerived(run.selectedGates, d, w.evidence, reviews, v0, gate);
      }
      StatusAfterApplication(w, u, run, a, offered, reviews, gate);
    }
  }

  /** A PASS resting on reuse traces to a stored HIT decision and a reusable record of the same project, gate, proof and contract. */
  lemma ReusedPassTraces(run: Run, store: Store, evidence: seq<Evidence>, reviews: seq<Review>, gate: Gate)
    requires !IsReviewGate(gate)
    requires StatusOf(gate, run.currentDigest, evidence, reviews, ValidationOf(run, store)) == GatePass
    ensures exists e :: (e in evidence
      && DeriveGate(gate, run.currentDigest, evidence, reviews, ValidationOf(run, store)).evidenceId == Some(e.evidenceId)
      && e.gate == gate && Some(e.changeDigest) == run.currentDigest && e.runId == run.runId
      && (e.source.CacheReuse? ==>
            && e.source.decisionId.Some? && e.source.decisionId.value in store.decisions
            && DecisionBacks(store.decisions[e.source.decisionId.value], ContextOf(run, gate), e)
            && e.source.recordId.Some? && e.source.recordId.value in store.records
            && RecordBacks(store.records[e.source.recordId.value], ContextOf(run, gate), e)))
  {
    var v := ValidationOf(run, store);
    var current := Filter(evidence, Counting(gate, run.currentDigest, v));
    var passing := Filter(current, Proving(gate, run.currentDigest, v));
    assert passing != [];
    var e := passing[|passing| - 1];
    assert e in current && e in evidence;
  }
}
