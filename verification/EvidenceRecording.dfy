/** What recording evidence does: which submissions are admitted, what the record says, and what it does to the gate. */
module EvidenceRecording {
  import opened Basics
  import opened Gates
  import opened Records
  import opened CacheIntegrity
  import opened CachePopulation
  import opened CacheStore
  import opened CacheReadings
  import opened Derivation
  import opened GateReadings
  import opened Lifecycle
  import opened LifecycleInvariant
  import opened LifecycleSafety

  /** The submission says something is wrong: it claims BLOCKED, its command failed, or it is no command and claims FAIL. */
  predicate Objects(i: EvidenceInput) {
    || i.status == Some(EvidenceBlocked)
    || (i.kind == CommandEvidence && i.exitCode != Some(0))
    || (i.kind != CommandEvidence && i.status == Some(EvidenceFail))
  }

  predicate HasContents(a: Attachment) {
    a.Attached? && a.ref != ""
  }

  /** What a submission must bring to count as a PASS of its gate. */
  predicate BringsProof(i: EvidenceInput) {
    match i.kind
    case CommandEvidence => i.command != "" && i.exitCode == Some(0) && HasContents(i.output)
    case FileEvidence => TakesInvariants(i.gate) && HasContents(i.file)
    case InvariantEvidence => TakesInvariants(i.gate) && (HasContents(i.output) || HasContents(i.file))
    case ReviewEvidence => false
  }

  /** A verified run of the work order, in verification, review or correction, asked about a selected gate that no review
      decides; a readable attachment; a command with its exit code; and proof, unless the submission objects. */
  predicate IsAdmitted(c: Context, s: State, i: EvidenceInput) {
    && s.run.Some? && s.run.value.workOrderId == c.workOrder.workOrderId
    && c.projectId == c.workOrder.projectId && s.run.value.projectId == c.projectId
    && s.run.value.currentDigest.Some? && s.run.value.currentDigest != Some("")
    && (s.run.value.phase == Verify || s.run.value.phase == ReviewPhase || s.run.value.status == CorrectionStatus)
    && i.gate in s.run.value.selectedGates && (TakesCommands(i.gate) || TakesInvariants(i.gate))
    && i.output != RejectedAttachment && i.file != RejectedAttachment
    && (i.kind == CommandEvidence ==> i.exitCode.Some? && (i.status == Some(EvidencePass) ==> i.exitCode == Some(0)))
    && (Objects(i) || BringsProof(i))
  }

  predicate IsAttachmentOf(a: Attachment, ref: Option<string>, digest: Option<string>) {
    if a.Attached? then ref == Some(a.ref) && digest == Some(a.digest) else ref == None && digest == None
  }

  /** The record is what was submitted, by this run at its digest, with the status the submission amounts to. */
  predicate IsRecordOf(run: Run, i: EvidenceInput, e: Evidence) {
    && e.projectId == run.projectId && e.workOrderId == run.workOrderId && e.runId == run.runId
    && Some(e.changeDigest) == run.currentDigest && e.source == Executed
    && e.gate == i.gate && e.kind == i.kind
    && (if i.command == "" then e.command == None else e.command == Some(i.command))
    && (if i.kind == CommandEvidence then e.exitCode == i.exitCode else e.exitCode == None)
    && IsAttachmentOf(i.output, e.outputRef, e.outputDigest) && IsAttachmentOf(i.file, e.fileRef, e.fileDigest)
    && (e.status == EvidenceBlocked <==> i.status == Some(EvidenceBlocked))
    && (i.status != Some(EvidenceBlocked) ==>
          && (i.kind == CommandEvidence ==> (e.status == EvidencePass <==> i.exitCode == Some(0)))
          && (i.kind != CommandEvidence && i.status.Some? ==> Some(e.status) == i.status)
          && (i.kind != CommandEvidence && i.status.None? ==> e.status == EvidencePass))
  }

  lemma RecordableExactlyWhen(run: Run, gate: Gate)
    ensures CanRecordEvidence(run, gate) <==>
      && Present(run.currentDigest) && (run.phase == Verify || run.phase == ReviewPhase || run.status == CorrectionStatus)
      && gate in run.selectedGates && (TakesCommands(gate) || TakesInvariants(gate))
  {
    RegistryTakes(gate);
    hide TakesCommands, TakesInvariants, GateDefOf, IsReviewGate, IsKnownGate;
  }

  lemma ProvenExactlyWhen(i: EvidenceInput)
    requires TakesCommands(i.gate) || TakesInvariants(i.gate)
    requires i.kind == CommandEvidence ==> i.exitCode.Some? && (i.status == Some(EvidencePass) ==> i.exitCode == Some(0))
    ensures EffectiveStatus(i).Some? && (EffectiveStatus(i) != Some(EvidencePass) <==> Objects(i))
    ensures GateDefOf(i.gate).Some? && (!Objects(i) ==> (MeetsPassContract(GateDefOf(i.gate).value, i) <==> BringsProof(i)))
  {
    RegistryTakes(i.gate);
    hide TakesCommands, TakesInvariants, GateDefOf;
    var def := GateDefOf(i.gate).value;
    assert EffectiveStatus(i).Some? && (EffectiveStatus(i) != Some(EvidencePass) <==> Objects(i)) by {
      match i.status
      case None =>
      case Some(EvidencePass) =>
      case Some(EvidenceFail) =>
      case Some(EvidenceBlocked) =>
    }
    if TakesCommands(i.gate) {
      assert !TakesInvariants(i.gate) && def.kinds == {CommandEvidence};
      assert !Objects(i) ==> (MeetsPassContract(def, i) <==> BringsProof(i));
    } else {
      assert def.kinds == {InvariantEvidence, FileEvidence, CommandEvidence};
      assert !Objects(i) ==> (MeetsPassContract(def, i) <==> BringsProof(i));
    }
  }

  lemma AdmittedExactlyWhen(c: Context, s: State, i: EvidenceInput)
    ensures IsActive(c, s) && IsAcceptable(s.run.value, i) <==> IsAdmitted(c, s, i)
  {
    hide CanRecordEvidence, MeetsPassContract, BringsProof, Objects, TakesCommands, TakesInvariants, GateDefOf, EffectiveStatus;
    if s.run.Some? {
      RecordableExactlyWhen(s.run.value, i.gate);
      if (TakesCommands(i.gate) || TakesInvariants(i.gate))
        && (i.kind == CommandEvidence ==> i.exitCode.Some? && (i.status == Some(EvidencePass) ==> i.exitCode == Some(0)))
      {
        ProvenExactlyWhen(i);
      } else if i.kind == CommandEvidence {
        NoStatus(i);
      }
    }
  }

  lemma NoStatus(i: EvidenceInput)
    requires i.kind == CommandEvidence
    ensures EffectiveStatus(i).None? <==> i.exitCode.None? || (i.status == Some(EvidencePass) && i.exitCode != Some(0))
  {
  }

  lemma RecordedAsSubmitted(run: Run, i: EvidenceInput, now: Tick)
    requires IsAcceptable(run, i)
    ensures IsRecordOf(run, i, RecordedEvidence(run, i, now)) && RecordedEvidence(run, i, now).evidenceId == now
    ensures RecordedEvidence(run, i, now).status != EvidencePass <==> Objects(i)
  {
  }

  /** One record, as submitted, exactly when admitted; otherwise nothing changes. */
  lemma RecordingMeans(c: Context, s: State, i: EvidenceInput)
    ensures var (t, outcome) := RecordEvidence(c, s, i);
      && (outcome == Done <==> IsAdmitted(c, s, i))
      && (outcome == Refused ==> t == s)
      && (outcome == Done ==>
            && |t.evidence| == |s.evidence| + 1 && t.evidence[..|s.evidence|] == s.evidence
            && IsRecordOf(s.run.value, i, t.evidence[|s.evidence|]) && t.evidence[|s.evidence|].evidenceId == s.clock
            && (t.evidence[|s.evidence|].status != EvidencePass <==> Objects(i))
            && t.reviews == s.reviews && t.tree == s.tree && t.stage == s.stage
            && t.run.Some? && t.run.value == s.run.value.(blockers := t.run.value.blockers))
  {
    AdmittedExactlyWhen(c, s, i);
    hide IsAdmitted, IsAcceptable, IsRecordOf, Objects, RefreshBlockers, DeriveGateStates, PopulatedStore, RecordedEvidence;
    if IsActive(c, s) && IsAcceptable(s.run.value, i) {
      RecordedAsSubmitted(s.run.value, i, s.clock);
    }
  }

  /** Afterwards the run's gate blockers name exactly its failed and blocked gates; its other blockers are as they were. */
  lemma RecordingRefreshesBlockers(c: Context, s: State, i: EvidenceInput, b: RunBlocker)
    requires RecordEvidence(c, s, i).1 == Done
    ensures var t := RecordEvidence(c, s, i).0;
      b in t.run.value.blockers <==>
        if b.GateFailed? then exists g :: g in GateStatesOf(c, t) && g.gate == b.gate && (g.status == GateFail || g.status == GateBlocked)
        else b in s.run.value.blockers
  {
    hide IsAcceptable, DeriveGateStates, RecordedEvidence, PopulatedStore;
    var u := WithEvidence(s, i);
    var states := GateStatesOf(c, u);
    assert GateStatesOf(c, RecordEvidence(c, s, i).0) == states;
    hide GateStatesOf, WithEvidence;
    RefreshedBlockers(s.run.value.blockers, states, b);
  }

  lemma RefreshedBlockers(blockers: seq<RunBlocker>, states: seq<GateState>, b: RunBlocker)
    ensures b in RefreshBlockers(blockers, states) <==>
      if b.GateFailed? then exists g :: g in states && g.gate == b.gate && (g.status == GateFail || g.status == GateBlocked)
      else b in blockers
  {
    var failing := (g: GateState) => g.status in {GateFail, GateBlocked};
    var failed := Filter(states, (g: GateState) => g.status in {GateFail, GateBlocked});
    assert |FailedGates(states)| == |failed|;
    forall g | g in failed ensures GateFailed(g.gate) in FailedGates(states) {
      var k :| 0 <= k < |failed| && failed[k] == g;
      assert FailedGates(states)[k] == GateFailed(g.gate);
    }
    if b in FailedGates(states) {
      var k :| 0 <= k < |FailedGates(states)| && FailedGates(states)[k] == b;
      assert failed[k] in failed;
    }
  }

  /** A submission that objects fails or blocks its gate, and the digest is rejected for good. */
  lemma ObjectingRejects(c: Context, s: State, i: EvidenceInput)
    requires Invariant(c, s) && IsAdmitted(c, s, i) && Objects(i)
    ensures var (t, outcome) := RecordEvidence(c, s, i);
      && outcome == Done && t.run.Some? && t.run.value.currentDigest == s.run.value.currentDigest
      && IsRejected(t, s.run.value.currentDigest.value)
      && Rank(StatusOf(i.gate, t.run.value.currentDigest, t.evidence, t.reviews, ValidationFor(c, t.run.value, t.store))) >= 2
  {
    RecordingMeans(c, s, i);
    EvidenceKeeps(c, s, i);
    RegistryTakes(i.gate);
    hide RecordEvidence, IsAdmitted, Objects, IsRecordOf, TakesCommands, TakesInvariants;
    var t := RecordEvidence(c, s, i).0;
    var e := t.evidence[|s.evidence|];
    RecordOfRun(c, s, i, e);
    assert e in t.evidence && HasObjection(t, s.run.value.currentDigest.value);
    hide Invariant;
    EvidenceStatusMeaning(i.gate, t.run.value.currentDigest, t.evidence, t.reviews, ValidationFor(c, t.run.value, t.store));
    assert Counting(i.gate, t.run.value.currentDigest, ValidationFor(c, t.run.value, t.store))(e);
  }

  lemma RecordOfRun(c: Context, s: State, i: EvidenceInput, e: Evidence)
    requires IsAdmitted(c, s, i) && IsRecordOf(s.run.value, i, e)
    ensures s.run.value.currentDigest.Some? && s.run.value.currentDigest.value != "" && i.gate in s.run.value.selectedGates
    ensures i.gate != SecurityReview && i.gate != PerformanceCheck
    ensures e.gate == i.gate && Some(e.changeDigest) == s.run.value.currentDigest
    ensures e.projectId == c.projectId && e.workOrderId == s.run.value.workOrderId && e.runId == s.run.value.runId
  {
  }

  predicate IsOfRunAndGate(c: Context, run: Run, gate: Gate, e: Evidence) {
    && e.gate == gate && Some(e.changeDigest) == run.currentDigest
    && e.projectId == c.projectId && e.workOrderId == run.workOrderId && e.runId == run.runId
  }

  /** One that does not object makes the gate pass, unless something on record at the digest objects. */
  lemma ProvingPasses(c: Context, s: State, i: EvidenceInput)
    requires IsAdmitted(c, s, i) && !Objects(i)
    ensures var (t, outcome) := RecordEvidence(c, s, i);
      && outcome == Done && t.run.Some?
      && var status := StatusOf(i.gate, t.run.value.currentDigest, t.evidence, t.reviews, ValidationFor(c, t.run.value, t.store));
      && Rank(status) >= 1
      && (status == GatePass <==> forall e :: e in s.evidence && IsOfRunAndGate(c, s.run.value, i.gate, e) ==> e.status == EvidencePass)
  {
    RecordingMeans(c, s, i);
    RegistryTakes(i.gate);
    AdmittedExactlyWhen(c, s, i);
    var t := RecordEvidence(c, s, i).0;
    var e := t.evidence[|s.evidence|];
    var v := ValidationFor(c, t.run.value, t.store);
    RecordedAsSubmitted(s.run.value, i, s.clock);
    AcceptedPassProves(s.run.value, i, s.clock, v);
    assert e == RecordedEvidence(s.run.value, i, s.clock) by { hide IsRecordOf, IsAcceptable, DeriveGateStates, RefreshBlockers, PopulatedStore; }
    RecordOfRun(c, s, i, e);
    hide RecordEvidence, IsAdmitted, Objects, IsRecordOf, TakesCommands, TakesInvariants, RecordedEvidence, IsAcceptable, Proves;
    EvidenceStatusMeaning(i.gate, t.run.value.currentDigest, t.evidence, t.reviews, v);
    assert Counting(i.gate, t.run.value.currentDigest, v)(e) && e in t.evidence;
    assert forall x :: x in t.evidence <==> x in s.evidence || x == e by { assert t.evidence == t.evidence[..|s.evidence|] + [e]; }
  }

  /** A proof is offered to the cache; the store changes by nothing else. */
  lemma RecordingPopulates(c: Context, s: State, i: EvidenceInput)
    requires IsAdmitted(c, s, i)
    ensures var t := RecordEvidence(c, s, i).0;
      var e := RecordedEvidence(s.run.value, i, s.clock);
      IsAcceptable(s.run.value, i) &&
      t.store ==
        if !Objects(i) && i.index.bundle.Some? && IsWorthCaching(s.run.value.projectId, e, i.index.bundle.value, i.index.env)
        then Persisted(s.store, RecordOf(s.run.value.projectId, (set p | p in s.run.value.changedFiles), e, i.index.bundle.value, i.index.env, s.clock + 1)).0
        else s.store
  {
    AdmittedExactlyWhen(c, s, i);
    RecordedAsSubmitted(s.run.value, i, s.clock);
    hide IsAdmitted, IsAcceptable, IsRecordOf, Objects, RecordedEvidence, RecordOf, Persisted, IsWorthCaching, PopulatedStore;
    StoreIsPopulated(c, s, i);
    OfferingMeans(s.store, s.run.value, RecordedEvidence(s.run.value, i, s.clock), i.index, s.clock + 1);
  }

  lemma StoreIsPopulated(c: Context, s: State, i: EvidenceInput)
    requires IsActive(c, s) && IsAcceptable(s.run.value, i)
    ensures RecordEvidence(c, s, i).0.store
      == PopulatedStore(s.store, s.run.value, RecordedEvidence(s.run.value, i, s.clock), i.index, s.clock + 1)
  {
    hide IsAcceptable, RefreshBlockers, RecordedEvidence, PopulatedStore, GateStatesOf;
  }

  lemma OfferingMeans(store: Store, run: Run, e: Evidence, index: IndexInput, now: Tick)
    ensures PopulatedStore(store, run, e, index, now) ==
      if e.status == EvidencePass && index.bundle.Some? && IsWorthCaching(run.projectId, e, index.bundle.value, index.env)
      then Persisted(store, RecordOf(run.projectId, (set p | p in run.changedFiles), e, index.bundle.value, index.env, now)).0
      else store
  {
    hide IsCacheable, IsWorthCaching, RecordOf, Persisted;
    if index.bundle.Some? {
      CacheableExactlyWhen(run.projectId, e, index.bundle.value, index.env);
    }
  }
}
