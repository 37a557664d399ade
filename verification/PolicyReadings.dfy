/** The whole policy decision, read off the run, the work order, the plan and the ledgers, with no blocker in between. */
module PolicyReadings {
  import opened Basics
  import opened Gates
  import opened Records
  import opened TypedSelection
  import opened AssurancePolicy
  import opened GateReadings
  import opened ApprovalBacking

  predicate IsReviewerRole(role: Role) {
    role == IndependentReviewer || role == SecurityReviewer || role == PerformanceReviewer || role == ReliabilityReviewer
  }

  predicate IsDecidedByReview(gate: Gate) {
    gate == SecurityReview || gate == PerformanceCheck
  }

  /** The run has a digest, an implementer and no violation, and was reviewed at no other digest. */
  predicate RunStands(run: Run) {
    && IsFilled(run.currentDigest) && IsFilled(run.implementerSession) && |run.scopeViolations| == 0
    && (IsFilled(run.reviewedDigest) ==> run.reviewedDigest == run.currentDigest)
  }

  /** The run asks for the reviewers and gates of its work order, empty names aside, all of them known. */
  ghost predicate IsAsOrdered(run: Run, workOrder: WorkOrder) {
    && (forall r: Role :: r != OtherRole("") ==> (r in run.requiredReviewers <==> r in workOrder.assuranceReviewers))
    && (forall r: Role :: r in run.requiredReviewers && r != OtherRole("") ==> IsReviewerRole(r))
    && (forall g: Gate :: g != OtherGate("") ==> (g in run.selectedGates <==> g in workOrder.qualityGates))
    && (forall g: Gate :: g in run.selectedGates ==> !g.OtherGate?)
  }

  /** A row fits an obligation. */
  predicate Serves(c: Coverage, o: Obligation, plan: PlanContent) {
    && c.id == o.id && c.kind == o.kind && c.gate == o.gate && c.evidence == o.evidence
    && (c.specialist in plan.selected || c.specialist in plan.assurance)
    && (o.specialist == None || o.specialist == Some(c.specialist))
  }

  /** An unaltered, selected plan of this work order with nothing unmet. */
  predicate IsBoundPlan(inp: PolicyInput) {
    inp.plan.Some? &&
    var plan := inp.plan.value.content;
    && plan.isSelected && inp.plan.value.digestOf == plan
    && plan.projectId == inp.projectId && plan.projectId == inp.workOrder.projectId && plan.workOrderId == inp.workOrder.workOrderId
    && plan.unmetCoverage == 0 && plan.unmetObligations == 0 && plan.blockedReasons == 0
  }

  /** One obligation an id, every gate obligation naming a known gate and its evidence. */
  predicate IsSoundPlan(plan: PlanContent) {
    && (forall i, j :: 0 <= i < j < |plan.required| ==> plan.required[i].id != plan.required[j].id)
    && (forall i :: 0 <= i < |plan.required| && plan.required[i].kind == GateObligation ==>
          && plan.required[i].gate.Some? && !plan.required[i].gate.value.OtherGate?
          && plan.required[i].evidence == Some(GateEvidence(plan.required[i].gate.value)))
  }

  /** Every selected gate and every required reviewer is among the obligations. */
  predicate NamesAllOf(run: Run, plan: PlanContent) {
    && (forall g :: g in run.selectedGates ==>
          exists i :: 0 <= i < |plan.required| && plan.required[i].kind == GateObligation && plan.required[i].gate == Some(g))
    && (forall r :: r in run.requiredReviewers ==> exists i :: 0 <= i < |plan.required| && plan.required[i].id == AssuranceOf(r))
  }

  predicate EachRowServes(plan: PlanContent) {
    forall k :: 0 <= k < |plan.covered| ==> exists i :: 0 <= i < |plan.required| && Serves(plan.covered[k], plan.required[i], plan)
  }

  /** A row has the id. */
  predicate IsServed(covered: seq<Coverage>, id: ObligationId) {
    exists k :: 0 <= k < |covered| && covered[k].id == id
  }

  /** One row for each obligation. */
  predicate EachIsServedOnce(plan: PlanContent) {
    && (forall i :: 0 <= i < |plan.required| ==> IsServed(plan.covered, plan.required[i].id))
    && (forall k, m :: 0 <= k < m < |plan.covered| ==> plan.covered[k].id != plan.covered[m].id)
  }

  predicate PlanStands(inp: PolicyInput) {
    && IsBoundPlan(inp)
    && var plan := inp.plan.value.content;
    && IsSoundPlan(plan) && NamesAllOf(inp.run, plan) && EachRowServes(plan) && EachIsServedOnce(plan)
  }

  predicate IsCurrentEvidence(inp: PolicyInput, e: Evidence) {
    && e.projectId == inp.projectId && e.projectId == inp.workOrder.projectId && e.workOrderId == inp.workOrder.workOrderId
    && e.runId == inp.run.runId && Some(e.changeDigest) == inp.run.currentDigest
  }

  predicate IsAtHand(inp: PolicyInput, r: Review) {
    && r.projectId == inp.projectId && r.projectId == inp.workOrder.projectId && r.workOrderId == inp.workOrder.workOrderId
    && r.runId == inp.run.runId && Some(r.changeDigest) == inp.run.currentDigest
  }

  /** No gate outside review fails, in its state or on record. */
  predicate GatesStand(inp: PolicyInput) {
    && (forall s :: s in inp.gateStates && !IsDecidedByReview(s.gate) ==> s.status == GatePass)
    && (forall e :: e in inp.evidence && IsCurrentEvidence(inp, e) && e.gate in inp.run.selectedGates && !IsDecidedByReview(e.gate) ==>
          e.status == EvidencePass)
  }

  /** One review: by a required reviewer who is not the implementer, for this implementer, resting on current evidence of the
      run, consistent with its verdict and, where an approval counts, warranted and backed by the role's gates. */
  ghost predicate ReviewStands(inp: PolicyInput, r: Review) {
    && IsReviewerRole(r.role) && r.role in inp.run.requiredReviewers
    && r.session != "" && r.role != inp.run.implementerRole && r.implementerRole == inp.run.implementerRole
    && IsFilled(inp.run.implementerSession) && Some(r.implementerSession) == inp.run.implementerSession
    && Some(r.session) != inp.run.implementerSession
    && (forall ref :: ref in r.evidenceRefs ==>
          ref.runId == inp.run.runId && exists e :: e in inp.evidence && IsCurrentEvidence(inp, e) && e.evidenceId == ref.evidenceId)
    && !ContradictsItself(r) && (r.verdict != Approved ==> |r.findings| > 0 || |r.reasonCodes| > 0)
    && (r.verdict == Approved && inp.mode != StatusMode ==>
          && IsWarranted(inp, r.role)
          && (r.role == ReliabilityReviewer ==>
                && (DatabaseMigration in inp.run.selectedGates ==> PassesLast(inp.gateStates, DatabaseMigration))
                && (RollbackValidation in inp.run.selectedGates ==> PassesLast(inp.gateStates, RollbackValidation))))
  }

  /** The reviews on record, and the candidate after them. */
  function Ledger(inp: PolicyInput): seq<Review> {
    if inp.candidate.Some? then inp.reviews + [inp.candidate.value] else inp.reviews
  }

  /** No two reviews at hand share an id, and no two approvals a role or a session. */
  predicate AreApart(x: Review, y: Review) {
    x.reviewId != y.reviewId && (x.verdict == Approved && y.verdict == Approved ==> x.role != y.role && x.session != y.session)
  }

  ghost predicate ReviewsStand(inp: PolicyInput) {
    && (forall i :: 0 <= i < |Ledger(inp)| && IsAtHand(inp, Ledger(inp)[i]) ==> ReviewStands(inp, Ledger(inp)[i]))
    && (forall i, j :: 0 <= i < j < |Ledger(inp)| && IsAtHand(inp, Ledger(inp)[i]) && IsAtHand(inp, Ledger(inp)[j]) ==>
          AreApart(Ledger(inp)[i], Ledger(inp)[j]))
  }

  /** Finalizing needs an approval of every required role at hand; submitting needs a candidate of a required role at the digest. */
  ghost predicate ModeStands(inp: PolicyInput) {
    && (inp.mode == FinalizeMode ==>
          forall role :: role in inp.run.requiredReviewers && role != OtherRole("") ==>
            exists i :: 0 <= i < |Ledger(inp)| && IsAtHand(inp, Ledger(inp)[i]) && Ledger(inp)[i].role == role && Ledger(inp)[i].verdict == Approved)
    && (inp.mode == SubmissionMode ==>
          && inp.candidate.Some? && IsReviewerRole(inp.candidate.value.role) && inp.candidate.value.role in inp.run.requiredReviewers
          && Some(inp.candidate.value.changeDigest) == inp.run.currentDigest)
  }

  ghost predicate Stands(inp: PolicyInput) {
    && RunStands(inp.run) && IsAsOrdered(inp.run, inp.workOrder) && PlanStands(inp) && GatesStand(inp)
    && ReviewsStand(inp) && ModeStands(inp)
  }

  lemma RecognizedMeans(role: Role)
    ensures IsRecognized(role) <==> IsReviewerRole(role)
  {
  }

  lemma RunMeans(inp: PolicyInput)
    ensures (forall b :: !AboutRunState(inp, b)) <==> RunStands(inp.run)
  {
    if forall b :: !AboutRunState(inp, b) {
      assert !AboutRunState(inp, CurrentDigestRequired) && !AboutRunState(inp, ImplementerSessionRequired);
      assert !AboutRunState(inp, ScopeViolation) && !AboutRunState(inp, ReviewedDigestMismatch);
    }
  }

  lemma OrderMeans(inp: PolicyInput)
    ensures RolesAreBound(inp) && GatesAreBound(inp) <==> IsAsOrdered(inp.run, inp.workOrder)
  {
    forall g ensures IsKnownGate(g) <==> !g.OtherGate? { RegistryTakes(g); EveryGateIsOfAKind(g); }
    forall r ensures IsRecognized(r) <==> IsReviewerRole(r) { RecognizedMeans(r); }
    hide IsKnownGate, IsRecognized, IsReviewerRole;
    var required, ordered := NamedRoles(inp.run.requiredReviewers), NamedRoles(inp.workOrder.assuranceReviewers);
    assert forall r :: r in required <==> r in inp.run.requiredReviewers && r != OtherRole("");
    assert forall r :: r in ordered <==> r in inp.workOrder.assuranceReviewers && r != OtherRole("");
    var gates, asked := NamedGates(inp.run.selectedGates), NamedGates(inp.workOrder.qualityGates);
    assert forall g :: g in gates <==> g in inp.run.selectedGates && g != OtherGate("");
    assert forall g :: g in asked <==> g in inp.workOrder.qualityGates && g != OtherGate("");
    if IsAsOrdered(inp.run, inp.workOrder) {
      assert required == ordered && gates == asked;
    }
  }

  lemma {:induction false} OneMatch(s: seq<Coverage>, p: Coverage -> bool)
    ensures |Filter(s, p)| == 1 <==>
      (exists k :: 0 <= k < |s| && p(s[k])) && forall k, m :: 0 <= k < m < |s| ==> !(p(s[k]) && p(s[m]))
  {
    if forall k, m :: 0 <= k < m < |s| ==> !(p(s[k]) && p(s[m])) {
      AtMostOne(s, p);
      if k :| 0 <= k < |s| && p(s[k]) { assert s[k] in Filter(s, p); }
      if |Filter(s, p)| == 1 { assert Filter(s, p)[0] in s; }
    } else {
      var k, m :| 0 <= k < m < |s| && p(s[k]) && p(s[m]);
      FilterTwice(s, p, k, m);
    }
  }

  lemma ServingMeans(c: Coverage, o: Obligation, plan: PlanContent)
    ensures Covers(c, o, plan.selected + plan.assurance) <==> Serves(c, o, plan)
  {
  }

  lemma FittingMeans(plan: PlanContent)
    ensures (forall c :: c in plan.covered ==> Fits(c, plan.required, plan.selected + plan.assurance)) <==> EachRowServes(plan)
  {
    hide Covers, Serves;
    forall c, o { ServingMeans(c, o, plan); }
    forall k | 0 <= k < |plan.covered|
      ensures Fits(plan.covered[k], plan.required, plan.selected + plan.assurance)
        <==> exists i :: 0 <= i < |plan.required| && Serves(plan.covered[k], plan.required[i], plan)
    {
      if Fits(plan.covered[k], plan.required, plan.selected + plan.assurance) {
        var o :| o in plan.required && Covers(plan.covered[k], o, plan.selected + plan.assurance);
        var i :| 0 <= i < |plan.required| && plan.required[i] == o;
        assert Serves(plan.covered[k], plan.required[i], plan);
      }
      if i :| 0 <= i < |plan.required| && Serves(plan.covered[k], plan.required[i], plan) {
        assert plan.required[i] in plan.required && Covers(plan.covered[k], plan.required[i], plan.selected + plan.assurance);
      }
    }
    hide Fits;
    if forall c :: c in plan.covered ==> Fits(c, plan.required, plan.selected + plan.assurance) {
      forall k | 0 <= k < |plan.covered| ensures Fits(plan.covered[k], plan.required, plan.selected + plan.assurance) {
        assert plan.covered[k] in plan.covered;
      }
    }
  }

  /** Exactly one row has the id. */
  predicate IsServedOnce(covered: seq<Coverage>, id: ObligationId) {
    && IsServed(covered, id)
    && forall k, m :: 0 <= k < m < |covered| ==> covered[k].id != id || covered[m].id != id
  }

  lemma ServedOnceMeans(covered: seq<Coverage>, id: ObligationId)
    ensures |Filter(covered, Covering(id))| == 1 <==> IsServedOnce(covered, id)
  {
    OneMatch(covered, Covering(id));
    assert forall k :: 0 <= k < |covered| ==> (Covering(id)(covered[k]) <==> covered[k].id == id);
    hide Covering, Filter;
  }

  lemma OnceEach(plan: PlanContent)
    requires EachRowServes(plan)
    ensures (forall i :: 0 <= i < |plan.required| ==> IsServedOnce(plan.covered, plan.required[i].id)) <==> EachIsServedOnce(plan)
  {
    assert forall c, o :: Serves(c, o, plan) ==> c.id == o.id;
    hide IsServed, Serves;
    if forall i :: 0 <= i < |plan.required| ==> IsServedOnce(plan.covered, plan.required[i].id) {
      forall k, m | 0 <= k < m < |plan.covered| ensures plan.covered[k].id != plan.covered[m].id {
        var i :| 0 <= i < |plan.required| && Serves(plan.covered[k], plan.required[i], plan);
        assert IsServedOnce(plan.covered, plan.required[i].id);
      }
    }
  }

  /** One fitting row each: what the counts say and what the positions say. */
  lemma CoverageMeans(plan: PlanContent)
    requires IsSoundPlan(plan) && EachRowServes(plan)
    ensures (forall o :: o in plan.required ==> |Filter(plan.covered, Covering(o.id))| == 1) <==> EachIsServedOnce(plan)
  {
    OnceEach(plan);
    forall o: Obligation ensures |Filter(plan.covered, Covering(o.id))| == 1 <==> IsServedOnce(plan.covered, o.id) { ServedOnceMeans(plan.covered, o.id); }
    hide Filter, IsServedOnce, EachIsServedOnce, EachRowServes, IsSoundPlan;
    if forall o :: o in plan.required ==> IsServedOnce(plan.covered, o.id) {
      forall i | 0 <= i < |plan.required| ensures IsServedOnce(plan.covered, plan.required[i].id) {
        assert plan.required[i] in plan.required;
      }
    }
  }

  lemma SoundMeans(plan: PlanContent)
    ensures IdsAreDistinct(plan.required) && (forall o :: o in plan.required ==> ObligationIsSound(o)) <==> IsSoundPlan(plan)
  {
    forall o ensures ObligationIsSound(o) <==>
      (o.kind == GateObligation ==> o.gate.Some? && !o.gate.value.OtherGate? && o.evidence == Some(GateEvidence(o.gate.value)))
    {
    }
    hide ObligationIsSound;
    if forall o :: o in plan.required ==> ObligationIsSound(o) {
      forall i | 0 <= i < |plan.required| ensures ObligationIsSound(plan.required[i]) {
        assert plan.required[i] in plan.required;
      }
    }
  }

  lemma RepresentsMeans(run: Run, plan: PlanContent)
    ensures PlanRepresents(run, plan.required) <==> NamesAllOf(run, plan)
  {
    var required := plan.required;
    forall g ensures RequiresGate(required, g)
      <==> exists i :: 0 <= i < |required| && required[i].kind == GateObligation && required[i].gate == Some(g)
    {
    }
    forall r ensures RequiresId(required, AssuranceOf(r)) <==> exists i :: 0 <= i < |required| && required[i].id == AssuranceOf(r) {
    }
    hide RequiresGate, RequiresId;
  }

  lemma PlanMeans(inp: PolicyInput)
    ensures PlanIsValid(inp) <==> PlanStands(inp)
  {
    assert PlanIsBound(inp) <==> IsBoundPlan(inp);
    if IsBoundPlan(inp) {
      var plan := inp.plan.value.content;
      RepresentsMeans(inp.run, plan);
      FittingMeans(plan);
      SoundMeans(plan);
      hide ObligationIsSound, PlanRepresents, Fits, Filter, EachRowServes, EachIsServedOnce, IsSoundPlan, NamesAllOf, IdsAreDistinct;
      if IsSoundPlan(plan) && EachRowServes(plan) {
        CoverageMeans(plan);
      }
    }
  }

  lemma ReviewGateMeans(gate: Gate)
    ensures IsReviewGate(gate) <==> IsDecidedByReview(gate)
  {
  }

  lemma GatesMean(inp: PolicyInput)
    ensures (forall b :: !AboutGates(inp, b) && !AboutEvidence(inp, b)) <==> GatesStand(inp)
  {
    forall g ensures IsReviewGate(g) <==> IsDecidedByReview(g) { ReviewGateMeans(g); }
    assert forall e :: e in CurrentEvidence(inp) <==> e in inp.evidence && IsCurrentEvidence(inp, e);
    hide IsReviewGate, IsDecidedByReview, CurrentEvidence, IsCurrentEvidence;
    if forall b :: !AboutGates(inp, b) && !AboutEvidence(inp, b) {
      forall s | s in inp.gateStates && !IsDecidedByReview(s.gate) ensures s.status == GatePass {
        assert !AboutGates(inp, NonReviewGateNotPass(s.gate, s.status));
        assert !FailsGate(s, s.gate, s.status);
      }
      forall e | e in CurrentEvidence(inp) && e.gate in inp.run.selectedGates && !IsDecidedByReview(e.gate) ensures e.status == EvidencePass {
        assert !AboutEvidence(inp, CurrentFailBlockedEvidence(e.gate));
        assert !Contradicts(inp, e, e.gate);
      }
    }
  }

  /** Who reviewed, for whom. */
  predicate ReviewerStands(inp: PolicyInput, r: Review) {
    && r.role in inp.run.requiredReviewers
    && r.session != "" && r.role != inp.run.implementerRole && r.implementerRole == inp.run.implementerRole
    && IsFilled(inp.run.implementerSession) && Some(r.implementerSession) == inp.run.implementerSession
    && Some(r.session) != inp.run.implementerSession
  }

  lemma ReviewerMeans(inp: PolicyInput, r: Review)
    requires IsReviewerRole(r.role)
    ensures (forall b :: !AboutReviewer(inp, r, b)) <==> ReviewerStands(inp, r)
  {
    assert r.role in RequiredRoles(inp) <==> r.role in inp.run.requiredReviewers;
    hide RequiredRoles;
    if forall b :: !AboutReviewer(inp, r, b) {
      assert !AboutReviewer(inp, r, ReviewerRoleNotRequired(Some(r.role))) && !AboutReviewer(inp, r, ReviewSessionMissing(r.role));
      assert !AboutReviewer(inp, r, ImplementerRoleReview(r.role)) && !AboutReviewer(inp, r, ReviewIdentityMismatch(r.role));
      assert !AboutReviewer(inp, r, ReviewImplementerSessionMismatch(r.role)) && !AboutReviewer(inp, r, ImplementerSessionReview(r.role));
    }
  }

  predicate ContentStands(inp: PolicyInput, r: Review) {
    && (forall ref :: ref in r.evidenceRefs ==>
          ref.runId == inp.run.runId && exists e :: e in inp.evidence && IsCurrentEvidence(inp, e) && e.evidenceId == ref.evidenceId)
    && !ContradictsItself(r) && (r.verdict != Approved ==> |r.findings| > 0 || |r.reasonCodes| > 0)
  }

  lemma ReferencesMean(inp: PolicyInput, r: Review)
    ensures ReferencesAreCurrent(inp, r) && ReferencesAreOwn(inp, r) <==>
      forall ref :: ref in r.evidenceRefs ==>
        ref.runId == inp.run.runId && exists e :: e in inp.evidence && IsCurrentEvidence(inp, e) && e.evidenceId == ref.evidenceId
  {
    assert forall e :: e in CurrentEvidence(inp) <==> e in inp.evidence && IsCurrentEvidence(inp, e);
    hide CurrentEvidence, IsCurrentEvidence;
    forall ref: EvidenceRef | ref.runId == inp.run.runId
      ensures (exists e :: e in CurrentEvidence(inp) && RefOf(inp.run, e) == ref)
        <==> exists e :: e in inp.evidence && IsCurrentEvidence(inp, e) && e.evidenceId == ref.evidenceId
    {
      if e :| e in inp.evidence && IsCurrentEvidence(inp, e) && e.evidenceId == ref.evidenceId {
        assert RefOf(inp.run, e) == ref;
      }
    }
  }

  lemma ContentMeans(inp: PolicyInput, r: Review)
    ensures (forall b :: !AboutContent(inp, r, b)) <==> ContentStands(inp, r)
  {
    ReferencesMean(inp, r);
    hide ReferencesAreCurrent, ReferencesAreOwn, IsCurrentEvidence;
    assert ContradictsItself(r) <==> r.verdict == Approved && (High in r.findings || Critical in r.findings);
    hide ContradictsItself;
    if forall b :: !AboutContent(inp, r, b) {
      assert !AboutContent(inp, r, EvidenceReferenceMismatch(r.role)) && !AboutContent(inp, r, EvidenceIdentityMismatch(r.role));
      assert !AboutContent(inp, r, ApprovalContradictsHigh(r.role)) && !AboutContent(inp, r, ApprovalContradictsCritical(r.role));
      assert !AboutContent(inp, r, NegativeVerdictReasonRequired(r.role));
    }
  }

  ghost predicate ApprovalStands(inp: PolicyInput, r: Review) {
    r.verdict == Approved && inp.mode != StatusMode ==>
      && IsWarranted(inp, r.role)
      && (r.role == ReliabilityReviewer ==>
            && (DatabaseMigration in inp.run.selectedGates ==> PassesLast(inp.gateStates, DatabaseMigration))
            && (RollbackValidation in inp.run.selectedGates ==> PassesLast(inp.gateStates, RollbackValidation)))
  }

  lemma ApprovalMeans(inp: PolicyInput, r: Review)
    requires IsReviewerRole(r.role)
    ensures (forall b :: !AboutApproval(inp, r, b)) <==> ApprovalStands(inp, r)
  {
    if r.verdict == Approved && inp.mode != StatusMode {
      hide HasRelevantEvidence, RoleGateIsSufficient, IsWarranted, PassesLast, AboutReview;
      var proof := if r.role == PerformanceReviewer then PerformanceEvidenceMissing(r.role) else TypedObligationUnsatisfied(r.role);
      ApprovalIsWarrantedExactlyWhen(inp, r);
      ApprovalMeetsItsGatesExactlyWhen(inp, r);
      OnlyApproval(inp, r);
      assert IsWarranted(inp, r.role) <==> !AboutApproval(inp, r, proof);
      assert !AboutApproval(inp, r, RoleGateMismatch(r.role));
      OtherApprovals(inp, r, proof);
    }
  }

  lemma OtherApprovals(inp: PolicyInput, r: Review, proof: Blocker)
    requires IsReviewerRole(r.role)
    requires proof == if r.role == PerformanceReviewer then PerformanceEvidenceMissing(r.role) else TypedObligationUnsatisfied(r.role)
    ensures (forall b :: !AboutApproval(inp, r, b)) <==>
      && !AboutApproval(inp, r, proof) && !AboutApproval(inp, r, RoleGateMismatch(r.role))
      && !AboutApproval(inp, r, ReliabilityObligationUnsatisfied(r.role))
  {
    hide HasRelevantEvidence, RoleGateIsSufficient;
  }

  /** The complaints about an approval's proof and gates come from nowhere else. */
  lemma OnlyApproval(inp: PolicyInput, r: Review)
    requires IsReviewerRole(r.role)
    ensures forall b :: b in {PerformanceEvidenceMissing(r.role), TypedObligationUnsatisfied(r.role), RoleGateMismatch(r.role), ReliabilityObligationUnsatisfied(r.role)} ==>
      (AboutReview(inp, r, b) <==> AboutApproval(inp, r, b))
  {
    hide HasRelevantEvidence, RoleGateIsSufficient;
  }

  lemma ReviewMeans(inp: PolicyInput, r: Review)
    ensures (forall b :: !AboutReview(inp, r, b)) <==> ReviewStands(inp, r)
  {
    RecognizedMeans(r.role);
    if IsReviewerRole(r.role) {
      ReviewerMeans(inp, r);
      ContentMeans(inp, r);
      ApprovalMeans(inp, r);
      hide AboutReviewer, AboutContent, AboutApproval, IsRecognized;
      assert ReviewStands(inp, r) <==> ReviewerStands(inp, r) && ContentStands(inp, r) && ApprovalStands(inp, r);
      hide ReviewStands, ReviewerStands, ContentStands, ApprovalStands;
      if forall b :: !AboutReview(inp, r, b) {
        forall b ensures !AboutReviewer(inp, r, b) && !AboutContent(inp, r, b) && !AboutApproval(inp, r, b) { assert !AboutReview(inp, r, b); }
      }
    } else {
      assert AboutReview(inp, r, UnknownReviewerRole(r.role));
    }
  }

  lemma LedgerMeans(inp: PolicyInput)
    ensures Ledger(inp) == Submitted(inp)
    ensures forall r :: r in CurrentReviews(inp) <==> r in Ledger(inp) && IsAtHand(inp, r)
  {
  }

  /** The two are at different positions and both match. */
  predicate IsPair(reviews: seq<Review>, p: Review -> bool, q: Review -> bool, i: nat, j: nat) {
    i < j < |reviews| && p(reviews[i]) && p(reviews[j]) && q(reviews[i]) && q(reviews[j])
  }

  lemma TwoMean(reviews: seq<Review>, p: Review -> bool, q: Review -> bool)
    ensures |Filter(Filter(reviews, p), q)| >= 2 <==> exists i, j :: IsPair(reviews, p, q, i, j)
  {
    if i: nat, j: nat :| IsPair(reviews, p, q, i, j) {
      PairMeansTwo(reviews, p, q, i, j);
    } else {
      forall i, j | 0 <= i < j < |reviews| ensures !(p(reviews[i]) && q(reviews[i]) && p(reviews[j]) && q(reviews[j])) {
        assert !IsPair(reviews, p, q, i, j);
      }
      AtMostOneOfBoth(reviews, p, q);
    }
  }

  lemma PairMeansTwo(reviews: seq<Review>, p: Review -> bool, q: Review -> bool, i: nat, j: nat)
    requires IsPair(reviews, p, q, i, j)
    ensures |Filter(Filter(reviews, p), q)| >= 2
  {
    FilterTwiceIsBoth(reviews, p, q);
    FilterTwice(reviews, Both(p, q), i, j);
  }

  /** The reviews at hand, pair by pair. */
  ghost predicate ArePairwiseApart(inp: PolicyInput) {
    forall i, j :: 0 <= i < j < |Ledger(inp)| && IsAtHand(inp, Ledger(inp)[i]) && IsAtHand(inp, Ledger(inp)[j]) ==>
      AreApart(Ledger(inp)[i], Ledger(inp)[j])
  }

  function AtHand(inp: PolicyInput): Review -> bool {
    (r: Review) => IsAtHand(inp, r)
  }

  lemma AtHandIsCurrent(inp: PolicyInput)
    ensures CurrentReviews(inp) == Filter(Ledger(inp), AtHand(inp))
  {
    LedgerMeans(inp);
    FilterCongruence(Ledger(inp), AtHand(inp), MatchingReviews(inp.projectId, inp.workOrder, inp.run));
  }

  lemma ApartMeansUnreported(inp: PolicyInput, b: Blocker)
    requires ArePairwiseApart(inp)
    ensures !AboutReviews(CurrentReviews(inp), b)
  {
    var ledger, p := Ledger(inp), AtHand(inp);
    AtHandIsCurrent(inp);
    hide CurrentReviews;
    match b
    case DuplicateReviewId(id) =>
      forall i, j ensures !IsPair(ledger, p, WithReviewId(id), i, j) {}
      TwoMean(ledger, p, WithReviewId(id));
    case DuplicateReviewApproval(role) =>
      forall i, j ensures !IsPair(ledger, p, ApprovedBy(role), i, j) {}
      TwoMean(ledger, p, ApprovedBy(role));
    case DuplicateReviewSession(session) =>
      forall x, y | x in Filter(ledger, p) && y in Filter(ledger, p) ensures !ShareSession(x, y, session) {
        NoSharing(inp, x, y, session);
      }
    case _ =>
  }

  lemma NoSharing(inp: PolicyInput, x: Review, y: Review, session: string)
    requires ArePairwiseApart(inp) && x in Ledger(inp) && y in Ledger(inp) && IsAtHand(inp, x) && IsAtHand(inp, y)
    ensures !ShareSession(x, y, session)
  {
    hide Ledger, IsAtHand;
    var ledger := Ledger(inp);
    var i :| 0 <= i < |ledger| && ledger[i] == x;
    var j :| 0 <= j < |ledger| && ledger[j] == y;
    if i < j { assert AreApart(ledger[i], ledger[j]); }
    if j < i { assert AreApart(ledger[j], ledger[i]); }
  }

  lemma UnreportedMeansApart(inp: PolicyInput, i: nat, j: nat)
    requires forall b :: !AboutReviews(CurrentReviews(inp), b)
    requires i < j < |Ledger(inp)| && IsAtHand(inp, Ledger(inp)[i]) && IsAtHand(inp, Ledger(inp)[j])
    requires IsReviewerRole(Ledger(inp)[i].role) && IsReviewerRole(Ledger(inp)[j].role)
    ensures AreApart(Ledger(inp)[i], Ledger(inp)[j])
  {
    var ledger, p := Ledger(inp), AtHand(inp);
    var x, y := ledger[i], ledger[j];
    AtHandIsCurrent(inp);
    RecognizedMeans(x.role);
    RecognizedMeans(y.role);
    hide CurrentReviews, IsRecognized, Ledger, IsAtHand, Filter;
    assert !AboutReviews(Filter(ledger, p), DuplicateReviewId(x.reviewId));
    assert !AboutReviews(Filter(ledger, p), DuplicateReviewApproval(x.role));
    assert !AboutReviews(Filter(ledger, p), DuplicateReviewSession(x.session));
    if x.reviewId == y.reviewId {
      assert IsPair(ledger, p, WithReviewId(x.reviewId), i, j);
      PairMeansTwo(ledger, p, WithReviewId(x.reviewId), i, j);
    }
    if x.verdict == Approved && y.verdict == Approved {
      if x.role == y.role {
        assert IsPair(ledger, p, ApprovedBy(x.role), i, j);
        PairMeansTwo(ledger, p, ApprovedBy(x.role), i, j);
      }
      assert x in Filter(ledger, p) && y in Filter(ledger, p);
      assert !ShareSession(x, y, x.session);
    }
  }

  lemma ReviewsMean(inp: PolicyInput)
    ensures (forall b :: !AboutSomeReview(inp, CurrentReviews(inp), b) && !AboutReviews(CurrentReviews(inp), b)) <==> ReviewsStand(inp)
  {
    LedgerMeans(inp);
    forall r ensures (forall b :: !AboutReview(inp, r, b)) <==> ReviewStands(inp, r) { ReviewMeans(inp, r); }
    hide AboutReview, Ledger, CurrentReviews, IsAtHand, AreApart;
    if forall b :: !AboutSomeReview(inp, CurrentReviews(inp), b) && !AboutReviews(CurrentReviews(inp), b) {
      forall i | 0 <= i < |Ledger(inp)| && IsAtHand(inp, Ledger(inp)[i]) ensures ReviewStands(inp, Ledger(inp)[i]) {
        var r := Ledger(inp)[i];
        forall b ensures !AboutReview(inp, r, b) { assert !AboutSomeReview(inp, CurrentReviews(inp), b); }
      }
      forall i, j | 0 <= i < j < |Ledger(inp)| && IsAtHand(inp, Ledger(inp)[i]) && IsAtHand(inp, Ledger(inp)[j])
        ensures AreApart(Ledger(inp)[i], Ledger(inp)[j])
      {
        UnreportedMeansApart(inp, i, j);
      }
    }
    if ReviewsStand(inp) {
      forall b ensures !AboutReviews(CurrentReviews(inp), b) { ApartMeansUnreported(inp, b); }
      forall r, b | r in CurrentReviews(inp) ensures !AboutReview(inp, r, b) {
        var i :| 0 <= i < |Ledger(inp)| && Ledger(inp)[i] == r;
        assert ReviewStands(inp, Ledger(inp)[i]);
      }
    }
  }

  lemma ApprovedMeans(inp: PolicyInput, role: Role)
    requires IsReviewerRole(role)
    ensures Filter(CurrentReviews(inp), ApprovedBy(role)) != [] <==>
      exists i :: 0 <= i < |Ledger(inp)| && IsAtHand(inp, Ledger(inp)[i]) && Ledger(inp)[i].role == role && Ledger(inp)[i].verdict == Approved
  {
    LedgerMeans(inp);
    RecognizedMeans(role);
    var found := Filter(CurrentReviews(inp), ApprovedBy(role));
    if found != [] {
      assert found[0] in found && found[0] in CurrentReviews(inp);
      var i :| 0 <= i < |Ledger(inp)| && Ledger(inp)[i] == found[0];
    }
    hide IsRecognized, IsAtHand;
    if i :| 0 <= i < |Ledger(inp)| && IsAtHand(inp, Ledger(inp)[i]) && Ledger(inp)[i].role == role && Ledger(inp)[i].verdict == Approved {
      assert Ledger(inp)[i] in found;
    }
  }

  lemma ModeMeans(inp: PolicyInput)
    requires IsAsOrdered(inp.run, inp.workOrder)
    ensures (forall b :: !AboutRoles(inp, b)) <==> ModeStands(inp)
  {
    forall role ensures role in RequiredRoles(inp) <==> role in inp.run.requiredReviewers && role != OtherRole("") {}
    assert inp.candidate.Some? ==> (IsRecognized(inp.candidate.value.role) <==> IsReviewerRole(inp.candidate.value.role));
    hide RequiredRoles, IsRecognized, CurrentReviews, Ledger, IsAtHand, Filter;
    forall role | role in RequiredRoles(inp) ensures IsReviewerRole(role) {}
    forall role | role in RequiredRoles(inp)
      ensures Filter(CurrentReviews(inp), ApprovedBy(role)) != [] <==>
        exists i :: 0 <= i < |Ledger(inp)| && IsAtHand(inp, Ledger(inp)[i]) && Ledger(inp)[i].role == role && Ledger(inp)[i].verdict == Approved
    {
      ApprovedMeans(inp, role);
    }
    hide IsReviewerRole;
    if forall b :: !AboutRoles(inp, b) {
      assert !AboutRoles(inp, ReviewerRoleNotRequired(None));
      forall role | role in RequiredRoles(inp) ensures !AboutRoles(inp, MissingRequiredReviewer(role)) {}
      CandidateMeans(inp);
    }
    if ModeStands(inp) { CandidateMeans(inp); }
  }

  lemma CandidateMeans(inp: PolicyInput)
    ensures CandidateIsValid(inp) <==>
      && inp.candidate.Some? && IsReviewerRole(inp.candidate.value.role) && inp.candidate.value.role in inp.run.requiredReviewers
      && Some(inp.candidate.value.changeDigest) == inp.run.currentDigest
  {
  }

  /** The policy allows exactly what stands: the run, its order, its plan, its gates, its reviews one by one and pair by pair,
      and what the mode asks for. */
  lemma AllowedExactlyWhen(inp: PolicyInput)
    ensures Allowed(inp) <==> Stands(inp)
  {
    RunMeans(inp);
    BindingsMean(inp);
    GatesMean(inp);
    ReviewsMean(inp);
    if IsAsOrdered(inp.run, inp.workOrder) { ModeMeans(inp); }
    hide AboutRunState, AboutBindings, AboutGates, AboutEvidence, AboutSomeReview, AboutReviews, AboutRoles, CurrentReviews,
      RunStands, IsAsOrdered, PlanStands, GatesStand, ReviewsStand, ModeStands;
    if Allowed(inp) {
      forall b ensures !AboutRunState(inp, b) && !AboutBindings(inp, b) && !AboutGates(inp, b) && !AboutEvidence(inp, b)
        ensures !AboutSomeReview(inp, CurrentReviews(inp), b) && !AboutReviews(CurrentReviews(inp), b) && !AboutRoles(inp, b)
      {
        assert !Reported(inp, b);
      }
    }
  }

  lemma BindingsMean(inp: PolicyInput)
    ensures (forall b :: !AboutBindings(inp, b)) <==> IsAsOrdered(inp.run, inp.workOrder) && PlanStands(inp)
  {
    OrderMeans(inp);
    PlanMeans(inp);
    hide RolesAreBound, GatesAreBound, PlanIsValid, IsAsOrdered, PlanStands;
    if forall b :: !AboutBindings(inp, b) {
      assert !AboutBindings(inp, RequiredRoleBindingMismatch) && !AboutBindings(inp, SelectedGateBindingMismatch);
      assert !AboutBindings(inp, SpecialistSelectionInvalid);
    }
  }
}
