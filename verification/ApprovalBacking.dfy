/** What stands behind an approval the policy accepts, read off the plan, the evidence and the gates themselves. */
module ApprovalBacking {
  import opened Basics
  import opened Gates
  import opened Records
  import opened TypedSelection
  import opened AssurancePolicy

  /** The obligation names the role, or is for a gate of the role's own. */
  predicate IsAnsweredBy(o: Obligation, role: Role) {
    || o.specialist == Some(role)
    || (o.kind == GateObligation
        && ((role == SecurityReviewer && o.gate == Some(SecurityReview))
            || (role == PerformanceReviewer && o.gate == Some(PerformanceCheck))
            || (role == ReliabilityReviewer && (o.gate == Some(DatabaseMigration) || o.gate == Some(RollbackValidation)))))
  }

  /** Evidence of the run at its digest says PASS for the gate. */
  predicate HasCurrentPass(inp: PolicyInput, gate: Option<Gate>) {
    exists e :: e in inp.evidence
      && e.projectId == inp.projectId && e.projectId == inp.workOrder.projectId && e.workOrderId == inp.workOrder.workOrderId
      && e.runId == inp.run.runId && Some(e.changeDigest) == inp.run.currentDigest
      && e.status == EvidencePass && Some(e.gate) == gate
  }

  predicate IsFirstRow(covered: seq<Coverage>, k: int, id: ObligationId) {
    0 <= k < |covered| && covered[k].id == id && forall j :: 0 <= j < k ==> covered[j].id != id
  }

  /** The first row for the obligation is by this role, for the same gate and evidence. */
  ghost predicate IsCoveredFirstBy(covered: seq<Coverage>, o: Obligation, role: Role) {
    exists k :: IsFirstRow(covered, k, o.id) && covered[k].specialist == role && covered[k].gate == o.gate && covered[k].evidence == o.evidence
  }

  /** The gate the role's own review decides. */
  predicate IsDecidedBy(gate: Option<Gate>, role: Role) {
    (role == SecurityReviewer && gate == Some(SecurityReview)) || (role == PerformanceReviewer && gate == Some(PerformanceCheck))
  }

  /** The plan's obligations of a role are covered by it and proven. */
  ghost predicate IsProven(inp: PolicyInput, role: Role)
    requires inp.plan.Some?
  {
    var plan := inp.plan.value.content;
    && (exists o :: o in plan.required && IsAnsweredBy(o, role))
    && forall o :: o in plan.required && IsAnsweredBy(o, role) ==>
         && IsCoveredFirstBy(plan.covered, o, role)
         && (o.kind == GateObligation || o.kind == EvidenceObligation ==> IsDecidedBy(o.gate, role) || HasCurrentPass(inp, o.gate))
  }

  /** The independent reviewer needs an assurance obligation of its own; each other role its gate selected and its obligations
      proven. */
  ghost predicate IsWarranted(inp: PolicyInput, role: Role) {
    && inp.plan.Some?
    && if role == IndependentReviewer then
         exists o :: o in inp.plan.value.content.required && o.kind == AssuranceObligation && o.specialist == Some(IndependentReviewer)
       else
         && (role == SecurityReviewer ==> SecurityReview in inp.run.selectedGates)
         && (role == PerformanceReviewer ==> PerformanceCheck in inp.run.selectedGates)
         && (role == ReliabilityReviewer ==> RollbackValidation in inp.run.selectedGates)
         && IsProven(inp, role)
  }

  /** A gate's latest snapshot says PASS. */
  predicate PassesLast(states: seq<GateState>, gate: Gate) {
    exists k :: 0 <= k < |states| && states[k].gate == gate && states[k].status == GatePass
      && forall j :: k < j < |states| ==> states[j].gate != gate
  }

  lemma {:induction false} LookupIsLast(states: seq<GateState>, gate: Gate)
    ensures LookupStatus(states, gate) == Some(GatePass) <==> PassesLast(states, gate)
  {
    if states == [] {
    } else {
      var init, last := states[..|states| - 1], states[|states| - 1];
      LookupIsLast(init, gate);
      if last.gate == gate {
        assert states[|states| - 1] == last;
      } else {
        assert forall k :: 0 <= k < |init| ==> states[k] == init[k];
      }
    }
  }

  lemma {:induction false} FirstMatch(covered: seq<Coverage>, id: ObligationId)
    ensures var matches := Filter(covered, Covering(id));
      matches != [] ==> exists k :: IsFirstRow(covered, k, id) && covered[k] == matches[0]
  {
    if covered == [] {
    } else {
      var init, last := covered[..|covered| - 1], covered[|covered| - 1];
      assert covered == init + [last];
      FirstMatch(init, id);
      FilterAppend(init, last, Covering(id));
      if Filter(init, Covering(id)) == [] {
        forall j | 0 <= j < |init| ensures covered[j].id != id {
          assert init[j] in init && covered[j] == init[j];
        }
        assert last.id == id ==> IsFirstRow(covered, |covered| - 1, id);
      } else {
        var k :| IsFirstRow(init, k, id) && init[k] == Filter(init, Covering(id))[0];
        assert covered[k] == init[k] && forall j :: 0 <= j < k ==> covered[j] == init[j];
        assert IsFirstRow(covered, k, id);
      }
    }
  }

  lemma CoveredFirst(covered: seq<Coverage>, o: Obligation, role: Role)
    ensures var matches := Filter(covered, Covering(o.id));
      IsCoveredFirstBy(covered, o, role)
      <==> matches != [] && matches[0].specialist == role && matches[0].gate == o.gate && matches[0].evidence == o.evidence
  {
    var matches := Filter(covered, Covering(o.id));
    FirstMatch(covered, o.id);
    if IsCoveredFirstBy(covered, o, role) {
      var k :| IsFirstRow(covered, k, o.id) && covered[k].specialist == role && covered[k].gate == o.gate && covered[k].evidence == o.evidence;
      assert covered[k] in matches;
      var m :| IsFirstRow(covered, m, o.id) && covered[m] == matches[0];
      assert m == k;
    }
  }

  lemma CurrentPass(inp: PolicyInput, gate: Option<Gate>)
    ensures HasCurrentPass(inp, gate) <==> exists e :: e in CurrentEvidence(inp) && e.status == EvidencePass && Some(e.gate) == gate
  {
  }

  lemma DecidedByOwnReview(gate: Option<Gate>, role: Role)
    ensures IsDecidedBy(gate, role) <==> gate.Some? && ContractOf(gate.value) == Some(ReviewContract(role))
  {
  }

  lemma Discharged(inp: PolicyInput, role: Role, o: Obligation)
    requires inp.plan.Some?
    ensures IsDischarged(inp, role, o) <==>
      && IsCoveredFirstBy(inp.plan.value.content.covered, o, role)
      && (o.kind == GateObligation || o.kind == EvidenceObligation ==> IsDecidedBy(o.gate, role) || HasCurrentPass(inp, o.gate))
  {
    hide IsCoveredFirstBy, HasCurrentPass, CurrentEvidence, Filter, IsDecidedBy;
    CoveredFirst(inp.plan.value.content.covered, o, role);
    CurrentPass(inp, o.gate);
    DecidedByOwnReview(o.gate, role);
  }

  lemma Answered(inp: PolicyInput, role: Role, o: Obligation)
    requires inp.plan.Some?
    ensures o in RoleObligations(inp, role) <==> o in inp.plan.value.content.required && IsAnsweredBy(o, role)
  {
  }

  lemma RelevantEvidenceIsWarrant(inp: PolicyInput, role: Role)
    ensures HasRelevantEvidence(inp, role) <==> IsWarranted(inp, role)
  {
    if inp.plan.Some? {
      forall o { Answered(inp, role, o); }
      if role != IndependentReviewer {
        forall o { Discharged(inp, role, o); }
        hide IsDischarged, IsCoveredFirstBy, HasCurrentPass, IsAnsweredBy, IsDecidedBy;
        if RoleObligations(inp, role) != [] { assert RoleObligations(inp, role)[0] in RoleObligations(inp, role); }
        hide RoleObligations;
      } else {
        hide RoleObligations;
      }
    }
  }

  /** An approval, where it counts, is free of the complaint about missing proof exactly when it is warranted. */
  lemma ApprovalIsWarrantedExactlyWhen(inp: PolicyInput, r: Review)
    requires inp.mode != StatusMode && r.verdict == Approved
    requires r.role in {IndependentReviewer, SecurityReviewer, PerformanceReviewer, ReliabilityReviewer}
    ensures IsWarranted(inp, r.role)
      <==> !AboutReview(inp, r, if r.role == PerformanceReviewer then PerformanceEvidenceMissing(r.role) else TypedObligationUnsatisfied(r.role))
  {
    hide HasRelevantEvidence, IsWarranted;
    RelevantEvidenceIsWarrant(inp, r.role);
  }

  /** And free of the complaint about the role's gates exactly when, for the reliability reviewer, each of its selected gates
      passes; no other role can draw that complaint, its gate being the review's own. */
  lemma ApprovalMeetsItsGatesExactlyWhen(inp: PolicyInput, r: Review)
    requires inp.mode != StatusMode && r.verdict == Approved
    requires r.role in {IndependentReviewer, SecurityReviewer, PerformanceReviewer, ReliabilityReviewer}
    ensures !AboutReview(inp, r, RoleGateMismatch(r.role))
    ensures AboutReview(inp, r, ReliabilityObligationUnsatisfied(r.role)) <==>
      && r.role == ReliabilityReviewer
      && ((DatabaseMigration in inp.run.selectedGates && !PassesLast(inp.gateStates, DatabaseMigration))
          || (RollbackValidation in inp.run.selectedGates && !PassesLast(inp.gateStates, RollbackValidation)))
  {
    hide HasRelevantEvidence;
    LookupIsLast(inp.gateStates, DatabaseMigration);
    LookupIsLast(inp.gateStates, RollbackValidation);
    hide LookupStatus, PassesLast;
    assert RoleGates(ReliabilityReviewer)[0] == DatabaseMigration && RoleGates(ReliabilityReviewer)[1] == RollbackValidation;
  }

  /** Whatever the policy allows, outside a mere status, rests on warranted approvals. */
  lemma AllowedApprovalsAreWarranted(inp: PolicyInput, r: Review)
    requires inp.mode != StatusMode && Allowed(inp) && r in CurrentReviews(inp) && r.verdict == Approved
    ensures r.role in {IndependentReviewer, SecurityReviewer, PerformanceReviewer, ReliabilityReviewer}
    ensures IsWarranted(inp, r.role)
    ensures r.role == ReliabilityReviewer ==>
      && PassesLast(inp.gateStates, RollbackValidation)
      && (DatabaseMigration in inp.run.selectedGates ==> PassesLast(inp.gateStates, DatabaseMigration))
  {
    hide CurrentReviews, IsWarranted, PassesLast, HasRelevantEvidence, RoleGateIsSufficient;
    forall b ensures !AboutReview(inp, r, b) {
      assert !Reported(inp, b);
    }
    assert !AboutReview(inp, r, UnknownReviewerRole(r.role));
    ApprovalIsWarrantedExactlyWhen(inp, r);
    ApprovalMeetsItsGatesExactlyWhen(inp, r);
    if r.role == ReliabilityReviewer {
      NeedsRollback(inp);
    }
  }

  lemma NeedsRollback(inp: PolicyInput)
    requires IsWarranted(inp, ReliabilityReviewer)
    ensures RollbackValidation in inp.run.selectedGates
  {
  }
}
