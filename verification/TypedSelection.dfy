/** The typed specialist selection plan: when its coverage of obligations is exact. */
module TypedSelection {
  import opened Basics
  import opened Gates
  import opened Records

  datatype Mode = StatusMode | SubmissionMode | FinalizeMode

  datatype PolicyInput = PolicyInput(
    mode: Mode, projectId: string, workOrder: WorkOrder, run: Run, gateStates: seq<GateState>,
    evidence: seq<Evidence>, reviews: seq<Review>, candidate: Option<Review>, plan: Option<SelectionPlan>)

  function Covering(id: ObligationId): Coverage -> bool {
    (c: Coverage) => c.id == id
  }

  predicate ObligationIsSound(o: Obligation) {
    o.kind == GateObligation ==>
      o.gate.Some? && GateDefOf(o.gate.value).Some? && o.evidence == Some(GateDefOf(o.gate.value).value.evidence)
  }

  predicate Covers(c: Coverage, o: Obligation, specialists: seq<Role>) {
    && c.id == o.id && c.specialist in specialists
    && c.gate == o.gate && c.evidence == o.evidence && c.kind == o.kind
    && (o.specialist.Some? ==> o.specialist == Some(c.specialist))
  }

  predicate RequiresGate(required: seq<Obligation>, gate: Gate) {
    exists o :: o in required && o.kind == GateObligation && o.gate == Some(gate)
  }

  predicate RequiresId(required: seq<Obligation>, id: ObligationId) {
    exists o :: o in required && o.id == id
  }

  predicate IdsAreDistinct(required: seq<Obligation>) {
    forall i, j :: 0 <= i < j < |required| ==> required[i].id != required[j].id
  }

  /** The plan is a selected one for this work order, unaltered and with nothing unmet. */
  predicate PlanIsBound(inp: PolicyInput) {
    inp.plan.Some? &&
    var plan := inp.plan.value.content;
    && plan.isSelected && inp.plan.value.digestOf == plan
    && plan.projectId == inp.projectId == inp.workOrder.projectId && plan.workOrderId == inp.workOrder.workOrderId
    && plan.unmetCoverage == plan.unmetObligations == plan.blockedReasons == 0
  }

  /** Every selected gate and every required reviewer is an obligation of the plan. */
  predicate PlanRepresents(run: Run, required: seq<Obligation>) {
    && (forall g :: g in run.selectedGates ==> RequiresGate(required, g))
    && (forall r :: r in run.requiredReviewers ==> RequiresId(required, AssuranceOf(r)))
  }

  predicate Fits(c: Coverage, required: seq<Obligation>, specialists: seq<Role>) {
    exists o :: o in required && Covers(c, o, specialists)
  }

  predicate CoverageIsExact(required: seq<Obligation>, covered: seq<Coverage>, specialists: seq<Role>) {
    && (forall c :: c in covered ==> Fits(c, required, specialists))
    && (forall o :: o in required ==> |Filter(covered, Covering(o.id))| == 1)
  }

  predicate PlanIsValid(inp: PolicyInput) {
    && PlanIsBound(inp)
    && var plan := inp.plan.value.content;
    && IdsAreDistinct(plan.required)
    && (forall o :: o in plan.required ==> ObligationIsSound(o))
    && PlanRepresents(inp.run, plan.required)
    && CoverageIsExact(plan.required, plan.covered, plan.selected + plan.assurance)
  }

  ghost predicate Indexes(byId: map<ObligationId, Obligation>, required: seq<Obligation>) {
    && (forall o :: o in required ==> o.id in byId && byId[o.id] == o)
    && (forall id :: id in byId ==> byId[id] in required && byId[id].id == id)
  }

  /** Required obligations by id; fails on a repeated id or an unsound gate obligation. */
  method IndexRequired(required: seq<Obligation>) returns (ok: bool, byId: map<ObligationId, Obligation>)
    ensures ok <==> IdsAreDistinct(required) && forall o :: o in required ==> ObligationIsSound(o)
    ensures ok ==> Indexes(byId, required)
  {
    byId := map[];
    for i := 0 to |required|
      invariant IdsAreDistinct(required[..i]) && forall o :: o in required[..i] ==> ObligationIsSound(o)
      invariant Indexes(byId, required[..i])
    {
      var o := required[i];
      assert required[..i + 1] == required[..i] + [o];
      if o.id in byId {
        var j :| 0 <= j < i && required[j] == byId[o.id];
        return false, byId;
      }
      byId := byId[o.id := o];
      if !ObligationIsSound(o) {
        assert o in required;
        return false, byId;
      }
    }
    assert required[..|required|] == required;
    ok := true;
  }

  /** Coverage rows by id; fails on a row that fits no required obligation. */
  method IndexCovered(covered: seq<Coverage>, ghost obligations: seq<Obligation>, required: map<ObligationId, Obligation>, specialists: seq<Role>)
    returns (ok: bool, byId: map<ObligationId, seq<Coverage>>)
    requires Indexes(required, obligations)
    ensures ok <==> forall c :: c in covered ==> Fits(c, obligations, specialists)
    ensures ok ==> forall id :: (if id in byId then byId[id] else []) == Filter(covered, Covering(id))
  {
    byId := map[];
    for i := 0 to |covered|
      invariant forall c :: c in covered[..i] ==> Fits(c, obligations, specialists)
      invariant forall id :: (if id in byId then byId[id] else []) == Filter(covered[..i], Covering(id))
    {
      var c := covered[i];
      assert covered[..i + 1] == covered[..i] + [c];
      if c.id !in required || !Covers(c, required[c.id], specialists) {
        assert c in covered && !Fits(c, obligations, specialists);
        return false, byId;
      }
      forall id ensures Filter(covered[..i + 1], Covering(id)) == Filter(covered[..i], Covering(id)) + if c.id == id then [c] else [] {
        FilterAppend(covered[..i], c, Covering(id));
      }
      byId := byId[c.id := (if c.id in byId then byId[c.id] else []) + [c]];
    }
    assert covered[..|covered|] == covered;
    ok := true;
  }

  /** Every obligation has exactly one row. */
  method EachIsCoveredOnce(obligations: seq<Obligation>, ghost covered: seq<Coverage>, byId: map<ObligationId, seq<Coverage>>) returns (ok: bool)
    requires forall id :: (if id in byId then byId[id] else []) == Filter(covered, Covering(id))
    ensures ok <==> forall o :: o in obligations ==> |Filter(covered, Covering(o.id))| == 1
  {
    hide Filter, Covering;
    for i := 0 to |obligations|
      invariant forall o :: o in obligations[..i] ==> |Filter(covered, Covering(o.id))| == 1
    {
      var o := obligations[i];
      assert obligations[..i + 1] == obligations[..i] + [o];
      var matches := if o.id in byId then byId[o.id] else [];
      assert matches == Filter(covered, Covering(o.id));
      if |matches| != 1 {
        assert o in obligations;
        return false;
      }
    }
    assert obligations[..|obligations|] == obligations;
    ok := true;
  }

  method CheckCoverage(obligations: seq<Obligation>, required: map<ObligationId, Obligation>, covered: seq<Coverage>, specialists: seq<Role>)
    returns (ok: bool)
    requires Indexes(required, obligations)
    ensures ok <==> CoverageIsExact(obligations, covered, specialists)
  {
    hide Fits, Covering, Filter, Indexes;
    var fits, byId := IndexCovered(covered, obligations, required, specialists);
    if !fits {
      return false;
    }
    ok := EachIsCoveredOnce(obligations, covered, byId);
  }

  method TypedSelectionPlanIsValid(inp: PolicyInput) returns (valid: bool)
    ensures valid <==> PlanIsValid(inp)
  {
    if !PlanIsBound(inp) {
      return false;
    }
    var plan := inp.plan.value.content;
    var sound, required := IndexRequired(plan.required);
    if !sound {
      return false;
    }
    if exists g :: g in inp.run.selectedGates && !RequiresGate(plan.required, g) {
      return false;
    }
    if exists r :: r in inp.run.requiredReviewers && AssuranceOf(r) !in required {
      ghost var r :| r in inp.run.requiredReviewers && AssuranceOf(r) !in required;
      assert !RequiresId(plan.required, AssuranceOf(r));
      return false;
    }
    forall r | r in inp.run.requiredReviewers ensures RequiresId(plan.required, AssuranceOf(r)) {
      assert required[AssuranceOf(r)] in plan.required;
    }
    valid := CheckCoverage(plan.required, required, plan.covered, plan.selected + plan.assurance);
  }

  /** A valid plan covers each required obligation exactly once and nothing else. */
  lemma CoverageIsBijection(inp: PolicyInput)
    requires PlanIsValid(inp)
    ensures var plan := inp.plan.value.content;
      && |plan.covered| == |plan.required|
      && (forall i, j :: 0 <= i < j < |plan.covered| ==> plan.covered[i].id != plan.covered[j].id)
      && (forall o :: o in plan.required ==> exists c :: c in plan.covered && c.id == o.id)
      && (forall c, o :: c in plan.covered && o in plan.required && c.id == o.id
            ==> Covers(c, o, plan.selected + plan.assurance))
  {
    var plan := inp.plan.value.content;
    ExactCoverageIsBijection(plan.required, plan.covered, plan.selected + plan.assurance);
  }

  lemma ExactCoverageIsBijection(required: seq<Obligation>, covered: seq<Coverage>, specialists: seq<Role>)
    requires IdsAreDistinct(required) && CoverageIsExact(required, covered, specialists)
    ensures |covered| == |required|
    ensures forall i, j :: 0 <= i < j < |covered| ==> covered[i].id != covered[j].id
    ensures forall o :: o in required ==> exists c :: c in covered && c.id == o.id
    ensures forall c, o :: c in covered && o in required && c.id == o.id ==> Covers(c, o, specialists)
  {
    CoveredIdsAreDistinct(required, covered, specialists);
    CoveredIdsAreTheRequiredIds(required, covered, specialists);
    SameMembersSameLength(RequiredIds(required), CoveredIds(covered));
    forall o | o in required ensures exists c :: c in covered && c.id == o.id {
      var c := Filter(covered, Covering(o.id))[0];
      assert c in Filter(covered, Covering(o.id));
    }
    forall c, o | c in covered && o in required && c.id == o.id ensures Covers(c, o, specialists) {
      assert Fits(c, required, specialists);
      var o' :| o' in required && Covers(c, o', specialists);
      SameIdSameObligation(required, o, o');
    }
  }

  function RequiredIds(required: seq<Obligation>): seq<ObligationId> {
    seq(|required|, i requires 0 <= i < |required| => required[i].id)
  }

  function CoveredIds(covered: seq<Coverage>): seq<ObligationId> {
    seq(|covered|, i requires 0 <= i < |covered| => covered[i].id)
  }

  lemma SameIdSameObligation(required: seq<Obligation>, o: Obligation, o': Obligation)
    requires IdsAreDistinct(required) && o in required && o' in required && o.id == o'.id
    ensures o == o'
  {
    var i :| 0 <= i < |required| && required[i] == o;
    var j :| 0 <= j < |required| && required[j] == o';
    assert required[i].id == required[j].id;
  }

  lemma CoveredIdsAreDistinct(required: seq<Obligation>, covered: seq<Coverage>, specialists: seq<Role>)
    requires CoverageIsExact(required, covered, specialists)
    ensures forall i, j :: 0 <= i < j < |covered| ==> covered[i].id != covered[j].id
  {
    forall i, j | 0 <= i < j < |covered| ensures covered[i].id != covered[j].id {
      assert covered[i] in covered && Fits(covered[i], required, specialists);
      if covered[i].id == covered[j].id {
        FilterTwice(covered, Covering(covered[i].id), i, j);
      }
    }
  }

  lemma CoveredIdsAreTheRequiredIds(required: seq<Obligation>, covered: seq<Coverage>, specialists: seq<Role>)
    requires CoverageIsExact(required, covered, specialists)
    ensures forall id :: id in RequiredIds(required) <==> id in CoveredIds(covered)
  {
    forall id ensures id in RequiredIds(required) <==> id in CoveredIds(covered) {
      if id in RequiredIds(required) {
        var i :| 0 <= i < |required| && RequiredIds(required)[i] == id;
        assert required[i] in required;
        var c := Filter(covered, Covering(id))[0];
        assert c in Filter(covered, Covering(id));
        var j :| 0 <= j < |covered| && covered[j] == c;
        assert CoveredIds(covered)[j] == id;
      }
      if id in CoveredIds(covered) {
        var j :| 0 <= j < |covered| && CoveredIds(covered)[j] == id;
        assert covered[j] in covered && Fits(covered[j], required, specialists);
        var o :| o in required && Covers(covered[j], o, specialists);
        var i :| 0 <= i < |required| && required[i] == o;
        assert RequiredIds(required)[i] == id;
      }
    }
  }
}
