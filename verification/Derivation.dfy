/** Gate status derived from the two append-only ledgers. */
module Derivation {
  import opened Basics
  import opened Gates
  import opened Records
  import opened CacheIntegrity

  /** The run a derivation speaks for and the cache it may consult. */
  datatype Validation = Validation(projectId: string, workOrderId: string, runId: string, store: Store)

  predicate EvidenceSatisfiesGate(e: Evidence, def: GateDef) {
    && e.status == EvidencePass && e.kind in def.kinds
    && (e.source.CacheReuse? ==>
          && Present(e.source.recordId) && e.source.sourceEvidenceId.Some? && e.source.decisionId.Some?
          && e.source.proof.Some? && e.source.contract.Some?)
    && if def.contract == CommandContract || e.kind == CommandEvidence then
         && e.kind == CommandEvidence && Present(e.command) && e.exitCode == Some(0)
         && Present(e.outputRef) && Present(e.outputDigest)
       else if e.kind == FileEvidence then Present(e.fileRef) && Present(e.fileDigest)
       else if e.kind == InvariantEvidence then
         (Present(e.outputRef) && Present(e.outputDigest)) || (Present(e.fileRef) && Present(e.fileDigest))
       else false
  }

  /** Evidence for this gate, at this digest, of this run. */
  predicate Counts(e: Evidence, gate: Gate, digest: Option<string>, v: Option<Validation>) {
    && e.gate == gate && Some(e.changeDigest) == digest
    && (v.Some? ==> e.projectId == v.value.projectId && e.workOrderId == v.value.workOrderId && e.runId == v.value.runId)
  }

  predicate Proves(e: Evidence, gate: Gate, digest: Option<string>, v: Option<Validation>) {
    && GateDefOf(gate).Some? && EvidenceSatisfiesGate(e, GateDefOf(gate).value)
    && (e.source.CacheReuse? ==>
          v.Some? && ReuseIsValid(v.value.store,
            ReuseContext(v.value.projectId, v.value.workOrderId, v.value.runId, gate, digest), e))
  }

  function Counting(gate: Gate, digest: Option<string>, v: Option<Validation>): Evidence -> bool {
    (e: Evidence) => Counts(e, gate, digest, v)
  }

  function WithStatus(status: EvidenceStatus): Evidence -> bool {
    (e: Evidence) => e.status == status
  }

  function Proving(gate: Gate, digest: Option<string>, v: Option<Validation>): Evidence -> bool {
    (e: Evidence) => Proves(e, gate, digest, v)
  }

  predicate IsContradiction(r: Review) {
    r.verdict == Approved && (High in r.findings || Critical in r.findings)
  }

  predicate CountsAsReview(r: Review, reviewer: Role, digest: Option<string>, v: Option<Validation>) {
    && Some(r.changeDigest) == digest && r.role == reviewer
    && (v.Some? ==> r.projectId == v.value.projectId && r.workOrderId == v.value.workOrderId && r.runId == v.value.runId)
  }

  function CountingReviews(reviewer: Role, digest: Option<string>, v: Option<Validation>): Review -> bool {
    (r: Review) => CountsAsReview(r, reviewer, digest, v)
  }

  /** The verdicts of the counting reviews, strongest objection first. */
  function Adjudicate(current: seq<Review>): GateStatus {
    if exists r :: r in current && IsContradiction(r) then GateFail
    else if exists r :: r in current && r.verdict == VerdictBlocked then GateBlocked
    else if exists r :: r in current && r.verdict == CorrectionNeeded then GateFail
    else if exists r :: r in current && r.verdict == Approved then GatePass
    else GatePending
  }

  function ReviewGateStatus(gate: Gate, digest: Option<string>, reviews: seq<Review>, v: Option<Validation>): GateStatus {
    if !Present(digest) || !IsReviewGate(gate) then GatePending
    else Adjudicate(Filter(reviews, CountingReviews(GateDefOf(gate).value.contract.reviewer, digest, v)))
  }

  /** The newest proof decides a PASS; any blocking or failing record outranks it. */
  function Grade(gate: Gate, current: seq<Evidence>, proves: Evidence -> bool): GateState {
    var blocked := Filter(current, WithStatus(EvidenceBlocked));
    var failed := Filter(current, WithStatus(EvidenceFail));
    var passing := Filter(current, proves);
    if blocked != [] then GateState(gate, GateBlocked, Some(blocked[0].evidenceId))
    else if failed != [] then GateState(gate, GateFail, Some(failed[0].evidenceId))
    else if passing != [] then GateState(gate, GatePass, Some(passing[|passing| - 1].evidenceId))
    else GateState(gate, GatePending, None)
  }

  function DeriveGate(gate: Gate, digest: Option<string>, evidence: seq<Evidence>, reviews: seq<Review>, v: Option<Validation>): GateState {
    if IsReviewGate(gate) then GateState(gate, ReviewGateStatus(gate, digest, reviews, v), None)
    else Grade(gate, Filter(evidence, Counting(gate, digest, v)), Proving(gate, digest, v))
  }

  function DeriveGateStates(gates: seq<Gate>, digest: Option<string>, evidence: seq<Evidence>, reviews: seq<Review>, v: Option<Validation>): (r: seq<GateState>)
    ensures |r| == |gates|
    ensures forall i :: 0 <= i < |gates| ==> r[i] == DeriveGate(gates[i], digest, evidence, reviews, v)
  {
    seq(|gates|, i requires 0 <= i < |gates| => DeriveGate(gates[i], digest, evidence, reviews, v))
  }

  function StatusOf(gate: Gate, digest: Option<string>, evidence: seq<Evidence>, reviews: seq<Review>, v: Option<Validation>): GateStatus {
    DeriveGate(gate, digest, evidence, reviews, v).status
  }

  /** PENDING < PASS < FAIL < BLOCKED. */
  function Rank(s: GateStatus): nat {
    match s case GatePending => 0 case GatePass => 1 case GateFail => 2 case GateBlocked => 3
  }

  function Max(a: GateStatus, b: GateStatus): GateStatus {
    if Rank(a) < Rank(b) then b else a
  }

  lemma GradeMeaning(gate: Gate, current: seq<Evidence>, proves: Evidence -> bool)
    ensures var s := Grade(gate, current, proves).status;
      && (s == GateBlocked <==> exists e :: e in current && e.status == EvidenceBlocked)
      && (Rank(s) >= 2 <==> exists e :: e in current && e.status != EvidencePass)
      && (Rank(s) >= 1 <==> exists e :: e in current && (e.status != EvidencePass || proves(e)))
  {
    var blocked := Filter(current, WithStatus(EvidenceBlocked));
    var failed := Filter(current, WithStatus(EvidenceFail));
    var passing := Filter(current, proves);
    if blocked != [] { assert blocked[0] in current && blocked[0].status == EvidenceBlocked; }
    if failed != [] { assert failed[0] in current && failed[0].status == EvidenceFail; }
    if passing != [] { assert passing[|passing| - 1] in current && proves(passing[|passing| - 1]); }
    forall e | e in current
      ensures e.status == EvidenceBlocked ==> e in blocked
      ensures e.status == EvidenceFail ==> e in failed
      ensures proves(e) ==> e in passing
    {
    }
  }

  /** Declarative reading: one blocking record blocks, else one failing record fails, else one proof passes. */
  lemma EvidenceStatusMeaning(gate: Gate, digest: Option<string>, evidence: seq<Evidence>, reviews: seq<Review>, v: Option<Validation>)
    requires !IsReviewGate(gate)
    ensures var s, counts, proves := StatusOf(gate, digest, evidence, reviews, v), Counting(gate, digest, v), Proving(gate, digest, v);
      && (s == GateBlocked <==> exists e :: e in evidence && counts(e) && e.status == EvidenceBlocked)
      && (Rank(s) >= 2 <==> exists e :: e in evidence && counts(e) && e.status != EvidencePass)
      && (Rank(s) >= 1 <==> exists e :: e in evidence && counts(e) && (e.status != EvidencePass || proves(e)))
  {
    GradeMeaning(gate, Filter(evidence, Counting(gate, digest, v)), Proving(gate, digest, v));
  }

  lemma GradesJoin(gate: Gate, c1: seq<Evidence>, c2: seq<Evidence>, proves: Evidence -> bool)
    ensures Grade(gate, c1 + c2, proves).status == Max(Grade(gate, c1, proves).status, Grade(gate, c2, proves).status)
  {
    GradeMeaning(gate, c1, proves);
    GradeMeaning(gate, c2, proves);
    GradeMeaning(gate, c1 + c2, proves);
    assert forall e :: e in c1 + c2 <==> e in c1 || e in c2;
  }

  /** For a fixed cache, the status over two ledgers together is the maximum of the two. */
  lemma EvidenceDerivationIsJoin(gate: Gate, digest: Option<string>, e1: seq<Evidence>, e2: seq<Evidence>, reviews: seq<Review>, v: Option<Validation>)
    requires !IsReviewGate(gate)
    ensures StatusOf(gate, digest, e1 + e2, reviews, v)
         == Max(StatusOf(gate, digest, e1, reviews, v), StatusOf(gate, digest, e2, reviews, v))
  {
    var counts := Counting(gate, digest, v);
    FilterConcat(e1, e2, counts);
    GradesJoin(gate, Filter(e1, counts), Filter(e2, counts), Proving(gate, digest, v));
  }

  /** Only which records are in the ledger matters, not their order or repetition. */
  lemma EvidenceDerivationIgnoresOrder(gate: Gate, digest: Option<string>, e1: seq<Evidence>, e2: seq<Evidence>, reviews: seq<Review>, v: Option<Validation>)
    requires !IsReviewGate(gate)
    requires forall e :: e in e1 <==> e in e2
    ensures StatusOf(gate, digest, e1, reviews, v) == StatusOf(gate, digest, e2, reviews, v)
  {
    EvidenceStatusMeaning(gate, digest, e1, reviews, v);
    EvidenceStatusMeaning(gate, digest, e2, reviews, v);
  }

  datatype ReviewLevel = NoReview | CleanApproval | Correction | Blocking | Contradiction

  function LevelRank(l: ReviewLevel): nat {
    match l case NoReview => 0 case CleanApproval => 1 case Correction => 2 case Blocking => 3 case Contradiction => 4
  }

  function MaxLevel(a: ReviewLevel, b: ReviewLevel): ReviewLevel {
    if LevelRank(a) < LevelRank(b) then b else a
  }

  function LevelOfReview(r: Review): ReviewLevel {
    match r.verdict
    case Approved => if IsContradiction(r) then Contradiction else CleanApproval
    case CorrectionNeeded => Correction
    case VerdictBlocked => Blocking
  }

  /** The strongest level in a list of reviews. */
  function LevelOf(current: seq<Review>): ReviewLevel {
    if current == [] then NoReview
    else MaxLevel(LevelOf(current[..|current| - 1]), LevelOfReview(current[|current| - 1]))
  }

  function StatusOfLevel(l: ReviewLevel): GateStatus {
    match l
    case NoReview => GatePending
    case CleanApproval => GatePass
    case Correction => GateFail
    case Blocking => GateBlocked
    case Contradiction => GateFail
  }

  /** The level of a list is the greatest of its reviews' levels. */
  lemma {:induction false} LevelIsGreatest(current: seq<Review>)
    ensures forall r :: r in current ==> LevelRank(LevelOfReview(r)) <= LevelRank(LevelOf(current))
    ensures LevelOf(current) != NoReview ==> exists r :: r in current && LevelOfReview(r) == LevelOf(current)
  {
    hide LevelOfReview;
    if current == [] {
    } else {
      var init, last := current[..|current| - 1], current[|current| - 1];
      LevelIsGreatest(init);
      assert current == init + [last];
      assert last in current && forall r :: r in init ==> r in current;
    }
  }

  /** The if-chain over verdicts is the status of the strongest level. */
  lemma AdjudicationIsLevel(current: seq<Review>)
    ensures Adjudicate(current) == StatusOfLevel(LevelOf(current))
    ensures forall r :: r in current ==> LevelRank(LevelOfReview(r)) <= LevelRank(LevelOf(current))
    ensures LevelOf(current) != NoReview ==> exists r :: r in current && LevelOfReview(r) == LevelOf(current)
  {
    hide LevelOf;
    LevelIsGreatest(current);
    if LevelOf(current) == NoReview {
      assert forall r :: r in current ==> LevelRank(LevelOfReview(r)) == 0;
    } else {
      var r :| r in current && LevelOfReview(r) == LevelOf(current);
    }
  }

  /** Levels of lists join. */
  lemma {:induction false} LevelJoin(r1: seq<Review>, r2: seq<Review>)
    ensures LevelOf(r1 + r2) == MaxLevel(LevelOf(r1), LevelOf(r2))
  {
    if r2 == [] {
      assert r1 + r2 == r1;
    } else {
      assert (r1 + r2)[..|r1 + r2| - 1] == r1 + r2[..|r2| - 1];
      LevelJoin(r1, r2[..|r2| - 1]);
    }
  }

  function ReviewLevelOf(gate: Gate, digest: Option<string>, reviews: seq<Review>, v: Option<Validation>): ReviewLevel
    requires IsReviewGate(gate)
  {
    if Present(digest) then LevelOf(Filter(reviews, CountingReviews(GateDefOf(gate).value.contract.reviewer, digest, v)))
    else NoReview
  }

  /** A review gate's status comes from its level, and levels over two ledgers join. */
  lemma ReviewDerivationIsJoin(gate: Gate, digest: Option<string>, evidence: seq<Evidence>, r1: seq<Review>, r2: seq<Review>, v: Option<Validation>)
    requires IsReviewGate(gate)
    ensures StatusOf(gate, digest, evidence, r1 + r2, v) == StatusOfLevel(ReviewLevelOf(gate, digest, r1 + r2, v))
    ensures ReviewLevelOf(gate, digest, r1 + r2, v)
         == MaxLevel(ReviewLevelOf(gate, digest, r1, v), ReviewLevelOf(gate, digest, r2, v))
  {
    if Present(digest) {
      var p := CountingReviews(GateDefOf(gate).value.contract.reviewer, digest, v);
      FilterConcat(r1, r2, p);
      LevelJoin(Filter(r1, p), Filter(r2, p));
      AdjudicationIsLevel(Filter(r1 + r2, p));
    }
  }

  /** Appending to either ledger never undoes a failure at the same digest, whatever the cache now says. */
  lemma FailureIsPermanent(gate: Gate, digest: Option<string>, e1: seq<Evidence>, e2: seq<Evidence>, r1: seq<Review>, r2: seq<Review>, v: Validation, store: Store)
    requires Rank(StatusOf(gate, digest, e1, r1, Some(v))) >= 2
    ensures Rank(StatusOf(gate, digest, e1 + e2, r1 + r2, Some(v.(store := store)))) >= 2
  {
    var w := v.(store := store);
    if IsReviewGate(gate) {
      hide Adjudicate, IsReviewGate, StatusOf;
      assert r1 + [] == r1;
      ReviewDerivationIsJoin(gate, digest, e1, r1, [], Some(v));
      ReviewDerivationIsJoin(gate, digest, e1 + e2, r1, r2, Some(w));
      ReviewsIgnoreStore(gate, digest, r1, v, store);
    } else {
      hide StatusOf, Proves;
      EvidenceStatusMeaning(gate, digest, e1, r1, Some(v));
      EvidenceStatusMeaning(gate, digest, e1 + e2, r1 + r2, Some(w));
      var e :| e in e1 && Counting(gate, digest, Some(v))(e) && e.status != EvidencePass;
      assert e in e1 + e2 && Counting(gate, digest, Some(w))(e);
    }
  }

  lemma {:induction false} ReviewsIgnoreStore(gate: Gate, digest: Option<string>, reviews: seq<Review>, v: Validation, store: Store)
    requires IsReviewGate(gate)
    ensures var reviewer := GateDefOf(gate).value.contract.reviewer;
      Filter(reviews, CountingReviews(reviewer, digest, Some(v))) == Filter(reviews, CountingReviews(reviewer, digest, Some(v.(store := store))))
  {
    if reviews == [] {
    } else {
      ReviewsIgnoreStore(gate, digest, reviews[..|reviews| - 1], v, store);
    }
  }
}
