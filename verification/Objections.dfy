/** Which objections count: the negative reviews that keep a run from completing at their digest, and those that never do. */
module Objections {
  import opened Basics
  import opened Gates
  import opened Records
  import opened CacheStore
  import opened Derivation
  import opened TypedSelection
  import opened AssurancePolicy
  import opened Lifecycle
  import opened LifecycleInvariant
  import opened LifecycleSafety
  import opened LedgerStanding

  /** A review decides if a selected gate is its reviewer's, or it is the first independent review of its digest. */
  predicate Decides(gates: seq<Gate>, earlier: seq<Review>, r: Review) {
    || (exists g :: g in gates && ContractOf(g) == Some(ReviewContract(r.role)))
    || (r.role == IndependentReviewer && IndependentReviewAt(earlier, Some(r.changeDigest)).None?)
  }

  /** The policy on a ledger with one more objection that is unobjectionable itself. */

  lemma ReviewsIgnoreObjection(rs: seq<Review>, r: Review, b: Blocker)
    requires r.verdict != Approved && forall x :: x in rs ==> x.reviewId != r.reviewId
    ensures AboutReviews(rs + [r], b) <==> AboutReviews(rs, b)
  {
    match b
    case DuplicateReviewId(id) => DuplicateIdStep(rs, r, id);
    case DuplicateReviewApproval(role) => FilterAppend(rs, r, ApprovedBy(role));
    case DuplicateReviewSession(session) =>
      assert forall x :: x in rs + [r] <==> x in rs || x == r;
    case _ =>
  }

  lemma CaseIgnoresObjection(inp: PolicyInput, more: PolicyInput, r: Review, b: Blocker)
    requires SameCase(inp, more) && inp.mode == more.mode != SubmissionMode
    requires CurrentReviews(more) == CurrentReviews(inp) + [r] && !AboutReview(inp, r, b)
    requires r.verdict != Approved && forall x :: x in CurrentReviews(inp) ==> x.reviewId != r.reviewId
    ensures Reported(more, b) <==> Reported(inp, b)
  {
    hide CurrentReviews, AboutRun, AboutReview, AboutReviews, Filter;
    var rs := CurrentReviews(inp);
    RunJudgedAlike(inp, more, b);
    forall x ensures AboutReview(more, x, b) == AboutReview(inp, x, b) {
      ReviewJudgedAlike(inp, more, x, b);
      ReviewJudgedAlike(more, inp, x, b);
    }
    SomeReviewStep(inp, rs, r, b);
    ReviewsIgnoreObjection(rs, r, b);
    if b.MissingRequiredReviewer? { FilterAppend(rs, r, ApprovedBy(b.role)); }
  }

  lemma PolicyIgnoresObjection(inp: PolicyInput, r: Review)
    requires inp.candidate.None? && inp.mode != SubmissionMode && ReviewMatches(inp, r)
    requires r.verdict != Approved && forall x :: x in inp.reviews ==> x.reviewId != r.reviewId
    requires forall b :: !AboutReview(inp, r, b)
    ensures Allowed(inp.(reviews := inp.reviews + [r])) <==> Allowed(inp)
  {
    var more := inp.(reviews := inp.reviews + [r]);
    assert Submitted(inp) == inp.reviews && Submitted(more) == inp.reviews + [r];
    FilterAppend(inp.reviews, r, MatchingReviews(inp.projectId, inp.workOrder, inp.run));
    assert CurrentReviews(more) == CurrentReviews(inp) + [r];
    hide CurrentReviews, AboutReview, Reported;
    forall b ensures Reported(more, b) <==> Reported(inp, b) {
      CaseIgnoresObjection(inp, more, r, b);
    }
  }

  function Without(s: State, i: nat): State
    requires i < |s.reviews|
  {
    s.(reviews := s.reviews[..i] + s.reviews[i + 1..])
  }

  predicate IsObjection(s: State, i: nat) {
    s.run.Some? && i < |s.reviews| && s.reviews[i].verdict != Approved && Some(s.reviews[i].changeDigest) == s.run.value.currentDigest
  }

  lemma IdIsUnique(c: Context, s: State, i: nat)
    requires Invariant(c, s) && i < |s.reviews|
    ensures forall x :: x in Without(s, i).reviews ==> x.reviewId != s.reviews[i].reviewId
  {
    hide WellFormed;
    forall x | x in Without(s, i).reviews ensures x.reviewId != s.reviews[i].reviewId {
      var rest := Without(s, i).reviews;
      var k :| 0 <= k < |rest| && rest[k] == x;
      assert x == s.reviews[if k < i then k else k + 1];
    }
  }

  lemma ObjectionIsClean(c: Context, s: State, i: nat, inp: PolicyInput, b: Blocker)
    requires Invariant(c, s) && IsActive(c, s) && AreWellMade(s) && IsObjection(s, i)
    requires inp.run == s.run.value && inp.workOrder == c.workOrder && inp.projectId == c.projectId && inp.evidence == s.evidence
    ensures ReviewMatches(inp, s.reviews[i]) && !AboutReview(inp, s.reviews[i], b)
  {
    hide WellFormed, IsPast, IsCoherent, AttemptCounts, AreIndependent, IsWellMade, AboutReview;
    WellMadeIsClean(c, s, s.reviews[i], inp, b);
  }

  lemma LastInstead(reviews: seq<Review>, i: nat)
    requires i < |reviews|
    ensures multiset(reviews) == multiset(reviews[..i] + reviews[i + 1..] + [reviews[i]])
  {
    assert reviews == reviews[..i] + [reviews[i]] + reviews[i + 1..];
  }

  /** Where gate states agree, the policy judges a ledger with and without the objection alike. */
  lemma AllowedAlike(c: Context, s: State, i: nat, plan: Option<SelectionPlan>)
    requires Invariant(c, s) && IsActive(c, s) && AreWellMade(s) && IsObjection(s, i)
    requires GateStatesOf(c, s) == GateStatesOf(c, Without(s, i))
    ensures Allowed(PolicyCase(c, s, FinalizeMode, None, plan)) <==> Allowed(PolicyCase(c, Without(s, i), FinalizeMode, None, plan))
  {
    hide Invariant, IsActive, AreWellMade, AboutReview, Reported, GateStatesOf, Allowed, ReviewMatches;
    var rest := Without(s, i).reviews;
    var full := PolicyCase(c, s, FinalizeMode, None, plan);
    var inp := full.(reviews := rest);
    assert inp == PolicyCase(c, Without(s, i), FinalizeMode, None, plan);
    assert full == inp.(reviews := s.reviews);
    hide PolicyCase, Without;
    AllowedInEitherCase(c, s, i, inp, rest);
  }

  lemma AllowedInEitherCase(c: Context, s: State, i: nat, inp: PolicyInput, rest: seq<Review>)
    requires Invariant(c, s) && IsActive(c, s) && AreWellMade(s) && IsObjection(s, i) && rest == Without(s, i).reviews
    requires inp.run == s.run.value && inp.workOrder == c.workOrder && inp.projectId == c.projectId && inp.evidence == s.evidence
    requires inp.mode == FinalizeMode && inp.candidate.None? && inp.reviews == rest
    ensures Allowed(inp.(reviews := s.reviews)) <==> Allowed(inp)
  {
    hide Invariant, IsActive, AreWellMade, AboutReview, ReviewMatches, Reported;
    var r := s.reviews[i];
    forall b ensures ReviewMatches(inp, r) && !AboutReview(inp, r, b) {
      ObjectionIsClean(c, s, i, inp, b);
    }
    ObjectionIsClean(c, s, i, inp, CurrentDigestRequired);
    IdIsUnique(c, s, i);
    PolicyIgnoresObjection(inp, r);
    LastInstead(s.reviews, i);
    BlockersIgnoreReviewOrder(inp.(reviews := s.reviews), rest + [r]);
  }

  lemma {:induction false} FilterSkips<T(!new)>(s: seq<T>, i: nat, p: T -> bool)
    requires i < |s| && !p(s[i])
    ensures Filter(s, p) == Filter(s[..i] + s[i + 1..], p)
  {
    assert s == s[..i] + [s[i]] + s[i + 1..];
    FilterConcat(s[..i] + [s[i]], s[i + 1..], p);
    FilterAppend(s[..i], s[i], p);
    FilterConcat(s[..i], s[i + 1..], p);
  }

  /** No selected gate is this reviewer's, so no gate's state depends on the review. */
  lemma GatesIgnoreObjection(c: Context, s: State, i: nat)
    requires s.run.Some? && i < |s.reviews|
    requires forall g :: g in s.run.value.selectedGates ==> ContractOf(g) != Some(ReviewContract(s.reviews[i].role))
    ensures GateStatesOf(c, s) == GateStatesOf(c, Without(s, i))
  {
    var run := s.run.value;
    var v := ValidationFor(c, run, s.store);
    forall g | g in run.selectedGates
      ensures DeriveGate(g, run.currentDigest, s.evidence, s.reviews, v) == DeriveGate(g, run.currentDigest, s.evidence, Without(s, i).reviews, v)
    {
      if IsReviewGate(g) && Present(run.currentDigest) {
        FilterSkips(s.reviews, i, CountingReviews(GateDefOf(g).value.contract.reviewer, run.currentDigest, v));
      }
    }
  }

  /** An independent review of a digest is the first if none comes before it. */
  lemma FirstIndependentIs(reviews: seq<Review>, i: nat, digest: Option<string>)
    requires i < |reviews| && reviews[i].role == IndependentReviewer && Some(reviews[i].changeDigest) == digest
    requires IndependentReviewAt(reviews[..i], digest).None?
    ensures IndependentReviewAt(reviews, digest) == Some(reviews[i])
  {
    var before, r, after := reviews[..i], reviews[i], reviews[i + 1..];
    assert reviews == before + [r] + after;
    FilterConcat(before + [r], after, AtDigest(digest));
    FilterAppend(before, r, AtDigest(digest));
    var b, a := Filter(before, AtDigest(digest)), Filter(after, AtDigest(digest));
    FilterConcat(b + [r], a, ByRole(IndependentReviewer));
    FilterAppend(b, r, ByRole(IndependentReviewer));
  }

  lemma FirstIndependentOf(reviews: seq<Review>, earlier: seq<Review>, digest: Option<string>)
    requires earlier <= reviews && IndependentReviewAt(earlier, digest).Some?
    ensures IndependentReviewAt(reviews, digest) == IndependentReviewAt(earlier, digest)
  {
    FilterKeepsPrefix(earlier, reviews, AtDigest(digest));
    FilterKeepsPrefix(Filter(earlier, AtDigest(digest)), Filter(reviews, AtDigest(digest)), ByRole(IndependentReviewer));
  }

  /** The first independent review is the same without a review that is not it. */
  lemma IndependentAlike(s: State, i: nat)
    requires IsObjection(s, i)
    requires s.reviews[i].role == IndependentReviewer ==> IndependentReviewAt(s.reviews[..i], s.run.value.currentDigest).Some?
    ensures IndependentReviewAt(s.reviews, s.run.value.currentDigest) == IndependentReviewAt(Without(s, i).reviews, s.run.value.currentDigest)
  {
    var digest, r := s.run.value.currentDigest, s.reviews[i];
    if r.role == IndependentReviewer {
      FirstIndependentOf(s.reviews, s.reviews[..i], digest);
      FirstIndependentOf(Without(s, i).reviews, s.reviews[..i], digest);
    } else {
      var before, after := s.reviews[..i], s.reviews[i + 1..];
      assert s.reviews == before + [r] + after;
      FilterConcat(before + [r], after, AtDigest(digest));
      FilterAppend(before, r, AtDigest(digest));
      FilterConcat(before, after, AtDigest(digest));
      var b, a := Filter(before, AtDigest(digest)), Filter(after, AtDigest(digest));
      FilterConcat(b + [r], a, ByRole(IndependentReviewer));
      FilterAppend(b, r, ByRole(IndependentReviewer));
      FilterConcat(b, a, ByRole(IndependentReviewer));
    }
  }

  lemma ApprovalsAlike(s: State, i: nat)
    requires IsObjection(s, i)
    ensures RequiredRolesApprove(s) <==> RequiredRolesApprove(Without(s, i))
  {
    var rest := Without(s, i).reviews;
    assert s.reviews == s.reviews[..i] + [s.reviews[i]] + s.reviews[i + 1..];
    assert forall x :: x in s.reviews && x.verdict == Approved <==> x in rest && x.verdict == Approved;
  }

  /** An objection that decides nothing changes nothing about finalizing. */
  lemma FinalizingIgnoresObjection(c: Context, s: State, i: nat, plan: Option<SelectionPlan>)
    requires Invariant(c, s) && IsActive(c, s) && AreWellMade(s) && IsObjection(s, i)
    requires !Decides(s.run.value.selectedGates, s.reviews[..i], s.reviews[i])
    ensures CanFinalize(c, s, plan) <==> CanFinalize(c, Without(s, i), plan)
  {
    hide Invariant, AreWellMade, IsActive, IndependentReviewAt, RequiredRolesApprove, DeriveGateStates, Allowed;
    GatesIgnoreObjection(c, s, i);
    AllowedAlike(c, s, i, plan);
    IndependentAlike(s, i);
    ApprovalsAlike(s, i);
    hide AllGatesPass, PolicyCase, GateStatesOf, Decides;
  }

  /** One that decides prevents it. */
  lemma DecidingPrevents(c: Context, s: State, i: nat, plan: Option<SelectionPlan>)
    requires Invariant(c, s) && IsActive(c, s) && IsObjection(s, i)
    requires Decides(s.run.value.selectedGates, s.reviews[..i], s.reviews[i])
    ensures IsRejected(s, s.reviews[i].changeDigest) && !CanFinalize(c, s, plan)
  {
    var r := s.reviews[i];
    DecidingRejects(s, i);
    assert r in s.reviews && r.changeDigest != "" by { hide WellFormed, IsPast; assert IsIndependent(s.run.value, r); }
    if CanFinalize(c, s, plan) {
      FinalizableIsSupported(c, s, plan);
      SupportExcludesRejection(c, s, r.changeDigest);
    }
  }

  lemma DecidingRejects(s: State, i: nat)
    requires s.run.Some? && i < |s.reviews| && s.reviews[i].verdict != Approved
    requires Decides(s.run.value.selectedGates, s.reviews[..i], s.reviews[i])
    ensures HasNegativeReview(s, s.reviews[i].changeDigest) || FirstIndependentObjects(s, s.reviews[i].changeDigest)
  {
    var r := s.reviews[i];
    if g :| g in s.run.value.selectedGates && ContractOf(g) == Some(ReviewContract(r.role)) {
      assert r in s.reviews;
    } else {
      FirstIndependentIs(s.reviews, i, Some(r.changeDigest));
    }
  }

  /** An objection on record at the run's digest stands in the way of finalizing exactly when it decides; without it, and
      with one that does not decide, the answer is the same. */
  lemma ObjectionPreventsExactlyWhen(c: Context, s: State, i: nat, plan: Option<SelectionPlan>)
    requires Invariant(c, s) && IsActive(c, s) && AreWellMade(s) && IsObjection(s, i)
    ensures CanFinalize(c, s, plan)
      <==> CanFinalize(c, Without(s, i), plan) && !Decides(s.run.value.selectedGates, s.reviews[..i], s.reviews[i])
  {
    hide CanFinalize, Invariant, AreWellMade, Decides;
    if Decides(s.run.value.selectedGates, s.reviews[..i], s.reviews[i]) {
      DecidingPrevents(c, s, i, plan);
    } else {
      FinalizingIgnoresObjection(c, s, i, plan);
    }
  }

  /** An objection stays on record where it is, and goes on deciding or not. */
  lemma ObjectionStays(c: Context, s: State, past: seq<Event>, future: seq<Event>, i: nat)
    requires IsInitial(c, s)
    requires IsOwn(c, History(c, s, past)) && i < |History(c, s, past).reviews|
    ensures var now, t := History(c, s, past), History(c, s, past + future);
      && IsOwn(c, t) && i < |t.reviews| && t.reviews[..i + 1] == now.reviews[..i + 1]
      && Invariant(c, now) && Invariant(c, t) && AreWellMade(t)
      && now.run.value.selectedGates == t.run.value.selectedGates == c.workOrder.qualityGates
  {
    var now := History(c, s, past);
    HistoryIsSound(c, s, past);
    HistoryConcat(c, s, past, future);
    HistoryExtends(c, now, future);
    HistoryIsWellMade(c, s, past + future);
    BoundGates(c, now);
    BoundGates(c, History(c, s, past + future));
    hide History, Invariant, AreWellMade;
  }

  /** Between two states of a history: an objection that decides when recorded keeps the run from completing at its digest;
      one that does not makes no difference to whether the run can be finalized there. */
  ghost predicate IsFateOf(c: Context, now: State, t: State, i: nat, plan: Option<SelectionPlan>)
    requires i < |now.reviews|
  {
    var r, decides := now.reviews[i], Decides(c.workOrder.qualityGates, now.reviews[..i], now.reviews[i]);
    && IsOwn(c, t) && i < |t.reviews| && t.reviews[i] == r
    && (decides ==> !(t.run.value.status == Completed && t.run.value.currentDigest == Some(r.changeDigest)))
    && (IsActive(c, t) && t.run.value.currentDigest == Some(r.changeDigest) ==>
          (CanFinalize(c, t, plan) <==> CanFinalize(c, Without(t, i), plan) && !decides))
  }

  lemma FateFromParts(c: Context, now: State, t: State, i: nat, plan: Option<SelectionPlan>)
    requires IsOwn(c, t) && i < |now.reviews| && i < |t.reviews| && t.reviews[..i + 1] == now.reviews[..i + 1]
    requires Invariant(c, t) && AreWellMade(t) && t.run.value.selectedGates == c.workOrder.qualityGates && now.reviews[i].verdict != Approved
    requires Decides(c.workOrder.qualityGates, now.reviews[..i], now.reviews[i]) ==>
      !(t.run.value.status == Completed && t.run.value.currentDigest == Some(now.reviews[i].changeDigest))
    ensures IsFateOf(c, now, t, i, plan)
  {
    hide Invariant, AreWellMade, CanFinalize, Decides, IsActive;
    assert t.reviews[i] == t.reviews[..i + 1][i] && t.reviews[..i] == t.reviews[..i + 1][..i] == now.reviews[..i];
    if IsActive(c, t) && t.run.value.currentDigest == Some(now.reviews[i].changeDigest) {
      ObjectionPreventsExactlyWhen(c, t, i, plan);
    }
  }

  /** Over every history that is the fate of every objection. */
  lemma ObjectionsOverHistories(c: Context, s: State, past: seq<Event>, future: seq<Event>, i: nat, plan: Option<SelectionPlan>)
    requires IsInitial(c, s)
    requires var now := History(c, s, past); IsOwn(c, now) && i < |now.reviews| && now.reviews[i].verdict != Approved
    ensures IsFateOf(c, History(c, s, past), History(c, s, past + future), i, plan)
  {
    ObjectionStays(c, s, past, future, i);
    hide History, Invariant, AreWellMade, IsFateOf, Decides;
    if Decides(c.workOrder.qualityGates, History(c, s, past).reviews[..i], History(c, s, past).reviews[i]) {
      DecidedForGood(c, s, past, future, i);
    }
    FateFromParts(c, History(c, s, past), History(c, s, past + future), i, plan);
  }

  lemma DecidedForGood(c: Context, s: State, past: seq<Event>, future: seq<Event>, i: nat)
    requires IsInitial(c, s)
    requires var now := History(c, s, past);
      && IsOwn(c, now) && Invariant(c, now) && i < |now.reviews| && now.reviews[i].verdict != Approved
      && Decides(now.run.value.selectedGates, now.reviews[..i], now.reviews[i])
    ensures var t := History(c, s, past + future);
      IsOwn(c, t) && !(t.run.value.status == Completed && t.run.value.currentDigest == Some(History(c, s, past).reviews[i].changeDigest))
  {
    var now := History(c, s, past);
    hide History, WellFormed, IsPast, IsCoherent, Decides;
    DecidingRejects(now, i);
    assert now.reviews[i] in now.reviews && IsIndependent(now.run.value, now.reviews[i]);
    RejectedStaysRejected(c, s, past, future, now.reviews[i].changeDigest);
  }

  lemma BoundGates(c: Context, s: State)
    requires Invariant(c, s) && IsOwn(c, s)
    ensures s.run.value.selectedGates == c.workOrder.qualityGates
  {
    hide WellFormed, IsPast;
  }

  /** Reviews reject a digest exactly when one of them objects and decides. */
  lemma ReviewsRejectExactlyWhen(c: Context, s: State, digest: string)
    requires Invariant(c, s) && IsOwn(c, s)
    ensures HasNegativeReview(s, digest) || FirstIndependentObjects(s, digest)
      <==> exists i :: 0 <= i < |s.reviews| && s.reviews[i].changeDigest == digest && s.reviews[i].verdict != Approved
             && Decides(s.run.value.selectedGates, s.reviews[..i], s.reviews[i])
  {
    hide WellFormed, IsPast, IsCoherent, AttemptCounts, AreIndependent, LedgersAreOwn;
    if HasNegativeReview(s, digest) {
      var r, g :| r in s.reviews && r.changeDigest == digest && (r.verdict != Approved || IsContradiction(r))
        && g in s.run.value.selectedGates && ContractOf(g) == Some(ReviewContract(r.role));
      var i :| 0 <= i < |s.reviews| && s.reviews[i] == r;
      assert IsIndependent(s.run.value, r);
      assert Decides(s.run.value.selectedGates, s.reviews[..i], s.reviews[i]);
    }
    if FirstIndependentObjects(s, digest) {
      var i := FirstIndependentIndex(s.reviews, Some(digest));
      assert Decides(s.run.value.selectedGates, s.reviews[..i], s.reviews[i]);
    }
    forall i | 0 <= i < |s.reviews| && s.reviews[i].changeDigest == digest && s.reviews[i].verdict != Approved
        && Decides(s.run.value.selectedGates, s.reviews[..i], s.reviews[i])
      ensures HasNegativeReview(s, digest) || FirstIndependentObjects(s, digest)
    {
      DecidingRejects(s, i);
    }
  }

  lemma {:induction false} FirstIndependentIndex(reviews: seq<Review>, digest: Option<string>) returns (i: nat)
    requires IndependentReviewAt(reviews, digest).Some?
    ensures i < |reviews| && reviews[i] == IndependentReviewAt(reviews, digest).value
    ensures Some(reviews[i].changeDigest) == digest && reviews[i].role == IndependentReviewer
    ensures IndependentReviewAt(reviews[..i], digest).None?
  {
    var init, last := reviews[..|reviews| - 1], reviews[|reviews| - 1];
    assert reviews == init + [last];
    if IndependentReviewAt(init, digest).Some? {
      i := FirstIndependentIndex(init, digest);
      FirstIndependentOf(reviews, init, digest);
      assert reviews[..i] == init[..i];
    } else {
      i := |reviews| - 1;
      FilterAppend(init, last, AtDigest(digest));
      FilterAppend(Filter(init, AtDigest(digest)), last, ByRole(IndependentReviewer));
    }
  }
}
