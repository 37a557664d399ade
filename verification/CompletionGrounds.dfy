/** What a completed run goes back to: a verified tree within scope, and warranted approvals. */
module CompletionGrounds {
  import opened Basics
  import opened Records
  import opened CacheStore
  import opened TypedSelection
  import opened AssurancePolicy
  import opened ApprovalBacking
  import opened Lifecycle
  import opened LifecycleInvariant
  import opened LifecycleSafety
  import opened LifecycleSteps

  /** The k-th event verified the run at this digest, on a tree whose every file is in scope or supporting. */
  ghost predicate Verifies(c: Context, s: State, events: seq<Event>, k: nat, digest: string)
    requires WellFormed(s.store) && k < |events|
  {
    var before := History(c, s, events[..k]);
    && events[k].VerifyEvent? && IsVerifiable(c, before) && !IsMissingChange(c, before)
    && before.tree.digest == digest && IsWithinScope(before.tree)
  }

  ghost predicate WasVerified(c: Context, s: State, events: seq<Event>, digest: string)
    requires WellFormed(s.store)
  {
    exists k :: 0 <= k < |events| && Verifies(c, s, events, k, digest)
  }

  lemma VerifiedEarlier(c: Context, s: State, events: seq<Event>, digest: string)
    requires WellFormed(s.store) && events != [] && WasVerified(c, s, events[..|events| - 1], digest)
    ensures WasVerified(c, s, events, digest)
  {
    hide History;
    var init := events[..|events| - 1];
    var k :| 0 <= k < |init| && Verifies(c, s, init, k, digest);
    assert init[..k] == events[..k] && init[k] == events[k];
    assert Verifies(c, s, events, k, digest);
  }

  /** A step that leaves a digest without violations found it there, or verified it. */
  lemma DigestIsKeptOrVerified(c: Context, s: State, e: Event)
    requires Invariant(c, s)
    ensures var t := Next(c, s, e);
      IsOwn(c, t) && t.run.value.currentDigest.Some? && t.run.value.scopeViolations == [] ==>
        || (IsOwn(c, s) && s.run.value.currentDigest == t.run.value.currentDigest && s.run.value.scopeViolations == [])
        || (e.VerifyEvent? && IsVerifiable(c, s) && !IsMissingChange(c, s) && IsWithinScope(s.tree)
            && t.run.value.currentDigest == Some(s.tree.digest))
  {
    assert WellFormed(s.store);
    hide Invariant, Allowed, CanFinalize, CanStartAssurance, CanReview, IsAcceptable, SubmittedReview, ViolationsOf;
    match e
    case VerifyEvent(index) =>
      VerifyingKeepsOrVerifies(c, s, index);
      hide VerifyStep;
    case _ =>
  }

  lemma VerifyingKeepsOrVerifies(c: Context, s: State, index: IndexInput)
    requires WellFormed(s.store)
    ensures var t := VerifyStep(c, s, index).0;
      IsOwn(c, t) && t.run.value.currentDigest.Some? && t.run.value.scopeViolations == [] ==>
        || (IsOwn(c, s) && s.run.value.currentDigest == t.run.value.currentDigest && s.run.value.scopeViolations == [])
        || (IsVerifiable(c, s) && !IsMissingChange(c, s) && IsWithinScope(s.tree) && t.run.value.currentDigest == Some(s.tree.digest))
  {
    hide VerifyStep, IsVerifiable, IsMissingChange, IsWithinScope;
    VerifyingMeans(c, s, index);
    VerifiableIsOwn(c, s);
    if IsVerifiable(c, s) && !IsMissingChange(c, s) && !IsWithinScope(s.tree) {
      LeavesViolations(c, s, index);
    } else if IsVerifiable(c, s) && IsMissingChange(c, s) {
      VerifyingNothingMeans(c, s, index);
    }
  }

  lemma VerifiableIsOwn(c: Context, s: State)
    ensures IsVerifiable(c, s) ==> IsOwn(c, s)
  {
  }

  lemma LeavesViolations(c: Context, s: State, index: IndexInput)
    requires WellFormed(s.store) && IsVerifiable(c, s) && !IsMissingChange(c, s) && !IsWithinScope(s.tree)
    ensures VerifyStep(c, s, index).0.run.value.scopeViolations != []
  {
    VerifyingViolationsMeans(c, s, index);
    hide VerifyStep;
    var f :| f in s.tree.files && !IsPermitted(f);
    assert f in VerifyStep(c, s, index).0.run.value.scopeViolations;
  }

  /** In every history a run at a digest, without violations, was verified at it on a tree within scope. */
  lemma {:induction false} DigestWasVerified(c: Context, s: State, events: seq<Event>)
    requires IsInitial(c, s)
    ensures var t := History(c, s, events);
      IsOwn(c, t) && t.run.value.currentDigest.Some? && t.run.value.scopeViolations == [] ==> WasVerified(c, s, events, t.run.value.currentDigest.value)
  {
    hide Next, Invariant, IsVerifiable, IsMissingChange, IsWithinScope;
    if events == [] {
      assert !IsOwn(c, History(c, s, events));
    } else {
      var init, last := events[..|events| - 1], events[|events| - 1];
      var before, t := History(c, s, init), History(c, s, events);
      HistoryIsSound(c, s, init);
      DigestWasVerified(c, s, init);
      DigestIsKeptOrVerified(c, before, last);
      if IsOwn(c, t) && t.run.value.currentDigest.Some? && t.run.value.scopeViolations == [] {
        if IsOwn(c, before) && before.run.value.currentDigest == t.run.value.currentDigest && before.run.value.scopeViolations == [] {
          VerifiedEarlier(c, s, events, t.run.value.currentDigest.value);
        } else {
          assert Verifies(c, s, events, |events| - 1, t.run.value.currentDigest.value);
        }
      }
    }
  }

  /** Every required role's approval is warranted by the plan the run was finalized with. */
  ghost predicate AreWarranted(c: Context, s: State, plan: Option<SelectionPlan>)
    requires s.run.Some?
  {
    forall role :: role in s.run.value.requiredReviewers ==> IsWarranted(PolicyCase(c, s, FinalizeMode, None, plan), role)
  }

  lemma FinalizableIsWarranted(c: Context, s: State, plan: Option<SelectionPlan>)
    requires Invariant(c, s) && IsActive(c, s) && CanFinalize(c, s, plan)
    ensures AreWarranted(c, s, plan)
  {
    hide Allowed, IsWarranted, WellFormed, IsPast, AllGatesPass, IndependentApproves, AcceptanceIsEvidenced, GateStatesOf;
    var inp := PolicyCase(c, s, FinalizeMode, None, plan);
    forall role | role in s.run.value.requiredReviewers ensures IsWarranted(inp, role) {
      var r :| r in s.reviews && Some(r.changeDigest) == s.run.value.currentDigest && r.role == role && r.verdict == Approved;
      assert r in Submitted(inp) && r in CurrentReviews(inp);
      AllowedApprovalsAreWarranted(inp, r);
    }
  }

  /** Whenever a history has completed the run, the digest was verified on a tree without a file out of scope or sensitive,
      and the event that completed it did so with every required approval warranted. */
  lemma CompletionIsGrounded(c: Context, s: State, events: seq<Event>) returns (k: nat)
    requires IsInitial(c, s) && IsCompleted(c, History(c, s, events))
    ensures History(c, s, events).run.value.currentDigest.Some?
    ensures WasVerified(c, s, events, History(c, s, events).run.value.currentDigest.value)
    ensures k < |events| && IsCompletingStep(c, s, events, k) && AreWarranted(c, History(c, s, events[..k]), events[k].plan)
  {
    CompletedHasDigest(c, s, events);
    DigestWasVerified(c, s, events);
    k := CompletionWasLive(c, s, events);
    HistoryIsSound(c, s, events[..k]);
    hide History, Invariant, CanFinalize, AreWarranted;
    FinalizableIsWarranted(c, History(c, s, events[..k]), events[k].plan);
  }

  lemma CompletedHasDigest(c: Context, s: State, events: seq<Event>)
    requires IsInitial(c, s) && IsCompleted(c, History(c, s, events))
    ensures History(c, s, events).run.value.currentDigest.Some? && History(c, s, events).run.value.scopeViolations == []
  {
    HistoryIsSound(c, s, events);
    hide History, WellFormed, IsPast;
  }
}
