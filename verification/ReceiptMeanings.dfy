/** What handing off and moving a receipt accept, refuse and record, over any state a run can reach. */
module ReceiptMeanings {
  import opened Basics
  import opened Receipts

  /** The bundle is for the adapter and project asked about, names a run, and is trusted and authorized. */
  predicate IsAcceptable(e: Surroundings) {
    && e.bundle.Some? && e.bundle.value.adapter == e.adapter && e.bundle.value.projectId == e.projectId
    && e.bundle.value.runId.Some? && e.bundle.value.runId != Some("")
    && e.trusted && e.authorized
  }

  /** A receipt of this bundle, under the program's own contract version. */
  predicate IsOfBundle(r: Receipt, bundle: Binding) {
    && r.binding.adapter == bundle.adapter && r.binding.contractVersion == "0.10.0" && r.binding.projectId == bundle.projectId
    && r.binding.runId == bundle.runId && r.binding.rest == bundle.rest
  }

  /** It was added under its name, made current and is in the log; nothing was lost but what pruning took. */
  ghost predicate IsRecorded(s: Store, t: Store, r: Receipt) {
    && t.current == Some(r) && t.log == s.log + {r} && t.clock == s.clock + 1
    && r !in s.log && r.id in t.history && t.history[r.id] == r
    && forall id :: id in t.history && id != r.id ==> id in s.history && t.history[id] == s.history[id]
  }

  lemma RecordedWhenNext(s: Store, hash: Time -> string, r: Receipt)
    requires Invariant(s, hash) && IsInjective(hash) && IsNextReceipt(s, hash, r)
    ensures Persist(s, r).1 == Returned(r) && IsRecorded(s, Persist(s, r).0, r)
  {
    hide IsWellTimed, LogIsSound, CurrentIsLatest, IsNextReceipt, IsInjective;
    NextNameIsNew(s, hash, r);
    PersistKeeps(s, hash, r);
    hide Invariant;
    PersistedIsThere(s, r);
    CurrentStays(Persist(s, r).0, hash);
  }

  lemma CurrentStays(t: Store, hash: Time -> string)
    requires Invariant(t, hash) && t.current.Some?
    ensures t.current.value.id in t.history && t.history[t.current.value.id] == t.current.value
  {
    hide LogIsSound;
    CurrentIsKept(t);
  }

  lemma PersistedIsThere(s: Store, r: Receipt)
    requires IsConsistent(s) && r.id !in s.history
    ensures var t := Persist(s, r).0;
      && t.current == Some(r) && t.log == s.log + {r} && t.clock == s.clock + 1
      && forall id :: id in t.history && id != r.id ==> id in s.history && t.history[id] == s.history[id]
  {
  }

  lemma CurrentIsKept(t: Store)
    requires CurrentIsLatest(t) && t.current.Some?
    ensures t.current.value.id in t.history && t.history[t.current.value.id] == t.current.value
  {
    assert t.current.value in ChainOf(t.log, t.current.value.createdAt);
  }

  /** A handoff is refused exactly for an unacceptable bundle; for the current receipt's own bundle it gives that receipt back; and
      for any other it starts a new chain. */
  lemma HandingOffMeans(s: Store, hash: Time -> string, e: Surroundings)
    requires Invariant(s, hash) && IsInjective(hash)
    ensures var (t, result) := Handoff(s, hash, e);
      && (result == Rejected <==> !IsAcceptable(e))
      && (result == Rejected ==> t == s)
      && (IsAcceptable(e) && s.current.Some? && s.current.value.binding == e.bundle.value ==> t == s && result == Returned(s.current.value))
      && (IsAcceptable(e) && !(s.current.Some? && s.current.value.binding == e.bundle.value) ==>
            && result.Returned? && IsRecorded(s, t, result.receipt) && IsOfBundle(result.receipt, e.bundle.value)
            && result.receipt.status == Accepted && result.receipt.reasons == {"HANDOFF_ACCEPTED"}
            && result.receipt.createdAt == result.receipt.updatedAt == result.receipt.acceptedAt == s.clock
            && result.receipt.startedAt == None && result.receipt.completedAt == None)
  {
    assert BundleIsAccepted(e) <==> IsAcceptable(e);
    if IsAcceptable(e) {
      var r := Build(hash, e.bundle.value, Accepted, {ReasonFor(Accepted)}, None, s.clock);
      BuiltReceiptIsNext(s, hash, e, Accepted, {ReasonFor(Accepted)});
      RecordedWhenNext(s, hash, r);
      hide Invariant, Persist, IsRecorded, IsNextReceipt;
    }
    hide Invariant;
  }

  /** From acceptance on to any other state, from a start on to an end, and nowhere else. */
  predicate MayFollow(from: ReceiptStatus, to: ReceiptStatus) {
    || (from == Accepted && (to == Started || to == Completed || to == Failed || to == Blocked))
    || (from == Started && (to == Completed || to == Failed || to == Blocked))
  }

  function OwnReason(status: ReceiptStatus): string {
    match status
    case Accepted => "HANDOFF_ACCEPTED"
    case Started => "HANDOFF_STARTED"
    case Completed => "HANDOFF_COMPLETED"
    case Failed => "HANDOFF_FAILED"
    case Blocked => "HANDOFF_BLOCKED"
  }

  /** None given, which stands for the state's own; or at most eight different known ones, the state's own among them. */
  predicate AreReasonsFor(given: seq<string>, status: ReceiptStatus) {
    given == [] ||
      (&& |given| <= 8 && (forall i, j :: 0 <= i < j < |given| ==> given[i] != given[j])
       && (forall i :: 0 <= i < |given| ==> given[i] in REASON_CODES) && exists i :: 0 <= i < |given| && given[i] == OwnReason(status))
  }

  function Named(given: seq<string>, status: ReceiptStatus): set<string> {
    if given == [] then {OwnReason(status)} else set c | c in given
  }

  lemma ReasonsMean(given: seq<string>, status: ReceiptStatus)
    ensures ReasonsFor(status, given) == if AreReasonsFor(given, status) then Some(Named(given, status)) else None
  {
    assert ReasonFor(status) == OwnReason(status) && OwnReason(status) in REASON_CODES;
    if given == [] {
      assert (set c | c in [OwnReason(status)]) == {OwnReason(status)};
    }
  }

  /** The current receipt is the asking adapter's, and the reasons are in order. */
  predicate IsAddressed(s: Store, e: Surroundings, status: ReceiptStatus, given: seq<string>) {
    s.current.Some? && s.current.value.binding.adapter == e.adapter && AreReasonsFor(given, status)
  }

  /** The state may follow, and the current bundle is still the receipt's, trusted and authorized. */
  predicate IsMovable(r: Receipt, e: Surroundings, status: ReceiptStatus) {
    && MayFollow(r.status, status)
    && e.bundle == Some(r.binding) && e.bundle.value.adapter == e.adapter && e.trusted && e.authorized
  }

  /** The next receipt of a chain keeps its binding, creation, acceptance and start, and is finished exactly when terminal. */
  predicate Continues(r: Receipt, next: Receipt, status: ReceiptStatus, reasons: set<string>, now: Time) {
    && next.binding == r.binding && next.status == status && next.reasons == reasons
    && next.createdAt == r.createdAt && next.acceptedAt == r.acceptedAt && next.updatedAt == now
    && next.startedAt == (if r.startedAt.Some? then r.startedAt else if status == Started then Some(now) else None)
    && next.completedAt == (if status == Started then None else Some(now))
  }

  /** A repeat of the current state with its reasons gives the current receipt back; a move that may follow adds the next receipt;
      everything else is refused and changes nothing. */
  lemma MovingMeans(s: Store, hash: Time -> string, e: Surroundings, status: ReceiptStatus, given: seq<string>)
    requires Invariant(s, hash) && IsInjective(hash)
    ensures var (t, result) := Transition(s, hash, e, status, given);
      && (result != Rejected <==>
            && IsAddressed(s, e, status, given)
            && if s.current.value.status == status then s.current.value.reasons == Named(given, status) else IsMovable(s.current.value, e, status))
      && (result == Rejected ==> t == s)
      && (result != Rejected && s.current.value.status == status ==> t == s && result == Returned(s.current.value))
      && (result != Rejected && s.current.value.status != status ==>
            && result.Returned? && IsRecorded(s, t, result.receipt)
            && Continues(s.current.value, result.receipt, status, Named(given, status), s.clock))
  {
    ReasonsMean(given, status);
    if IsAddressed(s, e, status, given) && s.current.value.status != status {
      MovableMeans(s.current.value, e, status);
      if IsMovable(s.current.value, e, status) {
        var r := Build(hash, e.bundle.value, status, Named(given, status), s.current, s.clock);
        BuiltReceiptIsNext(s, hash, e, status, Named(given, status));
        RecordedWhenNext(s, hash, r);
        CurrentIsTimed(s, hash);
        assert Continues(s.current.value, r, status, Named(given, status), s.clock);
      }
    }
    hide Invariant, Persist, IsRecorded, IsNextReceipt, Continues, AreReasonsFor, Named, MayTransition, IsMovable, Build;
  }

  lemma CurrentIsTimed(s: Store, hash: Time -> string)
    requires Invariant(s, hash) && s.current.Some?
    ensures IsWellTimed(s.current.value)
  {
  }

  lemma MovableMeans(r: Receipt, e: Surroundings, status: ReceiptStatus)
    requires r.binding.adapter == e.adapter
    ensures MayTransition(r, e, status) <==> IsMovable(r, e, status)
  {
  }

  /** Pruning keeps all of at most 32 entries, and 32 of more. */
  lemma {:induction false} PruningKeepsThirtyTwo(history: map<string, Receipt>)
    requires AreNamed(history)
    ensures |Pruned(history)| == if |history| <= 32 then |history| else 32
    decreases |history|
  {
    if |history| <= 32 {
    } else {
      var rest := history - {LeastOf(history)};
      assert rest.Keys == history.Keys - {LeastOf(history)} && |rest.Keys| == |rest| && |history.Keys| == |history|;
      PruningKeepsThirtyTwo(rest);
    }
  }

  /** What it drops was created no later than anything it keeps; of one chain, what it drops has the lesser name. */
  lemma {:induction false} PruningDropsTheOldest(history: map<string, Receipt>, id: string, kept: string)
    requires AreNamed(history) && id in history && id !in Pruned(history) && kept in Pruned(history)
    ensures history[id].createdAt < history[kept].createdAt || (history[id].createdAt == history[kept].createdAt && TextLess(id, kept))
    decreases |history|
  {
    if |history| <= HISTORY_LIMIT {
    } else {
      var least := LeastOf(history);
      var rest := history - {least};
      assert rest.Keys == history.Keys - {least} && |rest.Keys| == |rest| && |history.Keys| == |history|;
      if id != least {
        PruningDropsTheOldest(rest, id, kept);
      }
    }
  }
}
