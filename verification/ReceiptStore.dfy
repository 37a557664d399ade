/** The receipt store as the program keeps it: a history directory and the current receipt. */
module ReceiptStore {
  import opened Basics
  import opened Receipts

  /** Oldest first. */
  ghost predicate IsSorted(history: map<string, Receipt>, ids: seq<string>) {
    && (forall id :: id in ids ==> id in history)
    && forall i, j :: 0 <= i < j < |ids| ==> IsBefore(history[ids[i]], history[ids[j]])
  }

  method InsertSorted(history: map<string, Receipt>, ids: seq<string>, id: string) returns (sorted: seq<string>)
    requires AreNamed(history) && id in history && id !in ids && IsSorted(history, ids)
    ensures IsSorted(history, sorted) && |sorted| == |ids| + 1
    ensures forall x :: x in sorted <==> x in ids || x == id
  {
    var i := 0;
    while i < |ids| && IsBefore(history[ids[i]], history[id])
      invariant 0 <= i <= |ids|
      invariant forall k :: 0 <= k < i ==> IsBefore(history[ids[k]], history[id])
    {
      i := i + 1;
    }
    sorted := ids[..i] + [id] + ids[i..];
    LaterFollow(history, ids, id, i);
    assert ids == ids[..i] + ids[i..];
  }

  lemma LaterFollow(history: map<string, Receipt>, ids: seq<string>, id: string, i: nat)
    requires AreNamed(history) && id in history && id !in ids && IsSorted(history, ids) && i <= |ids|
    requires i < |ids| ==> !IsBefore(history[ids[i]], history[id])
    ensures forall k :: i <= k < |ids| ==> IsBefore(history[id], history[ids[k]])
  {
    if i < |ids| {
      assert ids[i] in ids;
      BeforeIsTotal(history[id], history[ids[i]]);
      forall k | i < k < |ids| ensures IsBefore(history[id], history[ids[k]]) {
        BeforeIsTransitive(history[id], history[ids[i]], history[ids[k]]);
      }
    }
  }

  class HostExecution {
    var history: map<string, Receipt>
    var current: Option<Receipt>
    var clock: Time
    ghost var log: set<Receipt>
    const hash: Time -> string

    ghost function Contents(): Store
      reads this
    {
      Store(history, current, clock, log)
    }

    ghost predicate Valid()
      reads this
    {
      IsConsistent(Contents())
    }

    constructor (h: Time -> string)
      ensures Valid() && hash == h && Contents() == Run(h, [])
    {
      history, current, clock, log, hash := map[], None, 0, {}, h;
    }

    method ListReceipts() returns (ids: seq<string>)
      requires Valid()
      ensures IsSorted(history, ids) && |ids| == |history|
      ensures forall id :: id in ids <==> id in history
    {
      ids := [];
      var todo := history.Keys;
      while todo != {}
        invariant todo <= history.Keys && IsSorted(history, ids)
        invariant |ids| + |todo| == |history.Keys|
        invariant forall id :: id in ids <==> id in history && id !in todo
      {
        var id :| id in todo;
        ids := InsertSorted(history, ids, id);
        todo := todo - {id};
      }
      assert |history.Keys| == |history|;
    }

    /** Unlinks the oldest receipts beyond the limit. */
    method PruneReceiptHistory()
      requires Valid()
      modifies this`history
      ensures Valid() && history == Pruned(old(history))
    {
      hide Pruned, IsSorted, Remains;
      var ids := ListReceipts();
      ghost var before := history;
      AllRemain(history, ids);
      var i := 0;
      while |ids| - i > HISTORY_LIMIT
        invariant 0 <= i <= |ids| && AreNamed(history) && |history| == |ids| - i
        invariant Remains(before, ids, i, history)
        invariant Pruned(history) == Pruned(before)
      {
        LeastIsFirst(before, ids, i, history);
        history := history - {ids[i]};
        i := i + 1;
      }
      NothingToPrune(history);
    }

    /** Adds to history and makes current; a name already taken by another receipt is refused. */
    method PersistHostExecutionReceipt(r: Receipt) returns (result: Result)
      requires Valid()
      modifies this
      ensures Valid() && (Contents(), result) == Persist(old(Contents()), r)
    {
      clock := clock + 1;
      if r.id in history && history[r.id] != r {
        return Rejected;
      }
      history := history[r.id := r];
      current := Some(r);
      log := log + {r};
      PruneReceiptHistory();
      result := Returned(r);
    }

    method HandoffHostExecution(e: Surroundings) returns (result: Result)
      requires Valid()
      modifies this
      ensures Valid() && Contents() == Next(old(Contents()), hash, HandoffEvent(e))
      ensures result == Handoff(old(Contents()), hash, e).1
    {
      hide Persist, Build;
      if !BundleIsAccepted(e) {
        return Rejected;
      }
      if current.Some? && current.value.binding == e.bundle.value {
        return Returned(current.value);
      }
      result := PersistHostExecutionReceipt(Build(hash, e.bundle.value, Accepted, {ReasonFor(Accepted)}, None, clock));
    }

    method TransitionHostExecutionReceipt(e: Surroundings, status: ReceiptStatus, given: seq<string>) returns (result: Result)
      requires Valid()
      modifies this
      ensures Valid() && Contents() == Next(old(Contents()), hash, TransitionEvent(e, status, given))
      ensures result == Transition(old(Contents()), hash, e, status, given).1
    {
      hide Persist, Build, ReasonsFor;
      if current.None? || current.value.binding.adapter != e.adapter {
        return Rejected;
      }
      var reasons := ReasonsFor(status, given);
      if reasons.None? {
        return Rejected;
      }
      if current.value.status == status {
        return if current.value.reasons == reasons.value then Returned(current.value) else Rejected;
      }
      if !MayTransition(current.value, e, status) {
        return Rejected;
      }
      result := PersistHostExecutionReceipt(Build(hash, e.bundle.value, status, reasons.value, current, clock));
    }
  }

  /** The entries from the i-th on are what is left. */
  ghost predicate Remains(before: map<string, Receipt>, ids: seq<string>, i: nat, history: map<string, Receipt>)
    requires i <= |ids|
  {
    && IsSorted(before, ids)
    && (forall id :: id in history <==> id in ids[i..])
    && (forall id :: id in history ==> id in before && history[id] == before[id])
  }

  lemma AllRemain(history: map<string, Receipt>, ids: seq<string>)
    requires IsSorted(history, ids) && forall id :: id in ids <==> id in history
    ensures Remains(history, ids, 0, history)
  {
    assert ids[0..] == ids;
  }

  lemma FirstIsLeast(before: map<string, Receipt>, ids: seq<string>, i: nat, history: map<string, Receipt>)
    requires i < |ids| && Remains(before, ids, i, history) && AreNamed(history)
    ensures history != map[] && LeastOf(history) == ids[i]
  {
    assert ids[i] == ids[i..][0] && ids[i] in ids[i..];
    forall other | other in history && other != ids[i] ensures IsBefore(history[ids[i]], history[other]) {
      var k :| 0 <= k < |ids[i..]| && ids[i..][k] == other;
      assert ids[i + k] == other;
    }
    assert IsLeast(history, ids[i]);
    LeastIsUnique(history, LeastOf(history), ids[i]);
  }

  lemma RestRemains(before: map<string, Receipt>, ids: seq<string>, i: nat, history: map<string, Receipt>)
    requires i < |ids| && Remains(before, ids, i, history)
    ensures ids[i] in history && Remains(before, ids, i + 1, history - {ids[i]})
  {
    assert ids[i] == ids[i..][0] && ids[i] in ids[i..];
    Tail(before, ids, i);
  }

  lemma LeastIsFirst(before: map<string, Receipt>, ids: seq<string>, i: nat, history: map<string, Receipt>)
    requires i < |ids| && Remains(before, ids, i, history) && AreNamed(history) && |history| > HISTORY_LIMIT
    ensures var rest := history - {ids[i]};
      && Pruned(rest) == Pruned(history) && AreNamed(rest) && |rest| == |history| - 1 && Remains(before, ids, i + 1, rest)
  {
    hide Pruned, Remains, IsLeast;
    FirstIsLeast(before, ids, i, history);
    RestRemains(before, ids, i, history);
    OneLess(history, ids[i]);
    PrunedStep(history);
  }

  lemma PrunedStep(history: map<string, Receipt>)
    requires AreNamed(history) && |history| > HISTORY_LIMIT
    ensures AreNamed(history - {LeastOf(history)}) && Pruned(history) == Pruned(history - {LeastOf(history)})
  {
  }

  lemma NothingToPrune(history: map<string, Receipt>)
    requires AreNamed(history) && |history| <= HISTORY_LIMIT
    ensures Pruned(history) == history
  {
  }

  lemma OneLess(history: map<string, Receipt>, id: string)
    requires id in history
    ensures |history - {id}| == |history| - 1
  {
    var rest := history - {id};
    assert rest.Keys == history.Keys - {id};
    assert |rest.Keys| == |rest| && |history.Keys| == |history|;
  }

  lemma Tail(before: map<string, Receipt>, ids: seq<string>, i: nat)
    requires IsSorted(before, ids) && i < |ids|
    ensures forall id :: id in ids[i + 1..] <==> id in ids[i..] && id != ids[i]
  {
    assert ids[i..] == [ids[i]] + ids[i + 1..];
    forall k | i < k < |ids| ensures ids[k] != ids[i] {
      TextLessIsStrictOrder(before[ids[i]].id, before[ids[i]].id, before[ids[i]].id);
    }
  }
}
