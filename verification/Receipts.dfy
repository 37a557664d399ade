/** Host execution receipts: immutable chains of at most three, in a bounded history. */
module Receipts {
  import opened Basics

  type Time = nat

  datatype ReceiptStatus = Accepted | Started | Completed | Failed | Blocked

  /** What a receipt is bound to; `rest` stands for the plan, model, runtime and digest fields compared with it. */
  datatype Binding = Binding(adapter: string, contractVersion: string, projectId: string, runId: Option<string>, rest: string)

  datatype Receipt = Receipt(
    id: string, binding: Binding, status: ReceiptStatus, reasons: set<string>,
    createdAt: Time, updatedAt: Time, acceptedAt: Time, startedAt: Option<Time>, completedAt: Option<Time>)

  /** `log` is every receipt ever persisted; the program keeps only `history` and `current`. */
  datatype Store = Store(history: map<string, Receipt>, current: Option<Receipt>, clock: Time, log: set<Receipt>)

  datatype Result = Rejected | Returned(receipt: Receipt)

  const CONTRACT_VERSION := "0.10.0"
  const HISTORY_LIMIT := 32
  const MAX_REASONS := 8

  const REASON_CODES := {
    "HANDOFF_ACCEPTED", "HANDOFF_STARTED", "HANDOFF_COMPLETED", "HANDOFF_FAILED", "HANDOFF_BLOCKED",
    "BUNDLE_MISSING", "BUNDLE_CORRUPT", "BUNDLE_DIGEST_MISMATCH", "BUNDLE_STALE", "PROJECT_MISMATCH", "ADAPTER_MISMATCH",
    "TARGET_ROOT_MISMATCH", "OWNERSHIP_NOT_TRUSTED", "EXECUTION_RUN_MISSING", "EXECUTION_RUN_MISMATCH",
    "CHANGE_IDENTITY_MISMATCH", "MODEL_PLAN_BLOCKED", "SPECIALIST_SELECTION_INVALID", "HOST_CAPABILITY_UNPROVEN",
    "HOST_CAPABILITY_INSUFFICIENT", "APPROVAL_AUTHORIZATION_MISSING", "HANDOFF_REPLAY", "RECEIPT_CORRUPT",
    "RECEIPT_DIGEST_MISMATCH", "INVALID_TRANSITION", "TERMINAL_IMMUTABLE", "RECEIPT_NOT_GATE_EVIDENCE"}

  function ReasonFor(status: ReceiptStatus): string {
    match status
    case Accepted => "HANDOFF_ACCEPTED"
    case Started => "HANDOFF_STARTED"
    case Completed => "HANDOFF_COMPLETED"
    case Failed => "HANDOFF_FAILED"
    case Blocked => "HANDOFF_BLOCKED"
  }

  predicate IsTerminal(status: ReceiptStatus) {
    status in {Completed, Failed, Blocked}
  }

  predicate IsAllowed(from: ReceiptStatus, to: ReceiptStatus) {
    (from == Accepted && to != Accepted) || (from == Started && IsTerminal(to))
  }

  /** The reasons recorded for a status; None where the given codes are not acceptable. */
  function ReasonsFor(status: ReceiptStatus, given: seq<string>): Option<set<string>> {
    var codes := if given == [] then [ReasonFor(status)] else given;
    if |codes| > MAX_REASONS || !NoDuplicates(codes) || (exists c :: c in codes && c !in REASON_CODES) || ReasonFor(status) !in codes
    then None
    else Some(set c | c in codes)
  }

  /** `hash` names receipts by the time they were made at: distinct times, distinct names, in no particular order. */
  function Build(hash: Time -> string, bundle: Binding, status: ReceiptStatus, reasons: set<string>, previous: Option<Receipt>, now: Time): Receipt {
    Receipt(
      hash(now), bundle.(contractVersion := CONTRACT_VERSION), status, reasons,
      if previous.Some? then previous.value.createdAt else now, now,
      if previous.Some? then previous.value.acceptedAt else now,
      if previous.Some? && previous.value.startedAt.Some? then previous.value.startedAt else if status == Started then Some(now) else None,
      if IsTerminal(status) then Some(now) else if previous.Some? then previous.value.completedAt else None)
  }

  /** The order in which history is pruned: by the chain's creation, then by name. */
  predicate IsBefore(a: Receipt, b: Receipt) {
    a.createdAt < b.createdAt || (a.createdAt == b.createdAt && TextLess(a.id, b.id))
  }

  ghost predicate AreNamed(history: map<string, Receipt>) {
    forall id :: id in history ==> history[id].id == id
  }

  ghost predicate IsLeast(history: map<string, Receipt>, id: string) {
    id in history && forall other :: other in history && other != id ==> IsBefore(history[id], history[other])
  }

  lemma BeforeIsTotal(a: Receipt, b: Receipt)
    requires a.id != b.id
    ensures IsBefore(a, b) != IsBefore(b, a)
  {
    TextLessIsStrictOrder(a.id, b.id, a.id);
  }

  lemma BeforeIsTransitive(a: Receipt, b: Receipt, c: Receipt)
    requires IsBefore(a, b) && IsBefore(b, c)
    ensures IsBefore(a, c)
  {
    TextLessIsStrictOrder(a.id, b.id, c.id);
  }

  lemma {:induction false} LeastExists(history: map<string, Receipt>)
    requires history != map[] && AreNamed(history)
    ensures exists id :: IsLeast(history, id)
    decreases |history|
  {
    var one :| one in history;
    var rest := history - {one};
    assert rest.Keys == history.Keys - {one};
    if rest == map[] {
      assert forall other :: other in history && other != one ==> other in rest;
      assert IsLeast(history, one);
    } else {
      LeastExists(rest);
      var best :| IsLeast(rest, best);
      BeforeIsTotal(history[one], history[best]);
      if IsBefore(history[best], history[one]) {
        assert forall other :: other in history && other != one ==> other in rest;
        assert IsLeast(history, best);
      } else {
        forall other | other in history && other != one ensures IsBefore(history[one], history[other]) {
          assert other in rest;
          if other != best {
            BeforeIsTransitive(history[one], history[best], history[other]);
          }
        }
        assert IsLeast(history, one);
      }
    }
  }

  ghost function LeastOf(history: map<string, Receipt>): (id: string)
    requires history != map[] && AreNamed(history)
    ensures IsLeast(history, id)
  {
    LeastExists(history);
    var id :| IsLeast(history, id);
    id
  }

  lemma LeastIsUnique(history: map<string, Receipt>, a: string, b: string)
    requires AreNamed(history) && IsLeast(history, a) && IsLeast(history, b)
    ensures a == b
  {
    if a != b {
      BeforeIsTotal(history[a], history[b]);
    }
  }

  /** The history without its oldest entries beyond the limit. */
  ghost function Pruned(history: map<string, Receipt>): (r: map<string, Receipt>)
    requires AreNamed(history)
    ensures AreNamed(r) && |r| <= HISTORY_LIMIT
    ensures forall id :: id in r ==> id in history && r[id] == history[id]
    decreases |history|
  {
    if |history| <= HISTORY_LIMIT then history
    else
      var rest := history - {LeastOf(history)};
      assert rest.Keys == history.Keys - {LeastOf(history)};
      Pruned(rest)
  }

  ghost predicate IsConsistent(s: Store) {
    AreNamed(s.history)
  }

  ghost function Persist(s: Store, r: Receipt): (Store, Result)
    requires IsConsistent(s)
  {
    if r.id in s.history && s.history[r.id] != r then (s.(clock := s.clock + 1), Rejected)
    else (Store(Pruned(s.history[r.id := r]), Some(r), s.clock + 1, s.log + {r}), Returned(r))
  }

  /** What a handoff or transition finds current; `trusted` covers ownership and the current dispatch artifacts,
      `authorized` the approval boundary. */
  datatype Surroundings = Surroundings(adapter: string, projectId: string, bundle: Option<Binding>, trusted: bool, authorized: bool)

  predicate BundleIsAccepted(e: Surroundings) {
    && e.bundle.Some? && e.bundle.value.adapter == e.adapter && e.bundle.value.projectId == e.projectId
    && Present(e.bundle.value.runId) && e.trusted && e.authorized
  }

  ghost function Handoff(s: Store, hash: Time -> string, e: Surroundings): (Store, Result)
    requires IsConsistent(s)
  {
    if !BundleIsAccepted(e) then (s, Rejected)
    else if s.current.Some? && s.current.value.binding == e.bundle.value then (s, Returned(s.current.value))
    else Persist(s, Build(hash, e.bundle.value, Accepted, {ReasonFor(Accepted)}, None, s.clock))
  }

  predicate MayTransition(current: Receipt, e: Surroundings, status: ReceiptStatus) {
    && IsAllowed(current.status, status)
    && e.bundle.Some? && e.bundle.value.adapter == e.adapter && e.bundle.value.projectId == current.binding.projectId
    && current.binding == e.bundle.value && e.trusted && e.authorized
  }

  ghost function Transition(s: Store, hash: Time -> string, e: Surroundings, status: ReceiptStatus, given: seq<string>): (Store, Result)
    requires IsConsistent(s)
  {
    var reasons := ReasonsFor(status, given);
    if s.current.None? || s.current.value.binding.adapter != e.adapter || reasons.None? then (s, Rejected)
    else if s.current.value.status == status then
      (s, if s.current.value.reasons == reasons.value then Returned(s.current.value) else Rejected)
    else if !MayTransition(s.current.value, e, status) then (s, Rejected)
    else Persist(s, Build(hash, e.bundle.value, status, reasons.value, s.current, s.clock))
  }

  datatype Event = HandoffEvent(e: Surroundings) | TransitionEvent(e: Surroundings, status: ReceiptStatus, given: seq<string>)

  ghost function Next(s: Store, hash: Time -> string, event: Event): (t: Store)
    requires IsConsistent(s)
    ensures IsConsistent(t)
  {
    match event
    case HandoffEvent(e) => Handoff(s, hash, e).0
    case TransitionEvent(e, status, given) => Transition(s, hash, e, status, given).0
  }

  ghost function Run(hash: Time -> string, events: seq<Event>): (s: Store)
    ensures IsConsistent(s)
  {
    if events == [] then Store(map[], None, 0, {})
    else Next(Run(hash, events[..|events| - 1]), hash, events[|events| - 1])
  }

  /** What every run guarantees. */

  function StageOf(status: ReceiptStatus): nat {
    match status case Accepted => 0 case Started => 1 case _ => 2
  }

  /** Times are set when they should be and in order, under the current contract. */
  predicate IsWellTimed(r: Receipt) {
    && r.binding.contractVersion == CONTRACT_VERSION
    && r.createdAt == r.acceptedAt <= r.updatedAt
    && (r.completedAt.Some? <==> IsTerminal(r.status))
    && (r.completedAt.Some? ==> r.completedAt.value == r.updatedAt)
    && (r.startedAt.Some? ==> r.acceptedAt <= r.startedAt.value <= r.updatedAt)
    && (r.status == Accepted ==> r.startedAt.None?) && (r.status == Started ==> r.startedAt.Some?)
  }

  /** Two receipts of one chain: same binding and times, and different stages unless the same receipt. */
  predicate AreChained(a: Receipt, b: Receipt) {
    a.createdAt == b.createdAt ==>
      && a.binding == b.binding && a.acceptedAt == b.acceptedAt
      && (a.startedAt.Some? && b.startedAt.Some? ==> a.startedAt == b.startedAt)
      && (StageOf(a.status) == StageOf(b.status) ==> a == b)
  }

  ghost predicate IsInjective(hash: Time -> string) {
    forall a, b :: hash(a) == hash(b) ==> a == b
  }

  function ChainOf(log: set<Receipt>, createdAt: Time): set<Receipt> {
    set r | r in log && r.createdAt == createdAt
  }

  ghost predicate LogIsSound(s: Store, hash: Time -> string) {
    && (forall r :: r in s.log ==> IsWellTimed(r) && r.id == hash(r.updatedAt) && r.updatedAt < s.clock)
    && (forall a, b :: a in s.log && b in s.log ==> AreChained(a, b) && (a.updatedAt == b.updatedAt ==> a == b))
  }

  /** The current receipt is the latest of the newest chain, and history holds that chain whole. */
  ghost predicate CurrentIsLatest(s: Store) {
    && (s.current.None? ==> s.log == {})
    && (s.current.Some? ==>
          && s.current.value in s.log
          && (forall r :: r in s.log ==> r.createdAt <= s.current.value.createdAt)
          && (forall r :: r in ChainOf(s.log, s.current.value.createdAt) ==>
                StageOf(r.status) <= StageOf(s.current.value.status) && r.id in s.history && s.history[r.id] == r))
  }

  ghost predicate Invariant(s: Store, hash: Time -> string) {
    && AreNamed(s.history) && |s.history| <= HISTORY_LIMIT
    && (forall id :: id in s.history ==> s.history[id] in s.log)
    && LogIsSound(s, hash) && CurrentIsLatest(s)
  }

  lemma AtMostOnePerStage(chain: set<Receipt>, stage: nat)
    requires forall a, b :: a in chain && b in chain ==> AreChained(a, b) && a.createdAt == b.createdAt
    ensures |set r | r in chain && StageOf(r.status) == stage| <= 1
  {
    var some := set r | r in chain && StageOf(r.status) == stage;
    if some != {} {
      var r :| r in some;
      assert forall x :: x in some ==> AreChained(x, r) && x == r;
      assert some == {r};
    }
  }

  /** No chain has more than three receipts. */
  lemma ChainsAreShort(s: Store, hash: Time -> string, createdAt: Time)
    requires LogIsSound(s, hash)
    ensures |ChainOf(s.log, createdAt)| <= 3
  {
    var chain := ChainOf(s.log, createdAt);
    var first := set r | r in chain && StageOf(r.status) == 0;
    var second := set r | r in chain && StageOf(r.status) == 1;
    var third := set r | r in chain && StageOf(r.status) == 2;
    assert chain == first + second + third;
    AtMostOnePerStage(chain, 0);
    AtMostOnePerStage(chain, 1);
    AtMostOnePerStage(chain, 2);
  }

  /** Pruning spares any group of entries within the limit that all others come before. */
  lemma {:induction false} PruningSparesTheNewest(history: map<string, Receipt>, kept: set<string>)
    requires AreNamed(history) && kept <= history.Keys && |kept| <= HISTORY_LIMIT
    requires forall id, other :: id in kept && other in history && other !in kept ==> IsBefore(history[other], history[id])
    ensures kept <= Pruned(history).Keys
    decreases |history|
  {
    if |history| <= HISTORY_LIMIT {
    } else {
      var least := LeastOf(history);
      assert |history.Keys| == |history| && history.Keys != kept;
      var other :| other in history && other !in kept;
      if least in kept {
        BeforeIsTotal(history[least], history[other]);
        assert false;
      }
      var rest := history - {least};
      assert rest.Keys == history.Keys - {least};
      PruningSparesTheNewest(rest, kept);
    }
  }

  /** Persisting the next receipt of the current chain, or the first of a new one. */
  ghost predicate IsNextReceipt(s: Store, hash: Time -> string, r: Receipt) {
    && IsWellTimed(r) && r.updatedAt == s.clock && r.id == hash(s.clock)
    && (s.current.None? ==> r.createdAt == s.clock)
    && (s.current.Some? ==>
          || r.createdAt == s.clock
          || (r.createdAt == s.current.value.createdAt && StageOf(s.current.value.status) < StageOf(r.status)
              && r.binding == s.current.value.binding && r.acceptedAt == s.current.value.acceptedAt
              && (s.current.value.startedAt.Some? ==> r.startedAt == s.current.value.startedAt)))
  }

  lemma NextReceiptIsChained(s: Store, hash: Time -> string, r: Receipt, x: Receipt)
    requires Invariant(s, hash) && IsNextReceipt(s, hash, r) && x in s.log
    ensures AreChained(x, r) && AreChained(r, x)
  {
    if x.createdAt == r.createdAt {
      assert IsWellTimed(x) && x.updatedAt < s.clock;
      assert x in ChainOf(s.log, s.current.value.createdAt);
      assert AreChained(x, s.current.value);
    }
  }

  function IdsOf(receipts: set<Receipt>): set<string> {
    set r | r in receipts :: r.id
  }

  lemma {:induction false} IdsAreFew(receipts: set<Receipt>)
    ensures |IdsOf(receipts)| <= |receipts|
    decreases |receipts|
  {
    if receipts == {} {
    } else {
      var r :| r in receipts;
      IdsAreFew(receipts - {r});
      assert IdsOf(receipts) == IdsOf(receipts - {r}) + {r.id};
    }
  }

  lemma LogStaysSound(s: Store, hash: Time -> string, r: Receipt)
    requires Invariant(s, hash) && IsNextReceipt(s, hash, r)
    ensures LogIsSound(s.(clock := s.clock + 1, log := s.log + {r}), hash)
  {
    hide AreChained, CurrentIsLatest;
    forall a, b | a in s.log + {r} && b in s.log + {r} ensures AreChained(a, b) && (a.updatedAt == b.updatedAt ==> a == b) {
      if a == r && b == r {
        SameIsChained(r);
      } else if a == r {
        NextReceiptIsChained(s, hash, r, b);
      } else if b == r {
        NextReceiptIsChained(s, hash, r, a);
      }
    }
  }

  lemma SameIsChained(r: Receipt)
    ensures AreChained(r, r)
  {
  }

  /** The chain a next receipt joins is in the history it is added to, and everything else there is older. */
  lemma ChainIsNewest(s: Store, hash: Time -> string, r: Receipt)
    requires Invariant(s, hash) && IsInjective(hash) && IsNextReceipt(s, hash, r)
    ensures r.id !in s.history && AreNamed(s.history[r.id := r])
    ensures forall x :: x in ChainOf(s.log + {r}, r.createdAt) ==> x.id in s.history[r.id := r] && s.history[r.id := r][x.id] == x
    ensures forall other :: other in s.history && other !in IdsOf(ChainOf(s.log + {r}, r.createdAt)) ==>
      s.history[other].createdAt < r.createdAt
  {
    NextNameIsNew(s, hash, r);
    forall x | x in ChainOf(s.log + {r}, r.createdAt) ensures x.id in s.history[r.id := r] && s.history[r.id := r][x.id] == x {
      hide IsNextReceipt, LogIsSound, CurrentIsLatest, IsInjective;
      if x != r { ChainIsInHistory(s, hash, r, x); }
    }
    forall other | other in s.history && other !in IdsOf(ChainOf(s.log + {r}, r.createdAt)) ensures s.history[other].createdAt < r.createdAt {
      hide IsNextReceipt, LogIsSound, CurrentIsLatest, IsInjective;
      var x := s.history[other];
      assert x in s.log && x.id == other;
      assert x in ChainOf(s.log + {r}, r.createdAt) ==> x.id in IdsOf(ChainOf(s.log + {r}, r.createdAt));
      OlderUnlessChained(s, hash, r, x);
    }
    hide IsNextReceipt, LogIsSound, CurrentIsLatest, IsInjective, Invariant;
  }

  lemma NextNameIsNew(s: Store, hash: Time -> string, r: Receipt)
    requires Invariant(s, hash) && IsInjective(hash) && IsNextReceipt(s, hash, r)
    ensures forall x :: x in s.log ==> x.id != r.id
    ensures r.id !in s.history
  {
    hide AreChained, CurrentIsLatest, IsWellTimed;
  }

  lemma ChainIsInHistory(s: Store, hash: Time -> string, r: Receipt, x: Receipt)
    requires Invariant(s, hash) && IsNextReceipt(s, hash, r) && x in s.log && x.createdAt == r.createdAt
    ensures x.id in s.history && s.history[x.id] == x
  {
    hide AreChained, StageOf;
    assert x.updatedAt < s.clock && IsWellTimed(x);
    assert x in ChainOf(s.log, s.current.value.createdAt);
  }

  lemma OlderUnlessChained(s: Store, hash: Time -> string, r: Receipt, x: Receipt)
    requires Invariant(s, hash) && IsNextReceipt(s, hash, r) && x in s.log && x.createdAt != r.createdAt
    ensures x.createdAt < r.createdAt
  {
    hide AreChained, StageOf;
    assert x.updatedAt < s.clock && IsWellTimed(x);
  }

  lemma ChainIsKept(s: Store, hash: Time -> string, r: Receipt)
    requires Invariant(s, hash) && IsInjective(hash) && IsNextReceipt(s, hash, r)
    ensures var history, chain := s.history[r.id := r], ChainOf(s.log + {r}, r.createdAt);
      && AreNamed(history) && (forall x :: x in chain ==> x.id in history && history[x.id] == x)
      && IdsOf(chain) <= Pruned(history).Keys
  {
    var history, chain := s.history[r.id := r], ChainOf(s.log + {r}, r.createdAt);
    LogStaysSound(s, hash, r);
    ChainIsNewest(s, hash, r);
    ChainsAreShort(s.(clock := s.clock + 1, log := s.log + {r}), hash, r.createdAt);
    IdsAreFew(chain);
    hide LogIsSound, CurrentIsLatest, IsNextReceipt, IsInjective, Pruned;
    assert r in chain && r.id in IdsOf(chain);
    assert forall id :: id in IdsOf(chain) ==> history[id] in chain && history[id].createdAt == r.createdAt;
    PruningSparesTheNewest(history, IdsOf(chain));
  }

  lemma CurrentStaysLatest(s: Store, hash: Time -> string, r: Receipt, t: Store)
    requires Invariant(s, hash) && IsInjective(hash) && IsNextReceipt(s, hash, r) && t == Persist(s, r).0 && r.id !in s.history
    ensures CurrentIsLatest(t)
  {
    ChainIsKept(s, hash, r);
    var chain := ChainOf(s.log + {r}, r.createdAt);
    hide IsWellTimed, AreChained, IsInjective, LogIsSound;
    assert r in t.log;
    forall x | x in ChainOf(t.log, r.createdAt)
      ensures StageOf(x.status) <= StageOf(r.status) && x.id in t.history && t.history[x.id] == x
    {
      assert x.id in IdsOf(chain);
      if x != r { EarlierStage(s, hash, r, x); }
    }
    forall x | x in t.log ensures x.createdAt <= r.createdAt {
      if x != r { OlderChain(s, hash, r, x); }
    }
  }

  lemma PersistKeeps(s: Store, hash: Time -> string, r: Receipt)
    requires Invariant(s, hash) && IsInjective(hash) && IsNextReceipt(s, hash, r)
    ensures Persist(s, r).1 == Returned(r) && Invariant(Persist(s, r).0, hash)
  {
    LogStaysSound(s, hash, r);
    ChainIsNewest(s, hash, r);
    CurrentStaysLatest(s, hash, r, Persist(s, r).0);
    hide IsNextReceipt, IsInjective, CurrentIsLatest, AreChained, IsWellTimed;
    var t := Persist(s, r).0;
    forall id | id in t.history ensures t.history[id] in t.log {
      assert id in s.history[r.id := r];
    }
  }

  lemma EarlierStage(s: Store, hash: Time -> string, r: Receipt, x: Receipt)
    requires Invariant(s, hash) && IsNextReceipt(s, hash, r) && x in s.log && x.createdAt == r.createdAt
    ensures StageOf(x.status) <= StageOf(r.status)
  {
    assert IsWellTimed(x) && x.updatedAt < s.clock;
    assert x in ChainOf(s.log, s.current.value.createdAt);
  }

  lemma OlderChain(s: Store, hash: Time -> string, r: Receipt, x: Receipt)
    requires Invariant(s, hash) && IsNextReceipt(s, hash, r) && x in s.log
    ensures x.createdAt <= r.createdAt
  {
    assert IsWellTimed(x) && x.updatedAt < s.clock;
  }

  lemma BuiltReceiptIsNext(s: Store, hash: Time -> string, e: Surroundings, status: ReceiptStatus, reasons: set<string>)
    requires Invariant(s, hash)
    ensures BundleIsAccepted(e) ==> IsNextReceipt(s, hash, Build(hash, e.bundle.value, Accepted, reasons, None, s.clock))
    ensures s.current.Some? && MayTransition(s.current.value, e, status) ==>
      IsNextReceipt(s, hash, Build(hash, e.bundle.value, status, reasons, s.current, s.clock))
  {
    if s.current.Some? {
      assert IsWellTimed(s.current.value) && s.current.value.updatedAt < s.clock;
    }
  }

  lemma NextKeeps(s: Store, hash: Time -> string, event: Event)
    requires Invariant(s, hash) && IsInjective(hash)
    ensures Invariant(Next(s, hash, event), hash)
  {
    hide Invariant, IsNextReceipt, Persist, Build, ReasonsFor;
    assert IsConsistent(s) by { InvariantIsConsistent(s, hash); }
    match event
    case HandoffEvent(e) =>
      BuiltReceiptIsNext(s, hash, e, Accepted, {ReasonFor(Accepted)});
      if BundleIsAccepted(e) && !(s.current.Some? && s.current.value.binding == e.bundle.value) {
        PersistKeeps(s, hash, Build(hash, e.bundle.value, Accepted, {ReasonFor(Accepted)}, None, s.clock));
      }
    case TransitionEvent(e, status, given) =>
      var reasons := ReasonsFor(status, given);
      if s.current.Some? && reasons.Some? && MayTransition(s.current.value, e, status) {
        BuiltReceiptIsNext(s, hash, e, status, reasons.value);
        PersistKeeps(s, hash, Build(hash, e.bundle.value, status, reasons.value, s.current, s.clock));
      }
  }

  lemma InvariantIsConsistent(s: Store, hash: Time -> string)
    requires Invariant(s, hash)
    ensures IsConsistent(s)
  {
  }

  /** Over every run: chains stay short, consistent and well timed, and history is bounded yet holds the current chain whole. */
  lemma {:induction false} RunsAreSound(hash: Time -> string, events: seq<Event>)
    requires IsInjective(hash)
    ensures Invariant(Run(hash, events), hash)
    ensures forall createdAt :: |ChainOf(Run(hash, events).log, createdAt)| <= 3
  {
    hide Next;
    if events == [] {
    } else {
      RunsAreSound(hash, events[..|events| - 1]);
      NextKeeps(Run(hash, events[..|events| - 1]), hash, events[|events| - 1]);
    }
    forall createdAt ensures |ChainOf(Run(hash, events).log, createdAt)| <= 3 {
      ChainsAreShort(Run(hash, events), hash, createdAt);
    }
  }

  lemma LogGrows(s: Store, hash: Time -> string, event: Event)
    requires IsConsistent(s)
    ensures s.log <= Next(s, hash, event).log
  {
    hide Pruned, Build, ReasonsFor;
  }

  /** A receipt, once persisted, is never rewritten: the log only grows, and a name means one receipt forever. */
  lemma PersistedReceiptsNeverChange(s: Store, hash: Time -> string, event: Event)
    requires Invariant(s, hash) && IsInjective(hash)
    ensures var t := Next(s, hash, event);
      && s.log <= t.log
      && (forall id :: id in s.history && id in t.history ==> t.history[id] == s.history[id])
      && (s.current.Some? && IsTerminal(s.current.value.status) && t.current != s.current ==>
            t.current.Some? && t.current.value.createdAt > s.current.value.createdAt)
  {
    NextKeeps(s, hash, event);
    var t := Next(s, hash, event);
    LogGrows(s, hash, event);
    if s.current.Some? && IsTerminal(s.current.value.status) && t.current != s.current {
      TerminalIsFollowedByANewChain(s, hash, event);
    }
    hide Next, IsInjective, CurrentIsLatest, LogIsSound;
    forall id | id in s.history && id in t.history ensures t.history[id] == s.history[id] {
      assert s.history[id] in t.log && t.history[id] in t.log;
      SameNameSameReceipt(t, hash, s.history[id], t.history[id]);
    }
  }

  lemma TerminalIsFollowedByANewChain(s: Store, hash: Time -> string, event: Event)
    requires Invariant(s, hash) && s.current.Some? && IsTerminal(s.current.value.status)
    requires Next(s, hash, event).current != s.current
    ensures Next(s, hash, event).current.Some? && Next(s, hash, event).current.value.createdAt > s.current.value.createdAt
  {
    assert IsWellTimed(s.current.value) && s.current.value.updatedAt < s.clock;
    hide Pruned, ReasonsFor;
  }

  lemma SameNameSameReceipt(s: Store, hash: Time -> string, a: Receipt, b: Receipt)
    requires Invariant(s, hash) && IsInjective(hash) && a in s.log && b in s.log && a.id == b.id
    ensures a == b
  {
    assert a.updatedAt == b.updatedAt;
  }
}
