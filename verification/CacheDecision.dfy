/** The decision an evaluation reaches, and what the store guarantees over any sequence of cache steps. */
module CacheDecision {
  import opened Basics
  import opened Gates
  import opened Records
  import opened CacheIntegrity
  import opened CacheValidity
  import opened CacheStore
  import opened CacheSearch

  /** Who evaluates the cache, against which index bundle and environment. */
  datatype Asker = Asker(
    projectId: string, workOrderId: Option<string>, runId: Option<string>, liveDigest: Option<string>,
    bundle: Option<Bundle>, env: Env)

  function LiveOf(a: Asker): Live
    requires a.bundle.Some?
  {
    Live(a.projectId, a.bundle.value, a.env)
  }

  /** Refused before any record is looked at. */
  predicate IsRefused(index: IndexFile, a: Asker, gate: Gate) {
    || (IsCacheEligibleGate(gate) && (a.bundle.None? || !IndexIsReusable(a.bundle.value)))
    || (a.bundle.Some? && IndexIsReusable(a.bundle.value) && a.bundle.value.projectId != a.projectId)
    || (IsCacheEligibleGate(gate) && ReadIndex(index, a.projectId).None?)
  }

  predicate IsSearched(index: IndexFile, a: Asker, gate: Gate) {
    && IsCacheEligibleGate(gate) && !IsRefused(index, a, gate)
    && ContractIsProvable(gate, a.env) && ToolchainIsProvable(gate, a.env)
  }

  ghost function CandidateOf(s: Store, a: Asker, gate: Gate): (r: Option<string>)
    requires WellFormed(s)
    ensures r.Some? ==> r.value in s.records && IsSearched(s.index, a, gate) && EndsSearch(s.records[r.value], gate, LiveOf(a))
  {
    if IsSearched(s.index, a, gate) then StopOf(s, gate, LiveOf(a)) else None
  }

  ghost function MarkedBy(s: Store, a: Asker, gate: Gate): set<string>
    requires WellFormed(s)
  {
    if IsSearched(s.index, a, gate) then PassedIds(s, gate, LiveOf(a)) else {}
  }

  ghost predicate IsHit(s: Store, a: Asker, gate: Gate)
    requires WellFormed(s)
  {
    var candidate := CandidateOf(s, a, gate);
    candidate.Some? && s.records[candidate.value].projectId == a.projectId
  }

  ghost function KindOf(s: Store, a: Asker, gate: Gate): DecisionKind
    requires WellFormed(s)
  {
    if IsRefused(s.index, a, gate) then BlockedDecision
    else if !IsSearched(s.index, a, gate) then NotReusableDecision
    else if IsHit(s, a, gate) then Hit
    else if CandidateOf(s, a, gate).Some? then BlockedDecision
    else if MarkedBy(s, a, gate) != {} then StaleDecision
    else Miss
  }

  ghost function DecisionOf(s: Store, a: Asker, gate: Gate, now: Tick): Decision
    requires WellFormed(s)
  {
    var hit := IsHit(s, a, gate);
    Decision(now, a.projectId, a.workOrderId, a.runId, gate,
      CandidateOf(s, a, gate), KindOf(s, a, gate), hit, a.liveDigest, ContractFor(gate, a.env),
      if hit then Some(s.records[CandidateOf(s, a, gate).value].proof) else None)
  }

  /** The store after an evaluation: passed records aged, one decision added. */
  ghost function Evaluated(s: Store, a: Asker, gate: Gate, now: Tick): Store
    requires WellFormed(s)
  {
    var aged := AgeAll(s, MarkedBy(s, a, gate));
    aged.(decisions := aged.decisions[now := DecisionOf(s, a, gate, now)])
  }

  /** A HIT's candidate is usable: valid, of this project and gate, and current. */
  lemma HitIsUsable(s: Store, a: Asker, gate: Gate)
    requires WellFormed(s) && IsHit(s, a, gate)
    ensures IsUsable(s.records[CandidateOf(s, a, gate).value], gate, LiveOf(a))
  {
    hide IsUsable;
  }

  /** From s to t records only went stale, and only those outdated for this asker's inputs. */
  ghost predicate Ages(s: Store, t: Store, a: Asker) {
    && t.records.Keys == s.records.Keys
    && (ReadIndex(t.index, a.projectId).Some? <==> ReadIndex(s.index, a.projectId).Some?)
    && (forall gate, id :: Listed(t, a.projectId, gate, id) <==> Listed(s, a.projectId, gate, id))
    && forall id :: id in s.records ==> HasOnlyAged(s.records[id], t.records[id], a)
  }

  ghost predicate HasOnlyAged(r: CacheRecord, after: CacheRecord, a: Asker) {
    after == r || (after == Aged(r) && a.bundle.Some? && IsOutdated(r, r.gate, LiveOf(a)))
  }

  lemma AgesIsTransitive(s: Store, t: Store, u: Store, a: Asker)
    requires Ages(s, t, a) && Ages(t, u, a)
    ensures Ages(s, u, a)
  {
    forall id | id in s.records ensures HasOnlyAged(s.records[id], u.records[id], a) {
      assert HasOnlyAged(s.records[id], t.records[id], a) && HasOnlyAged(t.records[id], u.records[id], a);
    }
  }

  lemma EvaluationAges(s: Store, a: Asker, gate: Gate, now: Tick)
    requires WellFormed(s)
    ensures WellFormed(Evaluated(s, a, gate, now))
    ensures Ages(s, Evaluated(s, a, gate, now), a)
  {
    var ids := MarkedBy(s, a, gate);
    var t := Evaluated(s, a, gate, now);
    AgingKeepsWellFormed(s, ids);
    forall g, id ensures Listed(t, a.projectId, g, id) <==> Listed(s, a.projectId, g, id) {
      AgingKeepsListing(s, ids, a.projectId, g, id);
    }
    forall id | id in s.records ensures HasOnlyAged(s.records[id], t.records[id], a) {
      if id in ids {
        assert IsOutdated(s.records[id], gate, LiveOf(a));
      }
    }
  }

  lemma AgedRecordsEndNoSearch(r: CacheRecord, after: CacheRecord, gate: Gate, a: Asker)
    requires a.bundle.Some? && HasOnlyAged(r, after, a)
    ensures EndsSearch(after, gate, LiveOf(a)) <==> EndsSearch(r, gate, LiveOf(a))
    ensures EndsSearch(r, gate, LiveOf(a)) ==> after == r
    ensures after.createdAt == r.createdAt && after.id == r.id && after.projectId == r.projectId
    ensures IsOutdated(after, gate, LiveOf(a)) ==> after == r
  {
  }

  lemma AgingKeepsEndings(s: Store, t: Store, gate: Gate, a: Asker)
    requires Ages(s, t, a) && a.bundle.Some?
    ensures EndingIds(t, gate, LiveOf(a)) == EndingIds(s, gate, LiveOf(a))
    ensures forall id :: id in EndingIds(s, gate, LiveOf(a)) ==> t.records[id] == s.records[id]
  {
    hide EndsSearch, HasOnlyAged, Listed;
    forall id | id in s.records
      ensures EndsSearch(t.records[id], gate, LiveOf(a)) <==> EndsSearch(s.records[id], gate, LiveOf(a))
      ensures EndsSearch(s.records[id], gate, LiveOf(a)) ==> t.records[id] == s.records[id]
    {
      assert HasOnlyAged(s.records[id], t.records[id], a);
      AgedRecordsEndNoSearch(s.records[id], t.records[id], gate, a);
    }
  }

  lemma SameEndingsSameNewest(before: map<string, CacheRecord>, after: map<string, CacheRecord>, ids: set<string>)
    requires ids <= before.Keys && ids <= after.Keys
    requires forall id :: id in ids ==> after[id] == before[id]
    requires forall id :: id in before ==> before[id].id == id
    requires forall id :: id in after ==> after[id].id == id
    ensures NewestOf(after, ids) == NewestOf(before, ids)
  {
    if ids != {} {
      var x, y := NewestOf(before, ids).value, NewestOf(after, ids).value;
      assert IsNewest(before, ids, y);
      NewestIsUnique(before, ids, x, y);
    }
  }

  /** Ageing outdated records moves neither the stopping point nor the record found there. */
  lemma AgingKeepsStop(s: Store, t: Store, gate: Gate, a: Asker)
    requires WellFormed(s) && WellFormed(t) && Ages(s, t, a) && a.bundle.Some?
    ensures StopOf(t, gate, LiveOf(a)) == StopOf(s, gate, LiveOf(a))
    ensures StopOf(s, gate, LiveOf(a)).Some? ==>
      t.records[StopOf(s, gate, LiveOf(a)).value] == s.records[StopOf(s, gate, LiveOf(a)).value]
  {
    AgingKeepsEndings(s, t, gate, a);
    SameEndingsSameNewest(s.records, t.records, EndingIds(s, gate, LiveOf(a)));
  }

  lemma AgingKeepsHits(s: Store, t: Store, gate: Gate, a: Asker)
    requires WellFormed(s) && WellFormed(t) && Ages(s, t, a)
    ensures CandidateOf(t, a, gate) == CandidateOf(s, a, gate)
    ensures IsHit(t, a, gate) <==> IsHit(s, a, gate)
    ensures IsHit(s, a, gate) ==> t.records[CandidateOf(s, a, gate).value] == s.records[CandidateOf(s, a, gate).value]
  {
    hide HasOnlyAged, EndsSearch, Listed, EndingIds;
    if IsSearched(s.index, a, gate) {
      AgingKeepsStop(s, t, gate, a);
    }
  }

  /** Asking again with the same inputs gives the same verdict on the gate and the same candidate,
      although the first answer may have marked newer records stale. */
  lemma ReevaluationAgrees(s: Store, a: Asker, b: Asker, gate: Gate, now: Tick)
    requires WellFormed(s)
    requires a.projectId == b.projectId && a.bundle == b.bundle && a.env == b.env
    ensures var t := Evaluated(s, a, gate, now);
      && WellFormed(t)
      && CandidateOf(t, b, gate) == CandidateOf(s, a, gate)
      && (KindOf(t, b, gate) == Hit <==> KindOf(s, a, gate) == Hit)
      && (KindOf(s, a, gate) == StaleDecision ==> KindOf(t, b, gate) == Miss)
      && MarkedBy(t, b, gate) == {}
  {
    hide Ages, WellFormed, PassedIds, StopOf;
    var t := Evaluated(s, a, gate, now);
    EvaluationAges(s, a, gate, now);
    AgingKeepsHits(s, t, gate, a);
    assert CandidateOf(t, b, gate) == CandidateOf(t, a, gate);
    assert MarkedBy(t, b, gate) == MarkedBy(t, a, gate);
    NothingLeftToMark(s, a, gate, now);
  }

  lemma NothingLeftToMark(s: Store, a: Asker, gate: Gate, now: Tick)
    requires WellFormed(s) && WellFormed(Evaluated(s, a, gate, now))
    requires Ages(s, Evaluated(s, a, gate, now), a)
    ensures MarkedBy(Evaluated(s, a, gate, now), a, gate) == {}
  {
    var t := Evaluated(s, a, gate, now);
    if IsSearched(s.index, a, gate) {
      AgingKeepsStop(s, t, gate, a);
      forall id | id in t.records ensures id !in PassedIds(t, gate, LiveOf(a)) {
        if id in MarkedBy(s, a, gate) {
          assert !IsSemanticallyValid(t.records[id]);
        } else {
          assert t.records[id] == s.records[id];
        }
      }
    }
  }

  /** Where the index lists exactly the records, a HIT means some usable record exists, and names the newest. */
  lemma HitMeansNewestUsable(s: Store, a: Asker, gate: Gate)
    requires WellFormed(s) && IsProjection(s) && IsSearched(s.index, a, gate)
    ensures IsHit(s, a, gate) <==> exists id :: id in s.records && IsUsable(s.records[id], gate, LiveOf(a))
    ensures IsHit(s, a, gate) ==>
      forall id :: id in s.records && IsUsable(s.records[id], gate, LiveOf(a)) && Some(id) != CandidateOf(s, a, gate) ==>
        IsNewer(s.records[CandidateOf(s, a, gate).value], s.records[id])
  {
    hide IsUsable, EndsSearch, EndingIds, IsProjection;
    forall id | id in s.records
      ensures s.records[id].projectId == a.projectId
      ensures IsUsable(s.records[id], gate, LiveOf(a)) <==> id in EndingIds(s, gate, LiveOf(a))
    {
      UsableEndsSearch(s, a, gate, id);
    }
    if IsHit(s, a, gate) {
      HitIsUsable(s, a, gate);
    }
  }

  lemma UsableEndsSearch(s: Store, a: Asker, gate: Gate, id: string)
    requires IsProjection(s) && IsSearched(s.index, a, gate) && id in s.records
    ensures s.records[id].projectId == a.projectId
    ensures IsUsable(s.records[id], gate, LiveOf(a)) <==> id in EndingIds(s, gate, LiveOf(a))
  {
    hide IsCurrent, IsSemanticallyValid, SortedById;
    assert EntryOf(s.records[id]) in s.index.entries;
  }

  /** Sequences of cache steps. */

  datatype CacheStep = PopulateWith(record: CacheRecord) | Ask(asker: Asker, gate: Gate, now: Tick) | Mark(id: string)

  ghost function After(s: Store, step: CacheStep): (t: Store)
    requires WellFormed(s)
    ensures WellFormed(t)
  {
    match step
    case PopulateWith(r) => PersistKeepsWellFormed(s, r); Persisted(s, r).0
    case Ask(a, gate, now) => EvaluationAges(s, a, gate, now); Evaluated(s, a, gate, now)
    case Mark(id) =>
      if id in s.records then PersistKeepsWellFormed(s, Aged(s.records[id])); WithStale(s, id) else s
  }

  ghost function AfterAll(s: Store, steps: seq<CacheStep>): (t: Store)
    requires WellFormed(s)
    ensures WellFormed(t)
  {
    if steps == [] then s else After(AfterAll(s, steps[..|steps| - 1]), steps[|steps| - 1])
  }

  ghost predicate BelongsTo(s: Store, projectId: string) {
    IsProjection(s) && (s.index.IndexOf? ==> s.index.projectId == projectId)
  }

  lemma AgingKeepsEntries(entries: seq<IndexEntry>, records: map<string, CacheRecord>, ids: set<string>)
    requires ListsExactly(entries, records)
    ensures ListsExactly(AgeEntries(entries, ids), AgeRecords(records, ids))
  {
    var after := AgeEntries(entries, ids);
    forall i | 0 <= i < |entries|
      ensures after[i].id in records && after[i] == EntryOf(AgeRecords(records, ids)[after[i].id])
    {
      assert entries[i] in entries;
    }
    forall id | id in records ensures EntryOf(AgeRecords(records, ids)[id]) in after {
      var i :| 0 <= i < |entries| && entries[i] == EntryOf(records[id]);
      assert after[i] in after;
    }
  }

  lemma AgingKeepsProjection(s: Store, ids: set<string>, projectId: string)
    requires BelongsTo(s, projectId)
    ensures BelongsTo(AgeAll(s, ids), projectId)
  {
    if s.index.IndexOf? {
      AgingKeepsEntries(s.index.entries, s.records, ids);
      assert SortedById(AgeEntries(s.index.entries, ids));
    }
  }

  lemma StepKeepsProjection(s: Store, step: CacheStep, projectId: string)
    requires WellFormed(s) && BelongsTo(s, projectId)
    requires step.PopulateWith? ==> step.record.projectId == projectId
    ensures BelongsTo(After(s, step), projectId)
  {
    match step
    case PopulateWith(r) => PersistKeepsProjection(s, r);
    case Ask(a, gate, now) => AgingKeepsProjection(s, MarkedBy(s, a, gate), projectId);
    case Mark(id) =>
      if id in s.records { PersistKeepsProjection(s, Aged(s.records[id])); }
  }

  /** Across any sequence of steps the index stays the sorted, duplicate-free projection of the records. */
  lemma {:induction false} IndexIsAlwaysTheProjection(s: Store, steps: seq<CacheStep>, projectId: string)
    requires WellFormed(s) && BelongsTo(s, projectId)
    requires forall i :: 0 <= i < |steps| && steps[i].PopulateWith? ==> steps[i].record.projectId == projectId
    ensures BelongsTo(AfterAll(s, steps), projectId)
  {
    if steps == [] {
    } else {
      var init, last := steps[..|steps| - 1], steps[|steps| - 1];
      assert steps[|steps| - 1] == last;
      IndexIsAlwaysTheProjection(s, init, projectId);
      StepKeepsProjection(AfterAll(s, init), last, projectId);
    }
  }

  ghost predicate IsSpent(s: Store, id: string) {
    id in s.records ==> !s.records[id].reusable
  }

  /** The step is an evaluation that answers HIT with this record. */
  ghost predicate Hits(s: Store, step: CacheStep, id: string)
    requires WellFormed(s)
  {
    step.Ask? && IsHit(s, step.asker, step.gate) && CandidateOf(s, step.asker, step.gate) == Some(id)
  }

  lemma StepKeepsSpent(s: Store, step: CacheStep, id: string)
    requires WellFormed(s) && IsSpent(s, id)
    requires step.PopulateWith? ==> step.record.id != id
    ensures IsSpent(After(s, step), id) && !Hits(s, step, id)
  {
    if step.Ask? && IsHit(s, step.asker, step.gate) {
      HitIsUsable(s, step.asker, step.gate);
    }
  }

  /** A record once marked stale is never the candidate of a HIT again until its id is populated anew. */
  lemma {:induction false} StaleIsNeverAHit(s: Store, steps: seq<CacheStep>, id: string, k: nat)
    requires WellFormed(s) && IsSpent(s, id) && k < |steps|
    requires forall i :: 0 <= i < |steps| && steps[i].PopulateWith? ==> steps[i].record.id != id
    ensures IsSpent(AfterAll(s, steps[..k]), id)
    ensures !Hits(AfterAll(s, steps[..k]), steps[k], id)
  {
    if k > 0 {
      assert steps[..k][..k - 1] == steps[..k - 1];
      StaleIsNeverAHit(s, steps, id, k - 1);
      StepKeepsSpent(AfterAll(s, steps[..k - 1]), steps[k - 1], id);
    } else {
      assert steps[..0] == [];
    }
    StepKeepsSpent(AfterAll(s, steps[..k]), steps[k], id);
  }
}
