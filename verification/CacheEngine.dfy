/** The evidence cache as the program runs it: durable files rewritten step by step. */
module CacheEngine {
  import opened Basics
  import opened Gates
  import opened Records
  import opened CacheIntegrity
  import opened CacheValidity
  import opened CachePopulation
  import opened CacheStore
  import opened CacheSearch
  import opened CacheDecision
  import opened CacheReuse

  /** Newest first. */
  ghost predicate IsRanked(records: map<string, CacheRecord>, ids: seq<string>) {
    && (forall id :: id in ids ==> id in records)
    && forall i, j :: 0 <= i < j < |ids| ==> IsNewer(records[ids[i]], records[ids[j]])
  }

  /** Puts an id before the first listed record it is newer than. */
  method InsertRanked(records: map<string, CacheRecord>, ids: seq<string>, id: string) returns (ranked: seq<string>)
    requires id in records && id !in ids
    requires forall x :: x in records ==> records[x].id == x
    requires IsRanked(records, ids)
    ensures forall x :: x in ranked <==> x in ids || x == id
    ensures IsRanked(records, ranked)
  {
    var i := 0;
    while i < |ids| && IsNewer(records[ids[i]], records[id])
      invariant 0 <= i <= |ids|
      invariant forall k :: 0 <= k < i ==> IsNewer(records[ids[k]], records[id])
    {
      i := i + 1;
    }
    ranked := ids[..i] + [id] + ids[i..];
    OlderFollow(records, ids, id, i);
    assert ids == ids[..i] + ids[i..];
  }

  lemma OlderFollow(records: map<string, CacheRecord>, ids: seq<string>, id: string, i: nat)
    requires id in records && id !in ids && IsRanked(records, ids) && i <= |ids|
    requires forall x :: x in records ==> records[x].id == x
    requires i < |ids| ==> !IsNewer(records[ids[i]], records[id])
    ensures forall k :: i <= k < |ids| ==> IsNewer(records[id], records[ids[k]])
  {
    if i < |ids| {
      assert ids[i] in ids;
      NewerIsTotal(records[id], records[ids[i]]);
      forall k | i < k < |ids| ensures IsNewer(records[id], records[ids[k]]) {
        NewerIsTransitive(records[id], records[ids[i]], records[ids[k]]);
      }
    }
  }

  ghost function OutdatedAmong(s: Store, gate: Gate, live: Live, ids: seq<string>): set<string>
    requires forall id :: id in ids ==> id in s.records
  {
    set id | id in ids && IsOutdated(s.records[id], gate, live)
  }

  /** A newest-first scan that stops at the first record ending the search finds the newest such record. */
  lemma ScanFindsStop(s: Store, gate: Gate, live: Live, ids: seq<string>, i: nat)
    requires WellFormed(s) && i <= |ids|
    requires forall id :: id in ids <==> Listed(s, live.projectId, gate, id)
    requires IsRanked(s.records, ids)
    requires forall k :: 0 <= k < i ==> !EndsSearch(s.records[ids[k]], gate, live)
    requires i < |ids| ==> EndsSearch(s.records[ids[i]], gate, live)
    ensures StopOf(s, gate, live) == if i < |ids| then Some(ids[i]) else None
    ensures PassedIds(s, gate, live) == OutdatedAmong(s, gate, live, ids[..i])
  {
    var endings := EndingIds(s, gate, live);
    forall id | id in endings ensures exists k :: i <= k < |ids| && ids[k] == id {
      assert id in ids;
    }
    if i < |ids| {
      assert ids[i] in ids && ids[i] in endings;
      assert IsNewest(s.records, endings, ids[i]);
      NewestIsUnique(s.records, endings, ids[i], StopOf(s, gate, live).value);
    }
    ScanPassesOutdated(s, gate, live, ids, i);
  }

  lemma ScanPassesOutdated(s: Store, gate: Gate, live: Live, ids: seq<string>, i: nat)
    requires WellFormed(s) && i <= |ids|
    requires forall id :: id in ids <==> Listed(s, live.projectId, gate, id)
    requires IsRanked(s.records, ids)
    requires i < |ids| ==> EndsSearch(s.records[ids[i]], gate, live)
    requires StopOf(s, gate, live) == if i < |ids| then Some(ids[i]) else None
    ensures PassedIds(s, gate, live) == OutdatedAmong(s, gate, live, ids[..i])
  {
    forall id | id in ids && IsOutdated(s.records[id], gate, live)
      ensures id in ids[..i] <==> (i < |ids| ==> IsNewer(s.records[id], s.records[ids[i]]))
    {
      var k :| 0 <= k < |ids| && ids[k] == id;
      if k < i {
        assert ids[..i][k] == id;
      } else {
        assert k > i;
        NewerIsIrreflexive(s.records[id]);
        assert IsNewer(s.records[ids[i]], s.records[id]);
        NewerIsTotal(s.records[id], s.records[ids[i]]);
      }
    }
  }

  lemma NewerIsIrreflexive(r: CacheRecord)
    ensures !IsNewer(r, r)
  {
    TextLessIsStrictOrder(r.id, r.id, r.id);
  }

  lemma ListedEntry(s: Store, aged: set<string>, projectId: string, gate: Gate, id: string) returns (e: IndexEntry)
    requires Listed(s, projectId, gate, id)
    ensures var t := AgeAll(s, aged);
      t.index.IndexOf? && t.index.projectId == projectId && e in t.index.entries && e.id == id && e.gate == gate
  {
    AgingKeepsListing(s, aged, projectId, gate, id);
    e :| e in ReadIndex(AgeAll(s, aged).index, projectId).value && e.gate == gate && e.id == id;
  }

  /** Marking one more listed record. */
  lemma MarkExtendsAging(s: Store, aged: set<string>, gate: Gate, live: Live, id: string)
    requires WellFormed(s) && Listed(s, live.projectId, gate, id)
    requires s.records[id].gate == gate && s.records[id].projectId == live.projectId
    ensures id in AgeAll(s, aged).records && AgeAll(s, aged).records[id].projectId == live.projectId
    ensures ReadIndex(AgeAll(s, aged).index, live.projectId).Some?
    ensures WithStale(AgeAll(s, aged), id) == AgeAll(s, aged + {id})
  {
    var e := ListedEntry(s, aged, live.projectId, gate, id);
    AgingKeepsWellFormed(s, aged);
    MarkingIsAging(AgeAll(s, aged), id, e);
    AgeTwice(s, aged, {id});
  }

  lemma NoneScanned(s: Store, gate: Gate, live: Live, ids: seq<string>)
    requires IsRanked(s.records, ids)
    ensures (forall id :: id in ids ==> id in s.records) && OutdatedAmong(s, gate, live, ids[..0]) == {}
  {
  }

  lemma ScanStep(s: Store, gate: Gate, live: Live, ids: seq<string>, i: nat)
    requires i < |ids| && forall id :: id in ids ==> id in s.records
    ensures OutdatedAmong(s, gate, live, ids[..i + 1])
      == if IsOutdated(s.records[ids[i]], gate, live) then OutdatedAmong(s, gate, live, ids[..i]) + {ids[i]}
         else OutdatedAmong(s, gate, live, ids[..i])
  {
    hide IsOutdated;
    assert ids[..i + 1] == ids[..i] + [ids[i]];
  }

  /** Compares one record with the live inputs. */
  method TryCandidate(r: CacheRecord, gate: Gate, live: Live) returns (usable: bool, outdated: bool)
    ensures usable <==> IsUsable(r, gate, live)
    ensures outdated <==> IsOutdated(r, gate, live)
  {
    if !IsComparable(r, gate, live) {
      return false, false;
    }
    var changed, _ := EvaluateCandidate(r, live.bundle, live.env);
    assert changed == {} <==> IsCurrent(r, live.bundle, live.env) by {
      if changed != {} {
        var c :| c in changed;
        assert HasChanged(r, live.bundle, live.env, c);
      }
    }
    usable, outdated := changed == {}, changed != {};
  }

  /** The record a hit names, read back after the evaluation, and whether evidence made from it stands. */
  lemma HitYieldsEvidence(s: Store, run: Run, a: Asker, gate: Gate, now: Tick)
    requires WellFormed(s) && IsHit(s, a, gate) && a == AskerOf(run, a.bundle, a.env) && Present(run.currentDigest)
    ensures var t, d := Evaluated(s, a, gate, now), DecisionOf(s, a, gate, now);
      var id := CandidateOf(s, a, gate).value;
      && id in t.records && t.records[id] == s.records[id] && t.records[id].id == id
      && t.records[id].projectId == run.projectId && IsSemanticallyValid(t.records[id]) && Some(t.records[id].proof) == d.proof
      && (ReuseIsValid(t, ContextOf(run, gate), DerivedEvidence(run, run.currentDigest.value, t.records[id], d)) <==> HasInk(id))
  {
    HitIsUsable(s, a, gate);
    EvaluationAges(s, a, gate, now);
    AgingKeepsHits(s, Evaluated(s, a, gate, now), gate, a);
    if HasInk(CandidateOf(s, a, gate).value) {
      DerivedEvidenceIsValid(s, run, a, gate, now);
    }
  }

  class EvidenceCache {
    var records: map<string, CacheRecord>
    var index: IndexFile
    var decisions: map<Tick, Decision>

    function Contents(): Store
      reads this
    {
      Store.Store(records, index, decisions)
    }

    ghost predicate Valid()
      reads this
    {
      WellFormed(Contents())
    }

    constructor ()
      ensures Valid() && Contents() == Store.Store(map[], NoIndex, map[])
    {
      records, index, decisions := map[], NoIndex, map[];
    }

    /** Writes the record file, then the index; an unreadable index rejects the call after the first write. */
    method Persist(r: CacheRecord) returns (ok: bool)
      requires Valid()
      modifies this
      ensures Valid() && (Contents(), ok) == Persisted(old(Contents()), r)
    {
      PersistKeepsWellFormed(Contents(), r);
      records := records[r.id := r];
      var existing := ReadIndex(index, r.projectId);
      if existing.None? {
        return false;
      }
      index := IndexOf(r.projectId, SortEntries(Filter(existing.value, Besides(r.id)) + [EntryOf(r)]));
      ok := true;
    }

    /** Fails like the write it makes, where the index cannot be read for the record's project. */
    method MarkCacheRecordStale(id: string) returns (ok: bool)
      requires Valid()
      modifies this
      ensures Valid() && Contents() == WithStale(old(Contents()), id)
      ensures ok <==> (id in old(records) ==> ReadIndex(old(index), old(records)[id].projectId).Some?)
    {
      ok := true;
      if id in records {
        ok := Persist(Aged(records[id]));
      }
    }

    /** The ids listed for a gate whose records can be read, newest first. */
    method ListCandidates(projectId: string, gate: Gate) returns (ids: seq<string>)
      requires Valid()
      ensures forall id :: id in ids <==> Listed(Contents(), projectId, gate, id)
      ensures IsRanked(records, ids)
    {
      ids := [];
      var read := ReadIndex(index, projectId);
      if read.None? {
        return;
      }
      var entries := read.value;
      for i := 0 to |entries|
        invariant forall id :: id in ids <==> id in records && Names(entries[..i], gate, id)
        invariant IsRanked(records, ids)
      {
        var e := entries[i];
        assert entries[..i + 1] == entries[..i] + [e];
        forall k | 0 <= k < i ensures entries[k].id != e.id {
          TextLessIsStrictOrder(e.id, entries[k].id, e.id);
        }
        if e.gate == gate && e.id in records {
          ids := InsertRanked(records, ids, e.id);
        }
      }
      assert entries[..|entries|] == entries;
    }

    /** Compares one candidate and marks it stale when it is outdated; the listing it came from lets the mark be written. */
    method Visit(r: CacheRecord, gate: Gate, live: Live, ghost s: Store, ghost aged: set<string>) returns (stop: bool, outdated: bool)
      requires Valid() && WellFormed(s) && Contents() == AgeAll(s, aged)
      requires Listed(s, live.projectId, gate, r.id) && r == s.records[r.id]
      modifies this
      ensures Valid() && Contents() == AgeAll(s, if outdated then aged + {r.id} else aged)
      ensures stop <==> EndsSearch(r, gate, live)
      ensures outdated <==> IsOutdated(r, gate, live)
      ensures !(stop && outdated)
    {
      if r.projectId != live.projectId {
        return true, false;
      }
      stop, outdated := TryCandidate(r, gate, live);
      if outdated {
        MarkExtendsAging(s, aged, gate, live, r.id);
        var marked := MarkCacheRecordStale(r.id);
        assert marked;
      }
    }

    /** Tries the candidates newest first, marking each outdated one stale, until one ends the search. */
    method Search(gate: Gate, live: Live) returns (found: Option<string>, passed: bool)
      requires Valid()
      modifies this
      ensures Valid() && Contents() == AgeAll(old(Contents()), PassedIds(old(Contents()), gate, live))
      ensures found == StopOf(old(Contents()), gate, live)
      ensures passed <==> PassedIds(old(Contents()), gate, live) != {}
    {
      hide EndsSearch, IsOutdated, IsRanked, AgeAll, OutdatedAmong, PassedIds, StopOf;
      var ids := ListCandidates(live.projectId, gate);
      var candidates := records;
      found, passed := None, false;
      ghost var s := Contents();
      ghost var aged: set<string> := {};
      AgeNone(s);
      NoneScanned(s, gate, live, ids);
      var i := 0;
      while i < |ids| && found.None?
        invariant 0 <= i <= |ids| && Valid()
        invariant Contents() == AgeAll(s, aged) && aged == OutdatedAmong(s, gate, live, ids[..i])
        invariant passed <==> aged != {}
        invariant forall k :: 0 <= k < i ==> !EndsSearch(s.records[ids[k]], gate, live)
        invariant found.Some? ==> i < |ids| && found == Some(ids[i]) && EndsSearch(s.records[ids[i]], gate, live)
        decreases |ids| - i, found.None?
      {
        assert ids[i] in ids && candidates[ids[i]].id == ids[i];
        var stop, outdated := Visit(candidates[ids[i]], gate, live, s, aged);
        if stop {
          found := Some(ids[i]);
        } else {
          ScanStep(s, gate, live, ids, i);
          aged := if outdated then aged + {ids[i]} else aged;
          passed := passed || outdated;
          i := i + 1;
        }
      }
      ScanFindsStop(s, gate, live, ids, i);
    }

    /** Evaluates the cache for a gate and stores the decision. */
    method EvaluateCache(a: Asker, gate: Gate, now: Tick) returns (d: Decision)
      requires Valid()
      modifies this
      ensures Valid() && Contents() == Evaluated(old(Contents()), a, gate, now)
      ensures d == DecisionOf(old(Contents()), a, gate, now)
    {
      ghost var s := Contents();
      EvaluationAges(s, a, gate, now);
      AgeNone(s);
      var eligible := IsCacheEligibleGate(gate);
      var blocked := false;
      if a.bundle.None? || !IndexIsReusable(a.bundle.value) {
        blocked := eligible;
      } else if a.bundle.value.projectId != a.projectId {
        blocked := true;
      }
      if eligible && ReadIndex(index, a.projectId).None? {
        blocked := true;
      }
      var provable := ContractIsProvable(gate, a.env) && ToolchainIsProvable(gate, a.env);
      var candidate: Option<string> := None;
      var passed, proof := false, None;
      if eligible && !blocked && provable {
        candidate, passed := Search(gate, LiveOf(a));
        if candidate.Some? {
          AgingKeepsHits(s, Evaluated(s, a, gate, now), gate, a);
          assert candidate.value in EndingIds(s, gate, LiveOf(a));
          if records[candidate.value].projectId != a.projectId {
            blocked := true;
          } else {
            proof := Some(records[candidate.value].proof);
          }
        }
      }
      var kind :=
        if blocked then BlockedDecision
        else if !eligible || !provable then NotReusableDecision
        else if candidate.None? && passed then StaleDecision
        else if candidate.None? then Miss
        else Hit;
      d := Decision(now, a.projectId, a.workOrderId, a.runId, gate, candidate, kind, kind == Hit,
        a.liveDigest, ContractFor(gate, a.env), proof);
      decisions := decisions[now := d];
    }

    /** Caches accepted evidence; anything it may not cache is passed over. */
    method PopulateFromEvidence(projectId: string, changedFiles: set<string>, e: Evidence, b: Bundle, env: Env, now: Tick)
      returns (ok: bool)
      requires Valid()
      modifies this
      ensures Valid()
      ensures if IsCacheable(projectId, e, b, env) then (Contents(), ok) == Persisted(old(Contents()), RecordOf(projectId, changedFiles, e, b, env, now))
              else ok && Contents() == old(Contents())
    {
      ok := true;
      if e.status != EvidencePass || e.projectId != projectId || GateDefOf(e.gate).None? || !IsCacheEligibleGate(e.gate) {
        return;
      }
      if e.kind == CommandEvidence && (!Present(e.command) || !Present(e.outputDigest) || e.exitCode != Some(0)) {
        return;
      }
      if e.kind !in GateDefOf(e.gate).value.kinds || !IndexIsReusable(b) || b.projectId != projectId {
        return;
      }
      var command := NormalizeCommand(e.command);
      if IsCommandGate(e.gate)
        && (command.None? || !ContractIsProvable(e.gate, env) || command != CommandOf(e.gate, env) || !ToolchainIsProvable(e.gate, env))
      {
        return;
      }
      var basis := BuildCacheValidityBasis(b, changedFiles);
      var r := CacheRecord(
        RecordId(projectId, e.gate, e, now), projectId, e.gate, e.evidenceId, e.kind, e.changeDigest, command,
        ContractFor(e.gate, env), ProofFor(projectId, e.gate, env, basis, ManifestDigests(b)),
        ToolsFor(e.gate, env), EnvironmentFor(e.gate, env),
        basis.Keys, basis, ManifestDigests(b), CACHE_POLICY,
        e.outputDigest, e.fileDigest, now, true, true, Reusable);
      ok := Persist(r);
    }

    /** Evaluates every selected gate not already settled and appends evidence for the hits. */
    method ApplyEligibleCacheHits(run: Run, bundle: Option<Bundle>, env: Env, states: seq<GateState>, ledger: seq<Evidence>, now: Tick)
      returns (evidence: seq<Evidence>, later: Tick)
      requires Valid()
      modifies this
      ensures Valid()
      ensures World(Contents(), evidence, later)
        == AppliedToAll(World(old(Contents()), ledger, now), run, AskerOf(run, bundle, env), states, run.selectedGates)
    {
      var a := AskerOf(run, bundle, env);
      ghost var w := World(Contents(), ledger, now);
      var gates := run.selectedGates;
      evidence, later := ledger, now;
      for i := 0 to |gates|
        invariant Valid() && World(Contents(), evidence, later) == AppliedToAll(w, run, a, states, gates[..i])
      {
        assert gates[..i + 1][..|gates[..i + 1]| - 1] == gates[..i];
        evidence, later := ApplyToGate(run, a, states, gates[i], evidence, later);
      }
      assert gates[..|gates|] == gates;
    }

    method ApplyToGate(run: Run, a: Asker, states: seq<GateState>, gate: Gate, ledger: seq<Evidence>, now: Tick)
      returns (evidence: seq<Evidence>, later: Tick)
      requires Valid() && a == AskerOf(run, a.bundle, a.env)
      modifies this
      ensures Valid()
      ensures World(Contents(), evidence, later) == AppliedTo(World(old(Contents()), ledger, now), run, a, states, gate)
    {
      hide Evaluated, KindOf, IsApplied, IsCacheEligibleGate, Derived;
      evidence, later := ledger, now;
      if !IsCacheEligibleGate(gate) {
        var _ := EvaluateCache(a, gate, now);
        later := now + 1;
        return;
      }
      if FirstStatus(gate, states) !in {None, Some(GatePending)} {
        return;
      }
      ghost var s := Contents();
      var d := EvaluateCache(a, gate, now);
      later := now + 1;
      var e := EvidenceOfHit(run, d, a, s, now);
      if e.Some? {
        evidence := evidence + [e.value];
        later := now + 2;
      }
    }

    /** The evidence a stored decision allows, checked like any reused evidence before it is trusted. */
    method EvidenceOfHit(run: Run, d: Decision, ghost a: Asker, ghost s: Store, ghost now: Tick) returns (e: Option<Evidence>)
      requires WellFormed(s) && a == AskerOf(run, a.bundle, a.env)
      requires Contents() == Evaluated(s, a, d.gate, now) && d == DecisionOf(s, a, d.gate, now)
      ensures e == if IsApplied(s, run, a, d.gate) then Some(Derived(s, run, a, d.gate, now)) else None
    {
      if d.kind != Hit || d.candidate.None? || !Present(run.currentDigest) || d.proof.None? {
        return None;
      }
      HitYieldsEvidence(s, run, a, d.gate, now);
      var r := records[d.candidate.value];
      if r.projectId != run.projectId || !IsSemanticallyValid(r) || Some(r.proof) != d.proof {
        return None;
      }
      var derived := DerivedEvidence(run, run.currentDigest.value, r, d);
      var valid, _ := ValidateCacheReuseEvidence(Contents(), ContextOf(run, d.gate), derived);
      e := if valid then Some(derived) else None;
    }
  }
}
