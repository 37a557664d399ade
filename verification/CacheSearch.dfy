/** What evaluating the cache for a gate decides, and which records it marks stale on the way. */
module CacheSearch {
  import opened Basics
  import opened Gates
  import opened CacheIntegrity
  import opened CacheValidity
  import opened CacheStore

  /** The live side of a comparison. */
  datatype Live = Live(projectId: string, bundle: Bundle, env: Env)

  ghost predicate Names(entries: seq<IndexEntry>, gate: Gate, id: string) {
    exists e :: e in entries && e.gate == gate && e.id == id
  }

  /** The store has listed the record under the gate, in an index readable for the project. */
  ghost predicate Listed(s: Store, projectId: string, gate: Gate, id: string) {
    && id in s.records
    && ReadIndex(s.index, projectId).Some?
    && Names(ReadIndex(s.index, projectId).value, gate, id)
  }

  predicate IsComparable(r: CacheRecord, gate: Gate, live: Live) {
    r.projectId == live.projectId && r.gate == gate && IsSemanticallyValid(r)
  }

  ghost predicate IsUsable(r: CacheRecord, gate: Gate, live: Live) {
    IsComparable(r, gate, live) && IsCurrent(r, live.bundle, live.env)
  }

  ghost predicate IsOutdated(r: CacheRecord, gate: Gate, live: Live) {
    IsComparable(r, gate, live) && !IsCurrent(r, live.bundle, live.env)
  }

  /** Another project's record blocks the search where a usable one ends it. */
  ghost predicate EndsSearch(r: CacheRecord, gate: Gate, live: Live) {
    r.projectId != live.projectId || IsUsable(r, gate, live)
  }

  /** Candidates are tried newest first, equal times by descending id. */
  predicate IsNewer(a: CacheRecord, b: CacheRecord) {
    a.createdAt > b.createdAt || (a.createdAt == b.createdAt && TextLess(b.id, a.id))
  }

  ghost predicate IsNewest(records: map<string, CacheRecord>, ids: set<string>, id: string)
    requires ids <= records.Keys
  {
    id in ids && forall other :: other in ids && other != id ==> IsNewer(records[id], records[other])
  }

  lemma NewerIsTotal(a: CacheRecord, b: CacheRecord)
    requires a.id != b.id
    ensures IsNewer(a, b) != IsNewer(b, a)
  {
    TextLessIsStrictOrder(a.id, b.id, a.id);
  }

  lemma NewerIsTransitive(a: CacheRecord, b: CacheRecord, c: CacheRecord)
    requires IsNewer(a, b) && IsNewer(b, c)
    ensures IsNewer(a, c)
  {
    TextLessIsStrictOrder(c.id, b.id, a.id);
  }

  lemma {:induction false} NewestExists(records: map<string, CacheRecord>, ids: set<string>)
    requires ids != {} && ids <= records.Keys
    requires forall id :: id in records ==> records[id].id == id
    ensures exists id :: IsNewest(records, ids, id)
    decreases |ids|
  {
    var one :| one in ids;
    var rest := ids - {one};
    if rest == {} {
      assert forall other :: other in ids && other != one ==> other in rest;
      assert IsNewest(records, ids, one);
    } else {
      NewestExists(records, rest);
      var best :| IsNewest(records, rest, best);
      NewerIsTotal(records[one], records[best]);
      if IsNewer(records[best], records[one]) {
        assert IsNewest(records, ids, best);
      } else {
        forall other | other in ids && other != one ensures IsNewer(records[one], records[other]) {
          assert other in rest;
          if other != best {
            NewerIsTransitive(records[one], records[best], records[other]);
          }
        }
        assert IsNewest(records, ids, one);
      }
    }
  }

  ghost function NewestOf(records: map<string, CacheRecord>, ids: set<string>): (r: Option<string>)
    requires ids <= records.Keys
    requires forall id :: id in records ==> records[id].id == id
    ensures r.None? <==> ids == {}
    ensures r.Some? ==> IsNewest(records, ids, r.value)
  {
    if ids == {} then None
    else
      NewestExists(records, ids);
      var id :| IsNewest(records, ids, id);
      Some(id)
  }

  lemma NewestIsUnique(records: map<string, CacheRecord>, ids: set<string>, a: string, b: string)
    requires ids <= records.Keys && IsNewest(records, ids, a) && IsNewest(records, ids, b)
    requires records[a].id == a && records[b].id == b
    ensures a == b
  {
    if a != b {
      NewerIsTotal(records[a], records[b]);
    }
  }

  ghost function EndingIds(s: Store, gate: Gate, live: Live): set<string> {
    set id | id in s.records && Listed(s, live.projectId, gate, id) && EndsSearch(s.records[id], gate, live)
  }

  /** The record the search stops at. */
  ghost function StopOf(s: Store, gate: Gate, live: Live): (r: Option<string>)
    requires WellFormed(s)
    ensures r.Some? ==> r.value in s.records && r.value in EndingIds(s, gate, live)
  {
    NewestOf(s.records, EndingIds(s, gate, live))
  }

  /** The outdated records the search passes before it stops. */
  ghost function PassedIds(s: Store, gate: Gate, live: Live): set<string>
    requires WellFormed(s)
  {
    var stop := StopOf(s, gate, live);
    set id | id in s.records && Listed(s, live.projectId, gate, id) && IsOutdated(s.records[id], gate, live)
      && (stop.Some? ==> IsNewer(s.records[id], s.records[stop.value]))
  }

  function AgeRecords(records: map<string, CacheRecord>, ids: set<string>): map<string, CacheRecord> {
    map id | id in records :: if id in ids then Aged(records[id]) else records[id]
  }

  function AgeEntries(entries: seq<IndexEntry>, ids: set<string>): (r: seq<IndexEntry>)
    ensures |r| == |entries|
  {
    seq(|entries|, i requires 0 <= i < |entries| =>
      if entries[i].id in ids then entries[i].(reusable := false, status := Stale) else entries[i])
  }

  function AgeIndex(index: IndexFile, ids: set<string>): IndexFile {
    if index.IndexOf? then IndexOf(index.projectId, AgeEntries(index.entries, ids)) else index
  }

  /** Every record named, and its index entry, marked stale; all else as it was. */
  function AgeAll(s: Store, ids: set<string>): Store {
    Store(AgeRecords(s.records, ids), AgeIndex(s.index, ids), s.decisions)
  }

  lemma AgeNone(s: Store)
    ensures AgeAll(s, {}) == s
  {
    assert AgeRecords(s.records, {}) == s.records;
    if s.index.IndexOf? {
      assert AgeEntries(s.index.entries, {}) == s.index.entries;
    }
  }

  lemma AgeTwice(s: Store, a: set<string>, b: set<string>)
    ensures AgeAll(AgeAll(s, a), b) == AgeAll(s, a + b)
  {
    assert AgeRecords(AgeRecords(s.records, a), b) == AgeRecords(s.records, a + b);
    if s.index.IndexOf? {
      assert AgeEntries(AgeEntries(s.index.entries, a), b) == AgeEntries(s.index.entries, a + b);
    }
  }

  lemma AgingKeepsWellFormed(s: Store, ids: set<string>)
    requires WellFormed(s)
    ensures WellFormed(AgeAll(s, ids))
  {
  }

  lemma AgingKeepsNames(entries: seq<IndexEntry>, ids: set<string>, gate: Gate, id: string)
    ensures Names(AgeEntries(entries, ids), gate, id) <==> Names(entries, gate, id)
  {
    var after := AgeEntries(entries, ids);
    if Names(entries, gate, id) {
      var e :| e in entries && e.gate == gate && e.id == id;
      var i :| 0 <= i < |entries| && entries[i] == e;
      assert after[i] in after && after[i].gate == gate && after[i].id == id;
    }
    if Names(after, gate, id) {
      var e :| e in after && e.gate == gate && e.id == id;
      var i :| 0 <= i < |after| && after[i] == e;
      assert entries[i] in entries && entries[i].gate == gate && entries[i].id == id;
    }
  }

  lemma AgingKeepsListing(s: Store, ids: set<string>, projectId: string, gate: Gate, id: string)
    ensures Listed(AgeAll(s, ids), projectId, gate, id) <==> Listed(s, projectId, gate, id)
  {
    if s.index.IndexOf? {
      AgingKeepsNames(s.index.entries, ids, gate, id);
    }
  }

  lemma {:induction false} SortedListsAreUnique(a: seq<IndexEntry>, b: seq<IndexEntry>)
    requires SortedById(a) && SortedById(b) && forall e :: e in a <==> e in b
    ensures a == b
  {
    assert b != [] ==> b[0] in a;
    if a == [] {
      assert b == [];
    } else {
      assert a[0] in b && b[0] in b && b[0] in a;
      var i :| 0 <= i < |b| && b[i] == a[0];
      var j :| 0 <= j < |a| && a[j] == b[0];
      TextLessIsStrictOrder(a[0].id, b[0].id, a[0].id);
      assert i == 0 || j == 0;
      assert a == [a[0]] + a[1..] && b == [b[0]] + b[1..];
      forall e ensures e in a[1..] <==> e in b[1..] {
        if e in a[1..] {
          HeadIsNotInTail(a, e);
          assert e in a && e in [b[0]] + b[1..];
        }
        if e in b[1..] {
          HeadIsNotInTail(b, e);
          assert e in b && e in [a[0]] + a[1..];
        }
      }
      SortedListsAreUnique(a[1..], b[1..]);
    }
  }

  lemma HeadIsNotInTail(a: seq<IndexEntry>, e: IndexEntry)
    requires a != [] && SortedById(a) && e in a[1..]
    ensures e.id != a[0].id
  {
    var i :| 0 <= i < |a[1..]| && a[1..][i] == e;
    TextLessIsStrictOrder(a[0].id, a[i + 1].id, a[0].id);
  }

  /** Rewriting the index for one aged record changes that record's entry and no other. */
  lemma MarkingIsAging(s: Store, id: string, e: IndexEntry)
    requires WellFormed(s) && id in s.records && s.index.IndexOf? && s.index.projectId == s.records[id].projectId
    requires e in s.index.entries && e.id == id && e.gate == s.records[id].gate
    ensures WithStale(s, id) == AgeAll(s, {id})
  {
    var entries, r := s.index.entries, Aged(s.records[id]);
    RewrittenIndex(entries, EntryOf(r));
    AgedEntries(entries, e);
    SortedListsAreUnique(Rewritten(entries, EntryOf(r)), AgeEntries(entries, {id}));
    assert s.records[id := r] == AgeRecords(s.records, {id});
  }

  lemma AgedEntries(entries: seq<IndexEntry>, e: IndexEntry)
    requires SortedById(entries) && e in entries
    ensures SortedById(AgeEntries(entries, {e.id}))
    ensures forall x :: x in AgeEntries(entries, {e.id}) <==>
      x == e.(reusable := false, status := Stale) || (x in entries && x.id != e.id)
  {
    var aged := AgeEntries(entries, {e.id});
    var k :| 0 <= k < |entries| && entries[k] == e;
    forall i | 0 <= i < |entries| && i != k ensures entries[i].id != e.id {
      TextLessIsStrictOrder(e.id, entries[i].id, e.id);
    }
    assert aged[k] == e.(reusable := false, status := Stale);
    forall x | x in entries && x.id != e.id ensures x in aged {
      var i :| 0 <= i < |entries| && entries[i] == x;
      assert aged[i] == x;
    }
  }
}
