/** The cache's durable files: one record per id, one sorted index, the decisions. */
module CacheStore {
  import opened Basics
  import opened CacheIntegrity

  function EntryOf(r: CacheRecord): IndexEntry {
    IndexEntry(r.id, r.gate, r.reusable, r.status)
  }

  /** A missing index reads as empty; a corrupt one or another project's is unreadable. */
  function ReadIndex(index: IndexFile, projectId: string): Option<seq<IndexEntry>> {
    match index
    case NoIndex => Some([])
    case CorruptIndex => None
    case IndexOf(owner, entries) => if owner == projectId then Some(entries) else None
  }

  function Besides(id: string): IndexEntry -> bool {
    (e: IndexEntry) => e.id != id
  }

  function InsertEntry(entries: seq<IndexEntry>, e: IndexEntry): seq<IndexEntry> {
    if entries == [] || TextLess(e.id, entries[0].id) then [e] + entries
    else [entries[0]] + InsertEntry(entries[1..], e)
  }

  function SortEntries(entries: seq<IndexEntry>): seq<IndexEntry> {
    if entries == [] then [] else InsertEntry(SortEntries(entries[..|entries| - 1]), entries[|entries| - 1])
  }

  /** The record file is written before the index is consulted; an unreadable index then rejects the call. */
  function Persisted(s: Store, r: CacheRecord): (Store, bool) {
    var records := s.records[r.id := r];
    match ReadIndex(s.index, r.projectId)
    case None => (s.(records := records), false)
    case Some(entries) => (s.(records := records, index := IndexOf(r.projectId, Rewritten(entries, EntryOf(r)))), true)
  }

  function Rewritten(entries: seq<IndexEntry>, e: IndexEntry): seq<IndexEntry> {
    SortEntries(Filter(entries, Besides(e.id)) + [e])
  }

  function Aged(r: CacheRecord): CacheRecord {
    r.(status := Stale, reusable := false)
  }

  /** Marks a record stale, where it exists. */
  function WithStale(s: Store, id: string): Store {
    if id in s.records then Persisted(s, Aged(s.records[id])).0 else s
  }

  ghost predicate SortedById(entries: seq<IndexEntry>) {
    forall i, j :: 0 <= i < j < |entries| ==> TextLess(entries[i].id, entries[j].id)
  }

  /** What every write keeps: a record file is named by its id, and a written index is sorted by id. */
  ghost predicate WellFormed(s: Store) {
    && (forall id :: id in s.records ==> s.records[id].id == id)
    && (s.index.IndexOf? ==> SortedById(s.index.entries))
  }

  ghost predicate ListsExactly(entries: seq<IndexEntry>, records: map<string, CacheRecord>) {
    && (forall e :: e in entries ==> e.id in records && e == EntryOf(records[e.id]))
    && (forall id :: id in records ==> records[id].id == id && EntryOf(records[id]) in entries)
  }

  /** The index is the sorted, duplicate-free projection of the records, all of one project. */
  ghost predicate IsProjection(s: Store) {
    match s.index
    case NoIndex => s.records == map[]
    case CorruptIndex => false
    case IndexOf(owner, entries) =>
      && SortedById(entries) && ListsExactly(entries, s.records)
      && (forall id :: id in s.records ==> s.records[id].projectId == owner)
  }

  lemma InsertKeepsOrder(entries: seq<IndexEntry>, e: IndexEntry)
    requires SortedById(entries) && forall x :: x in entries ==> x.id != e.id
    ensures SortedById(InsertEntry(entries, e))
    ensures forall x :: x in InsertEntry(entries, e) <==> x in entries || x == e
  {
    if entries == [] {
    } else {
      var first := entries[0];
      assert entries == [first] + entries[1..];
      TextLessIsStrictOrder(e.id, first.id, e.id);
      if TextLess(e.id, first.id) {
        forall j | 0 < j < |entries| ensures TextLess(e.id, entries[j].id) {
          TextLessIsStrictOrder(e.id, first.id, entries[j].id);
        }
      } else {
        InsertKeepsOrder(entries[1..], e);
        var rest := InsertEntry(entries[1..], e);
        forall j | 0 <= j < |rest| ensures TextLess(first.id, rest[j].id) {
          assert rest[j] in rest;
        }
      }
    }
  }

  lemma {:induction false} SortSorts(entries: seq<IndexEntry>)
    requires forall i, j :: 0 <= i < j < |entries| ==> entries[i].id != entries[j].id
    ensures SortedById(SortEntries(entries))
    ensures forall x :: x in SortEntries(entries) <==> x in entries
  {
    if entries == [] {
    } else {
      var init, last := entries[..|entries| - 1], entries[|entries| - 1];
      assert entries == init + [last];
      SortSorts(init);
      forall x | x in SortEntries(init) ensures x.id != last.id {
        var i :| 0 <= i < |init| && init[i] == x;
      }
      InsertKeepsOrder(SortEntries(init), last);
    }
  }

  lemma {:induction false} FilterKeepsDistinctIds(entries: seq<IndexEntry>, p: IndexEntry -> bool)
    requires SortedById(entries)
    ensures forall i, j :: 0 <= i < j < |Filter(entries, p)| ==> Filter(entries, p)[i].id != Filter(entries, p)[j].id
  {
    if entries == [] {
    } else {
      var init, last := entries[..|entries| - 1], entries[|entries| - 1];
      FilterKeepsDistinctIds(init, p);
      forall x | x in Filter(init, p) ensures x.id != last.id {
        var i :| 0 <= i < |init| && init[i] == x;
        TextLessIsStrictOrder(x.id, last.id, x.id);
      }
    }
  }

  lemma RewrittenIndex(entries: seq<IndexEntry>, e: IndexEntry)
    requires SortedById(entries)
    ensures SortedById(Rewritten(entries, e))
    ensures forall x :: x in Rewritten(entries, e) <==> x == e || (x in entries && x.id != e.id)
  {
    var kept := Filter(entries, Besides(e.id));
    FilterKeepsDistinctIds(entries, Besides(e.id));
    assert forall x :: x in kept ==> x.id != e.id;
    SortSorts(kept + [e]);
  }

  lemma ReplacingListsExactly(entries: seq<IndexEntry>, next: seq<IndexEntry>, records: map<string, CacheRecord>, r: CacheRecord)
    requires ListsExactly(entries, records)
    requires forall x :: x in next <==> x == EntryOf(r) || (x in entries && x.id != r.id)
    ensures ListsExactly(next, records[r.id := r])
  {
    forall id | id in records && id != r.id ensures EntryOf(records[id]) in next {
      assert EntryOf(records[id]) in entries;
    }
  }

  /** Persisting keeps the projection exactly when the index can be read for the record's project. */
  lemma PersistKeepsProjection(s: Store, r: CacheRecord)
    requires IsProjection(s)
    ensures IsProjection(Persisted(s, r).0) <==> ReadIndex(s.index, r.projectId).Some?
  {
    match ReadIndex(s.index, r.projectId)
    case None =>
      assert Persisted(s, r).0.records[r.id] == r;
    case Some(entries) =>
      RewrittenIndex(entries, EntryOf(r));
      ReplacingListsExactly(entries, Rewritten(entries, EntryOf(r)), s.records, r);
  }

  lemma PersistKeepsWellFormed(s: Store, r: CacheRecord)
    requires WellFormed(s)
    ensures WellFormed(Persisted(s, r).0)
  {
    hide Rewritten, SortedById;
    var after := Persisted(s, r).0;
    assert forall id :: id in after.records ==> after.records[id].id == id;
    if ReadIndex(s.index, r.projectId).Some? {
      var entries := ReadIndex(s.index, r.projectId).value;
      RewrittenIndex(entries, EntryOf(r));
      assert after.index.entries == Rewritten(entries, EntryOf(r));
    }
  }

  /** A store owned by another project takes the record file and then refuses: the record stays unlisted. */
  lemma ForeignPersistLeavesUnlistedRecord(r: CacheRecord)
    requires r.projectId != "own"
    ensures var s := Store(map[], IndexOf("own", []), map[]);
      IsProjection(s) && !Persisted(s, r).1 && r.id in Persisted(s, r).0.records && !IsProjection(Persisted(s, r).0)
  {
    PersistKeepsProjection(Store(map[], IndexOf("own", []), map[]), r);
  }
}
