/** Installing, migrating and uninstalling as transactions: snapshot, write, and roll back on any failure. */
module HostInstall {
  import opened Basics
  import opened HostFiles

  /** What the n-th file operation does: succeed, or throw and perhaps leave something at its path. */
  datatype Fault = Fine | Throws(debris: Option<Content>)

  datatype Outcome = Denied | Failed | Finished(state: Option<AdapterState>)

  type Snapshots = map<Path, Option<Content>>

  /** What a write that threw leaves at its path. */
  function Struck(files: Files, p: Path, fault: Fault): Files {
    if fault.Throws? && fault.debris.Some? then files[p := fault.debris.value] else files
  }

  function Lookup(files: Files, p: Path): Option<Content> {
    if p in files then Some(files[p]) else None
  }

  /** The files when the n-th of several writes threw and nothing was put back. */
  function StoppedAt(files: Files, writes: seq<Write>, n: nat, fault: Fault): Files
    requires n < |writes|
  {
    Struck(WithWrites(files, writes[..n]), writes[n].path, fault)
  }

  function PathsIn(writes: seq<Write>): seq<Path> {
    seq(|writes|, i requires 0 <= i < |writes| => writes[i].path)
  }

  lemma WritesElsewhere(files: Files, writes: seq<Write>, p: Path)
    requires p !in PathsIn(writes)
    ensures Lookup(WithWrites(files, writes), p) == Lookup(files, p)
  {
    if writes == [] {
    } else {
      var last := writes[|writes| - 1];
      assert PathsIn(writes)[|writes| - 1] == last.path;
      assert PathsIn(writes) == PathsIn(writes[..|writes| - 1]) + [last.path];
      WritesElsewhere(files, writes[..|writes| - 1], p);
    }
  }

  lemma {:induction false} WritesAppend(files: Files, a: seq<Write>, b: seq<Write>)
    ensures WithWrites(files, a + b) == WithWrites(WithWrites(files, a), b)
  {
    if b == [] {
      assert a + b == a;
    } else {
      assert (a + b)[..|a + b| - 1] == a + b[..|b| - 1];
      WritesAppend(files, a, b[..|b| - 1]);
    }
  }

  class HostFileSystem {
    var files: Files
    var ops: nat
    const oracle: nat -> Fault

    constructor (f: Files, o: nat -> Fault)
      ensures files == f && oracle == o && ops == 0
    {
      files, ops, oracle := f, 0, o;
    }

    /** No operation numbered from..to throws. */
    ghost predicate IsCalm(from: nat, to: nat)
    {
      forall n :: from <= n < to ==> oracle(n) == Fine
    }

    /** Everything went well up to `fault`, which threw; if nothing throws after it, nothing is left unrestored. */
    ghost predicate FailedAt(from: nat, fault: nat, unrestored: set<Path>)
      reads this
    {
      from <= fault < ops && IsCalm(from, fault) && oracle(fault) != Fine && (IsCalm(fault + 1, ops) ==> unrestored == {})
    }

    /** An operation without effect on the files: a directory, a probe, an injected fault point. */
    method Pass() returns (ok: bool)
      modifies this`ops
      ensures ops == old(ops) + 1 && (ok <==> oracle(old(ops)) == Fine)
    {
      ok := oracle(ops) == Fine;
      ops := ops + 1;
    }

    method Put(p: Path, c: Content) returns (ok: bool)
      modifies this
      ensures ops == old(ops) + 1 && (ok <==> oracle(old(ops)) == Fine)
      ensures files == if ok then old(files)[p := c] else Struck(old(files), p, oracle(old(ops)))
      ensures forall q :: q != p ==> Lookup(files, q) == Lookup(old(files), q)
    {
      var fault := oracle(ops);
      ops := ops + 1;
      ok := fault == Fine;
      if ok {
        files := files[p := c];
      } else if fault.debris.Some? {
        files := files[p := fault.debris.value];
      }
    }

    method Remove(p: Path) returns (ok: bool)
      modifies this
      ensures ops == old(ops) + 1 && (ok <==> oracle(old(ops)) == Fine)
      ensures files == if ok then Without(old(files), [p]) else old(files)
    {
      ok := oracle(ops) == Fine;
      ops := ops + 1;
      if ok {
        files := map q | q in files && q !in [p] :: files[q];
      }
    }

    method PutAll(writes: seq<Write>) returns (ok: bool)
      modifies this
      ensures old(ops) <= ops && (ok ==> IsCalm(old(ops), ops))
      ensures !ok ==> old(ops) < ops && IsCalm(old(ops), ops - 1) && oracle(ops - 1) != Fine
      ensures ok ==> files == WithWrites(old(files), writes)
      ensures !ok ==> ops - old(ops) <= |writes| && files == StoppedAt(old(files), writes, ops - old(ops) - 1, oracle(ops - 1))
      ensures forall p :: p !in PathsIn(writes) ==> Lookup(files, p) == Lookup(old(files), p)
    {
      for i := 0 to |writes|
        invariant ops == old(ops) + i && IsCalm(old(ops), ops)
        invariant files == WithWrites(old(files), writes[..i])
      {
        assert writes[..i + 1][..i] == writes[..i];
        ok := Put(writes[i].path, writes[i].content);
        if !ok {
          forall p | p !in PathsIn(writes) ensures Lookup(files, p) == Lookup(old(files), p) {
            assert PathsIn(writes)[i] == writes[i].path;
            assert forall k :: 0 <= k < i ==> PathsIn(writes)[k] == PathsIn(writes[..i])[k];
            WritesElsewhere(old(files), writes[..i], p);
          }
          return;
        }
      }
      assert writes[..|writes|] == writes;
      forall p | p !in PathsIn(writes) ensures Lookup(files, p) == Lookup(old(files), p) {
        WritesElsewhere(old(files), writes, p);
      }
      ok := true;
    }

    /** Unlinks those of the paths that exist. */
    method RemoveAll(paths: seq<Path>) returns (ok: bool)
      modifies this
      ensures old(ops) <= ops && (ok ==> IsCalm(old(ops), ops))
      ensures !ok ==> old(ops) < ops && IsCalm(old(ops), ops - 1) && oracle(ops - 1) != Fine
      ensures ok ==> files == Without(old(files), paths)
      ensures forall p :: p !in paths ==> Lookup(files, p) == Lookup(old(files), p)
    {
      for i := 0 to |paths|
        invariant old(ops) <= ops && IsCalm(old(ops), ops)
        invariant files == Without(old(files), paths[..i])
      {
        assert paths[..i + 1] == paths[..i] + [paths[i]];
        if paths[i] in files {
          ok := Remove(paths[i]);
          if !ok {
            return;
          }
        }
      }
      assert paths[..|paths|] == paths;
      ok := true;
    }

    method TakeSnapshots(paths: seq<Path>) returns (snapshots: Snapshots)
      ensures snapshots.Keys == set p | p in paths
      ensures forall p :: p in snapshots ==> snapshots[p] == Lookup(files, p)
    {
      snapshots := map[];
      for i := 0 to |paths|
        invariant snapshots.Keys == set p | p in paths[..i]
        invariant forall p :: p in snapshots ==> snapshots[p] == Lookup(files, p)
      {
        assert paths[..i + 1] == paths[..i] + [paths[i]];
        snapshots := snapshots[paths[i] := Lookup(files, paths[i])];
      }
      assert paths[..|paths|] == paths;
    }

    /** Restores one path; a failure is swallowed and may leave anything there. */
    method Restore(p: Path, snapshot: Option<Content>) returns (ok: bool)
      modifies this
      ensures old(ops) <= ops <= old(ops) + 1 && (!ok ==> ops == old(ops) + 1 && oracle(old(ops)) != Fine)
      ensures ok ==> Lookup(files, p) == snapshot
      ensures forall q :: q != p ==> Lookup(files, q) == Lookup(old(files), q)
    {
      if snapshot.Some? {
        ok := Put(p, snapshot.value);
      } else if p in files {
        ok := Remove(p);
      } else {
        ok := true;
      }
    }

    /** Puts every snapshotted path back, whatever happens to the others. */
    method RollBack(snapshots: Snapshots) returns (unrestored: set<Path>)
      modifies this
      ensures old(ops) <= ops && (IsCalm(old(ops), ops) ==> unrestored == {})
      ensures unrestored <= snapshots.Keys
      ensures forall p :: p in snapshots && p !in unrestored ==> Lookup(files, p) == snapshots[p]
      ensures forall p :: p !in snapshots ==> Lookup(files, p) == Lookup(old(files), p)
    {
      unrestored := {};
      var todo := snapshots.Keys;
      while todo != {}
        invariant todo <= snapshots.Keys && unrestored <= snapshots.Keys - todo && old(ops) <= ops
        invariant IsCalm(old(ops), ops) ==> unrestored == {}
        invariant forall p :: p in snapshots && p !in unrestored && p !in todo ==> Lookup(files, p) == snapshots[p]
        invariant forall p :: p !in snapshots ==> Lookup(files, p) == Lookup(old(files), p)
      {
        var p :| p in todo;
        ghost var before := ops;
        var ok := Restore(p, snapshots[p]);
        if !ok {
          unrestored := unrestored + {p};
          assert oracle(before) != Fine && old(ops) <= before < ops;
        }
        todo := todo - {p};
      }
    }
  }
}
