/** One host adapter: install, migrate from the v0.1.0 layout, inspect, uninstall. */
module HostAdapter {
  import opened Basics
  import opened HostFiles
  import opened HostInstall

  /** Every path an installation may touch: managed targets, obsolete ones, manifest, state and agent copies. */
  function InstallDomain(s: Setup, written: Bytes -> Bytes, removed: seq<Path>): seq<Path> {
    PathsIn(InstallWrites(s, written)) + removed
  }

  /** A failure of a refresh is not rolled back: it can leave some agent copies, or the state record, rewritten. */
  predicate IsTransaction(route: Route) {
    route !in {RefreshAgents, BindOnly}
  }

  lemma PathsInConcat(a: seq<Write>, b: seq<Write>)
    ensures PathsIn(a + b) == PathsIn(a) + PathsIn(b)
  {
  }

  class Adapter {
    const fs: HostFileSystem
    const setup: Setup
    const written: Bytes -> Bytes

    constructor (f: HostFileSystem, s: Setup, w: Bytes -> Bytes)
      ensures fs == f && setup == s && written == w
    {
      fs, setup, written := f, s, w;
    }

    /** The manifest, and after the probe of the host the state record. */
    method WriteRecords() returns (ok: bool)
      modifies fs
      ensures old(fs.ops) <= fs.ops && (ok ==> fs.IsCalm(old(fs.ops), fs.ops))
      ensures !ok ==> old(fs.ops) < fs.ops && fs.IsCalm(old(fs.ops), fs.ops - 1) && fs.oracle(fs.ops - 1) != Fine
      ensures ok ==> fs.files == WithWrites(old(fs.files), RecordWrites(setup))
      ensures forall p :: p !in PathsIn(RecordWrites(setup)) ==> Lookup(fs.files, p) == Lookup(old(fs.files), p)
    {
      var manifest, record := RecordWrites(setup)[0], RecordWrites(setup)[1];
      assert PathsIn(RecordWrites(setup)) == [manifest.path, record.path];
      TwoWrites(fs.files, manifest, record);
      ok := fs.Put(manifest.path, manifest.content);
      if !ok { return; }
      ok := fs.Pass();
      if !ok { return; }
      ok := fs.Put(record.path, record.content);
    }

    /** The write phase shared by installing and migrating. */
    method WriteInstallation() returns (ok: bool)
      modifies fs
      ensures old(fs.ops) <= fs.ops && (ok ==> fs.IsCalm(old(fs.ops), fs.ops))
      ensures !ok ==> old(fs.ops) < fs.ops && fs.IsCalm(old(fs.ops), fs.ops - 1) && fs.oracle(fs.ops - 1) != Fine
      ensures ok ==> fs.files == WithWrites(old(fs.files), InstallWrites(setup, written))
      ensures forall p :: p !in PathsIn(InstallWrites(setup, written)) ==> Lookup(fs.files, p) == Lookup(old(fs.files), p)
    {
      hide AgentWrites, ResourceWrites, RecordWrites, WithWrites;
      var agents, resources := AgentWrites(setup, written), ResourceWrites(setup, written);
      PathsInConcat(agents, resources);
      PathsInConcat(agents + resources, RecordWrites(setup));
      WritesAppend(fs.files, agents, resources);
      WritesAppend(fs.files, agents + resources, RecordWrites(setup));
      ok := fs.PutAll(agents);
      if !ok { return; }
      ok := fs.Pass();
      if !ok { return; }
      ok := fs.PutAll(resources);
      if !ok { return; }
      ok := fs.Pass();
      if !ok { return; }
      ok := WriteRecords();
    }

    /** The transaction of a full installation or a migration: write, then remove what the prior one left. */
    method Transact(removed: seq<Path>) returns (outcome: Outcome, ghost fault: nat, ghost unrestored: set<Path>)
      modifies fs
      ensures outcome != Denied
      ensures outcome.Finished? ==> outcome == Finished(Some(InstalledState(setup))) && fs.IsCalm(old(fs.ops), fs.ops)
      ensures outcome.Finished? ==> fs.files == InstalledFiles(old(fs.files), setup, written, removed)
      ensures outcome == Failed ==> fs.FailedAt(old(fs.ops), fault, unrestored)
      ensures outcome == Failed ==> forall p :: p !in unrestored ==> Lookup(fs.files, p) == Lookup(old(fs.files), p)
    {
      fault, unrestored := 0, {};
      var snapshots := fs.TakeSnapshots(InstallDomain(setup, written, removed));
      var ok := WriteInstallation();
      if ok {
        ok := fs.RemoveAll(removed);
      }
      if !ok {
        fault := fs.ops - 1;
        var lost := fs.RollBack(snapshots);
        unrestored := lost;
        outcome := Failed;
      } else {
        outcome := Finished(Some(InstalledState(setup)));
      }
    }

    /** Rewrites the agent copies and upgrades the root binding, as a transaction. */
    method Upgrade(state: AdapterState) returns (outcome: Outcome, ghost fault: nat, ghost unrestored: set<Path>)
      modifies fs
      ensures outcome != Denied
      ensures outcome.Finished? ==> outcome == Finished(Some(Rebound(setup, state))) && fs.IsCalm(old(fs.ops), fs.ops)
      ensures outcome.Finished? ==> fs.files == WithWrites(old(fs.files), UpgradeWrites(setup, written, state))
      ensures outcome == Failed ==> fs.FailedAt(old(fs.ops), fault, unrestored)
      ensures outcome == Failed ==> forall p :: p !in unrestored ==> Lookup(fs.files, p) == Lookup(old(fs.files), p)
    {
      hide AgentWrites, WithWrites;
      fault, unrestored := 0, {};
      var record := Write(StateFile, StateRecord(Rebound(setup, state)));
      var snapshots := fs.TakeSnapshots(PathsIn(UpgradeWrites(setup, written, state)));
      PathsInConcat(AgentWrites(setup, written), [record]);
      assert PathsIn([record]) == [StateFile];
      WritesAppend(fs.files, AgentWrites(setup, written), [record]);
      OneWrite(WithWrites(fs.files, AgentWrites(setup, written)), record);
      var ok := fs.PutAll(AgentWrites(setup, written));
      if ok { ok := fs.Pass(); }
      if ok { ok := fs.Pass(); }
      if ok { ok := fs.Put(record.path, record.content); }
      if !ok {
        fault := fs.ops - 1;
        var lost := fs.RollBack(snapshots);
        unrestored := lost;
        outcome := Failed;
      } else {
        outcome := Finished(Some(Rebound(setup, state)));
      }
    }

    /** Installs or adopts the adapter. All routes but the two that only refresh are transactions. */
    method InstallHostAdapter() returns (outcome: Outcome, ghost fault: nat, ghost unrestored: set<Path>)
      modifies fs
      ensures outcome == Denied <==> !MayInstall(old(fs.files), setup)
      ensures outcome == Denied ==> fs.files == old(fs.files)
      ensures outcome.Finished? ==> outcome == Finished(Some(StateAfterInstall(old(fs.files), setup)))
      ensures outcome.Finished? ==> fs.files == AfterInstall(old(fs.files), setup, written)
      ensures var route := RouteOf(old(fs.files), setup, StateOf(ReadState(old(fs.files))));
        outcome == Failed ==>
          && (IsTransaction(route) ==> fs.FailedAt(old(fs.ops), fault, unrestored))
          && (IsTransaction(route) ==> forall p :: p !in unrestored ==> Lookup(fs.files, p) == Lookup(old(fs.files), p))
          && (route == RefreshAgents ==>
                && old(fs.ops) < fs.ops <= old(fs.ops) + |AgentWrites(setup, written)|
                && fs.files == StoppedAt(old(fs.files), AgentWrites(setup, written), fs.ops - old(fs.ops) - 1, fs.oracle(fs.ops - 1)))
          && (route == BindOnly ==> fs.files == Struck(old(fs.files), StateFile, fs.oracle(old(fs.ops))))
    {
      hide MayInstall, InstalledFiles, WithWrites;
      fault, unrestored := 0, {};
      if !MayInstall(fs.files, setup) {
        return Denied, fault, unrestored;
      }
      var state := StateOf(ReadState(fs.files));
      match RouteOf(fs.files, setup, state) {
        case UpgradeBinding =>
          outcome, fault, unrestored := Upgrade(state.value);
        case MigrateLegacy =>
          outcome, fault, unrestored := Transact(ManagedPaths(setup, LegacyRoot, state.value));
        case BindOnly =>
          var ok := fs.Put(StateFile, StateRecord(Rebound(setup, state.value)));
          outcome := if ok then Finished(Some(Rebound(setup, state.value))) else Failed;
        case RefreshAgents =>
          var ok := fs.PutAll(AgentWrites(setup, written));
          outcome := if ok then Finished(state) else Failed;
        case FullInstall =>
          outcome, fault, unrestored := Transact(ObsoletePaths(setup, state));
      }
    }

    /** Removes what is installed, as a transaction; agent copies stay. */
    method UninstallHostAdapter() returns (outcome: Outcome, ghost fault: nat, ghost unrestored: set<Path>)
      modifies fs
      ensures var read := ReadState(old(fs.files));
        && (outcome == Denied <==> read.Unreadable? || (read.Stored? && read.state.installed && !MayUninstall(old(fs.files), setup, read.state)))
        && (outcome == Denied || !read.Stored? || !read.state.installed ==> fs.files == old(fs.files))
        && (outcome.Finished? && read.Stored? && read.state.installed ==> fs.files == UninstalledFiles(old(fs.files), setup, read.state))
        && (outcome.Finished? ==> outcome == Finished(
              if !read.Stored? then None else if read.state.installed then Some(UNINSTALLED) else Some(read.state)))
      ensures outcome == Failed ==> fs.FailedAt(old(fs.ops), fault, unrestored)
      ensures outcome == Failed ==> forall p :: p !in unrestored ==> Lookup(fs.files, p) == Lookup(old(fs.files), p)
    {
      hide MayUninstall, HasModified, HasMissing;
      fault, unrestored := 0, {};
      var read := ReadState(fs.files);
      if read.Unreadable? {
        return Denied, fault, unrestored;
      }
      if read.NoState? {
        return Finished(None), fault, unrestored;
      }
      var state := read.state;
      if !state.installed {
        return Finished(Some(state)), fault, unrestored;
      }
      if !MayUninstall(fs.files, setup, state) {
        return Denied, fault, unrestored;
      }
      var managed := ManagedPaths(setup, ActiveRoot(fs.files, setup, Some(state)), state);
      var snapshots := fs.TakeSnapshots(managed + [StateFile]);
      var ok := fs.RemoveAll(managed);
      if ok { ok := fs.Pass(); }
      if ok { ok := fs.Put(StateFile, StateRecord(UNINSTALLED)); }
      if !ok {
        fault := fs.ops - 1;
        var lost := fs.RollBack(snapshots);
        unrestored := lost;
        outcome := Failed;
      } else {
        outcome := Finished(Some(UNINSTALLED));
      }
    }
  }

  /** What a target lacks or holds modified. */
  datatype Reason = MissingResource(rel: string) | ModifiedResource(rel: string) | MissingManifest | ModifiedManifest

  predicate IsModification(r: Reason) {
    r.ModifiedResource? || r.ModifiedManifest?
  }

  predicate HasModification(reasons: seq<Reason>) {
    exists r :: r in reasons && IsModification(r)
  }

  lemma ReasonAdded(reasons: seq<Reason>, r: Reason)
    ensures HasModification(reasons + [r]) <==> HasModification(reasons) || IsModification(r)
  {
    assert r in reasons + [r] && forall x :: x in reasons ==> x in reasons + [r];
  }

  predicate AllIntact(files: Files, root: Root, resources: seq<Resource>) {
    forall r :: r in resources ==> At(root, r.rel) in files && !ResourceIsModified(files, root, r)
  }

  predicate SomeModified(files: Files, root: Root, resources: seq<Resource>) {
    exists r :: r in resources && ResourceIsModified(files, root, r)
  }

  lemma OneMoreResource(files: Files, root: Root, resources: seq<Resource>, r: Resource)
    ensures AllIntact(files, root, resources + [r])
      <==> AllIntact(files, root, resources) && At(root, r.rel) in files && !ResourceIsModified(files, root, r)
    ensures SomeModified(files, root, resources + [r]) <==> SomeModified(files, root, resources) || ResourceIsModified(files, root, r)
  {
    assert r in resources + [r] && forall x :: x in resources ==> x in resources + [r];
  }

  method OwnershipReasons(files: Files, root: Root, s: Setup, state: AdapterState) returns (reasons: seq<Reason>)
    ensures reasons == [] <==> IsIntact(files, root, s, state)
    ensures HasModification(reasons) <==> HasModified(files, root, s, state)
  {
    hide AllIntact, SomeModified, HasModification;
    reasons := [];
    NothingFound(files, root);
    assert state.resources[..0] == [];
    for i := 0 to |state.resources|
      invariant reasons == [] <==> AllIntact(files, root, state.resources[..i])
      invariant HasModification(reasons) <==> SomeModified(files, root, state.resources[..i])
    {
      var r := state.resources[i];
      assert state.resources[..i + 1] == state.resources[..i] + [r];
      OneMoreResource(files, root, state.resources[..i], r);
      if At(root, r.rel) !in files {
        ReasonAdded(reasons, MissingResource(r.rel));
        reasons := reasons + [MissingResource(r.rel)];
      } else if files[At(root, r.rel)] != r.installedDigest {
        ReasonAdded(reasons, ModifiedResource(r.rel));
        reasons := reasons + [ModifiedResource(r.rel)];
      }
    }
    assert state.resources[..|state.resources|] == state.resources;
    ResourcesAndManifest(files, root, s, state);
    if At(root, s.manifestRel) !in files {
      ReasonAdded(reasons, MissingManifest);
      reasons := reasons + [MissingManifest];
    } else if Some(files[At(root, s.manifestRel)]) != state.manifestDigest {
      ReasonAdded(reasons, ModifiedManifest);
      reasons := reasons + [ModifiedManifest];
    }
  }

  lemma NothingFound(files: Files, root: Root)
    ensures AllIntact(files, root, []) && !SomeModified(files, root, []) && !HasModification([])
  {
  }

  lemma ResourcesAndManifest(files: Files, root: Root, s: Setup, state: AdapterState)
    ensures IsIntact(files, root, s, state) <==>
      AllIntact(files, root, state.resources) && At(root, s.manifestRel) in files && !ManifestIsModified(files, root, s.manifestRel, state)
    ensures HasModified(files, root, s, state) <==>
      SomeModified(files, root, state.resources) || ManifestIsModified(files, root, s.manifestRel, state)
  {
  }

  method ClassifyHostAdapterTarget(files: Files, s: Setup, state: Option<AdapterState>) returns (c: Classification)
    ensures c == Classify(files, s, state)
  {
    hide IsIntact, HasModified;
    if state.None? || !state.value.installed || state.value.resources == [] {
      return NotInstalledTarget;
    }
    var current := OwnershipReasons(files, CurrentRoot, s, state.value);
    if current == [] {
      return CurrentClean;
    }
    if HasModification(current) || !s.hasLegacy {
      return CurrentConflict;
    }
    var legacy := OwnershipReasons(files, LegacyRoot, s, state.value);
    if legacy == [] {
      return LegacyClean;
    }
    c := if HasModification(legacy) then LegacyModified else LegacyAmbiguous;
  }

  method InspectHostAdapterOwnership(files: Files, s: Setup) returns (status: Option<Ownership>)
    ensures status == if ReadState(files).Unreadable? then None else Some(Inspect(files, s, StateOf(ReadState(files))))
  {
    var read := ReadState(files);
    if read.Unreadable? {
      return None;
    }
    var state := StateOf(read);
    if state.None? || !state.value.installed || state.value.resources == [] {
      return Some(if state.Some? then state.value.ownership else UnknownOwnership);
    }
    var c := ClassifyHostAdapterTarget(files, s, state);
    var binding := BindingOf(s, state);
    if binding in {Mismatched, Tampered} {
      return Some(Conflict);
    }
    var root := if c in {LegacyClean, LegacyModified, LegacyAmbiguous} then LegacyRoot else CurrentRoot;
    var reasons := OwnershipReasons(files, root, s, state.value);
    if HasModification(reasons) || c == LegacyAmbiguous {
      return Some(Conflict);
    }
    status := Some(if binding in {Unbound, BindingV1} || reasons != [] then StaleOwnership else Clean);
  }

  lemma OneWrite(files: Files, a: Write)
    ensures WithWrites(files, [a]) == files[a.path := a.content]
  {
    assert WithWrites(files, [a]) == WithWrites(files, [a][..0])[a.path := a.content];
  }

  lemma TwoWrites(files: Files, a: Write, b: Write)
    ensures WithWrites(files, [a, b]) == files[a.path := a.content][b.path := b.content]
  {
    assert [a, b][..1] == [a];
    assert WithWrites(files, [a]) == WithWrites(files, [a][..0])[a.path := a.content];
  }
}
