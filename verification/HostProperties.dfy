/** What installing, installing again and uninstalling do to a host's files. */
module HostProperties {
  import opened Basics
  import opened HostFiles
  import opened HostInstall
  import opened HostAdapter

  /** Every packaged file survives being stored as UTF-8 text. */
  predicate IsFaithful(s: Setup, written: Bytes -> Bytes) {
    forall i :: 0 <= i < |s.sources| ==> written(s.sources[i].bytes) == s.sources[i].bytes
  }

  predicate ArePathsDistinct(writes: seq<Write>) {
    forall i, j :: 0 <= i < j < |writes| ==> writes[i].path != writes[j].path
  }

  lemma {:induction false} WrittenContent(files: Files, writes: seq<Write>, i: nat)
    requires ArePathsDistinct(writes) && i < |writes|
    ensures Lookup(WithWrites(files, writes), writes[i].path) == Some(writes[i].content)
  {
    if i == |writes| - 1 {
    } else {
      WrittenContent(files, writes[..|writes| - 1], i);
    }
  }

  /** Writing what is already there changes nothing. */
  lemma {:induction false} RewritingChangesNothing(files: Files, writes: seq<Write>)
    requires forall i :: 0 <= i < |writes| ==> Lookup(files, writes[i].path) == Some(writes[i].content)
    ensures WithWrites(files, writes) == files
  {
    if writes == [] {
    } else {
      RewritingChangesNothing(files, writes[..|writes| - 1]);
      assert Lookup(files, writes[|writes| - 1].path) == Some(writes[|writes| - 1].content);
    }
  }

  lemma InstallPathsAreDistinct(s: Setup, written: Bytes -> Bytes)
    requires IsListing(s)
    ensures ArePathsDistinct(InstallWrites(s, written))
  {
    var agents, resources := AgentWrites(s, written), ResourceWrites(s, written);
    forall i | 0 <= i < |agents| ensures agents[i].path.AgentCopy? && agents[i].path.name == s.sources[i].agent {}
    forall i | 0 <= i < |resources| ensures resources[i].path == InTarget(s.sources[i].rel) {}
  }

  /** The installed files, path by path. */
  lemma InstalledContents(files: Files, s: Setup, written: Bytes -> Bytes, removed: seq<Path>, i: nat)
    requires IsListing(s) && i < |s.sources|
    ensures var f := InstalledFiles(files, s, written, removed);
      && (InTarget(s.sources[i].rel) !in removed ==> Lookup(f, InTarget(s.sources[i].rel)) == Some(Raw(written(s.sources[i].bytes))))
      && (s.kind == Agents && AgentCopy(s.sources[i].agent) !in removed ==>
            Lookup(f, AgentCopy(s.sources[i].agent)) == Some(Raw(written(s.sources[i].bytes))))
  {
    var writes, agents := InstallWrites(s, written), AgentWrites(s, written);
    InstallPathsAreDistinct(s, written);
    WrittenContent(files, writes, |agents| + i);
    assert writes[|agents| + i] == ResourceWrites(s, written)[i];
    if s.kind == Agents {
      WrittenContent(files, writes, i);
      assert writes[i] == agents[i];
    }
  }

  lemma InstalledRecords(files: Files, s: Setup, written: Bytes -> Bytes, removed: seq<Path>)
    requires IsListing(s)
    ensures var f := InstalledFiles(files, s, written, removed);
      && (InTarget(s.manifestRel) !in removed ==> Lookup(f, InTarget(s.manifestRel)) == Some(ManifestOf(s)))
      && (StateFile !in removed ==> Lookup(f, StateFile) == Some(StateRecord(InstalledState(s))))
  {
    var writes := InstallWrites(s, written);
    var n := |AgentWrites(s, written)| + |s.sources|;
    InstallPathsAreDistinct(s, written);
    assert writes[n] == RecordWrites(s)[0] && writes[n + 1] == RecordWrites(s)[1];
    WrittenContent(files, writes, n);
    WrittenContent(files, writes, n + 1);
  }

  /** The paths an installation writes. */
  predicate IsWritten(s: Setup, p: Path) {
    match p
    case InTarget(rel) => rel in Rels(s) || rel == s.manifestRel
    case InLegacy(_) => false
    case AgentCopy(name) => s.kind == Agents && exists src :: src in s.sources && src.agent == name
    case StateFile => true
  }

  lemma WrittenPaths(s: Setup, written: Bytes -> Bytes, p: Path)
    ensures p in PathsIn(InstallWrites(s, written)) <==> IsWritten(s, p)
  {
    var writes, agents, resources := InstallWrites(s, written), AgentWrites(s, written), ResourceWrites(s, written);
    PathsInConcat(agents, resources);
    PathsInConcat(agents + resources, RecordWrites(s));
    assert PathsIn(RecordWrites(s)) == [InTarget(s.manifestRel), StateFile];
    assert PathsIn(resources) == seq(|s.sources|, i requires 0 <= i < |s.sources| => InTarget(s.sources[i].rel));
    if p.InTarget? && p.rel in Rels(s) {
      var i :| 0 <= i < |Rels(s)| && Rels(s)[i] == p.rel;
      assert PathsIn(resources)[i] == p;
    }
    if p.AgentCopy? && s.kind == Agents {
      if src :| src in s.sources && src.agent == p.name {
        var i :| 0 <= i < |s.sources| && s.sources[i] == src;
        assert PathsIn(agents)[i] == p;
      }
    }
    if p in PathsIn(agents) {
      var i :| 0 <= i < |PathsIn(agents)| && PathsIn(agents)[i] == p;
      assert s.sources[i] in s.sources;
    }
    if p in PathsIn(resources) {
      var i :| 0 <= i < |PathsIn(resources)| && PathsIn(resources)[i] == p;
      assert Rels(s)[i] == p.rel;
    }
  }

  lemma UntouchedPath(files: Files, s: Setup, written: Bytes -> Bytes, removed: seq<Path>, p: Path)
    requires !IsWritten(s, p)
    ensures Lookup(InstalledFiles(files, s, written, removed), p) == if p in removed then None else Lookup(files, p)
  {
    WrittenPaths(s, written, p);
    WritesElsewhere(files, InstallWrites(s, written), p);
  }

  function RecordedState(files: Files): Option<AdapterState> {
    StateOf(ReadState(files))
  }

  function RouteFor(files: Files, s: Setup): Route {
    RouteOf(files, s, RecordedState(files))
  }

  /** What the installation on record left at this path, by its own account. */
  predicate IsRecorded(s: Setup, state: Option<AdapterState>, p: Path, content: Content) {
    state.Some? &&
    match p
    case InTarget(rel) => (exists r :: r in state.value.resources && r.rel == rel && r.installedDigest == content)
      || (rel == s.manifestRel && state.value.manifestDigest == Some(content))
    case InLegacy(rel) => (exists r :: r in state.value.resources && r.rel == rel && r.installedDigest == content)
      || (rel == s.manifestRel && state.value.manifestDigest == Some(content))
    case _ => false
  }

  lemma {:induction false} PriorIsRecorded(resources: seq<Resource>, rel: string)
    ensures PriorOf(resources, rel).Some? ==> PriorOf(resources, rel).value in resources && PriorOf(resources, rel).value.rel == rel
    ensures PriorOf(resources, rel).None? <==> forall r :: r in resources ==> r.rel != rel
  {
    if resources == [] {
    } else {
      PriorIsRecorded(resources[..|resources| - 1], rel);
      assert resources == resources[..|resources| - 1] + [resources[|resources| - 1]];
    }
  }

  lemma ObsoleteIsOwn(files: Files, s: Setup, p: Path)
    requires MayInstall(files, s) && p in ObsoletePaths(s, RecordedState(files)) && p in files
    ensures IsRecorded(s, RecordedState(files), p, files[p]) && p.InTarget?
  {
    var state := RecordedState(files);
    var obsolete := Filter(PriorResources(state), (r: Resource) => r.rel !in Rels(s));
    var i :| 0 <= i < |obsolete| && ObsoletePaths(s, state)[i] == p;
    assert obsolete[i] in obsolete;
    PriorIsRecorded(PriorResources(state), p.rel);
    assert IsOwnOrAbsent(files, state, p.rel);
  }

  lemma TargetIsOwn(files: Files, s: Setup, rel: string)
    requires MayInstall(files, s) && InTarget(rel) in files && (rel in Rels(s) || rel == s.manifestRel)
    ensures IsRecorded(s, RecordedState(files), InTarget(rel), files[InTarget(rel)])
  {
    var state := RecordedState(files);
    PriorIsRecorded(PriorResources(state), rel);
    if rel !in Rels(s) {
      ManifestIsOwn(files, s);
    } else {
      assert IsOwnOrAbsent(files, state, rel);
    }
  }

  lemma ManifestIsOwn(files: Files, s: Setup)
    requires MayInstall(files, s) && InTarget(s.manifestRel) in files
    ensures RecordedState(files).Some? && RecordedState(files).value.manifestDigest == Some(files[InTarget(s.manifestRel)])
  {
    var state := RecordedState(files);
    if Classify(files, s, state) == LegacyClean {
      assert !ManifestIsModified(files, CurrentRoot, s.manifestRel, state.value);
    } else {
      assert ManifestIsSafe(files, CurrentRoot, s, state);
    }
  }

  lemma LegacyIsOwn(files: Files, s: Setup, p: Path)
    requires MayInstall(files, s) && RouteFor(files, s) == MigrateLegacy
    requires p in ManagedPaths(s, LegacyRoot, RecordedState(files).value)
    ensures p.InLegacy? && (p in files ==> IsRecorded(s, RecordedState(files), p, files[p]))
  {
    var state := RecordedState(files).value;
    var i :| 0 <= i < |ManagedPaths(s, LegacyRoot, state)| && ManagedPaths(s, LegacyRoot, state)[i] == p;
    assert IsIntact(files, LegacyRoot, s, state);
    if i < |state.resources| {
      assert state.resources[i] in state.resources;
      assert !ResourceIsModified(files, LegacyRoot, state.resources[i]);
    } else {
      assert !ManifestIsModified(files, LegacyRoot, s.manifestRel, state);
    }
  }

  function Removed(files: Files, s: Setup): seq<Path> {
    match RouteFor(files, s)
    case MigrateLegacy => ManagedPaths(s, LegacyRoot, RecordedState(files).value)
    case FullInstall => ObsoletePaths(s, RecordedState(files))
    case _ => []
  }

  /** An install touches managed targets, the manifest, the state record, agent copies and what the prior install left, nothing else. */
  lemma InstallTouchesOnlyItsOwn(files: Files, s: Setup, written: Bytes -> Bytes, p: Path)
    requires MayInstall(files, s) && !IsWritten(s, p) && p !in Removed(files, s)
    ensures Lookup(AfterInstall(files, s, written), p) == Lookup(files, p)
  {
    match RouteFor(files, s)
    case UpgradeBinding =>
      AgentPaths(s, written, p);
      var record := Write(StateFile, StateRecord(Rebound(s, RecordedState(files).value)));
      PathsInConcat(AgentWrites(s, written), [record]);
      assert PathsIn([record]) == [StateFile];
      WritesElsewhere(files, UpgradeWrites(s, written, RecordedState(files).value), p);
    case RefreshAgents =>
      AgentPaths(s, written, p);
      WritesElsewhere(files, AgentWrites(s, written), p);
    case BindOnly =>
    case MigrateLegacy => UntouchedPath(files, s, written, Removed(files, s), p);
    case FullInstall => UntouchedPath(files, s, written, Removed(files, s), p);
  }

  lemma AgentPaths(s: Setup, written: Bytes -> Bytes, p: Path)
    requires !IsWritten(s, p)
    ensures p !in PathsIn(AgentWrites(s, written))
  {
    WrittenPaths(s, written, p);
    PathsInConcat(AgentWrites(s, written), ResourceWrites(s, written));
    PathsInConcat(AgentWrites(s, written) + ResourceWrites(s, written), RecordWrites(s));
  }

  /** It never replaces or removes a host file whose contents differ from those the prior install recorded. */
  lemma ForeignHostFilesAreKept(files: Files, s: Setup, written: Bytes -> Bytes, p: Path)
    requires MayInstall(files, s) && IsHostPath(p) && p in files && !IsRecorded(s, RecordedState(files), p, files[p])
    ensures Lookup(AfterInstall(files, s, written), p) == Some(files[p])
  {
    if IsWritten(s, p) { TargetIsOwn(files, s, p.rel); }
    if p in Removed(files, s) {
      if RouteFor(files, s) == MigrateLegacy { LegacyIsOwn(files, s, p); } else { ObsoleteIsOwn(files, s, p); }
    }
    InstallTouchesOnlyItsOwn(files, s, written, p);
  }

  /** The install on record never listed the manifest among its resources; no listing does. */
  predicate KeepsManifestApart(s: Setup, state: Option<AdapterState>) {
    forall r :: r in PriorResources(state) ==> r.rel != s.manifestRel
  }

  predicate IsFullRoute(route: Route) {
    route in {FullInstall, MigrateLegacy}
  }

  /** Files holding exactly one installation of the package, each resource as stored. */
  predicate HoldsInstallation(f: Files, s: Setup, written: Bytes -> Bytes) {
    && (forall i :: 0 <= i < |s.sources| ==> Lookup(f, InTarget(s.sources[i].rel)) == Some(Raw(written(s.sources[i].bytes))))
    && (s.kind == Agents ==>
          forall i :: 0 <= i < |s.sources| ==> Lookup(f, AgentCopy(s.sources[i].agent)) == Some(Raw(written(s.sources[i].bytes))))
    && Lookup(f, InTarget(s.manifestRel)) == Some(ManifestOf(s))
    && Lookup(f, StateFile) == Some(StateRecord(InstalledState(s)))
  }

  lemma ObsoleteIsElsewhere(files: Files, s: Setup, p: Path)
    requires p in ObsoletePaths(s, RecordedState(files)) && KeepsManifestApart(s, RecordedState(files))
    ensures p.InTarget? && p.rel !in Rels(s) && p.rel != s.manifestRel
  {
    var obsolete := Filter(PriorResources(RecordedState(files)), (r: Resource) => r.rel !in Rels(s));
    var i :| 0 <= i < |obsolete| && ObsoletePaths(s, RecordedState(files))[i] == p;
    assert obsolete[i] in obsolete;
  }

  lemma FullRouteHoldsInstallation(files: Files, s: Setup, written: Bytes -> Bytes)
    requires IsListing(s) && MayInstall(files, s) && IsFullRoute(RouteFor(files, s)) && KeepsManifestApart(s, RecordedState(files))
    ensures HoldsInstallation(AfterInstall(files, s, written), s, written)
  {
    var removed := Removed(files, s);
    forall p | p in removed ensures p.InLegacy? || (p.InTarget? && p.rel !in Rels(s) && p.rel != s.manifestRel) {
      if RouteFor(files, s) == MigrateLegacy { LegacyIsOwn(files, s, p); } else { ObsoleteIsElsewhere(files, s, p); }
    }
    hide MayInstall, InstalledFiles, HasModified;
    assert AfterInstall(files, s, written) == InstalledFiles(files, s, written, removed);
    forall i | 0 <= i < |s.sources|
      ensures Lookup(AfterInstall(files, s, written), InTarget(s.sources[i].rel)) == Some(Raw(written(s.sources[i].bytes)))
      ensures s.kind == Agents ==> Lookup(AfterInstall(files, s, written), AgentCopy(s.sources[i].agent)) == Some(Raw(written(s.sources[i].bytes)))
    {
      assert Rels(s)[i] == s.sources[i].rel;
      InstalledContents(files, s, written, removed, i);
    }
    InstalledRecords(files, s, written, removed);
  }

  lemma IntactExactlyWhenFaithful(f: Files, s: Setup, written: Bytes -> Bytes)
    requires HoldsInstallation(f, s, written)
    ensures HasModified(f, CurrentRoot, s, InstalledState(s)) <==> !IsFaithful(s, written)
    ensures !HasMissing(f, CurrentRoot, s, InstalledState(s))
  {
    var resources := ResourcesOf(s);
    forall r | r in resources ensures At(CurrentRoot, r.rel) in f {
      var i :| 0 <= i < |resources| && resources[i] == r;
      assert Lookup(f, InTarget(s.sources[i].rel)).Some?;
    }
    if !IsFaithful(s, written) {
      var i :| 0 <= i < |s.sources| && written(s.sources[i].bytes) != s.sources[i].bytes;
      assert resources[i] in resources && Lookup(f, InTarget(s.sources[i].rel)) == Some(Raw(written(s.sources[i].bytes)));
      assert ResourceIsModified(f, CurrentRoot, resources[i]);
    } else {
      forall r | r in resources ensures !ResourceIsModified(f, CurrentRoot, r) {
        var i :| 0 <= i < |resources| && resources[i] == r;
        assert Lookup(f, InTarget(s.sources[i].rel)) == Some(Raw(written(s.sources[i].bytes)));
      }
    }
  }

  /** After an installation the inspection is CLEAN exactly when every packaged file survives storing as UTF-8 text;
      otherwise it is CONFLICT, because digests are taken of the source bytes. */
  lemma CleanExactlyWhenFaithful(f: Files, s: Setup, written: Bytes -> Bytes)
    requires CountIsAllowed(s) && HoldsInstallation(f, s, written)
    ensures RecordedState(f) == Some(InstalledState(s))
    ensures Inspect(f, s, RecordedState(f)) == if IsFaithful(s, written) then Clean else Conflict
  {
    IntactExactlyWhenFaithful(f, s, written);
    hide HasModified, HasMissing, IsFaithful;
    assert InstalledState(s).resources != [];
  }

  lemma {:induction false} PriorOfListing(s: Setup, k: nat, i: nat)
    requires IsListing(s) && i < k <= |s.sources|
    ensures PriorOf(ResourcesOf(s)[..k], s.sources[i].rel) == Some(ResourcesOf(s)[i])
  {
    if i == k - 1 {
    } else {
      assert ResourcesOf(s)[..k][..k - 1] == ResourcesOf(s)[..k - 1];
      PriorOfListing(s, k - 1, i);
    }
  }

  lemma OwnFilesAreAdmitted(f: Files, s: Setup, written: Bytes -> Bytes)
    requires IsListing(s) && HoldsInstallation(f, s, written) && IsFaithful(s, written)
    requires NoForeignFiles(f, s, Some(InstalledState(s))) && Classify(f, s, Some(InstalledState(s))) == CurrentClean
    ensures FilesAdmit(f, s, Some(InstalledState(s)))
  {
    var state := Some(InstalledState(s));
    var resources := ResourcesOf(s);
    assert resources[..|resources|] == resources;
    hide NoForeignFiles, Classify;
    forall rel | rel in Rels(s) ensures IsOwnOrAbsent(f, state, rel) {
      var i :| 0 <= i < |Rels(s)| && Rels(s)[i] == rel;
      PriorOfListing(s, |resources|, i);
      assert Lookup(f, InTarget(s.sources[i].rel)) == Some(Raw(written(s.sources[i].bytes)));
    }
    forall r | r in resources ensures r.rel in Rels(s) {
      var i :| 0 <= i < |resources| && resources[i] == r;
      assert Rels(s)[i] == r.rel;
    }
  }

  /** A second install is admitted exactly when the first left a clean inspection and no stray file in the adapter's name
      space; it then changes neither the state nor any file. */
  lemma SecondInstallChangesNothing(f: Files, s: Setup, written: Bytes -> Bytes)
    requires IsListing(s) && CountIsAllowed(s) && HoldsInstallation(f, s, written)
    ensures MayInstall(f, s) <==> TargetIsAllowed(s) && IsFaithful(s, written) && NoForeignFiles(f, s, Some(InstalledState(s)))
    ensures MayInstall(f, s) ==> AfterInstall(f, s, written) == f && StateAfterInstall(f, s) == InstalledState(s)
  {
    var state := InstalledState(s);
    CleanExactlyWhenFaithful(f, s, written);
    IntactExactlyWhenFaithful(f, s, written);
    hide HasModified, HasMissing, NoForeignFiles;
    assert state.resources != [];
    if IsFaithful(s, written) {
      assert Classify(f, s, Some(state)) == CurrentClean;
      if NoForeignFiles(f, s, Some(state)) {
        OwnFilesAreAdmitted(f, s, written);
      }
      RewritingAgents(f, s, written);
    }
  }

  lemma RewritingAgents(f: Files, s: Setup, written: Bytes -> Bytes)
    requires HoldsInstallation(f, s, written)
    ensures WithWrites(f, AgentWrites(s, written)) == f
  {
    forall i | 0 <= i < |AgentWrites(s, written)|
      ensures Lookup(f, AgentWrites(s, written)[i].path) == Some(AgentWrites(s, written)[i].content)
    {
      assert Lookup(f, AgentCopy(s.sources[i].agent)) == Some(Raw(written(s.sources[i].bytes)));
    }
    RewritingChangesNothing(f, AgentWrites(s, written));
  }

  lemma AgentPathsAreDistinct(s: Setup, written: Bytes -> Bytes)
    requires IsListing(s)
    ensures ArePathsDistinct(AgentWrites(s, written))
  {
    var agents := AgentWrites(s, written);
    forall i | 0 <= i < |agents| ensures agents[i].path.AgentCopy? && agents[i].path.name == s.sources[i].agent {}
  }

  /** A refresh of the agent copies that failed at its n-th write is not rolled back: the files are as before exactly when
      the copies already rewritten were up to date and the failing write left nothing else behind. */
  lemma FailedRefreshIsUndoneExactlyWhen(files: Files, s: Setup, written: Bytes -> Bytes, n: nat, fault: Fault)
    requires IsListing(s) && n < |AgentWrites(s, written)| && fault != Fine
    ensures var agents := AgentWrites(s, written);
      StoppedAt(files, agents, n, fault) == files <==>
        && (forall i :: 0 <= i < n ==> Lookup(files, agents[i].path) == Some(agents[i].content))
        && (fault.debris.Some? ==> Lookup(files, agents[n].path) == fault.debris)
  {
    hide AgentWrites;
    var agents := AgentWrites(s, written);
    AgentPathsAreDistinct(s, written);
    var done := agents[..n];
    var after := StoppedAt(files, agents, n, fault);
    forall i | 0 <= i < n ensures Lookup(after, agents[i].path) == Some(agents[i].content) {
      WrittenContent(files, done, i);
      assert done[i] == agents[i];
    }
    if forall i :: 0 <= i < n ==> Lookup(files, agents[i].path) == Some(agents[i].content) {
      RewritingChangesNothing(files, done);
    }
  }

  /** No failing write that leaves nothing behind changes a file, wherever it strikes, exactly when every agent copy but the
      last is up to date already. */
  lemma RefreshIsSafeExactlyWhen(files: Files, s: Setup, written: Bytes -> Bytes)
    requires IsListing(s)
    ensures var agents := AgentWrites(s, written);
      (forall n :: 0 <= n < |agents| ==> StoppedAt(files, agents, n, Throws(None)) == files)
      <==> forall i :: 0 <= i < |agents| - 1 ==> Lookup(files, agents[i].path) == Some(agents[i].content)
  {
    hide AgentWrites, StoppedAt;
    var agents := AgentWrites(s, written);
    forall n | 0 <= n < |agents|
      ensures StoppedAt(files, agents, n, Throws(None)) == files
        <==> forall i :: 0 <= i < n ==> Lookup(files, agents[i].path) == Some(agents[i].content)
    {
      FailedRefreshIsUndoneExactlyWhen(files, s, written, n, Throws(None));
    }
    if agents != [] && forall n :: 0 <= n < |agents| ==> StoppedAt(files, agents, n, Throws(None)) == files {
      assert StoppedAt(files, agents, |agents| - 1, Throws(None)) == files;
    }
  }

  /** An edited agent copy is nobody's resource: the next install is admitted and only refreshes. */
  lemma EditedCopyIsRefreshed(f: Files, s: Setup, written: Bytes -> Bytes, name: string, content: Content)
    requires IsListing(s) && HoldsInstallation(f, s, written) && MayInstall(f, s)
    ensures MayInstall(f[AgentCopy(name) := content], s)
    ensures RouteFor(f[AgentCopy(name) := content], s) == RefreshAgents
  {
    var g, state := f[AgentCopy(name) := content], Some(InstalledState(s));
    SecondInstallChangesNothing(f, s, written);
    assert forall root, rel :: Lookup(g, At(root, rel)) == Lookup(f, At(root, rel));
    SameTargets(f, g, s, state);
    IntactExactlyWhenFaithful(f, s, written);
    hide HasModified, HasMissing, NoForeignFiles;
  }

  /** Admission looks at the state record and the two roots only. */
  lemma SameTargets(f: Files, g: Files, s: Setup, state: Option<AdapterState>)
    requires forall root, rel :: Lookup(g, At(root, rel)) == Lookup(f, At(root, rel))
    ensures Classify(g, s, state) == Classify(f, s, state) && Inspect(g, s, state) == Inspect(f, s, state)
    ensures OwnershipAdmits(g, s, state) == OwnershipAdmits(f, s, state)
    ensures FilesAdmit(g, s, state) == FilesAdmit(f, s, state)
  {
    forall p: Path | IsHostPath(p) ensures Lookup(g, p) == Lookup(f, p) && (p in g <==> p in f) {
      match p
      case InTarget(rel) => assert p == At(CurrentRoot, rel);
      case InLegacy(rel) => assert p == At(LegacyRoot, rel);
    }
    if state.Some? {
      forall root ensures HasModified(g, root, s, state.value) == HasModified(f, root, s, state.value) {
        SameAtRoot(f, g, root, s, state.value);
      }
      forall root ensures HasMissing(g, root, s, state.value) == HasMissing(f, root, s, state.value) {
        SameAtRoot(f, g, root, s, state.value);
      }
    }
    hide HasModified, HasMissing;
    assert NoForeignFiles(g, s, state) == NoForeignFiles(f, s, state);
    forall rel ensures IsOwnOrAbsent(g, state, rel) == IsOwnOrAbsent(f, state, rel) {
      assert Lookup(g, InTarget(rel)) == Lookup(f, InTarget(rel));
    }
    hide NoForeignFiles, IsOwnOrAbsent;
  }

  lemma SameAtRoot(f: Files, g: Files, root: Root, s: Setup, state: AdapterState)
    requires forall rel :: Lookup(g, At(root, rel)) == Lookup(f, At(root, rel))
    ensures HasModified(g, root, s, state) == HasModified(f, root, s, state)
    ensures HasMissing(g, root, s, state) == HasMissing(f, root, s, state)
  {
  }

  const TWO_AGENTS := Setup(Agents, [Source("a", "a.md", "a", [1]), Source("b", "b.md", "b", [2])], "m", "r", false, true, {})

  function Unchanged(b: Bytes): Bytes {
    b
  }

  lemma TwoAgentsInstall()
    ensures IsListing(TWO_AGENTS) && HoldsInstallation(AfterInstall(map[], TWO_AGENTS, Unchanged), TWO_AGENTS, Unchanged)
    ensures MayInstall(AfterInstall(map[], TWO_AGENTS, Unchanged), TWO_AGENTS)
  {
    assert IsListing(TWO_AGENTS) && MayInstall(map[], TWO_AGENTS);
    FullRouteHoldsInstallation(map[], TWO_AGENTS, Unchanged);
    NoForeignFilesAfter(map[], TWO_AGENTS, Unchanged);
    SecondInstallChangesNothing(AfterInstall(map[], TWO_AGENTS, Unchanged), TWO_AGENTS, Unchanged);
  }

  /** A reinstall whose second agent copy cannot be written leaves the first, edited one rewritten. */
  lemma FailedRefreshMayLeaveACopyRewritten()
    ensures var files := AfterInstall(map[], TWO_AGENTS, Unchanged)[AgentCopy("a") := Raw([0])];
      && MayInstall(files, TWO_AGENTS) && RouteFor(files, TWO_AGENTS) == RefreshAgents
      && StoppedAt(files, AgentWrites(TWO_AGENTS, Unchanged), 1, Throws(None)) != files
  {
    var installed := AfterInstall(map[], TWO_AGENTS, Unchanged);
    TwoAgentsInstall();
    EditedCopyIsRefreshed(installed, TWO_AGENTS, Unchanged, "a", Raw([0]));
    hide AfterInstall, MayInstall, RouteFor, HoldsInstallation;
    var files := installed[AgentCopy("a") := Raw([0])];
    FailedRefreshIsUndoneExactlyWhen(files, TWO_AGENTS, Unchanged, 1, Throws(None));
    assert Lookup(files, AgentWrites(TWO_AGENTS, Unchanged)[0].path) == Some(Raw([0]));
  }

  /** Files of the prior install left in the target under a reserved name the package no longer uses. */
  predicate HasLeftover(files: Files, s: Setup) {
    exists r :: r in PriorResources(RecordedState(files)) && IsLeftover(files, s, r)
  }

  predicate IsLeftover(files: Files, s: Setup, r: Resource) {
    r.rel !in Rels(s) && r.rel != s.manifestRel && IsReserved(s, r.rel) && InTarget(r.rel) in files
  }

  lemma PriorOfOwn(s: Setup, rel: string)
    ensures PriorOf(ResourcesOf(s), rel).Some? <==> rel in Rels(s)
  {
    PriorIsRecorded(ResourcesOf(s), rel);
    if rel in Rels(s) {
      var i :| 0 <= i < |Rels(s)| && Rels(s)[i] == rel;
      assert ResourcesOf(s)[i] in ResourcesOf(s) && ResourcesOf(s)[i].rel == rel;
    }
    if PriorOf(ResourcesOf(s), rel).Some? {
      var r := PriorOf(ResourcesOf(s), rel).value;
      var i :| 0 <= i < |ResourcesOf(s)| && ResourcesOf(s)[i] == r;
      assert Rels(s)[i] == rel;
    }
  }

  /** Which reserved files remain in the target after a full install or a migration. */
  lemma ReservedAfter(files: Files, s: Setup, written: Bytes -> Bytes, rel: string)
    requires MayInstall(files, s) && IsFullRoute(RouteFor(files, s)) && rel !in Rels(s) && rel != s.manifestRel
    ensures InTarget(rel) in AfterInstall(files, s, written) <==> InTarget(rel) in files && InTarget(rel) !in Removed(files, s)
  {
    UntouchedPath(files, s, written, Removed(files, s), InTarget(rel));
  }

  lemma ObsoleteIsRemoved(files: Files, s: Setup, r: Resource)
    requires r in PriorResources(RecordedState(files)) && r.rel !in Rels(s)
    ensures InTarget(r.rel) in ObsoletePaths(s, RecordedState(files))
  {
    var obsolete := Filter(PriorResources(RecordedState(files)), (x: Resource) => x.rel !in Rels(s));
    var i :| 0 <= i < |obsolete| && obsolete[i] == r;
    assert ObsoletePaths(s, RecordedState(files))[i] == InTarget(r.rel);
  }

  /** A full install clears leftovers; a migration does not look for them in the current target, and one that is there
      makes the next install refuse. */
  lemma NoForeignFilesAfter(files: Files, s: Setup, written: Bytes -> Bytes)
    requires MayInstall(files, s) && IsFullRoute(RouteFor(files, s)) && !IsReserved(s, s.manifestRel)
    ensures NoForeignFiles(AfterInstall(files, s, written), s, Some(InstalledState(s)))
       <==> (RouteFor(files, s) == MigrateLegacy ==> !HasLeftover(files, s))
  {
    var f, state := AfterInstall(files, s, written), RecordedState(files);
    assert FilesAdmit(files, s, state);
    hide AfterInstall, MayInstall, FilesAdmit, RouteOf, IsReserved;
    forall p | p in f && p.InTarget? && IsReserved(s, p.rel) && p.rel !in Rels(s)
      ensures exists r :: r in PriorResources(state) && IsLeftover(files, s, r) && InTarget(r.rel) == p
      ensures RouteFor(files, s) == MigrateLegacy
    {
      ReservedAfter(files, s, written, p.rel);
      PriorIsRecorded(PriorResources(state), p.rel);
      var r := PriorOf(PriorResources(state), p.rel).value;
      assert IsLeftover(files, s, r);
      ObsoleteIsRemoved(files, s, r);
    }
    if RouteFor(files, s) == MigrateLegacy && HasLeftover(files, s) {
      var r :| r in PriorResources(state) && IsLeftover(files, s, r);
      ReservedAfter(files, s, written, r.rel);
      if InTarget(r.rel) in Removed(files, s) { LegacyIsOwn(files, s, InTarget(r.rel)); }
      PriorOfOwn(s, r.rel);
      assert InTarget(r.rel) in f;
    }
    forall rel ensures PriorOf(ResourcesOf(s), rel).Some? <==> rel in Rels(s) { PriorOfOwn(s, rel); }
  }

  /** Nothing installed, nothing recorded. */
  predicate IsFresh(files: Files) {
    var read := ReadState(files);
    read.NoState? || (read.Stored? && !read.state.installed && read.state.resources == [] && read.state.manifestDigest.None?)
  }

  lemma FreshTargetsAreAbsent(files: Files, s: Setup, p: Path)
    requires IsFresh(files) && MayInstall(files, s) && IsHostPath(p) && IsWritten(s, p)
    ensures p !in files
  {
    if p in files {
      TargetIsOwn(files, s, p.rel);
    }
  }

  lemma UninstallIsAdmitted(f: Files, s: Setup, written: Bytes -> Bytes)
    requires CountIsAllowed(s) && HoldsInstallation(f, s, written)
    ensures MayUninstall(f, s, InstalledState(s)) <==> IsFaithful(s, written) && CurrentRoot !in s.localRoots
    ensures ActiveRoot(f, s, Some(InstalledState(s))) == CurrentRoot
  {
    var state := InstalledState(s);
    assert state.resources != [];
    IntactExactlyWhenFaithful(f, s, written);
    assert !ManifestIsModified(f, CurrentRoot, s.manifestRel, state);
  }

  /** Uninstalling after a fresh install is admitted exactly when every packaged file survives storing as UTF-8 text,
      and then restores every host path. */
  lemma UninstallUndoesFreshInstall(files: Files, s: Setup, written: Bytes -> Bytes)
    requires IsListing(s) && IsFresh(files) && MayInstall(files, s)
    ensures var f, state := AfterInstall(files, s, written), InstalledState(s);
      && RecordedState(f) == Some(state) && (MayUninstall(f, s, state) <==> IsFaithful(s, written))
      && forall p :: IsHostPath(p) ==> Lookup(UninstalledFiles(f, s, state), p) == Lookup(files, p)
  {
    var f, state := AfterInstall(files, s, written), InstalledState(s);
    FreshRoute(files, s);
    FullRouteHoldsInstallation(files, s, written);
    CleanExactlyWhenFaithful(f, s, written);
    UninstallIsAdmitted(f, s, written);
    hide MayInstall, AfterInstall, MayUninstall, HoldsInstallation, IsFaithful;
    var managed := ManagedPaths(s, CurrentRoot, state);
    forall p | IsHostPath(p) ensures Lookup(UninstalledFiles(f, s, state), p) == Lookup(files, p) {
      ManagedPathsAreWritten(s, p);
      if IsWritten(s, p) {
        FreshTargetsAreAbsent(files, s, p);
      } else {
        InstallTouchesOnlyItsOwn(files, s, written, p);
      }
    }
  }

  lemma FreshRoute(files: Files, s: Setup)
    requires IsFresh(files) && MayInstall(files, s)
    ensures RouteFor(files, s) == FullInstall && Removed(files, s) == [] && KeepsManifestApart(s, RecordedState(files))
  {
  }

  lemma ManagedPathsAreWritten(s: Setup, p: Path)
    ensures p in ManagedPaths(s, CurrentRoot, InstalledState(s)) <==> p.InTarget? && IsWritten(s, p)
  {
    var managed := ManagedPaths(s, CurrentRoot, InstalledState(s));
    if p in managed {
      var i :| 0 <= i < |managed| && managed[i] == p;
      if i < |s.sources| { assert Rels(s)[i] == s.sources[i].rel; }
    }
    if p.InTarget? && IsWritten(s, p) {
      if p.rel in Rels(s) {
        var i :| 0 <= i < |Rels(s)| && Rels(s)[i] == p.rel;
        assert managed[i] == p;
      } else {
        assert managed[|s.sources|] == p;
      }
    }
  }
}
