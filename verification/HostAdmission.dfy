/** When installing and uninstalling are refused, read off the files and the recorded state, and what uninstalling never takes. */
module HostAdmission {
  import opened Basics
  import opened HostFiles
  import opened HostInstall
  import opened HostProperties

  /** A recorded file is there with other contents. */
  predicate Differs(files: Files, root: Root, s: Setup, state: AdapterState) {
    || (exists i :: 0 <= i < |state.resources| && At(root, state.resources[i].rel) in files
          && files[At(root, state.resources[i].rel)] != state.resources[i].installedDigest)
    || (At(root, s.manifestRel) in files && Some(files[At(root, s.manifestRel)]) != state.manifestDigest)
  }

  /** Every recorded file is there as recorded. */
  predicate IsWhole(files: Files, root: Root, s: Setup, state: AdapterState) {
    && (forall i :: 0 <= i < |state.resources| ==>
          && At(root, state.resources[i].rel) in files
          && files[At(root, state.resources[i].rel)] == state.resources[i].installedDigest)
    && At(root, s.manifestRel) in files && Some(files[At(root, s.manifestRel)]) == state.manifestDigest
  }

  /** Something is on record as installed. */
  predicate HasRecord(state: AdapterState) {
    state.installed && |state.resources| > 0
  }

  /** The installation lives at the v0.1.0 target: something of it is missing from the current one, and nothing there differs. */
  predicate IsAtLegacy(files: Files, s: Setup, state: AdapterState) {
    HasRecord(state) && s.hasLegacy && !IsWhole(files, CurrentRoot, s, state) && !Differs(files, CurrentRoot, s, state)
  }

  lemma WholeMeans(files: Files, root: Root, s: Setup, state: AdapterState)
    ensures HasModified(files, root, s, state) <==> Differs(files, root, s, state)
    ensures IsIntact(files, root, s, state) <==> IsWhole(files, root, s, state)
  {
    var rs := state.resources;
    if HasModified(files, root, s, state) && !ManifestIsModified(files, root, s.manifestRel, state) {
      var r :| r in rs && ResourceIsModified(files, root, r);
      var i :| 0 <= i < |rs| && rs[i] == r;
    }
    if Differs(files, root, s, state) && !ManifestIsModified(files, root, s.manifestRel, state) {
      var i :| 0 <= i < |rs| && At(root, rs[i].rel) in files && files[At(root, rs[i].rel)] != rs[i].installedDigest;
      assert rs[i] in rs && ResourceIsModified(files, root, rs[i]);
    }
    if IsIntact(files, root, s, state) {
      forall i | 0 <= i < |rs| ensures At(root, rs[i].rel) in files && files[At(root, rs[i].rel)] == rs[i].installedDigest {
        assert rs[i] in rs && !ResourceIsModified(files, root, rs[i]);
      }
    }
    if IsWhole(files, root, s, state) {
      forall r | r in rs ensures At(root, r.rel) in files && !ResourceIsModified(files, root, r) {
        var i :| 0 <= i < |rs| && rs[i] == r;
      }
    }
  }

  /** Where the recorded installation is looked for. */
  lemma ActiveRootMeans(files: Files, s: Setup, state: AdapterState)
    ensures ActiveRoot(files, s, Some(state)) == if IsAtLegacy(files, s, state) then LegacyRoot else CurrentRoot
  {
    WholeMeans(files, CurrentRoot, s, state);
    WholeMeans(files, LegacyRoot, s, state);
    hide HasModified, IsIntact, Differs, IsWhole;
  }

  /** Uninstall. */

  /** Nothing stands where it must not, and what is there at the root is as recorded. */
  predicate IsRemovable(files: Files, s: Setup, state: AdapterState) {
    var root := if IsAtLegacy(files, s, state) then LegacyRoot else CurrentRoot;
    && state.installed && state.binding == Some(Binding(s.root, V2)) && state.ownership == Clean
    && root !in s.localRoots && !Differs(files, root, s, state)
  }

  /** An installation may be removed exactly when it is bound to this root, on record as clean, outside the project, and none of
      its files, the manifest among them, differs from its record. */
  lemma RemovableExactlyWhen(files: Files, s: Setup, state: AdapterState)
    ensures state.installed && MayUninstall(files, s, state) <==> IsRemovable(files, s, state)
  {
    var root := ActiveRoot(files, s, Some(state));
    ActiveRootMeans(files, s, state);
    WholeMeans(files, root, s, state);
    hide ActiveRoot, IsAtLegacy, Differs, IsWhole, IsIntact;
  }

  /** Uninstalling takes no host file whose contents differ from what the installation recorded there. */
  lemma UninstallKeepsForeignFiles(files: Files, s: Setup, state: AdapterState, p: Path)
    requires MayUninstall(files, s, state) && IsHostPath(p) && p in files && !IsRecorded(s, Some(state), p, files[p])
    ensures Lookup(UninstalledFiles(files, s, state), p) == Some(files[p])
  {
    var root := ActiveRoot(files, s, Some(state));
    var managed := ManagedPaths(s, root, state);
    hide ActiveRoot;
    forall i | 0 <= i < |managed| ensures managed[i] != p {
      assert i < |state.resources| ==> state.resources[i] in state.resources && managed[i] == At(root, state.resources[i].rel);
      assert i < |state.resources| && managed[i] in files ==> !ResourceIsModified(files, root, state.resources[i]);
      assert managed[i] in files ==> IsRecorded(s, Some(state), managed[i], files[managed[i]]);
    }
  }

  /** It takes every file of the installation, and no other path but the state record changes. */
  lemma UninstallTakesItsOwn(files: Files, s: Setup, state: AdapterState, p: Path)
    requires p != StateFile
    ensures var root := if IsAtLegacy(files, s, state) then LegacyRoot else CurrentRoot;
      var own := p == At(root, s.manifestRel) || exists i :: 0 <= i < |state.resources| && p == At(root, state.resources[i].rel);
      Lookup(UninstalledFiles(files, s, state), p) == if own then None else Lookup(files, p)
  {
    ActiveRootMeans(files, s, state);
    var root := ActiveRoot(files, s, Some(state));
    var managed := ManagedPaths(s, root, state);
    hide ActiveRoot, IsAtLegacy;
    if i :| 0 <= i < |state.resources| && p == At(root, state.resources[i].rel) { assert managed[i] == p; }
    assert managed[|managed| - 1] == At(root, s.manifestRel);
    if p in managed {
      var i :| 0 <= i < |managed| && managed[i] == p;
    }
  }

  /** Install. */

  /** Bound to this root, or by the older scheme, or to none at all: any other binding is refused. */
  predicate IsBoundHere(s: Setup, state: AdapterState) {
    state.binding == Some(Binding(s.root, V2))
  }

  predicate IsBoundOld(state: AdapterState) {
    state.binding.Some? && state.binding.value.version == V1
  }

  /** The files on record are all where they should be, at the current target or, missing there, at the v0.1.0 one. */
  predicate IsComplete(files: Files, s: Setup, state: AdapterState) {
    IsWhole(files, CurrentRoot, s, state) || (IsAtLegacy(files, s, state) && IsWhole(files, LegacyRoot, s, state))
  }

  /** What the account of an earlier installation must be for an install to build on it: without record, not in conflict or
      stale; with one, nothing changed behind its back, and all there unless it is bound by the older scheme. */
  predicate AccountAdmits(files: Files, s: Setup, state: AdapterState) {
    if !state.installed then state.ownership == Clean || state.ownership == UnknownOwnership
    else if |state.resources| == 0 then
      state.ownership == Clean && (state.binding == None || IsBoundHere(s, state) || IsBoundOld(state))
    else
      && !Differs(files, CurrentRoot, s, state)
      && (|| (IsBoundHere(s, state) && IsComplete(files, s, state) && state.ownership == Clean)
          || (state.binding == None && IsComplete(files, s, state))
          || (IsBoundOld(state) && (IsComplete(files, s, state) || !s.hasLegacy)))
  }

  lemma AccountMeans(files: Files, s: Setup, state: AdapterState)
    ensures OwnershipAdmits(files, s, Some(state)) <==> AccountAdmits(files, s, state)
  {
    WholeMeans(files, CurrentRoot, s, state);
    WholeMeans(files, LegacyRoot, s, state);
    assert IsIntact(files, CurrentRoot, s, state) ==> !HasModified(files, CurrentRoot, s, state);
    assert IsIntact(files, LegacyRoot, s, state) ==> !HasModified(files, LegacyRoot, s, state);
    assert forall root :: IsIntact(files, root, s, state) <==> !HasModified(files, root, s, state) && !HasMissing(files, root, s, state);
    hide HasModified, HasMissing, IsIntact, Differs, IsWhole;
  }

  /** A name the adapter keeps to itself: an agent file of its prefix directly in the agents directory, or anything in its
      skill directory. */
  predicate IsOwnName(s: Setup, rel: string) {
    match s.kind
    case Agents =>
      && |rel| >= 15 && rel[..12] == "agents/uads-" && rel[|rel| - 3..] == ".md" && rel != s.manifestRel
      && forall i :: 7 <= i < |rel| ==> rel[i] != '/'
    case AgentSkill => |rel| >= 25 && rel[..25] == "skills/uads-orchestrator/"
  }

  predicate IsListed(s: Setup, rel: string) {
    exists i :: 0 <= i < |s.sources| && s.sources[i].rel == rel
  }

  predicate IsOnRecord(state: Option<AdapterState>, rel: string) {
    state.Some? && exists i :: 0 <= i < |state.value.resources| && state.value.resources[i].rel == rel
  }

  /** The last record of the name has these contents. */
  predicate IsRecordedLast(state: Option<AdapterState>, rel: string, content: Content) {
    state.Some? && exists i :: 0 <= i < |state.value.resources| && IsLastOf(state.value.resources, i, rel) && state.value.resources[i].installedDigest == content
  }

  predicate IsLastOf(resources: seq<Resource>, i: nat, rel: string)
    requires i < |resources|
  {
    resources[i].rel == rel && forall j :: i < j < |resources| ==> resources[j].rel != rel
  }

  lemma {:induction false} PriorMeans(resources: seq<Resource>, rel: string)
    ensures var prior := PriorOf(resources, rel);
      && (prior.None? <==> forall i :: 0 <= i < |resources| ==> resources[i].rel != rel)
      && (prior.Some? ==> exists i :: 0 <= i < |resources| && IsLastOf(resources, i, rel) && resources[i] == prior.value)
  {
    if resources == [] {
    } else {
      var init, last := resources[..|resources| - 1], resources[|resources| - 1];
      PriorMeans(init, rel);
      assert forall i :: 0 <= i < |init| ==> resources[i] == init[i];
      if last.rel == rel {
        assert IsLastOf(resources, |resources| - 1, rel) && resources[|resources| - 1] == last;
      } else if PriorOf(init, rel).Some? {
        var i :| 0 <= i < |init| && IsLastOf(init, i, rel) && init[i] == PriorOf(init, rel).value;
        assert IsLastOf(resources, i, rel);
      }
    }
  }

  lemma OwnMeans(files: Files, state: Option<AdapterState>, rel: string)
    ensures IsOwnOrAbsent(files, state, rel) <==> (InTarget(rel) in files ==> IsRecordedLast(state, rel, files[InTarget(rel)]))
    ensures PriorOf(PriorResources(state), rel).Some? <==> IsOnRecord(state, rel)
  {
    PriorMeans(PriorResources(state), rel);
  }

  /** Nothing an install would overwrite, remove or sit beside belongs to somebody else: no unlisted, unrecorded file has a name
      of the adapter's own; the manifest is the recorded one; not all of the record is gone; and every listed or recorded
      target is absent or as last recorded. */
  predicate SurroundingsAdmit(files: Files, s: Setup, state: Option<AdapterState>) {
    var root := if state.Some? && IsAtLegacy(files, s, state.value) then LegacyRoot else CurrentRoot;
    && (forall p :: p in files && p.InTarget? && IsOwnName(s, p.rel) ==> IsListed(s, p.rel) || IsOnRecord(state, p.rel))
    && (At(root, s.manifestRel) in files ==> state.Some? && state.value.manifestDigest == Some(files[At(root, s.manifestRel)]))
    && (state.Some? && HasRecord(state.value) && At(root, s.manifestRel) !in files ==>
          exists i :: 0 <= i < |state.value.resources| && At(root, state.value.resources[i].rel) in files)
    && (forall p :: p in files && p.InTarget? && (IsListed(s, p.rel) || IsOnRecord(state, p.rel)) ==> IsRecordedLast(state, p.rel, files[p]))
  }

  lemma NameMeans(s: Setup, rel: string)
    ensures IsReserved(s, rel) <==> IsOwnName(s, rel)
    ensures rel in Rels(s) <==> IsListed(s, rel)
  {
    if IsListed(s, rel) {
      var i :| 0 <= i < |s.sources| && s.sources[i].rel == rel;
      assert Rels(s)[i] == rel;
    }
    assert |"agents/uads-"| == 12 && |"skills/uads-orchestrator/"| == 25;
    assert StartsWith(rel, "agents/uads-") <==> |rel| >= 12 && rel[..12] == "agents/uads-";
    assert StartsWith(rel, "skills/uads-orchestrator/") <==> |rel| >= 25 && rel[..25] == "skills/uads-orchestrator/";
    if |rel| >= 12 && rel[..12] == "agents/uads-" {
      assert rel[11] == '-';
      if |rel| < 15 {
        assert rel[|rel| - 3] == rel[..12][|rel| - 3] && rel[|rel| - 3] == rel[|rel| - 3..][0];
        assert "agents/uads-"[9] != '.' && "agents/uads-"[10] != '.' && "agents/uads-"[11] != '.';
      }
      assert '/' in rel[7..] <==> exists i :: 7 <= i < |rel| && rel[i] == '/' by {
        if i :| 7 <= i < |rel| && rel[i] == '/' { assert rel[7..][i - 7] == '/'; }
      }
    }
  }

  lemma SurroundingsMean(files: Files, s: Setup, state: Option<AdapterState>)
    requires state.Some? ==> OwnershipAdmits(files, s, state)
    ensures FilesAdmit(files, s, state) <==> SurroundingsAdmit(files, s, state)
  {
    var root := if state.Some? && IsAtLegacy(files, s, state.value) then LegacyRoot else CurrentRoot;
    assert ManifestRoot(files, s, state) == root by { ManifestRootMeans(files, s, state); }
    forall rel ensures IsReserved(s, rel) <==> IsOwnName(s, rel) ensures rel in Rels(s) <==> IsListed(s, rel) { NameMeans(s, rel); }
    forall rel ensures IsOwnOrAbsent(files, state, rel) <==> (InTarget(rel) in files ==> IsRecordedLast(state, rel, files[InTarget(rel)]))
      ensures PriorOf(PriorResources(state), rel).Some? <==> IsOnRecord(state, rel)
    {
      OwnMeans(files, state, rel);
    }
    VanishedMeans(files, root, s, state);
    TargetsMean(files, s, state);
    hide IsReserved, IsOwnName, Rels, IsListed, IsOwnOrAbsent, IsRecordedLast, IsOnRecord, ManifestRoot, IsAtLegacy, HasVanished, PriorOf,
      OwnershipAdmits;
    assert NoForeignFiles(files, s, state)
      <==> forall p :: p in files && p.InTarget? && IsOwnName(s, p.rel) ==> IsListed(s, p.rel) || IsOnRecord(state, p.rel);
    assert ManifestIsSafe(files, root, s, state)
      <==> (At(root, s.manifestRel) in files ==> state.Some? && state.value.manifestDigest == Some(files[At(root, s.manifestRel)]));
    hide NoForeignFiles, ManifestIsSafe;
  }

  lemma ManifestRootMeans(files: Files, s: Setup, state: Option<AdapterState>)
    requires state.Some? ==> OwnershipAdmits(files, s, state)
    ensures ManifestRoot(files, s, state) == if state.Some? && IsAtLegacy(files, s, state.value) then LegacyRoot else CurrentRoot
  {
    if state.Some? {
      WholeMeans(files, CurrentRoot, s, state.value);
      WholeMeans(files, LegacyRoot, s, state.value);
      hide HasModified, IsIntact, Differs, IsWhole, Inspect, MayAdopt;
    }
  }

  lemma VanishedMeans(files: Files, root: Root, s: Setup, state: Option<AdapterState>)
    ensures !HasVanished(files, root, s, state) <==>
      (state.Some? && HasRecord(state.value) && At(root, s.manifestRel) !in files ==>
         exists i :: 0 <= i < |state.value.resources| && At(root, state.value.resources[i].rel) in files)
  {
    if state.Some? {
      var rs := state.value.resources;
      if r :| r in rs && At(root, r.rel) in files {
        var i :| 0 <= i < |rs| && rs[i] == r;
        assert At(root, rs[i].rel) in files;
      }
    }
  }

  lemma TargetsMean(files: Files, s: Setup, state: Option<AdapterState>)
    ensures (forall rel :: rel in Rels(s) ==> IsOwnOrAbsent(files, state, rel))
        && (forall r :: r in PriorResources(state) && r.rel !in Rels(s) ==> IsOwnOrAbsent(files, state, r.rel))
      <==> forall p :: p in files && p.InTarget? && (IsListed(s, p.rel) || IsOnRecord(state, p.rel)) ==> IsRecordedLast(state, p.rel, files[p])
  {
    forall rel ensures rel in Rels(s) <==> IsListed(s, rel) { NameMeans(s, rel); }
    forall rel ensures IsOwnOrAbsent(files, state, rel) <==> (InTarget(rel) in files ==> IsRecordedLast(state, rel, files[InTarget(rel)])) {
      OwnMeans(files, state, rel);
    }
    assert forall rel :: IsOnRecord(state, rel) <==> exists r :: r in PriorResources(state) && r.rel == rel;
    hide IsOwnOrAbsent, IsRecordedLast, Rels, IsListed, IsOnRecord;
    if (forall rel :: rel in Rels(s) ==> IsOwnOrAbsent(files, state, rel))
      && (forall r :: r in PriorResources(state) && r.rel !in Rels(s) ==> IsOwnOrAbsent(files, state, r.rel))
    {
      forall p | p in files && p.InTarget? && (IsListed(s, p.rel) || IsOnRecord(state, p.rel)) ensures IsRecordedLast(state, p.rel, files[p]) {
        assert IsOwnOrAbsent(files, state, p.rel);
      }
    }
    if forall p :: p in files && p.InTarget? && (IsListed(s, p.rel) || IsOnRecord(state, p.rel)) ==> IsRecordedLast(state, p.rel, files[p]) {
      forall rel | IsListed(s, rel) || IsOnRecord(state, rel) ensures IsOwnOrAbsent(files, state, rel) {
        assert InTarget(rel) in files ==> IsRecordedLast(state, InTarget(rel).rel, files[InTarget(rel)]);
      }
    }
  }

  /** The record of an earlier installation can be read, if there is one. */
  predicate IsReadable(files: Files) {
    StateFile in files ==> files[StateFile].StateRecord?
  }

  /** An install is admitted exactly for one to 128 resources, a usable target root outside the project, a readable record, and
      an account and surroundings that admit it. */
  lemma InstallAdmittedExactlyWhen(files: Files, s: Setup)
    ensures MayInstall(files, s) <==>
      && 1 <= |s.sources| <= 128 && s.rootIsUsable && CurrentRoot !in s.localRoots && IsReadable(files)
      && (StateFile in files ==> AccountAdmits(files, s, files[StateFile].state))
      && SurroundingsAdmit(files, s, if StateFile in files then Some(files[StateFile].state) else None)
  {
    if StateFile in files && files[StateFile].StateRecord? {
      AccountMeans(files, s, files[StateFile].state);
      if OwnershipAdmits(files, s, Some(files[StateFile].state)) {
        SurroundingsMean(files, s, Some(files[StateFile].state));
      }
    } else if StateFile !in files {
      SurroundingsMean(files, s, None);
      NoAccount(files, s);
    }
    hide FilesAdmit, SurroundingsAdmit, OwnershipAdmits, AccountAdmits;
  }

  lemma NoAccount(files: Files, s: Setup)
    ensures OwnershipAdmits(files, s, None)
  {
  }

  /** The manifest tells the files apart by name and contents: equal manifests, equal listings. */
  lemma ManifestTellsPackages(s: Setup, other: Setup)
    ensures ManifestOf(s) == ManifestOf(other) ==>
      && |s.sources| == |other.sources|
      && forall i :: 0 <= i < |s.sources| ==> s.sources[i].rel == other.sources[i].rel && s.sources[i].bytes == other.sources[i].bytes
  {
    if ManifestOf(s) == ManifestOf(other) {
      var x, y := ManifestOf(s).digests, ManifestOf(other).digests;
      assert |x| == |s.sources| && |y| == |other.sources|;
      forall i | 0 <= i < |s.sources| ensures s.sources[i].rel == other.sources[i].rel && s.sources[i].bytes == other.sources[i].bytes {
        assert x[i] == (s.sources[i].rel, Raw(s.sources[i].bytes)) && y[i] == (other.sources[i].rel, Raw(other.sources[i].bytes));
      }
    }
  }

  /** After uninstalling nothing is installed and nothing on record, so that the next install is a fresh one. */
  lemma UninstalledIsFresh(files: Files, s: Setup, state: AdapterState)
    ensures IsFresh(UninstalledFiles(files, s, state))
    ensures AccountAdmits(UninstalledFiles(files, s, state), s, UNINSTALLED)
  {
  }

  /** A migration leaves nothing of the installation at the v0.1.0 target. */
  lemma MigrationClearsLegacy(files: Files, s: Setup, written: Bytes -> Bytes, p: Path)
    requires RouteFor(files, s) == MigrateLegacy && RecordedState(files).Some? && p.InLegacy?
    requires p.rel == s.manifestRel || IsOnRecord(RecordedState(files), p.rel)
    ensures p !in AfterInstall(files, s, written)
  {
    var state := RecordedState(files).value;
    var managed := ManagedPaths(s, LegacyRoot, state);
    assert managed[|managed| - 1] == At(LegacyRoot, s.manifestRel);
    if p.rel != s.manifestRel {
      var i :| 0 <= i < |state.resources| && state.resources[i].rel == p.rel;
      assert managed[i] == p;
    }
    hide RouteOf;
  }

  /** The package is on record as clean, whole at the current target, and as this package would record it. */
  predicate IsSamePackage(files: Files, s: Setup, state: Option<AdapterState>) {
    && state.Some? && HasRecord(state.value) && state.value.ownership == Clean && IsWhole(files, CurrentRoot, s, state.value)
    && state.value.resources == ResourcesOf(s) && state.value.manifestDigest == Some(ManifestOf(s))
  }

  /** The route an install takes: for the same package, upgrading an old binding, binding or refreshing; else a migration where the
      installation is whole at the v0.1.0 target; else a full install. */
  lemma RouteIsTakenExactlyWhen(files: Files, s: Setup, state: Option<AdapterState>)
    ensures var route := RouteOf(files, s, state);
      && (route == UpgradeBinding <==> IsSamePackage(files, s, state) && IsBoundOld(state.value))
      && (route == BindOnly <==> IsSamePackage(files, s, state) && state.value.binding == None)
      && (route == RefreshAgents <==> IsSamePackage(files, s, state) && state.value.binding.Some? && !IsBoundOld(state.value))
      && (route == MigrateLegacy <==> state.Some? && IsAtLegacy(files, s, state.value) && IsWhole(files, LegacyRoot, s, state.value))
  {
    if state.Some? {
      WholeMeans(files, CurrentRoot, s, state.value);
      WholeMeans(files, LegacyRoot, s, state.value);
      assert IsWhole(files, CurrentRoot, s, state.value) ==> At(CurrentRoot, s.manifestRel) in files;
      hide HasModified, IsIntact, Differs, IsWhole;
    }
  }
}
