/** What every admitted install leaves behind, by whichever of the five routes, and concrete installs that end badly. */
module HostRoutes {
  import opened Basics
  import opened HostFiles
  import opened HostInstall
  import opened HostProperties

  /** An install off the full routes finds the package up to date: it settles the state record and the agent copies only. */
  lemma UpToDateRoute(files: Files, s: Setup)
    requires MayInstall(files, s) && !IsFullRoute(RouteFor(files, s))
    ensures RecordedState(files).Some? && IsUpToDate(files, s, RecordedState(files).value) && s.sources != []
    ensures StateAfterInstall(files, s) == InstalledState(s)
    ensures RouteFor(files, s) == RefreshAgents ==> files[StateFile] == StateRecord(InstalledState(s)) && StateFile in files
  {
    hide NoForeignFiles, FilesAdmit, Classify, HasModified, HasMissing;
  }

  lemma AgentWritesAreCopies(s: Setup, written: Bytes -> Bytes, p: Path)
    requires !p.AgentCopy?
    ensures p !in PathsIn(AgentWrites(s, written))
  {
    var agents := AgentWrites(s, written);
    assert forall i :: 0 <= i < |agents| ==> PathsIn(agents)[i].AgentCopy?;
  }

  lemma OtherPathsStay(files: Files, s: Setup, written: Bytes -> Bytes, p: Path)
    requires MayInstall(files, s) && !IsFullRoute(RouteFor(files, s)) && !p.AgentCopy?
    ensures Lookup(AfterInstall(files, s, written), p)
      == if p == StateFile then Some(StateRecord(InstalledState(s))) else Lookup(files, p)
  {
    UpToDateRoute(files, s);
    hide MayInstall, IsUpToDate, AgentWrites;
    AgentWritesAreCopies(s, written, p);
    WritesElsewhere(files, AgentWrites(s, written), p);
    if RouteFor(files, s) == UpgradeBinding {
      UpgradedFiles(files, s, written, RecordedState(files).value);
    }
  }

  lemma UpgradedFiles(files: Files, s: Setup, written: Bytes -> Bytes, state: AdapterState)
    ensures WithWrites(files, UpgradeWrites(s, written, state))
      == WithWrites(files, AgentWrites(s, written))[StateFile := StateRecord(Rebound(s, state))]
  {
    var all, agents := UpgradeWrites(s, written, state), AgentWrites(s, written);
    assert all[..|all| - 1] == agents;
  }

  /** After such an install the recorded installation is intact. */
  lemma IntactAfter(files: Files, s: Setup, written: Bytes -> Bytes)
    requires MayInstall(files, s) && !IsFullRoute(RouteFor(files, s))
    ensures var f, state := AfterInstall(files, s, written), Some(InstalledState(s));
      && RecordedState(f) == state && Classify(f, s, state) == CurrentClean && FilesAdmit(f, s, state)
      && Inspect(f, s, state) == Clean && InTarget(s.manifestRel) in f
  {
    var f, state, before := AfterInstall(files, s, written), Some(InstalledState(s)), RecordedState(files);
    UpToDateRoute(files, s);
    OtherPathsStay(files, s, written, StateFile);
    forall root, rel ensures Lookup(f, At(root, rel)) == Lookup(files, At(root, rel)) {
      OtherPathsStay(files, s, written, At(root, rel));
    }
    assert FilesAdmit(files, s, before);
    hide AfterInstall, MayInstall;
    SameAccount(files, s, before.value, state.value);
    SameTargets(files, f, s, state);
    hide FilesAdmit, HasModified, HasMissing;
    assert InTarget(s.manifestRel) in f by { assert Lookup(f, At(CurrentRoot, s.manifestRel)) == Lookup(files, At(CurrentRoot, s.manifestRel)); }
  }

  /** Two accounts of the same resources and manifest, both installed, are classified and admitted alike. */
  lemma SameAccount(files: Files, s: Setup, x: AdapterState, y: AdapterState)
    requires x.installed && y.installed && x.resources == y.resources && x.manifestDigest == y.manifestDigest
    ensures Classify(files, s, Some(x)) == Classify(files, s, Some(y)) && FilesAdmit(files, s, Some(x)) == FilesAdmit(files, s, Some(y))
  {
    assert forall root :: HasModified(files, root, s, x) == HasModified(files, root, s, y);
    assert forall root :: HasMissing(files, root, s, x) == HasMissing(files, root, s, y);
    hide HasModified, HasMissing;
    assert NoForeignFiles(files, s, Some(x)) == NoForeignFiles(files, s, Some(y));
    assert forall rel :: IsOwnOrAbsent(files, Some(x), rel) == IsOwnOrAbsent(files, Some(y), rel);
  }

  predicate KeepsWell(files: Files, s: Setup, written: Bytes -> Bytes) {
    IsFullRoute(RouteFor(files, s)) ==> IsFaithful(s, written)
  }

  /** After any admitted install the inspection is CLEAN, unless the install stored a package that does not survive storing:
      then it is a CONFLICT. */
  lemma InspectionAfterInstall(files: Files, s: Setup, written: Bytes -> Bytes)
    requires IsListing(s) && MayInstall(files, s) && KeepsManifestApart(s, RecordedState(files))
    ensures var f := AfterInstall(files, s, written);
      && RecordedState(f) == Some(InstalledState(s)) && StateAfterInstall(files, s) == InstalledState(s)
      && Inspect(f, s, RecordedState(f)) == if KeepsWell(files, s, written) then Clean else Conflict
  {
    hide AfterInstall, Inspect, RecordedState, IsFaithful;
    assert CountIsAllowed(s);
    hide MayInstall;
    if IsFullRoute(RouteFor(files, s)) {
      FullRouteHoldsInstallation(files, s, written);
      CleanExactlyWhenFaithful(AfterInstall(files, s, written), s, written);
      FullRouteState(files, s);
    } else {
      IntactAfter(files, s, written);
      UpToDateRoute(files, s);
    }
  }

  lemma FullRouteState(files: Files, s: Setup)
    requires IsFullRoute(RouteFor(files, s))
    ensures StateAfterInstall(files, s) == InstalledState(s)
  {
  }

  /** The install on record is this package, at this root: installing again only refreshes the agent copies. */
  lemma AgainRefreshes(f: Files, s: Setup, written: Bytes -> Bytes)
    requires RecordedState(f) == Some(InstalledState(s)) && s.sources != []
    requires Classify(f, s, Some(InstalledState(s))) == CurrentClean && InTarget(s.manifestRel) in f
    ensures RouteFor(f, s) == RefreshAgents && StateAfterInstall(f, s) == InstalledState(s)
    ensures AfterInstall(f, s, written) == WithWrites(f, AgentWrites(s, written))
    ensures forall p: Path :: !p.AgentCopy? ==> Lookup(AfterInstall(f, s, written), p) == Lookup(f, p)
  {
    hide Classify, AgentWrites, WithWrites;
    forall p: Path | !p.AgentCopy? ensures Lookup(AfterInstall(f, s, written), p) == Lookup(f, p) {
      AgentWritesAreCopies(s, written, p);
      WritesElsewhere(f, AgentWrites(s, written), p);
    }
  }

  /** Unless the first install only bound the adapter, its agent copies are those a refresh writes. */
  lemma CopiesAreFresh(files: Files, s: Setup, written: Bytes -> Bytes)
    requires IsListing(s) && MayInstall(files, s) && RouteFor(files, s) in {UpgradeBinding, RefreshAgents}
    ensures var f := AfterInstall(files, s, written); WithWrites(f, AgentWrites(s, written)) == f
  {
    UpToDateRoute(files, s);
    hide MayInstall, IsUpToDate, AgentWrites;
    var f, agents := AfterInstall(files, s, written), AgentWrites(s, written);
    AgentPathsAreDistinct(s, written);
    AgentWritesAreCopies(s, written, StateFile);
    if RouteFor(files, s) == UpgradeBinding {
      UpgradedFiles(files, s, written, RecordedState(files).value);
    }
    forall i | 0 <= i < |agents| ensures Lookup(f, agents[i].path) == Some(agents[i].content) {
      WrittenContent(files, agents, i);
      assert PathsIn(agents)[i] == agents[i].path;
    }
    RewritingChangesNothing(f, agents);
  }

  /** After any admitted install a second one is admitted exactly when the first kept the package well and, where it migrated,
      found no leftover. It then changes no host file and not the state, and nothing at all unless the first only bound the
      adapter: then it may still bring agent copies up to date. */
  lemma SecondInstallAfterInstall(files: Files, s: Setup, written: Bytes -> Bytes)
    requires IsListing(s) && MayInstall(files, s) && KeepsManifestApart(s, RecordedState(files)) && !IsReserved(s, s.manifestRel)
    ensures var f := AfterInstall(files, s, written);
      && (MayInstall(f, s) <==> KeepsWell(files, s, written) && (RouteFor(files, s) == MigrateLegacy ==> !HasLeftover(files, s)))
      && (MayInstall(f, s) ==>
            && StateAfterInstall(f, s) == InstalledState(s)
            && (forall p: Path :: !p.AgentCopy? ==> Lookup(AfterInstall(f, s, written), p) == Lookup(f, p))
            && (RouteFor(files, s) != BindOnly ==> AfterInstall(f, s, written) == f))
  {
    var f := AfterInstall(files, s, written);
    assert CountIsAllowed(s) && TargetIsAllowed(s);
    if IsFullRoute(RouteFor(files, s)) {
      hide AfterInstall, MayInstall, IsFaithful, NoForeignFiles, HasLeftover;
      FullRouteHoldsInstallation(files, s, written);
      NoForeignFilesAfter(files, s, written);
      SecondInstallChangesNothing(f, s, written);
    } else {
      AgainIsAdmitted(files, s, written);
      UpToDateRoute(files, s);
      hide AfterInstall, MayInstall, AgentWrites;
      IntactAfter(files, s, written);
      AgainRefreshes(f, s, written);
      if RouteFor(files, s) != BindOnly {
        CopiesAreFresh(files, s, written);
      }
    }
  }

  lemma AgainIsAdmitted(files: Files, s: Setup, written: Bytes -> Bytes)
    requires MayInstall(files, s) && !IsFullRoute(RouteFor(files, s))
    ensures MayInstall(AfterInstall(files, s, written), s)
  {
    IntactAfter(files, s, written);
    hide AfterInstall, FilesAdmit, Classify, Inspect;
  }

  /** And uninstalling is admitted exactly when the install kept the package well. */
  lemma UninstallAfterInstall(files: Files, s: Setup, written: Bytes -> Bytes)
    requires IsListing(s) && MayInstall(files, s) && KeepsManifestApart(s, RecordedState(files))
    ensures MayUninstall(AfterInstall(files, s, written), s, InstalledState(s)) <==> KeepsWell(files, s, written)
  {
    var f := AfterInstall(files, s, written);
    assert CountIsAllowed(s) && TargetIsAllowed(s);
    InstalledIsBound(s);
    hide AfterInstall, MayInstall, MayUninstall, IsFaithful, InstalledState, BindingOf, Classify, ActiveRoot, RouteOf, KeepsManifestApart,
      HoldsInstallation, FilesAdmit, Inspect;
    if IsFullRoute(RouteFor(files, s)) {
      FullRouteHoldsInstallation(files, s, written);
      UninstallIsAdmitted(f, s, written);
    } else {
      IntactAfter(files, s, written);
      IntactMayUninstall(f, s, InstalledState(s));
    }
  }

  lemma InstalledIsBound(s: Setup)
    ensures BindingOf(s, Some(InstalledState(s))) == Matching && InstalledState(s).ownership == Clean
  {
  }

  lemma IntactMayUninstall(f: Files, s: Setup, state: AdapterState)
    requires Classify(f, s, Some(state)) == CurrentClean && BindingOf(s, Some(state)) == Matching && state.ownership == Clean
    requires CurrentRoot !in s.localRoots
    ensures MayUninstall(f, s, state)
  {
  }

  /** Concrete installs. */

  /** Storing the byte 255 as UTF-8 text leaves the replacement character. */
  function Stored(b: Bytes): Bytes {
    if b == [255] then [239, 191, 189] else b
  }

  const SKILL := "skills/uads-orchestrator/SKILL.md"
  const MANIFEST := "skills/uads-managed-skill.json"

  const LATIN := Setup(AgentSkill, [Source("skill", SKILL, "", [255])], MANIFEST, "root", false, true, {})

  lemma LatinIsListed()
    ensures IsListing(LATIN) && !IsReserved(LATIN, MANIFEST) && !IsFaithful(LATIN, Stored)
  {
    assert SKILL != MANIFEST by { assert |SKILL| != |MANIFEST|; }
    assert MANIFEST[12] != "skills/uads-orchestrator/"[12];
    assert |Stored(LATIN.sources[0].bytes)| == 3 && |LATIN.sources[0].bytes| == 1;
  }

  /** A package whose skill file is not UTF-8: installed, it is in conflict, can be neither installed again nor uninstalled. */
  lemma UnfaithfulInstallIsStuck()
    ensures MayInstall(map[], LATIN)
    ensures var f := AfterInstall(map[], LATIN, Stored);
      && Inspect(f, LATIN, RecordedState(f)) == Conflict
      && !MayInstall(f, LATIN) && !MayUninstall(f, LATIN, InstalledState(LATIN))
  {
    LatinIsListed();
    assert MayInstall(map[], LATIN) && RouteFor(map[], LATIN) == FullInstall;
    hide MayInstall, AfterInstall, Inspect, MayUninstall, IsFaithful, IsReserved;
    InspectionAfterInstall(map[], LATIN, Stored);
    SecondInstallAfterInstall(map[], LATIN, Stored);
    UninstallAfterInstall(map[], LATIN, Stored);
  }

  /** The same package put in place byte by byte and recorded unbound: binding it ends CLEAN. */
  lemma UnfaithfulBindIsClean()
    ensures var files := map[
        InTarget(SKILL) := Raw([255]), InTarget(MANIFEST) := ManifestOf(LATIN), StateFile := StateRecord(InstalledState(LATIN).(binding := None))];
      && MayInstall(files, LATIN) && RouteFor(files, LATIN) == BindOnly
      && var f := AfterInstall(files, LATIN, Stored); Inspect(f, LATIN, RecordedState(f)) == Clean
  {
    var state := InstalledState(LATIN).(binding := None);
    var files: Files := map[InTarget(SKILL) := Raw([255]), InTarget(MANIFEST) := ManifestOf(LATIN), StateFile := StateRecord(state)];
    LatinIsListed();
    assert SKILL != MANIFEST by { assert |SKILL| != |MANIFEST|; }
    SkillInPlace(files, state);
    hide MayInstall, AfterInstall, Inspect, IsFaithful, IsReserved;
    InspectionAfterInstall(files, LATIN, Stored);
  }

  lemma SkillInPlace(files: Files, state: AdapterState)
    requires state == InstalledState(LATIN).(binding := None)
    requires InTarget(SKILL) in files && files[InTarget(SKILL)] == Raw([255])
    requires InTarget(MANIFEST) in files && files[InTarget(MANIFEST)] == ManifestOf(LATIN)
    requires StateFile in files && files[StateFile] == StateRecord(state)
    requires forall p :: p in files ==> p in {InTarget(SKILL), InTarget(MANIFEST), StateFile}
    ensures MayInstall(files, LATIN) && RouteFor(files, LATIN) == BindOnly && KeepsManifestApart(LATIN, RecordedState(files))
  {
    LatinIsListed();
    var r := Resource("skill", SKILL, Raw([255]), Raw([255]));
    assert state.resources == [r];
    assert PriorOf([r], SKILL) == Some(r);
    assert Rels(LATIN) == [SKILL];
    assert !HasModified(files, CurrentRoot, LATIN, state) && !HasMissing(files, CurrentRoot, LATIN, state);
  }

  const OLD := "skills/uads-orchestrator/OLD.md"

  const RENAMED := Setup(AgentSkill, [Source("skill", SKILL, "", [1])], MANIFEST, "root", true, true, {})

  const OLD_STATE := AdapterState(true, Clean, None, [Resource("old", OLD, Raw([2]), Raw([2]))], Some(Raw([3])))

  const WITH_LEFTOVER: Files := map[
    InLegacy(OLD) := Raw([2]), InLegacy(MANIFEST) := Raw([3]), InTarget(OLD) := Raw([2]), StateFile := StateRecord(OLD_STATE)]

  lemma NamesDiffer()
    ensures OLD != MANIFEST && OLD != SKILL && SKILL != MANIFEST
    ensures IsReserved(RENAMED, OLD) && !IsReserved(RENAMED, MANIFEST)
  {
    assert |OLD| != |SKILL|;
    assert MANIFEST[12] != "skills/uads-orchestrator/"[12] && MANIFEST[12] != SKILL[12] && MANIFEST[12] != OLD[12];
  }

  lemma LeftoverMigrates()
    ensures MayInstall(WITH_LEFTOVER, RENAMED) && RouteFor(WITH_LEFTOVER, RENAMED) == MigrateLegacy
    ensures HasLeftover(WITH_LEFTOVER, RENAMED) && KeepsManifestApart(RENAMED, RecordedState(WITH_LEFTOVER))
  {
    NamesDiffer();
    hide IsReserved;
    var r := Resource("old", OLD, Raw([2]), Raw([2]));
    var f := WITH_LEFTOVER;
    assert OLD_STATE.resources == [r] && PriorOf([r], OLD) == Some(r);
    assert Rels(RENAMED) == [SKILL];
    assert HasMissing(f, CurrentRoot, RENAMED, OLD_STATE) && !HasModified(f, CurrentRoot, RENAMED, OLD_STATE);
    assert !HasMissing(f, LegacyRoot, RENAMED, OLD_STATE) && !HasModified(f, LegacyRoot, RENAMED, OLD_STATE);
    assert Classify(f, RENAMED, Some(OLD_STATE)) == LegacyClean;
    hide HasMissing, HasModified;
    assert OwnershipAdmits(f, RENAMED, Some(OLD_STATE));
    assert NoForeignFiles(f, RENAMED, Some(OLD_STATE));
    assert FilesAdmit(f, RENAMED, Some(OLD_STATE));
    assert IsLeftover(f, RENAMED, r);
  }

  /** A migration that succeeds, leaves a file of the old package in the new target, and thereby bars the next install. */
  lemma MigrationLeftoverBarsInstall()
    ensures MayInstall(WITH_LEFTOVER, RENAMED) && RouteFor(WITH_LEFTOVER, RENAMED) == MigrateLegacy
    ensures !MayInstall(AfterInstall(WITH_LEFTOVER, RENAMED, Unchanged), RENAMED)
  {
    LeftoverMigrates();
    NamesDiffer();
    assert IsListing(RENAMED);
    hide MayInstall, AfterInstall, HasLeftover, IsReserved;
    SecondInstallAfterInstall(WITH_LEFTOVER, RENAMED, Unchanged);
  }
}
