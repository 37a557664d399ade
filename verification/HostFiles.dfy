/** A host adapter's files: who owns them and what an installation would write. */
module HostFiles {
  import opened Basics

  type Bytes = seq<bv8>

  /** The three places one adapter touches; the roots are taken not to overlap. */
  datatype Path = InTarget(rel: string) | InLegacy(rel: string) | AgentCopy(name: string) | StateFile

  datatype Root = CurrentRoot | LegacyRoot

  function At(root: Root, rel: string): Path {
    if root == CurrentRoot then InTarget(rel) else InLegacy(rel)
  }

  predicate IsHostPath(p: Path) {
    p.InTarget? || p.InLegacy?
  }

  /** A file's contents, which also stand for their digest. */
  datatype Content =
    | Raw(bytes: Bytes)
    | Manifest(files: seq<string>, digests: seq<(string, Content)>)
    | StateRecord(state: AdapterState)

  datatype Resource = Resource(sourceRef: string, rel: string, sourceDigest: Content, installedDigest: Content)

  datatype Ownership = Clean | Conflict | StaleOwnership | UnknownOwnership

  datatype BindingVersion = V1 | V2 | OtherVersion

  datatype Binding = Binding(root: string, version: BindingVersion)

  datatype AdapterState = AdapterState(
    installed: bool, ownership: Ownership, binding: Option<Binding>, resources: seq<Resource>, manifestDigest: Option<Content>)

  type Files = map<Path, Content>

  datatype Kind = Agents | AgentSkill

  datatype Source = Source(ref: string, rel: string, agent: string, bytes: Bytes)

  /** An adapter's packaged resources and the target they go to. `hasLegacy` marks adapters with a v0.1.0 layout, `rootIsUsable`
      a target root that is there or may be created, `localRoots` the roots that lie inside the project asked about. */
  datatype Setup = Setup(
    kind: Kind, sources: seq<Source>, manifestRel: string, root: string, hasLegacy: bool, rootIsUsable: bool, localRoots: set<Root>)

  const MAX_RESOURCES := 128

  predicate CountIsAllowed(s: Setup) {
    1 <= |s.sources| <= MAX_RESOURCES
  }

  predicate TargetIsAllowed(s: Setup) {
    s.rootIsUsable && CurrentRoot !in s.localRoots
  }

  /** What a directory listing of the package guarantees. */
  predicate IsListing(s: Setup) {
    && (forall i, j :: 0 <= i < j < |s.sources| ==> s.sources[i].rel != s.sources[j].rel && s.sources[i].agent != s.sources[j].agent)
    && (forall i :: 0 <= i < |s.sources| ==> s.sources[i].rel != s.manifestRel)
  }

  datatype StateRead = NoState | Unreadable | Stored(state: AdapterState)

  function ReadState(files: Files): StateRead {
    if StateFile !in files then NoState
    else match files[StateFile]
      case StateRecord(state) => Stored(state)
      case _ => Unreadable
  }

  function StateOf(read: StateRead): Option<AdapterState> {
    if read.Stored? then Some(read.state) else None
  }

  /** Ownership of what a state records, at one of the roots. */

  predicate ResourceIsModified(files: Files, root: Root, r: Resource) {
    At(root, r.rel) in files && files[At(root, r.rel)] != r.installedDigest
  }

  predicate ManifestIsModified(files: Files, root: Root, manifestRel: string, state: AdapterState) {
    At(root, manifestRel) in files && Some(files[At(root, manifestRel)]) != state.manifestDigest
  }

  predicate HasModified(files: Files, root: Root, s: Setup, state: AdapterState) {
    (exists r :: r in state.resources && ResourceIsModified(files, root, r)) || ManifestIsModified(files, root, s.manifestRel, state)
  }

  predicate HasMissing(files: Files, root: Root, s: Setup, state: AdapterState) {
    (exists r :: r in state.resources && At(root, r.rel) !in files) || At(root, s.manifestRel) !in files
  }

  predicate IsIntact(files: Files, root: Root, s: Setup, state: AdapterState) {
    !HasModified(files, root, s, state) && !HasMissing(files, root, s, state)
  }

  datatype Classification = NotInstalledTarget | CurrentClean | CurrentConflict | LegacyClean | LegacyModified | LegacyAmbiguous

  function Classify(files: Files, s: Setup, state: Option<AdapterState>): Classification {
    if state.None? || !state.value.installed || state.value.resources == [] then NotInstalledTarget
    else if IsIntact(files, CurrentRoot, s, state.value) then CurrentClean
    else if HasModified(files, CurrentRoot, s, state.value) || !s.hasLegacy then CurrentConflict
    else if IsIntact(files, LegacyRoot, s, state.value) then LegacyClean
    else if HasModified(files, LegacyRoot, s, state.value) then LegacyModified
    else LegacyAmbiguous
  }

  /** The root a recorded installation lives at. */
  function ActiveRoot(files: Files, s: Setup, state: Option<AdapterState>): Root {
    if Classify(files, s, state) in {LegacyClean, LegacyModified, LegacyAmbiguous} then LegacyRoot else CurrentRoot
  }

  datatype BindingStatus = Matching | BindingV1 | Unbound | Mismatched | Tampered | NothingBound

  function BindingOf(s: Setup, state: Option<AdapterState>): BindingStatus {
    if state.None? || !state.value.installed then NothingBound
    else match state.value.binding
      case None => Unbound
      case Some(b) =>
        if b.version == V1 then BindingV1
        else if b.version != V2 then Tampered
        else if b.root != s.root then Mismatched
        else Matching
  }

  /** The ownership an inspection reports. */
  function Inspect(files: Files, s: Setup, state: Option<AdapterState>): Ownership {
    if state.None? then UnknownOwnership
    else if !state.value.installed || state.value.resources == [] then state.value.ownership
    else if BindingOf(s, state) in {Mismatched, Tampered} then Conflict
    else
      var root := ActiveRoot(files, s, state);
      if HasModified(files, root, s, state.value) || Classify(files, s, state) == LegacyAmbiguous then Conflict
      else if BindingOf(s, state) in {Unbound, BindingV1} || HasMissing(files, root, s, state.value) then StaleOwnership
      else Clean
  }

  /** A stale installation may still be adopted when only its binding is out of date. */
  predicate MayAdopt(files: Files, s: Setup, state: AdapterState) {
    && state.resources != []
    && (|| BindingOf(s, Some(state)) == BindingV1
        || (BindingOf(s, Some(state)) == Unbound && !HasMissing(files, ActiveRoot(files, s, Some(state)), s, state)))
  }

  predicate StartsWith(text: string, prefix: string) {
    prefix <= text
  }

  predicate EndsWithMd(text: string) {
    |text| >= 3 && text[|text| - 3..] == ".md"
  }

  /** A file in the adapter's own name space: an agent file, or anything under the skill directory. */
  predicate IsReserved(s: Setup, rel: string) {
    match s.kind
    case Agents => StartsWith(rel, "agents/uads-") && EndsWithMd(rel) && '/' !in rel[7..] && rel != s.manifestRel
    case AgentSkill => StartsWith(rel, "skills/uads-orchestrator/")
  }

  function Rels(s: Setup): seq<string> {
    seq(|s.sources|, i requires 0 <= i < |s.sources| => s.sources[i].rel)
  }

  function PriorResources(state: Option<AdapterState>): seq<Resource> {
    if state.None? then [] else state.value.resources
  }

  /** The last record of a relative target wins, as in a map built from the list. */
  function PriorOf(resources: seq<Resource>, rel: string): Option<Resource> {
    if resources == [] then None
    else if resources[|resources| - 1].rel == rel then Some(resources[|resources| - 1])
    else PriorOf(resources[..|resources| - 1], rel)
  }

  /** The file at a managed target is exactly what the prior installation recorded there. */
  predicate IsOwnOrAbsent(files: Files, state: Option<AdapterState>, rel: string) {
    InTarget(rel) in files ==>
      PriorOf(PriorResources(state), rel).Some? && files[InTarget(rel)] == PriorOf(PriorResources(state), rel).value.installedDigest
  }

  predicate NoForeignFiles(files: Files, s: Setup, state: Option<AdapterState>) {
    forall p :: p in files && p.InTarget? && IsReserved(s, p.rel) ==>
      p.rel in Rels(s) || PriorOf(PriorResources(state), p.rel).Some?
  }

  predicate ManifestIsSafe(files: Files, root: Root, s: Setup, state: Option<AdapterState>) {
    At(root, s.manifestRel) in files ==> state.Some? && state.value.manifestDigest == Some(files[At(root, s.manifestRel)])
  }

  predicate HasVanished(files: Files, root: Root, s: Setup, state: Option<AdapterState>) {
    && state.Some? && state.value.installed && state.value.resources != []
    && At(root, s.manifestRel) !in files
    && forall r :: r in state.value.resources ==> At(root, r.rel) !in files
  }

  function ManifestRoot(files: Files, s: Setup, state: Option<AdapterState>): Root {
    if Classify(files, s, state) == LegacyClean then LegacyRoot else CurrentRoot
  }

  /** The recorded installation is in a state an install may build on. */
  predicate OwnershipAdmits(files: Files, s: Setup, state: Option<AdapterState>) {
    && Classify(files, s, state) !in {LegacyModified, LegacyAmbiguous}
    && BindingOf(s, state) !in {Mismatched, Tampered}
    && Inspect(files, s, state) != Conflict
    && (Inspect(files, s, state) == StaleOwnership && state.Some? ==> MayAdopt(files, s, state.value))
    && (state.Some? && state.value.ownership != Clean && state.value.installed ==> Inspect(files, s, state) == StaleOwnership)
  }

  /** No file an install would replace or remove belongs to somebody else. */
  predicate FilesAdmit(files: Files, s: Setup, state: Option<AdapterState>) {
    && NoForeignFiles(files, s, state)
    && ManifestIsSafe(files, ManifestRoot(files, s, state), s, state)
    && !HasVanished(files, ManifestRoot(files, s, state), s, state)
    && (forall rel :: rel in Rels(s) ==> IsOwnOrAbsent(files, state, rel))
    && (forall r :: r in PriorResources(state) && r.rel !in Rels(s) ==> IsOwnOrAbsent(files, state, r.rel))
  }

  predicate MayInstall(files: Files, s: Setup) {
    var read := ReadState(files);
    && CountIsAllowed(s) && TargetIsAllowed(s) && !read.Unreadable?
    && OwnershipAdmits(files, s, StateOf(read)) && FilesAdmit(files, s, StateOf(read))
  }

  /** What an installation writes. */

  datatype Write = Write(path: Path, content: Content)

  function WithWrites(files: Files, writes: seq<Write>): Files {
    if writes == [] then files
    else WithWrites(files, writes[..|writes| - 1])[writes[|writes| - 1].path := writes[|writes| - 1].content]
  }

  function Without(files: Files, paths: seq<Path>): Files {
    map p | p in files && p !in paths :: files[p]
  }

  /** `written` is what storing a byte string as UTF-8 text leaves on disk. */
  function AgentWrites(s: Setup, written: Bytes -> Bytes): seq<Write> {
    if s.kind == Agents then
      seq(|s.sources|, i requires 0 <= i < |s.sources| => Write(AgentCopy(s.sources[i].agent), Raw(written(s.sources[i].bytes))))
    else []
  }

  function ResourceWrites(s: Setup, written: Bytes -> Bytes): seq<Write> {
    seq(|s.sources|, i requires 0 <= i < |s.sources| => Write(InTarget(s.sources[i].rel), Raw(written(s.sources[i].bytes))))
  }

  /** Digests are taken of the source bytes, not of what was written. */
  function ResourcesOf(s: Setup): seq<Resource> {
    seq(|s.sources|, i requires 0 <= i < |s.sources| =>
      Resource(s.sources[i].ref, s.sources[i].rel, Raw(s.sources[i].bytes), Raw(s.sources[i].bytes)))
  }

  function ManifestOf(s: Setup): Content {
    Manifest(
      seq(|s.sources|, i requires 0 <= i < |s.sources| => if s.kind == Agents then s.sources[i].agent else s.sources[i].rel),
      seq(|s.sources|, i requires 0 <= i < |s.sources| => (s.sources[i].rel, Raw(s.sources[i].bytes))))
  }

  function InstalledState(s: Setup): AdapterState {
    AdapterState(true, Clean, Some(Binding(s.root, V2)), ResourcesOf(s), Some(ManifestOf(s)))
  }

  function ObsoletePaths(s: Setup, state: Option<AdapterState>): seq<Path> {
    var obsolete := Filter(PriorResources(state), (r: Resource) => r.rel !in Rels(s));
    seq(|obsolete|, i requires 0 <= i < |obsolete| => InTarget(obsolete[i].rel))
  }

  function RecordWrites(s: Setup): seq<Write> {
    [Write(InTarget(s.manifestRel), ManifestOf(s)), Write(StateFile, StateRecord(InstalledState(s)))]
  }

  function InstallWrites(s: Setup, written: Bytes -> Bytes): seq<Write> {
    AgentWrites(s, written) + ResourceWrites(s, written) + RecordWrites(s)
  }

  function InstalledFiles(files: Files, s: Setup, written: Bytes -> Bytes, removed: seq<Path>): Files {
    Without(WithWrites(files, InstallWrites(s, written)), removed)
  }

  function Rebound(s: Setup, state: AdapterState): AdapterState {
    state.(ownership := Clean, binding := Some(Binding(s.root, V2)))
  }

  function UpgradeWrites(s: Setup, written: Bytes -> Bytes, state: AdapterState): seq<Write> {
    AgentWrites(s, written) + [Write(StateFile, StateRecord(Rebound(s, state)))]
  }

  const UNINSTALLED := AdapterState(false, Clean, None, [], None)

  function ManagedPaths(s: Setup, root: Root, state: AdapterState): seq<Path> {
    seq(|state.resources|, i requires 0 <= i < |state.resources| => At(root, state.resources[i].rel)) + [At(root, s.manifestRel)]
  }

  function UninstalledFiles(files: Files, s: Setup, state: AdapterState): Files {
    Without(files, ManagedPaths(s, ActiveRoot(files, s, Some(state)), state))[StateFile := StateRecord(UNINSTALLED)]
  }

  predicate MayUninstall(files: Files, s: Setup, state: AdapterState) {
    var root := ActiveRoot(files, s, Some(state));
    && BindingOf(s, Some(state)) == Matching && state.ownership == Clean && root !in s.localRoots
    && ManifestIsSafe(files, root, s, Some(state))
    && forall r :: r in state.resources ==> !ResourceIsModified(files, root, r)
  }

  /** The installation on record is the one this package would make. */
  predicate IsUpToDate(files: Files, s: Setup, state: AdapterState) {
    && state.installed && state.ownership == Clean
    && Classify(files, s, Some(state)) == CurrentClean
    && InTarget(s.manifestRel) in files
    && state.manifestDigest == Some(ManifestOf(s)) && state.resources == ResourcesOf(s)
  }

  datatype Route = UpgradeBinding | MigrateLegacy | BindOnly | RefreshAgents | FullInstall

  function RouteOf(files: Files, s: Setup, state: Option<AdapterState>): Route {
    var v1 := state.Some? && state.value.installed && state.value.binding.Some? && state.value.binding.value.version == V1;
    if v1 && IsUpToDate(files, s, state.value) then UpgradeBinding
    else if Classify(files, s, state) == LegacyClean then MigrateLegacy
    else if !v1 && state.Some? && IsUpToDate(files, s, state.value) then
      if state.value.binding.None? then BindOnly else RefreshAgents
    else FullInstall
  }

  /** The files after an admitted installation, and the state it returns. */
  function AfterInstall(files: Files, s: Setup, written: Bytes -> Bytes): Files {
    var state := StateOf(ReadState(files));
    match RouteOf(files, s, state)
    case UpgradeBinding => WithWrites(files, UpgradeWrites(s, written, state.value))
    case MigrateLegacy => InstalledFiles(files, s, written, ManagedPaths(s, LegacyRoot, state.value))
    case BindOnly => files[StateFile := StateRecord(Rebound(s, state.value))]
    case RefreshAgents => WithWrites(files, AgentWrites(s, written))
    case FullInstall => InstalledFiles(files, s, written, ObsoletePaths(s, state))
  }

  function StateAfterInstall(files: Files, s: Setup): AdapterState {
    var state := StateOf(ReadState(files));
    match RouteOf(files, s, state)
    case UpgradeBinding => Rebound(s, state.value)
    case BindOnly => Rebound(s, state.value)
    case RefreshAgents => state.value
    case _ => InstalledState(s)
  }
}
