/** When a cached PASS is still current: the recorded inputs against the live ones. */
module CacheValidity {
  import opened Basics
  import opened Gates
  import opened Records
  import opened CacheIntegrity

  datatype EdgeKind =
    | Imports | Requires | DynamicImport | InterfaceReference | TestOf
    | Configures | ManifestReference | OtherEdge

  datatype Edge = Edge(source: string, target: string, kind: EdgeKind)

  datatype TestRelation = TestRelation(source: string, test: string)

  datatype Bundle = Bundle(
    projectId: string, files: map<string, ContentDigest>, edges: seq<Edge>, tests: seq<TestRelation>,
    complete: bool, truncated: bool, stale: bool)

  /** A toolchain resolved to a producer and its exact version. */
  type ProvenTools = t: ToolIdentity | HasText(t.producerFamily) && HasText(t.producerVersion)
    witness ToolIdentity(Some("node"), Some("1"), map[])

  type CommandText = s: string | HasText(Some(s)) witness "v"

  /** Runs of blanks folded into one, none at the end. */
  function Folded(text: string): string {
    if text == "" then ""
    else
      var rest := Folded(text[1..]);
      if !IsBlank(text[0]) then [text[0]] + rest
      else if rest == "" || rest[0] == ' ' then rest
      else " " + rest
  }

  /** How a command is compared: folded, trimmed, and no command at all if nothing is left. */
  function NormalizeCommand(command: Option<string>): Option<string> {
    if command.None? then None
    else
      var folded := Folded(command.value);
      var trimmed := if folded != "" && folded[0] == ' ' then folded[1..] else folded;
      if trimmed == "" then None else Some(trimmed)
  }

  lemma {:induction false} FoldedShape(text: string)
    ensures forall i :: 0 <= i < |Folded(text)| && IsBlank(Folded(text)[i]) ==>
      Folded(text)[i] == ' ' && i + 1 < |Folded(text)| && !IsBlank(Folded(text)[i + 1])
    ensures HasInk(text) <==> Folded(text) != ""
  {
    if text == "" {
      assert Folded(text) == "";
    } else {
      FoldedShape(text[1..]);
    }
  }

  lemma {:induction false} ShapedIsFolded(text: string)
    requires forall i :: 0 <= i < |text| && IsBlank(text[i]) ==> text[i] == ' ' && i + 1 < |text| && !IsBlank(text[i + 1])
    ensures Folded(text) == text
  {
    if text == "" {
      assert Folded(text) == "";
    } else {
      ShapedIsFolded(text[1..]);
      assert text == [text[0]] + text[1..];
    }
  }

  /** Normalising again changes nothing, and only a command without ink normalises to none. */
  lemma NormalizingSettles(command: Option<string>)
    ensures NormalizeCommand(NormalizeCommand(command)) == NormalizeCommand(command)
    ensures NormalizeCommand(command).Some? <==> HasText(command)
  {
    if command.Some? {
      FoldedShape(command.value);
      if NormalizeCommand(command).Some? {
        ShapedIsFolded(NormalizeCommand(command).value);
      }
    }
  }

  /** Live inputs besides the index: derived commands by gate, provable toolchains by command, the platform. */
  datatype Env = Env(commands: map<Gate, CommandText>, toolchains: map<string, ProvenTools>, platform: string)

  const CACHE_POLICY := "uads.cache-policy:0.6.0:gate-contract-strict"

  const MANIFEST_PATHS := [
    "package.json", "package-lock.json", "npm-shrinkwrap.json", "pnpm-lock.yaml", "yarn.lock",
    "tsconfig.json", "tsconfig.build.json"]

  const CONFIG_FILE_NAMES := [
    "vitest.config.ts", "vitest.config.js", "vitest.config.mts", "jest.config.js", "jest.config.ts",
    "jest.config.mjs", "vite.config.ts", "vite.config.js", "webpack.config.js", "babel.config.js",
    "eslint.config.js", ".eslintrc.json", "foundry.toml", "hardhat.config.ts", "hardhat.config.js"]

  predicate EndsWith(text: string, suffix: string) {
    |suffix| <= |text| && text[|text| - |suffix|..] == suffix
  }

  predicate IsConfigPath(path: string) {
    exists name :: name in CONFIG_FILE_NAMES && (path == name || EndsWith(path, "/" + name))
  }

  predicate IndexIsReusable(b: Bundle) {
    b.complete && !b.truncated && !b.stale
  }

  predicate IsCommandGate(gate: Gate) {
    ContractOf(gate) in {None, Some(CommandContract)}
  }

  function CommandOf(gate: Gate, env: Env): Option<string> {
    if IsCommandGate(gate) && gate in env.commands then Some(env.commands[gate]) else None
  }

  function ContractFor(gate: Gate, env: Env): ContractIdentity {
    ContractIdentity(gate, CommandOf(gate, env))
  }

  predicate ContractIsProvable(gate: Gate, env: Env) {
    IsCommandGate(gate) ==> CommandOf(gate, env).Some?
  }

  predicate ToolchainIsProvable(gate: Gate, env: Env) {
    IsCommandGate(gate) ==> CommandOf(gate, env).Some? && CommandOf(gate, env).value in env.toolchains
  }

  const UNKNOWN_TOOLS := ToolIdentity(None, None, map[])

  function ToolsFor(gate: Gate, env: Env): ToolIdentity {
    var command := CommandOf(gate, env);
    if command.Some? && command.value in env.toolchains then env.toolchains[command.value] else UNKNOWN_TOOLS
  }

  function EnvironmentFor(gate: Gate, env: Env): Option<string> {
    if gate == IntegrationTest then None else Some(env.platform)
  }

  function ManifestDigests(b: Bundle): map<string, ContentDigest> {
    map p | p in b.files && p in MANIFEST_PATHS :: b.files[p]
  }

  function ConfigDigests(b: Bundle): map<string, ContentDigest> {
    map p | p in b.files && IsConfigPath(p) :: b.files[p]
  }

  /** The digests a proof over the live tree covers: recorded basis paths and live configuration files. */
  function LiveBasis(r: CacheRecord, b: Bundle): map<string, ContentDigest> {
    map p | p in b.files && (p in r.basisPaths || IsConfigPath(p)) :: b.files[p]
  }

  function ProofFor(projectId: string, gate: Gate, env: Env, basis: map<string, ContentDigest>, manifests: map<string, ContentDigest>): ReuseProof {
    ReuseProof(projectId, ContractFor(gate, env), CommandOf(gate, env), basis, manifests,
      ToolsFor(gate, env), EnvironmentFor(gate, env), CACHE_POLICY)
  }

  datatype Change =
    | ContractChanged | PolicyChanged | ToolsChanged | EnvironmentChanged
    | BasisChanged(path: string) | ManifestChanged(path: string) | ProofChanged

  predicate BasisDiffers(r: CacheRecord, b: Bundle, p: string) {
    if p in b.files then (if p in r.basis then r.basis[p] != b.files[p] else IsConfigPath(p))
    else p in r.basis && p in r.basisPaths
  }

  predicate MapsDiffer(x: map<string, ContentDigest>, y: map<string, ContentDigest>, p: string) {
    p in x.Keys + y.Keys && !(p in x && p in y && x[p] == y[p])
  }

  /** The validity inputs of a record that a live tree no longer matches. */
  ghost predicate HasChanged(r: CacheRecord, b: Bundle, env: Env, c: Change) {
    match c
    case ContractChanged => r.contract != ContractFor(r.gate, env)
    case PolicyChanged => r.policy != CACHE_POLICY
    case ToolsChanged => r.tools != ToolsFor(r.gate, env) || r.tools == UNKNOWN_TOOLS
    case EnvironmentChanged => r.environment != EnvironmentFor(r.gate, env)
    case BasisChanged(p) => (p in r.basisPaths || (p in b.files && IsConfigPath(p))) && BasisDiffers(r, b, p)
    case ManifestChanged(p) => MapsDiffer(r.manifests, ManifestDigests(b), p)
    case ProofChanged => r.proof != ProofFor(r.projectId, r.gate, env, LiveBasis(r, b), ManifestDigests(b))
  }

  ghost predicate IsCurrent(r: CacheRecord, b: Bundle, env: Env) {
    forall c :: !HasChanged(r, b, env, c)
  }

  /** Imperative comparison. */

  method CompareDigests(stored: map<string, ContentDigest>, live: map<string, ContentDigest>) returns (changed: set<Change>)
    ensures forall c :: c in changed <==> c.ManifestChanged? && MapsDiffer(stored, live, c.path)
  {
    changed := {};
    var todo := stored.Keys + live.Keys;
    while todo != {}
      invariant todo <= stored.Keys + live.Keys
      invariant forall c :: c in changed <==> c.ManifestChanged? && MapsDiffer(stored, live, c.path) && c.path !in todo
    {
      var p :| p in todo;
      if !(p in stored && p in live && stored[p] == live[p]) {
        changed := changed + {ManifestChanged(p)};
      }
      todo := todo - {p};
    }
  }

  method CompareCandidateValidity(r: CacheRecord, b: Bundle) returns (changed: set<Change>, live: map<string, ContentDigest>)
    ensures forall c :: c in changed <==>
      c.BasisChanged? && (c.path in r.basisPaths || (c.path in b.files && IsConfigPath(c.path))) && BasisDiffers(r, b, c.path)
    ensures live == LiveBasis(r, b)
  {
    changed, live := {}, map[];
    var configs := set p | p in b.files && IsConfigPath(p);
    var todo := r.basisPaths + configs;
    while todo != {}
      invariant todo <= r.basisPaths + configs
      invariant forall c :: c in changed <==>
        c.BasisChanged? && c.path in r.basisPaths + configs && c.path !in todo && BasisDiffers(r, b, c.path)
      invariant live == map p | p in b.files && p in r.basisPaths + configs && p !in todo :: b.files[p]
    {
      var p :| p in todo;
      if p !in b.files {
        if p in r.basis {
          changed := changed + {BasisChanged(p)};
        }
      } else {
        live := live[p := b.files[p]];
        if p in r.basis && r.basis[p] != b.files[p] {
          changed := changed + {BasisChanged(p)};
        }
        if p !in r.basis && p in configs {
          changed := changed + {BasisChanged(p)};
        }
      }
      todo := todo - {p};
    }
  }

  /** The changed inputs of a record already known to belong to the project and gate asked about. */
  method EvaluateCandidate(r: CacheRecord, b: Bundle, env: Env) returns (changed: set<Change>, proof: ReuseProof)
    ensures forall c :: c in changed <==> HasChanged(r, b, env, c)
    ensures proof == ProofFor(r.projectId, r.gate, env, LiveBasis(r, b), ManifestDigests(b))
  {
    hide BasisDiffers, MapsDiffer, LiveBasis, IsConfigPath, ProofFor, ContractFor, ToolsFor, EnvironmentFor, ManifestDigests;
    changed := {};
    if r.contract != ContractFor(r.gate, env) { changed := changed + {ContractChanged}; }
    if r.policy != CACHE_POLICY { changed := changed + {PolicyChanged}; }
    if r.tools != ToolsFor(r.gate, env) || r.tools == UNKNOWN_TOOLS { changed := changed + {ToolsChanged}; }
    if r.environment != EnvironmentFor(r.gate, env) { changed := changed + {EnvironmentChanged}; }
    var basis, live := CompareCandidateValidity(r, b);
    var manifests := CompareDigests(r.manifests, ManifestDigests(b));
    proof := ProofFor(r.projectId, r.gate, env, live, ManifestDigests(b));
    if r.proof != proof { changed := changed + {ProofChanged}; }
    changed := changed + basis + manifests;
  }
}
