/** Making a cache record from accepted evidence, and what a later HIT on it means. */
module CachePopulation {
  import opened Basics
  import opened Gates
  import opened Records
  import opened CacheIntegrity
  import opened CacheValidity

  predicate IsCodeEdge(e: Edge) {
    e.kind in {Imports, Requires, DynamicImport, InterfaceReference, TestOf}
  }

  predicate IsConfigureEdge(e: Edge) {
    e.kind in {Configures, ManifestReference}
  }

  function Across(e: Edge, from: set<string>): set<string> {
    (if e.source in from then {e.target} else {}) + (if e.target in from then {e.source} else {})
  }

  function AcrossTest(t: TestRelation, from: set<string>): set<string> {
    (if t.source in from then {t.test} else {}) + (if t.test in from then {t.source} else {})
  }

  /** The seeds and their direct neighbours in code and tests. */
  function CodeBasis(b: Bundle, seeds: set<string>): set<string> {
    seeds
    + (set e, p | e in b.edges && IsCodeEdge(e) && p in Across(e, seeds) :: p)
    + (set t, p | t in b.tests && p in AcrossTest(t, seeds) :: p)
  }

  /** Indexed files of the code basis, their configuration neighbours, and every configuration file. */
  function CacheBasis(b: Bundle, changed: set<string>): set<string> {
    var code := (set p | p in CodeBasis(b, changed + (set m | m in MANIFEST_PATHS)) && p in b.files);
    set p | p in b.files
      && (p in code || IsConfigPath(p) || exists e :: e in b.edges && IsConfigureEdge(e) && p in Across(e, code))
  }

  method BuildValidityBasis(b: Bundle, seeds: set<string>) returns (paths: set<string>)
    ensures paths == CodeBasis(b, seeds)
  {
    hide IsCodeEdge, Across, AcrossTest;
    paths := seeds;
    for i := 0 to |b.edges|
      invariant paths == seeds + (set e, p | e in b.edges[..i] && IsCodeEdge(e) && p in Across(e, seeds) :: p)
    {
      var e := b.edges[i];
      assert b.edges[..i + 1] == b.edges[..i] + [e];
      if IsCodeEdge(e) {
        paths := paths + Across(e, seeds);
      }
    }
    assert b.edges[..|b.edges|] == b.edges;
    ghost var byEdges := paths;
    for i := 0 to |b.tests|
      invariant paths == byEdges + (set t, p | t in b.tests[..i] && p in AcrossTest(t, seeds) :: p)
    {
      var t := b.tests[i];
      assert b.tests[..i + 1] == b.tests[..i] + [t];
      paths := paths + AcrossTest(t, seeds);
    }
    assert b.tests[..|b.tests|] == b.tests;
  }

  method ConfigureNeighbours(b: Bundle, code: set<string>) returns (extra: set<string>)
    ensures extra == set e, p | e in b.edges && IsConfigureEdge(e) && p in Across(e, code) :: p
  {
    hide IsConfigureEdge, Across;
    extra := {};
    for i := 0 to |b.edges|
      invariant extra == set e, p | e in b.edges[..i] && IsConfigureEdge(e) && p in Across(e, code) :: p
    {
      var e := b.edges[i];
      assert b.edges[..i + 1] == b.edges[..i] + [e];
      if IsConfigureEdge(e) {
        extra := extra + Across(e, code);
      }
    }
    assert b.edges[..|b.edges|] == b.edges;
  }

  method BuildCacheValidityBasis(b: Bundle, changed: set<string>) returns (digests: map<string, ContentDigest>)
    ensures digests == map p | p in CacheBasis(b, changed) :: b.files[p]
  {
    var seeds := changed + (set m | m in MANIFEST_PATHS);
    var reached := BuildValidityBasis(b, seeds);
    var code := set p | p in reached && p in b.files;
    var extra := ConfigureNeighbours(b, code);
    extra := extra + set p | p in b.files && IsConfigPath(p);
    var merged := set p | p in code + extra && p in b.files;
    assert merged == CacheBasis(b, changed) by { hide IsConfigPath, IsConfigureEdge, Across, CodeBasis; }
    digests := map p | p in merged :: b.files[p];
  }

  /** Evidence that may be cached: a proven PASS of an eligible gate, run by the command the contract derives. */
  predicate IsCacheable(projectId: string, e: Evidence, b: Bundle, env: Env) {
    && e.status == EvidencePass && e.projectId == projectId
    && IsCacheEligibleGate(e.gate)
    && (e.kind == CommandEvidence ==> Present(e.command) && Present(e.outputDigest) && e.exitCode == Some(0))
    && e.kind in GateDefOf(e.gate).value.kinds
    && IndexIsReusable(b) && b.projectId == projectId
    && (IsCommandGate(e.gate) ==>
          && NormalizeCommand(e.command).Some? && ContractIsProvable(e.gate, env) && NormalizeCommand(e.command) == CommandOf(e.gate, env)
          && ToolchainIsProvable(e.gate, env))
  }

  /** Records of one project and gate with the same output share an id, so the newest replaces the others. */
  function RecordId(projectId: string, gate: Gate, e: Evidence, now: Tick): string {
    projectId + ":" + GateText(gate) + ":"
    + (if e.outputDigest.Some? then e.outputDigest.value
       else if e.fileDigest.Some? then e.fileDigest.value
       else seq(now, _ => '.'))
  }

  function GateText(gate: Gate): string {
    match gate
    case Static => "static"
    case UnitTest => "unit-test"
    case ContractTest => "contract-test"
    case Build => "build"
    case Web3Unit => "web3-unit"
    case _ => "other"
  }

  function RecordOf(projectId: string, changed: set<string>, e: Evidence, b: Bundle, env: Env, now: Tick): CacheRecord {
    var basis := map p | p in CacheBasis(b, changed) :: b.files[p];
    CacheRecord(
      RecordId(projectId, e.gate, e, now), projectId, e.gate, e.evidenceId, e.kind, e.changeDigest, NormalizeCommand(e.command),
      ContractFor(e.gate, env), ProofFor(projectId, e.gate, env, basis, ManifestDigests(b)),
      ToolsFor(e.gate, env), EnvironmentFor(e.gate, env),
      basis.Keys, basis, ManifestDigests(b), CACHE_POLICY,
      e.outputDigest, e.fileDigest, now, true, true, Reusable)
  }

  /** A record's inputs are exactly those of the tree it was made from. */
  ghost predicate MadeFrom(r: CacheRecord, made: Bundle, madeEnv: Env) {
    && r.basisPaths == r.basis.Keys
    && (forall p :: p in r.basis ==> p in made.files && made.files[p] == r.basis[p])
    && (forall p :: p in ConfigDigests(made) ==> p in r.basis)
    && r.manifests == ManifestDigests(made)
    && r.contract == ContractFor(r.gate, madeEnv)
    && r.tools == ToolsFor(r.gate, madeEnv) && r.tools != UNKNOWN_TOOLS
    && r.environment == EnvironmentFor(r.gate, madeEnv)
    && r.policy == CACHE_POLICY
    && r.proof == ProofFor(r.projectId, r.gate, madeEnv, r.basis, r.manifests)
  }

  /** Populating yields such a record, and one that may be reused. */
  lemma PopulatedRecordsAreMadeFrom(projectId: string, changed: set<string>, e: Evidence, made: Bundle, madeEnv: Env, now: Tick)
    requires IsCacheable(projectId, e, made, madeEnv)
    ensures MadeFrom(RecordOf(projectId, changed, e, made, madeEnv, now), made, madeEnv)
    ensures HasText(e.outputDigest) ==> IsSemanticallyValid(RecordOf(projectId, changed, e, made, madeEnv, now))
  {
  }

  /** What the live inputs must share with the recorded ones. */
  ghost predicate InputsUnchanged(r: CacheRecord, made: Bundle, madeEnv: Env, b: Bundle, env: Env) {
    && (forall p :: p in r.basis ==> p in b.files && b.files[p] == r.basis[p])
    && ConfigDigests(b) == ConfigDigests(made)
    && ManifestDigests(b) == ManifestDigests(made)
    && ToolsFor(r.gate, env) == ToolsFor(r.gate, madeEnv)
    && EnvironmentFor(r.gate, env) == EnvironmentFor(r.gate, madeEnv)
    && ContractFor(r.gate, env) == ContractFor(r.gate, madeEnv)
  }

  /** A cached PASS is current exactly when the recorded inputs are unchanged. */
  lemma CurrentExactlyWhenUnchanged(r: CacheRecord, made: Bundle, madeEnv: Env, b: Bundle, env: Env)
    requires MadeFrom(r, made, madeEnv)
    ensures IsCurrent(r, b, env) <==> InputsUnchanged(r, made, madeEnv, b, env)
  {
    if IsCurrent(r, b, env) {
      assert !HasChanged(r, b, env, ContractChanged) && !HasChanged(r, b, env, ToolsChanged) && !HasChanged(r, b, env, EnvironmentChanged);
      CurrentFilesAreUnchanged(r, made, madeEnv, b, env);
      forall p ensures !MapsDiffer(r.manifests, ManifestDigests(b), p) {
        assert !HasChanged(r, b, env, ManifestChanged(p));
      }
      EqualWhenNothingDiffers(r.manifests, ManifestDigests(b));
    }
    if InputsUnchanged(r, made, madeEnv, b, env) {
      UnchangedImpliesCurrent(r, made, madeEnv, b, env);
    }
  }

  lemma CurrentFilesAreUnchanged(r: CacheRecord, made: Bundle, madeEnv: Env, b: Bundle, env: Env)
    requires MadeFrom(r, made, madeEnv) && IsCurrent(r, b, env)
    ensures forall p :: p in r.basis ==> p in b.files && b.files[p] == r.basis[p]
    ensures ConfigDigests(b) == ConfigDigests(made)
  {
    forall p | p in r.basis ensures p in b.files && b.files[p] == r.basis[p] {
      assert !HasChanged(r, b, env, BasisChanged(p));
    }
    forall p | p in ConfigDigests(b) ensures p in ConfigDigests(made) {
      assert !HasChanged(r, b, env, BasisChanged(p));
    }
  }

  lemma EqualWhenNothingDiffers(x: map<string, ContentDigest>, y: map<string, ContentDigest>)
    requires forall p :: !MapsDiffer(x, y, p)
    ensures x == y
  {
    forall p ensures p in x <==> p in y {
      assert !MapsDiffer(x, y, p);
    }
    forall p | p in x ensures x[p] == y[p] {
      assert !MapsDiffer(x, y, p);
    }
  }

  lemma UnchangedImpliesCurrent(r: CacheRecord, made: Bundle, madeEnv: Env, b: Bundle, env: Env)
    requires MadeFrom(r, made, madeEnv) && InputsUnchanged(r, made, madeEnv, b, env)
    ensures IsCurrent(r, b, env)
  {
    assert forall p :: p in b.files && IsConfigPath(p) ==> p in ConfigDigests(b);
    assert LiveBasis(r, b) == r.basis;
    forall c ensures !HasChanged(r, b, env, c) {
    }
  }

  /** Files outside the recorded basis, the configuration files and the manifests cannot affect reuse. */
  lemma OtherFilesDoNotMatter(r: CacheRecord, made: Bundle, madeEnv: Env, b: Bundle, b': Bundle, env: Env)
    requires MadeFrom(r, made, madeEnv)
    requires forall p :: p in r.basis || p in MANIFEST_PATHS || IsConfigPath(p) ==>
      (p in b.files <==> p in b'.files) && (p in b.files ==> b.files[p] == b'.files[p])
    ensures IsCurrent(r, b, env) <==> IsCurrent(r, b', env)
  {
    CurrentExactlyWhenUnchanged(r, made, madeEnv, b, env);
    CurrentExactlyWhenUnchanged(r, made, madeEnv, b', env);
    assert ConfigDigests(b) == ConfigDigests(b');
    assert ManifestDigests(b) == ManifestDigests(b');
  }
}
