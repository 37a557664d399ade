/** What the cache records, asks and answers, read off files, edges, commands and platform. */
module CacheReadings {
  import opened Basics
  import opened Gates
  import opened Records
  import opened CacheIntegrity
  import opened CacheValidity
  import opened CachePopulation
  import opened CacheStore
  import opened CacheSearch
  import opened CacheDecision
  import opened CacheRoundTrip

  predicate IsReusableGate(gate: Gate) {
    gate == Static || gate == UnitTest || gate == ContractTest || gate == Build || gate == Web3Unit
  }

  predicate IsManifestName(p: string) {
    p in {
      "package.json", "package-lock.json", "npm-shrinkwrap.json", "pnpm-lock.yaml", "yarn.lock", "tsconfig.json", "tsconfig.build.json"}
  }

  predicate IsConfigurationName(name: string) {
    name in {
      "vitest.config.ts", "vitest.config.js", "vitest.config.mts", "jest.config.js", "jest.config.ts", "jest.config.mjs",
      "vite.config.ts", "vite.config.js", "webpack.config.js", "babel.config.js", "eslint.config.js", ".eslintrc.json",
      "foundry.toml", "hardhat.config.ts", "hardhat.config.js"}
  }

  /** The name itself, or a path that ends in it after a slash. */
  predicate IsConfiguration(p: string) {
    IsConfigurationName(p) || exists i :: 0 <= i < |p| && p[i] == '/' && IsConfigurationName(p[i + 1..])
  }

  predicate IsSeed(changed: set<string>, p: string) {
    p in changed || IsManifestName(p)
  }

  predicate Joins(e: Edge, x: string, y: string) {
    (e.source == x && e.target == y) || (e.source == y && e.target == x)
  }

  /** An import of any form, an interface reference or a test joins the two, in either direction. */
  predicate AreJoinedInCode(b: Bundle, x: string, y: string) {
    || (exists e :: e in b.edges && Joins(e, x, y)
          && (e.kind == Imports || e.kind == Requires || e.kind == DynamicImport || e.kind == InterfaceReference || e.kind == TestOf))
    || (exists t :: t in b.tests && ((t.source == x && t.test == y) || (t.source == y && t.test == x)))
  }

  ghost predicate IsInCode(b: Bundle, changed: set<string>, p: string) {
    p in b.files && (IsSeed(changed, p) || exists x :: IsSeed(changed, x) && AreJoinedInCode(b, x, p))
  }

  predicate AreJoinedInConfiguration(b: Bundle, x: string, y: string) {
    exists e :: e in b.edges && Joins(e, x, y) && (e.kind == Configures || e.kind == ManifestReference)
  }

  /** The files a cached result for a change depends on. */
  ghost predicate IsInput(b: Bundle, changed: set<string>, p: string) {
    p in b.files
    && (IsInCode(b, changed, p) || IsConfiguration(p) || exists x :: IsInCode(b, changed, x) && AreJoinedInConfiguration(b, x, p))
  }

  lemma ManifestsAreNamed(p: string)
    ensures p in MANIFEST_PATHS <==> IsManifestName(p)
  {
    assert MANIFEST_PATHS[0] == "package.json" && MANIFEST_PATHS[1] == "package-lock.json" && MANIFEST_PATHS[2] == "npm-shrinkwrap.json";
    assert MANIFEST_PATHS[3] == "pnpm-lock.yaml" && MANIFEST_PATHS[4] == "yarn.lock" && MANIFEST_PATHS[5] == "tsconfig.json";
    assert MANIFEST_PATHS[6] == "tsconfig.build.json";
  }

  lemma ConfigurationsAreNamed(name: string)
    ensures name in CONFIG_FILE_NAMES <==> IsConfigurationName(name)
  {
    var all := CONFIG_FILE_NAMES;
    assert all[0] == "vitest.config.ts" && all[1] == "vitest.config.js" && all[2] == "vitest.config.mts" && all[3] == "jest.config.js";
    assert all[4] == "jest.config.ts" && all[5] == "jest.config.mjs" && all[6] == "vite.config.ts" && all[7] == "vite.config.js";
    assert all[8] == "webpack.config.js" && all[9] == "babel.config.js" && all[10] == "eslint.config.js" && all[11] == ".eslintrc.json";
    assert all[12] == "foundry.toml" && all[13] == "hardhat.config.ts" && all[14] == "hardhat.config.js";
  }

  lemma ConfigurationPathMeans(p: string)
    ensures IsConfigPath(p) <==> IsConfiguration(p)
  {
    hide IsConfigurationName;
    if IsConfigPath(p) {
      var name :| name in CONFIG_FILE_NAMES && (p == name || EndsWith(p, "/" + name));
      ConfigurationsAreNamed(name);
      if p != name {
        var i := |p| - |name| - 1;
        assert p[i..] == "/" + name && p[i] == '/' && p[i + 1..] == p[i..][1..] == name;
      }
    }
    if IsConfiguration(p) {
      if IsConfigurationName(p) {
        ConfigurationsAreNamed(p);
      } else {
        var i :| 0 <= i < |p| && p[i] == '/' && IsConfigurationName(p[i + 1..]);
        ConfigurationsAreNamed(p[i + 1..]);
        assert p[i..] == "/" + p[i + 1..];
        assert EndsWith(p, "/" + p[i + 1..]);
      }
    }
  }

  lemma CodeBasisMeans(b: Bundle, changed: set<string>, p: string)
    ensures p in CodeBasis(b, changed + (set m | m in MANIFEST_PATHS)) && p in b.files <==> IsInCode(b, changed, p)
  {
    var seeds := changed + (set m | m in MANIFEST_PATHS);
    forall x ensures x in seeds <==> IsSeed(changed, x) { ManifestsAreNamed(x); }
    hide IsSeed;
    forall e | e in b.edges ensures p in Across(e, seeds) <==> exists x :: IsSeed(changed, x) && Joins(e, x, p) {
      assert e.target == p ==> Joins(e, e.source, p);
      assert e.source == p ==> Joins(e, e.target, p);
    }
    if p in CodeBasis(b, seeds) && p !in seeds {
      if e :| e in b.edges && IsCodeEdge(e) && p in Across(e, seeds) {
        var x :| IsSeed(changed, x) && Joins(e, x, p);
        assert AreJoinedInCode(b, x, p);
      } else {
        var t :| t in b.tests && p in AcrossTest(t, seeds);
        var x := if t.test == p && t.source in seeds then t.source else t.test;
        assert AreJoinedInCode(b, x, p);
      }
    }
    if x :| IsSeed(changed, x) && AreJoinedInCode(b, x, p) {
      if e :| e in b.edges && Joins(e, x, p) && IsCodeEdge(e) {
        assert p in Across(e, seeds);
      } else {
        var t :| t in b.tests && ((t.source == x && t.test == p) || (t.source == p && t.test == x));
        assert p in AcrossTest(t, seeds);
      }
    }
  }

  lemma BasisMeans(b: Bundle, changed: set<string>, p: string)
    ensures p in CacheBasis(b, changed) <==> IsInput(b, changed, p)
  {
    forall x { CodeBasisMeans(b, changed, x); }
    ConfigurationPathMeans(p);
    hide CodeBasis, IsInCode, IsConfigPath, IsConfiguration;
    var code := set x | x in CodeBasis(b, changed + (set m | m in MANIFEST_PATHS)) && x in b.files;
    assert forall x :: x in code <==> IsInCode(b, changed, x);
    if e :| e in b.edges && IsConfigureEdge(e) && p in Across(e, code) {
      var x := if e.target == p && e.source in code then e.source else e.target;
      assert Joins(e, x, p) && AreJoinedInConfiguration(b, x, p);
    }
    if x :| IsInCode(b, changed, x) && AreJoinedInConfiguration(b, x, p) {
      var e :| e in b.edges && Joins(e, x, p) && (e.kind == Configures || e.kind == ManifestReference);
      assert IsConfigureEdge(e) && p in Across(e, code);
    }
  }

  /** A populated record covers exactly the inputs of the change, with the digests of the tree it was made from. */
  lemma PopulatedBasisIsTheInputs(projectId: string, changed: set<string>, e: Evidence, made: Bundle, madeEnv: Env, now: Tick, p: string)
    ensures var r := RecordOf(projectId, changed, e, made, madeEnv, now);
      && (p in r.basisPaths <==> IsInput(made, changed, p))
      && (p in r.basis <==> IsInput(made, changed, p))
      && (p in r.basis ==> r.basis[p] == made.files[p])
      && (p in r.manifests <==> p in made.files && IsManifestName(p))
      && (p in r.manifests ==> r.manifests[p] == made.files[p])
  {
    BasisMeans(made, changed, p);
    ManifestsAreNamed(p);
    hide CacheBasis, IsInput;
  }

  /** What may be cached: a PASS of the project for one of five gates, by a command that exited with 0 and is, blanks aside, the
      one derived for the gate, with a known toolchain, against a whole and fresh index of the project. */
  predicate IsWorthCaching(projectId: string, e: Evidence, b: Bundle, env: Env) {
    && e.status == EvidencePass && e.projectId == projectId && IsReusableGate(e.gate) && e.kind == CommandEvidence
    && e.exitCode == Some(0) && e.outputDigest.Some? && e.outputDigest != Some("")
    && b.complete && !b.truncated && !b.stale && b.projectId == projectId
    && e.gate in env.commands && NormalizeCommand(e.command) == Some(env.commands[e.gate]) && env.commands[e.gate] in env.toolchains
  }

  lemma CacheableExactlyWhen(projectId: string, e: Evidence, b: Bundle, env: Env)
    ensures IsCacheable(projectId, e, b, env) <==> IsWorthCaching(projectId, e, b, env)
  {
    NormalizingSettles(e.command);
    HasTextIsPresent(e.command);
    hide Folded, NormalizeCommand;
  }

  /** Both trees hold the path, with one digest, or neither does. */
  predicate IsSameIn(x: Bundle, y: Bundle, p: string) {
    (p in x.files <==> p in y.files) && (p in x.files ==> x.files[p] == y.files[p])
  }

  /** Nothing a cached result depends on has changed. */
  ghost predicate NothingChanged(changed: set<string>, gate: Gate, made: Bundle, madeEnv: Env, b: Bundle, env: Env) {
    && KeepsInputs(changed, made, b)
    && gate in madeEnv.commands && gate in env.commands && env.commands[gate] == madeEnv.commands[gate]
    && env.commands[gate] in madeEnv.toolchains && env.commands[gate] in env.toolchains
    && env.toolchains[env.commands[gate]] == madeEnv.toolchains[env.commands[gate]]
    && env.platform == madeEnv.platform
  }

  ghost predicate KeepsFiles(r: CacheRecord, made: Bundle, b: Bundle) {
    && (forall p :: p in r.basis ==> p in b.files && b.files[p] == r.basis[p])
    && ConfigDigests(b) == ConfigDigests(made) && ManifestDigests(b) == ManifestDigests(made)
  }

  ghost predicate KeepsInputs(changed: set<string>, made: Bundle, b: Bundle) {
    forall p :: IsInput(made, changed, p) || IsConfiguration(p) || IsManifestName(p) ==> IsSameIn(made, b, p)
  }

  lemma DigestsMean(b: Bundle, p: string)
    ensures p in ConfigDigests(b) <==> p in b.files && IsConfiguration(p)
    ensures p in ManifestDigests(b) <==> p in b.files && IsManifestName(p)
    ensures p in ConfigDigests(b) ==> ConfigDigests(b)[p] == b.files[p]
    ensures p in ManifestDigests(b) ==> ManifestDigests(b)[p] == b.files[p]
  {
    ConfigurationPathMeans(p);
    ManifestsAreNamed(p);
    hide IsConfigPath, IsConfiguration, IsManifestName;
  }

  lemma KeptFilesAreInputs(r: CacheRecord, changed: set<string>, made: Bundle, b: Bundle)
    requires forall p :: (p in r.basis <==> IsInput(made, changed, p)) && (p in r.basis ==> r.basis[p] == made.files[p])
    requires KeepsFiles(r, made, b)
    ensures KeepsInputs(changed, made, b)
  {
    hide IsConfiguration, IsManifestName, ConfigDigests, ManifestDigests;
    forall p | IsInput(made, changed, p) || IsConfiguration(p) || IsManifestName(p) ensures IsSameIn(made, b, p) {
      DigestsMean(made, p);
      DigestsMean(b, p);
      if IsInput(made, changed, p) { assert p in r.basis && p in made.files; }
    }
  }

  lemma KeptInputsAreFiles(r: CacheRecord, changed: set<string>, made: Bundle, b: Bundle)
    requires forall p :: (p in r.basis <==> IsInput(made, changed, p)) && (p in r.basis ==> r.basis[p] == made.files[p])
    requires KeepsInputs(changed, made, b)
    ensures KeepsFiles(r, made, b)
  {
    hide IsConfiguration, IsManifestName, ConfigDigests, ManifestDigests;
    forall p | p in r.basis ensures p in b.files && b.files[p] == r.basis[p] {
      assert IsSameIn(made, b, p) && p in made.files;
    }
    forall p ensures p in ConfigDigests(b) <==> p in ConfigDigests(made) ensures p in ConfigDigests(b) ==> ConfigDigests(b)[p] == ConfigDigests(made)[p] {
      DigestsMean(made, p);
      DigestsMean(b, p);
      assert IsConfiguration(p) ==> IsSameIn(made, b, p);
    }
    forall p ensures p in ManifestDigests(b) <==> p in ManifestDigests(made) ensures p in ManifestDigests(b) ==> ManifestDigests(b)[p] == ManifestDigests(made)[p] {
      DigestsMean(made, p);
      DigestsMean(b, p);
      assert IsManifestName(p) ==> IsSameIn(made, b, p);
    }
    assert ConfigDigests(b) == ConfigDigests(made) && ManifestDigests(b) == ManifestDigests(made);
  }

  lemma SameFilesMean(projectId: string, changed: set<string>, e: Evidence, made: Bundle, madeEnv: Env, now: Tick, b: Bundle)
    ensures KeepsFiles(RecordOf(projectId, changed, e, made, madeEnv, now), made, b) <==> KeepsInputs(changed, made, b)
  {
    var r := RecordOf(projectId, changed, e, made, madeEnv, now);
    forall p ensures (p in r.basis <==> IsInput(made, changed, p)) && (p in r.basis ==> r.basis[p] == made.files[p]) {
      PopulatedBasisIsTheInputs(projectId, changed, e, made, madeEnv, now, p);
    }
    hide RecordOf, KeepsFiles, KeepsInputs, IsInput;
    if KeepsFiles(r, made, b) {
      KeptFilesAreInputs(r, changed, made, b);
    }
    if KeepsInputs(changed, made, b) {
      KeptInputsAreFiles(r, changed, made, b);
    }
  }

  lemma SameCommandMeans(gate: Gate, madeEnv: Env, env: Env)
    requires IsReusableGate(gate) && gate in madeEnv.commands && madeEnv.commands[gate] in madeEnv.toolchains
    ensures
      ToolsFor(gate, env) == ToolsFor(gate, madeEnv) && EnvironmentFor(gate, env) == EnvironmentFor(gate, madeEnv)
      && ContractFor(gate, env) == ContractFor(gate, madeEnv) <==>
        && gate in env.commands && env.commands[gate] == madeEnv.commands[gate] && env.commands[gate] in env.toolchains
        && env.toolchains[env.commands[gate]] == madeEnv.toolchains[env.commands[gate]] && env.platform == madeEnv.platform
  {
    var made: ToolIdentity := madeEnv.toolchains[madeEnv.commands[gate]];
    assert made != UNKNOWN_TOOLS;
    assert ToolsFor(gate, madeEnv) == made;
  }

  /** A populated record is current exactly when nothing it depends on has changed. */
  lemma PopulatedIsCurrentExactlyWhen(
    projectId: string, changed: set<string>, e: Evidence, made: Bundle, madeEnv: Env, now: Tick, b: Bundle, env: Env)
    requires IsCacheable(projectId, e, made, madeEnv)
    ensures IsCurrent(RecordOf(projectId, changed, e, made, madeEnv, now), b, env)
      <==> NothingChanged(changed, e.gate, made, madeEnv, b, env)
  {
    var r := RecordOf(projectId, changed, e, made, madeEnv, now);
    CacheableExactlyWhen(projectId, e, made, madeEnv);
    PopulatedRecordsAreMadeFrom(projectId, changed, e, made, madeEnv, now);
    CurrentExactlyWhenUnchanged(r, made, madeEnv, b, env);
    SameFilesMean(projectId, changed, e, made, madeEnv, now, b);
    SameCommandMeans(e.gate, madeEnv, env);
    assert r.gate == e.gate;
    hide RecordOf, IsCurrent, MadeFrom, IsCacheable, ToolsFor, EnvironmentFor, ContractFor, ConfigDigests, ManifestDigests, KeepsInputs;
  }

  /** So while the record is stored as populated, a HIT on it means just that: no file it depends on was edited, added or
      removed, and command, toolchain and platform are the same. */
  lemma HitMeansNothingChanged(
    s: Store, a: Asker, changed: set<string>, e: Evidence, made: Bundle, madeEnv: Env, now: Tick)
    requires WellFormed(s) && IsCacheable(a.projectId, e, made, madeEnv)
    requires var r := RecordOf(a.projectId, changed, e, made, madeEnv, now);
      && r.id in s.records && s.records[r.id] == r && IsHit(s, a, e.gate) && CandidateOf(s, a, e.gate) == Some(r.id)
    ensures a.bundle.Some? && NothingChanged(changed, e.gate, made, madeEnv, a.bundle.value, a.env)
  {
    hide IsCurrent, NothingChanged, RecordOf, IsCacheable;
    HitIsUsable(s, a, e.gate);
    PopulatedIsCurrentExactlyWhen(a.projectId, changed, e, made, madeEnv, now, a.bundle.value, a.env);
  }

  /** And asking right after populating is answered HIT exactly then, where the cache is asked at all. */
  lemma PopulatedIsHitWhenUnchanged(
    s: Store, a: Asker, changed: set<string>, e: Evidence, made: Bundle, madeEnv: Env, now: Tick)
    requires WellFormed(s) && BelongsTo(s, a.projectId) && IsCacheable(a.projectId, e, made, madeEnv) && HasText(e.outputDigest)
    ensures var r := RecordOf(a.projectId, changed, e, made, madeEnv, now);
      var t := Persisted(s, r).0;
      && WellFormed(t)
      && (IsSearched(t.index, a, e.gate) && NothingChanged(changed, e.gate, made, madeEnv, a.bundle.value, a.env) ==> IsHit(t, a, e.gate))
  {
    UnchangedInputsHit(s, a, changed, e, made, madeEnv, now);
    var r := RecordOf(a.projectId, changed, e, made, madeEnv, now);
    if IsSearched(Persisted(s, r).0.index, a, e.gate) {
      PopulatedIsCurrentExactlyWhen(a.projectId, changed, e, made, madeEnv, now, a.bundle.value, a.env);
      PopulatedRecordsAreMadeFrom(a.projectId, changed, e, made, madeEnv, now);
      CurrentExactlyWhenUnchanged(r, made, madeEnv, a.bundle.value, a.env);
    }
    hide IsCurrent, NothingChanged, InputsUnchanged, RecordOf, IsCacheable, MadeFrom;
  }

  /** The index can be read for the project. */
  predicate IsReadable(index: IndexFile, projectId: string) {
    index == NoIndex || (index.IndexOf? && index.projectId == projectId)
  }

  predicate HasFreshIndex(a: Asker) {
    a.bundle.Some? && a.bundle.value.complete && !a.bundle.value.truncated && !a.bundle.value.stale
  }

  /** Stored results are looked at only for the five gates, with a fresh index of the project, a readable cache, a derived
      command and its toolchain. */
  lemma SearchedExactlyWhen(index: IndexFile, a: Asker, gate: Gate)
    ensures IsSearched(index, a, gate) <==>
      && IsReusableGate(gate) && HasFreshIndex(a) && a.bundle.value.projectId == a.projectId && IsReadable(index, a.projectId)
      && gate in a.env.commands && a.env.commands[gate] in a.env.toolchains
  {
    RefusedExactlyWhen(index, a, gate);
    assert IsCacheEligibleGate(gate) <==> IsReusableGate(gate);
    hide IsRefused, IsCacheEligibleGate, HasFreshIndex, IsReadable;
  }

  /** The answer is BLOCKED at once for the five gates without a fresh index or a readable cache, and for any gate with a fresh
      index of another project. */
  lemma RefusedExactlyWhen(index: IndexFile, a: Asker, gate: Gate)
    ensures IsRefused(index, a, gate) <==>
      || (IsReusableGate(gate) && (!HasFreshIndex(a) || !IsReadable(index, a.projectId)))
      || (HasFreshIndex(a) && a.bundle.value.projectId != a.projectId)
  {
  }

  /** A record counts at all only if it is a reusable command result with everything named. */
  lemma ValidExactlyWhen(r: CacheRecord)
    ensures IsSemanticallyValid(r) <==>
      && IsReusableGate(r.gate) && r.kind == CommandEvidence && r.status == Reusable && r.reusable && r.eligibleClass
      && HasText(r.command) && HasText(r.outputDigest) && HasText(r.tools.producerFamily) && HasText(r.tools.producerVersion)
  {
  }

  /** The letters of a text. */
  function Letters(text: string): string {
    if text == "" then "" else if IsBlank(text[0]) then Letters(text[1..]) else [text[0]] + Letters(text[1..])
  }

  lemma {:induction false} FoldingKeepsLetters(text: string)
    ensures Letters(Folded(text)) == Letters(text)
  {
    if text == "" {
    } else {
      FoldingKeepsLetters(text[1..]);
      assert ([text[0]] + Folded(text[1..]))[1..] == Folded(text[1..]) && (" " + Folded(text[1..]))[1..] == Folded(text[1..]);
    }
  }

  /** Normalising a command keeps every letter, in order. */
  lemma NormalizingKeepsLetters(command: string)
    ensures Letters(command) == if NormalizeCommand(Some(command)).Some? then Letters(NormalizeCommand(Some(command)).value) else ""
  {
    FoldingKeepsLetters(command);
    var folded := Folded(command);
    if folded != "" && folded[0] == ' ' { assert Letters(folded) == Letters(folded[1..]); }
  }

  /** What a populated record says of itself. */
  lemma PopulatedRecordSays(projectId: string, changed: set<string>, e: Evidence, made: Bundle, madeEnv: Env, now: Tick)
    ensures var r := RecordOf(projectId, changed, e, made, madeEnv, now);
      && r.projectId == projectId && r.gate == e.gate && r.evidenceId == e.evidenceId && r.kind == e.kind
      && r.changeDigest == e.changeDigest && r.command == NormalizeCommand(e.command)
      && r.outputDigest == e.outputDigest && r.fileDigest == e.fileDigest && r.createdAt == now
      && r.eligibleClass && r.reusable && r.status == Reusable && r.policy == CACHE_POLICY
  {
  }

  /** Of the usable records a HIT names one created last, and of those the one with the greatest id. */
  lemma HitIsLatest(s: Store, a: Asker, gate: Gate, other: string)
    requires WellFormed(s) && IsProjection(s) && IsSearched(s.index, a, gate) && IsHit(s, a, gate)
    requires other in s.records && IsUsable(s.records[other], gate, LiveOf(a)) && other != CandidateOf(s, a, gate).value
    ensures var candidate := CandidateOf(s, a, gate).value;
      s.records[other].createdAt < s.records[candidate].createdAt
      || (s.records[other].createdAt == s.records[candidate].createdAt && TextLess(other, candidate))
  {
    UsableEndsSearch(s, a, gate, other);
    hide IsUsable, EndsSearch, IsProjection;
  }

  predicate HasNoColon(text: string) {
    forall i :: 0 <= i < |text| ==> text[i] != ':'
  }

  lemma GateTextsTellApart(g: Gate, h: Gate)
    requires IsReusableGate(g) && IsReusableGate(h)
    ensures HasNoColon(GateText(g)) && (GateText(g) == GateText(h) ==> g == h)
  {
    assert |GateText(Static)| == 6 && |GateText(UnitTest)| == 9 && |GateText(ContractTest)| == 13 && |GateText(Build)| == 5;
    assert |GateText(Web3Unit)| == 9 && GateText(Web3Unit)[0] == 'w' && GateText(UnitTest)[0] == 'u';
  }

  /** What stands before the first colon, and what stands after it. */
  lemma ColonParts(a: string, b: string, x: string, y: string)
    requires HasNoColon(a) && HasNoColon(b) && a + ":" + x == b + ":" + y
    ensures a == b && x == y
  {
    var s, t := a + ":" + x, b + ":" + y;
    assert s[|a|] == ':' && forall i :: 0 <= i < |a| ==> s[i] == a[i];
    assert t[|b|] == ':' && forall i :: 0 <= i < |b| ==> t[i] == b[i];
    assert s[..|a|] == a && t[..|b|] == b && s[|a| + 1..] == x && t[|b| + 1..] == y;
  }

  /** Within a project a cached result is replaced exactly by one of the same gate with the same output. */
  lemma RecordsReplaceExactlyWhen(projectId: string, g: Gate, h: Gate, e: Evidence, f: Evidence, m: Tick, n: Tick)
    requires IsReusableGate(g) && IsReusableGate(h) && e.outputDigest.Some? && f.outputDigest.Some?
    ensures RecordId(projectId, g, e, m) == RecordId(projectId, h, f, n) <==> g == h && e.outputDigest == f.outputDigest
  {
    GateTextsTellApart(g, h);
    GateTextsTellApart(h, g);
    var x, y := GateText(g) + ":" + e.outputDigest.value, GateText(h) + ":" + f.outputDigest.value;
    assert RecordId(projectId, g, e, m) == projectId + ":" + x && RecordId(projectId, h, f, n) == projectId + ":" + y;
    if RecordId(projectId, g, e, m) == RecordId(projectId, h, f, n) {
      assert (projectId + ":" + x)[|projectId| + 1..] == x && (projectId + ":" + y)[|projectId| + 1..] == y;
      ColonParts(GateText(g), GateText(h), e.outputDigest.value, f.outputDigest.value);
    }
  }
}
