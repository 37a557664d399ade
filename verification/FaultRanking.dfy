/** Ranking fault candidates: an accumulator over evidence and the set-based meaning it refines. Scores are in hundredths. */
module FaultRanking {
  import opened Basics
  import opened CacheValidity

  datatype Signal =
    | Stack | FailingTest | TestedBy | RelatedChanged | DepNeighbor | InterfaceNeighbor | LocalModule | ReusableMemory | SharedUtility

  datatype NodeKind = SourceNode | TestNode | SchemaNode | OtherNode

  datatype Node = Node(path: string, kind: NodeKind)

  /** Evidence of one failure; `frames` and `tests` hold the files that are named at all. */
  datatype Input = Input(
    frames: seq<string>, tests: seq<string>, relations: seq<TestRelation>, edges: seq<Edge>, nodes: seq<Node>,
    indexed: set<string>, changed: seq<string>, reusable: seq<string>)

  function Weight(s: Signal): nat {
    match s
    case Stack => 40
    case FailingTest => 30
    case TestedBy => 25
    case RelatedChanged => 20
    case DepNeighbor => 12
    case InterfaceNeighbor => 10
    case LocalModule => 8
    case ReusableMemory => 6
    case SharedUtility => 18
  }

  function Points(signals: set<Signal>, s: Signal): nat {
    if s in signals then Weight(s) else 0
  }

  function Sum(signals: set<Signal>): nat {
    Points(signals, Stack) + Points(signals, FailingTest) + Points(signals, TestedBy) + Points(signals, RelatedChanged)
    + Points(signals, DepNeighbor) + Points(signals, InterfaceNeighbor) + Points(signals, LocalModule)
    + Points(signals, ReusableMemory) + Points(signals, SharedUtility)
  }

  const FULL_SCORE := 100

  function Clamp(score: nat): nat {
    if score > FULL_SCORE then FULL_SCORE else score
  }

  predicate IsCodeDep(e: Edge) {
    e.kind in {Imports, Requires, DynamicImport}
  }

  function DirOf(path: string): string {
    if path == "" then "" else if path[|path| - 1] == '/' then path[..|path| - 1] else DirOf(path[..|path| - 1])
  }

  predicate Contains(text: string, part: string) {
    part <= text || (text != "" && Contains(text[1..], part))
  }

  predicate IsTestPath(path: string) {
    Contains(path, ".test.") || Contains(path, ".spec.") || Contains(path, "/tests/")
  }

  /** What the signals mean. */

  predicate IsTestedSource(inp: Input, path: string) {
    exists r :: r in inp.relations && r.test in inp.tests && r.source == path
  }

  predicate IsSeed(inp: Input, path: string) {
    path in inp.frames || path in inp.tests || IsTestedSource(inp, path)
  }

  predicate SharesDirectory(seeds: set<string>, path: string) {
    exists s :: s in seeds && DirOf(s) == DirOf(path)
  }

  predicate IsLinked(inp: Input, seeds: set<string>, path: string) {
    || (exists e :: e in inp.edges && ((e.source == path && e.target in seeds) || (e.target == path && e.source in seeds)))
    || (exists r :: r in inp.relations && ((r.test == path && r.source in seeds) || (r.source == path && r.test in seeds)))
  }

  predicate IsRelated(inp: Input, seeds: set<string>, path: string) {
    path in seeds || SharesDirectory(seeds, path) || IsLinked(inp, seeds, path)
  }

  function SeedsOf(inp: Input): (seeds: set<string>)
    ensures forall p :: p in seeds <==> IsSeed(inp, p)
  {
    (set p | p in inp.frames) + (set p | p in inp.tests) + (set r | r in inp.relations && r.test in inp.tests :: r.source)
  }

  predicate IsDependency(e: Edge, seeds: set<string>) {
    IsCodeDep(e) && e.source in seeds && e.target != e.source
  }

  predicate IsDependent(e: Edge, seeds: set<string>) {
    IsCodeDep(e) && e.target in seeds && e.source != e.target
  }

  function Owners(edges: seq<Edge>, seeds: set<string>, path: string): set<string> {
    set e | e in edges && IsDependency(e, seeds) && e.target == path && !IsTestPath(e.source) :: e.source
  }

  predicate IsLocal(nodes: seq<Node>, seeds: set<string>, path: string) {
    exists s, n :: s in seeds && n in nodes && IsNeighbor(n, s) && n.path == path
  }

  predicate IsNeighbor(n: Node, seed: string) {
    n.path != seed && DirOf(n.path) == DirOf(seed) && n.kind in {SourceNode, TestNode, SchemaNode}
  }

  predicate IsInterface(edges: seq<Edge>, seeds: set<string>, path: string) {
    exists e :: e in edges && e.kind == InterfaceReference && ((e.source in seeds && e.target == path) || (e.target in seeds && e.source == path))
  }

  predicate IsDepNeighbor(edges: seq<Edge>, seeds: set<string>, path: string) {
    exists e :: e in edges && ((IsDependency(e, seeds) && e.target == path) || (IsDependent(e, seeds) && e.source == path))
  }

  predicate Holds(inp: Input, path: string, s: Signal) {
    var seeds := SeedsOf(inp);
    match s
    case Stack => path in inp.frames
    case FailingTest => path in inp.tests
    case TestedBy => IsTestedSource(inp, path)
    case RelatedChanged => path in inp.changed && IsRelated(inp, seeds, path)
    case DepNeighbor => IsDepNeighbor(inp.edges, seeds, path)
    case SharedUtility => |Owners(inp.edges, seeds, path)| >= 2
    case InterfaceNeighbor => IsInterface(inp.edges, seeds, path)
    case LocalModule => IsLocal(inp.nodes, seeds, path)
    case ReusableMemory => path in inp.reusable
  }

  predicate IsEligible(inp: Input, path: string) {
    path != "" && (path in inp.indexed || IsSeed(inp, path))
  }

  predicate IsMarked(inp: Input, path: string, s: Signal) {
    IsEligible(inp, path) && Holds(inp, path, s)
  }

  const ALL_SIGNALS := {Stack, FailingTest, TestedBy, RelatedChanged, DepNeighbor, InterfaceNeighbor, LocalModule, ReusableMemory, SharedUtility}

  function SignalsOf(inp: Input, path: string): set<Signal> {
    set s | s in ALL_SIGNALS && IsMarked(inp, path, s)
  }

  function ScoreOf(inp: Input, path: string): nat {
    Clamp(Sum(SignalsOf(inp, path)))
  }

  datatype Candidate = Candidate(path: string, score: nat, signals: set<Signal>)

  predicate RanksBefore(a: Candidate, b: Candidate) {
    a.score > b.score || (a.score == b.score && TextLess(a.path, b.path))
  }

  /** Every path with a signal once, with its set-based score, best first. */
  ghost predicate IsRanking(inp: Input, ranked: seq<Candidate>) {
    && (forall i, j :: 0 <= i < j < |ranked| ==> RanksBefore(ranked[i], ranked[j]))
    && (forall c :: c in ranked ==> c.signals == SignalsOf(inp, c.path) != {} && c.score == ScoreOf(inp, c.path))
    && (forall p :: SignalsOf(inp, p) != {} ==> exists c :: c in ranked && c.path == p)
  }

  /** Properties of the meaning. */

  /** Everything x has, y has. */
  predicate IsMoreEvidence(x: Input, y: Input) {
    && (forall p :: p in x.frames ==> p in y.frames) && (forall p :: p in x.tests ==> p in y.tests)
    && (forall r :: r in x.relations ==> r in y.relations) && (forall e :: e in x.edges ==> e in y.edges)
    && (forall n :: n in x.nodes ==> n in y.nodes) && x.indexed <= y.indexed
    && (forall p :: p in x.changed ==> p in y.changed) && (forall p :: p in x.reusable ==> p in y.reusable)
  }

  /** The same evidence, whatever the order and repetition it comes in. */
  predicate IsSameEvidence(x: Input, y: Input) {
    IsMoreEvidence(x, y) && IsMoreEvidence(y, x)
  }

  lemma SubsetIsSmaller<T>(a: set<T>, b: set<T>)
    requires a <= b
    ensures |a| <= |b|
  {
    assert b == a + (b - a);
  }

  lemma MoreEvidenceMoreSignals(x: Input, y: Input, path: string, s: Signal)
    requires IsMoreEvidence(x, y) && IsMarked(x, path, s)
    ensures IsMarked(y, path, s)
  {
    assert forall p :: IsSeed(x, p) ==> IsSeed(y, p);
    assert SeedsOf(x) <= SeedsOf(y);
    if s == SharedUtility {
      SubsetIsSmaller(Owners(x.edges, SeedsOf(x), path), Owners(y.edges, SeedsOf(y), path));
    }
  }

  lemma SumIsMonotone(a: set<Signal>, b: set<Signal>)
    requires a <= b
    ensures Sum(a) <= Sum(b)
  {
  }

  /** Adding evidence never lowers a path's score. */
  lemma MoreEvidenceNeverLowersAScore(x: Input, y: Input, path: string)
    requires IsMoreEvidence(x, y)
    ensures ScoreOf(x, path) <= ScoreOf(y, path)
  {
    forall s | s in SignalsOf(x, path) ensures s in SignalsOf(y, path) {
      MoreEvidenceMoreSignals(x, y, path, s);
    }
    SumIsMonotone(SignalsOf(x, path), SignalsOf(y, path));
  }

  lemma RankingIsStrict(a: Candidate, b: Candidate)
    ensures !RanksBefore(a, a) && !(RanksBefore(a, b) && RanksBefore(b, a))
  {
    TextLessIsStrictOrder(a.path, b.path, a.path);
  }

  lemma {:induction false} RankedListsAreUnique(a: seq<Candidate>, b: seq<Candidate>)
    requires forall i, j :: 0 <= i < j < |a| ==> RanksBefore(a[i], a[j])
    requires forall i, j :: 0 <= i < j < |b| ==> RanksBefore(b[i], b[j])
    requires forall c :: c in a <==> c in b
    ensures a == b
  {
    assert b != [] ==> b[0] in a;
    if a == [] {
      assert b == [];
    } else {
      assert a[0] in b && b[0] in b && b[0] in a;
      var i :| 0 <= i < |b| && b[i] == a[0];
      var j :| 0 <= j < |a| && a[j] == b[0];
      RankingIsStrict(a[0], b[0]);
      assert i == 0 || j == 0;
      assert a == [a[0]] + a[1..] && b == [b[0]] + b[1..];
      forall c ensures c in a[1..] <==> c in b[1..] {
        if c in a[1..] {
          HeadIsNotBehind(a, c);
          assert c in a && c in [b[0]] + b[1..];
        }
        if c in b[1..] {
          HeadIsNotBehind(b, c);
          assert c in b && c in [a[0]] + a[1..];
        }
      }
      RankedListsAreUnique(a[1..], b[1..]);
    }
  }

  lemma HeadIsNotBehind(a: seq<Candidate>, c: Candidate)
    requires forall i, j :: 0 <= i < j < |a| ==> RanksBefore(a[i], a[j])
    requires a != [] && c in a[1..]
    ensures c != a[0]
  {
    var i :| 0 <= i < |a[1..]| && a[1..][i] == c;
    RankingIsStrict(a[0], a[i + 1]);
  }

  lemma SameSignals(x: Input, y: Input, path: string)
    requires IsSameEvidence(x, y)
    ensures SignalsOf(x, path) == SignalsOf(y, path)
  {
    forall s ensures IsMarked(x, path, s) <==> IsMarked(y, path, s) {
      if IsMarked(x, path, s) { MoreEvidenceMoreSignals(x, y, path, s); }
      if IsMarked(y, path, s) { MoreEvidenceMoreSignals(y, x, path, s); }
    }
  }

  /** The ranking does not depend on the order in which frames, tests, edges or changed files are listed. */
  lemma RankingIgnoresOrder(x: Input, y: Input, a: seq<Candidate>, b: seq<Candidate>)
    requires IsSameEvidence(x, y) && IsRanking(x, a) && IsRanking(y, b)
    ensures a == b
  {
    forall c | c in a ensures c in b {
      SameSignals(x, y, c.path);
      var d :| d in b && d.path == c.path;
      assert d == c;
    }
    forall c | c in b ensures c in a {
      SameSignals(x, y, c.path);
      var d :| d in a && d.path == c.path;
      assert d == c;
    }
    RankedListsAreUnique(a, b);
  }

  /** The accumulator. */

  datatype Tally = Tally(score: nat, signals: set<Signal>)

  datatype Mark = Mark(path: string, signal: Signal)

  /** The tallies hold exactly these marks, each signal counted once. */
  ghost predicate Represents(tallies: map<string, Tally>, marks: set<Mark>) {
    && (forall p :: p in tallies ==> tallies[p].signals != {} && tallies[p].score == Sum(tallies[p].signals))
    && (forall m :: m in marks <==> m.path in tallies && m.signal in tallies[m.path].signals)
  }

  function Added(tallies: map<string, Tally>, eligible: bool, path: string, signal: Signal): map<string, Tally> {
    if !eligible then tallies
    else
      var current := if path in tallies then tallies[path] else Tally(0, {});
      if signal in current.signals then tallies
      else tallies[path := Tally(current.score + Weight(signal), current.signals + {signal})]
  }

  lemma PointsWithOneMore(signals: set<Signal>, s: Signal, x: Signal)
    requires s !in signals
    ensures Points(signals + {s}, x) == Points(signals, x) + if x == s then Weight(s) else 0
  {
  }

  lemma SumWithOneMore(signals: set<Signal>, s: Signal)
    requires s !in signals
    ensures Sum(signals + {s}) == Sum(signals) + Weight(s)
  {
    hide Points, Weight;
    PointsWithOneMore(signals, s, Stack);
    PointsWithOneMore(signals, s, FailingTest);
    PointsWithOneMore(signals, s, TestedBy);
    PointsWithOneMore(signals, s, RelatedChanged);
    PointsWithOneMore(signals, s, DepNeighbor);
    PointsWithOneMore(signals, s, InterfaceNeighbor);
    PointsWithOneMore(signals, s, LocalModule);
    PointsWithOneMore(signals, s, ReusableMemory);
    PointsWithOneMore(signals, s, SharedUtility);
  }

  lemma AddedRepresents(tallies: map<string, Tally>, marks: set<Mark>, eligible: bool, path: string, signal: Signal)
    requires Represents(tallies, marks)
    ensures Represents(Added(tallies, eligible, path, signal), marks + if eligible then {Mark(path, signal)} else {})
  {
    hide Sum, Weight;
    var current := if path in tallies then tallies[path] else Tally(0, {});
    assert current.score == Sum(current.signals) by { EmptySum(); }
    if signal !in current.signals {
      SumWithOneMore(current.signals, signal);
    }
  }

  lemma EmptySum()
    ensures Sum({}) == 0
  {
  }

  function MarksOf(inp: Input, paths: set<string>, signal: Signal): set<Mark> {
    set p | p in paths && IsEligible(inp, p) :: Mark(p, signal)
  }

  function Members(paths: seq<string>): set<string> {
    set p | p in paths
  }

  /** One more path for a signal. */
  lemma MarkOne(inp: Input, tallies: map<string, Tally>, marks: set<Mark>, paths: set<string>, path: string, signal: Signal)
    requires Represents(tallies, marks + MarksOf(inp, paths, signal))
    ensures Represents(Added(tallies, IsEligible(inp, path), path, signal), marks + MarksOf(inp, paths + {path}, signal))
  {
    AddedRepresents(tallies, marks + MarksOf(inp, paths, signal), IsEligible(inp, path), path, signal);
    assert marks + MarksOf(inp, paths + {path}, signal)
      == marks + MarksOf(inp, paths, signal) + if IsEligible(inp, path) then {Mark(path, signal)} else {};
  }

  /** Adds one signal to every eligible path of a list. */
  method AddAll(inp: Input, tallies: map<string, Tally>, ghost marks: set<Mark>, paths: seq<string>, signal: Signal)
    returns (r: map<string, Tally>)
    requires Represents(tallies, marks)
    ensures Represents(r, marks + MarksOf(inp, Members(paths), signal))
  {
    hide Represents, IsEligible;
    r := tallies;
    assert marks + MarksOf(inp, Members(paths[..0]), signal) == marks;
    for i := 0 to |paths|
      invariant Represents(r, marks + MarksOf(inp, Members(paths[..i]), signal))
    {
      MarkOne(inp, r, marks, Members(paths[..i]), paths[i], signal);
      assert paths[..i + 1] == paths[..i] + [paths[i]];
      assert Members(paths[..i + 1]) == Members(paths[..i]) + {paths[i]};
      r := Added(r, IsEligible(inp, paths[i]), paths[i], signal);
    }
    assert paths[..|paths|] == paths;
  }

  function TestedSources(inp: Input): set<string> {
    set r | r in inp.relations && r.test in inp.tests :: r.source
  }

  method ListTestedSources(inp: Input) returns (sources: seq<string>)
    ensures Members(sources) == TestedSources(inp)
  {
    sources := [];
    for i := 0 to |inp.relations|
      invariant Members(sources) == set r | r in inp.relations[..i] && r.test in inp.tests :: r.source
    {
      assert inp.relations[..i + 1] == inp.relations[..i] + [inp.relations[i]];
      if inp.relations[i].test in inp.tests {
        assert Members(sources + [inp.relations[i].source]) == Members(sources) + {inp.relations[i].source};
        sources := sources + [inp.relations[i].source];
      }
    }
    assert inp.relations[..|inp.relations|] == inp.relations;
  }

  function RelatedChangedFiles(inp: Input, changed: seq<string>, seeds: set<string>): set<string> {
    set p | p in changed && IsRelated(inp, seeds, p)
  }

  method AddRelatedChanged(inp: Input, tallies: map<string, Tally>, ghost marks: set<Mark>, seeds: set<string>) returns (r: map<string, Tally>)
    requires Represents(tallies, marks)
    ensures Represents(r, marks + MarksOf(inp, RelatedChangedFiles(inp, inp.changed, seeds), RelatedChanged))
  {
    hide Represents, IsEligible, IsRelated;
    r := tallies;
    assert marks + MarksOf(inp, RelatedChangedFiles(inp, inp.changed[..0], seeds), RelatedChanged) == marks;
    for i := 0 to |inp.changed|
      invariant Represents(r, marks + MarksOf(inp, RelatedChangedFiles(inp, inp.changed[..i], seeds), RelatedChanged))
    {
      var path := inp.changed[i];
      ghost var before := RelatedChangedFiles(inp, inp.changed[..i], seeds);
      assert inp.changed[..i + 1] == inp.changed[..i] + [path];
      if IsRelated(inp, seeds, path) {
        MarkOne(inp, r, marks, before, path, RelatedChanged);
        assert RelatedChangedFiles(inp, inp.changed[..i + 1], seeds) == before + {path};
        r := Added(r, IsEligible(inp, path), path, RelatedChanged);
      } else {
        assert RelatedChangedFiles(inp, inp.changed[..i + 1], seeds) == before;
      }
    }
    assert inp.changed[..|inp.changed|] == inp.changed;
  }

  function DepNeighbors(edges: seq<Edge>, seeds: set<string>): set<string> {
    (set e | e in edges && IsDependency(e, seeds) :: e.target) + (set e | e in edges && IsDependent(e, seeds) :: e.source)
  }

  function Targets(edges: seq<Edge>, seeds: set<string>): set<string> {
    set e | e in edges && IsDependency(e, seeds) :: e.target
  }

  /** Who imports a path, by path, as gathered so far. */
  ghost predicate Gathers(incoming: map<string, set<string>>, edges: seq<Edge>, seeds: set<string>) {
    && incoming.Keys == Targets(edges, seeds)
    && (forall p :: p in incoming ==> incoming[p] == Owners(edges, seeds, p))
  }

  lemma GatherStep(incoming: map<string, set<string>>, edges: seq<Edge>, seeds: set<string>, e: Edge)
    requires Gathers(incoming, edges, seeds)
    ensures var owners := (if e.target in incoming then incoming[e.target] else {}) + (if IsTestPath(e.source) then {} else {e.source});
      Gathers(if IsDependency(e, seeds) then incoming[e.target := owners] else incoming, edges + [e], seeds)
  {
    hide IsTestPath, IsDependency;
    OneMoreTarget(edges, seeds, e);
    forall p ensures Owners(edges + [e], seeds, p)
      == Owners(edges, seeds, p) + (if IsDependency(e, seeds) && e.target == p && !IsTestPath(e.source) then {e.source} else {})
    {
      OneMoreOwner(edges, seeds, e, p);
    }
    hide Owners;
    if e.target !in incoming {
      NoOwners(edges, seeds, e.target);
    }
  }

  lemma OneMoreTarget(edges: seq<Edge>, seeds: set<string>, e: Edge)
    ensures Targets(edges + [e], seeds) == Targets(edges, seeds) + if IsDependency(e, seeds) then {e.target} else {}
  {
    hide IsDependency;
  }

  lemma OneMoreOwner(edges: seq<Edge>, seeds: set<string>, e: Edge, p: string)
    ensures Owners(edges + [e], seeds, p)
      == Owners(edges, seeds, p) + (if IsDependency(e, seeds) && e.target == p && !IsTestPath(e.source) then {e.source} else {})
  {
    hide IsDependency, IsTestPath;
  }

  lemma NoOwners(edges: seq<Edge>, seeds: set<string>, p: string)
    requires p !in Targets(edges, seeds)
    ensures Owners(edges, seeds, p) == {}
  {
    hide IsDependency, IsTestPath;
  }

  lemma OneMoreEdge(edges: seq<Edge>, seeds: set<string>, e: Edge)
    ensures DepNeighbors(edges + [e], seeds)
      == DepNeighbors(edges, seeds) + (if IsDependency(e, seeds) then {e.target} else {}) + (if IsDependent(e, seeds) then {e.source} else {})
  {
    hide IsDependency, IsDependent;
  }

  /** One edge: its target as a dependency of a seed, its source as a dependent of one. */
  method AddEdge(inp: Input, tallies: map<string, Tally>, ghost marks: set<Mark>, ghost reached: set<string>, seeds: set<string>, e: Edge)
    returns (r: map<string, Tally>)
    requires Represents(tallies, marks + MarksOf(inp, reached, DepNeighbor))
    ensures Represents(r, marks + MarksOf(inp,
      reached + (if IsDependency(e, seeds) then {e.target} else {}) + (if IsDependent(e, seeds) then {e.source} else {}), DepNeighbor))
  {
    hide Represents, IsEligible, IsDependency, IsDependent, MarksOf;
    r := tallies;
    ghost var paths := reached;
    if IsDependency(e, seeds) {
      MarkOne(inp, r, marks, paths, e.target, DepNeighbor);
      r := Added(r, IsEligible(inp, e.target), e.target, DepNeighbor);
      paths := paths + {e.target};
    }
    assert paths == reached + if IsDependency(e, seeds) then {e.target} else {};
    if IsDependent(e, seeds) {
      MarkOne(inp, r, marks, paths, e.source, DepNeighbor);
      r := Added(r, IsEligible(inp, e.source), e.source, DepNeighbor);
      paths := paths + {e.source};
    }
    assert paths == reached + (if IsDependency(e, seeds) then {e.target} else {}) + (if IsDependent(e, seeds) then {e.source} else {});
  }

  method AddDepNeighbors(inp: Input, tallies: map<string, Tally>, ghost marks: set<Mark>, seeds: set<string>)
    returns (r: map<string, Tally>, incoming: map<string, set<string>>)
    requires Represents(tallies, marks)
    ensures Represents(r, marks + MarksOf(inp, DepNeighbors(inp.edges, seeds), DepNeighbor))
    ensures Gathers(incoming, inp.edges, seeds)
  {
    hide Represents, IsTestPath, IsDependency, IsDependent, Gathers;
    r, incoming := tallies, map[];
    assert marks + MarksOf(inp, DepNeighbors(inp.edges[..0], seeds), DepNeighbor) == marks;
    NothingGathered(seeds);
    assert inp.edges[..0] == [];
    hide MarksOf, DepNeighbors;
    for i := 0 to |inp.edges|
      invariant Represents(r, marks + MarksOf(inp, DepNeighbors(inp.edges[..i], seeds), DepNeighbor))
      invariant Gathers(incoming, inp.edges[..i], seeds)
    {
      var e := inp.edges[i];
      assert inp.edges[..i + 1] == inp.edges[..i] + [e];
      GatherStep(incoming, inp.edges[..i], seeds, e);
      OneMoreEdge(inp.edges[..i], seeds, e);
      r := AddEdge(inp, r, marks, DepNeighbors(inp.edges[..i], seeds), seeds, e);
      if IsDependency(e, seeds) {
        var owners := if e.target in incoming then incoming[e.target] else {};
        incoming := incoming[e.target := owners + if IsTestPath(e.source) then {} else {e.source}];
      }
    }
    assert inp.edges[..|inp.edges|] == inp.edges;
  }

  lemma NothingGathered(seeds: set<string>)
    ensures Gathers(map[], [], seeds)
  {
  }

  function Shared(incoming: map<string, set<string>>, paths: set<string>): set<string> {
    set p | p in paths && p in incoming && |incoming[p]| >= 2
  }

  method AddSharedUtilities(inp: Input, tallies: map<string, Tally>, ghost marks: set<Mark>, incoming: map<string, set<string>>)
    returns (r: map<string, Tally>)
    requires Represents(tallies, marks)
    ensures Represents(r, marks + MarksOf(inp, Shared(incoming, incoming.Keys), SharedUtility))
  {
    hide Represents, IsEligible;
    r := tallies;
    var todo := incoming.Keys;
    assert marks + MarksOf(inp, Shared(incoming, incoming.Keys - todo), SharedUtility) == marks;
    while todo != {}
      invariant todo <= incoming.Keys
      invariant Represents(r, marks + MarksOf(inp, Shared(incoming, incoming.Keys - todo), SharedUtility))
    {
      var p :| p in todo;
      ghost var before := Shared(incoming, incoming.Keys - todo);
      if |incoming[p]| >= 2 {
        MarkOne(inp, r, marks, before, p, SharedUtility);
        r := Added(r, IsEligible(inp, p), p, SharedUtility);
        assert Shared(incoming, incoming.Keys - (todo - {p})) == before + {p};
      } else {
        assert Shared(incoming, incoming.Keys - (todo - {p})) == before;
      }
      todo := todo - {p};
    }
    assert incoming.Keys - todo == incoming.Keys;
  }

  function InterfaceNeighbors(edges: seq<Edge>, seeds: set<string>): set<string> {
    (set e | e in edges && e.kind == InterfaceReference && e.source in seeds :: e.target)
    + (set e | e in edges && e.kind == InterfaceReference && e.target in seeds :: e.source)
  }

  method AddInterfaces(inp: Input, tallies: map<string, Tally>, ghost marks: set<Mark>, seeds: set<string>) returns (r: map<string, Tally>)
    requires Represents(tallies, marks)
    ensures Represents(r, marks + MarksOf(inp, InterfaceNeighbors(inp.edges, seeds), InterfaceNeighbor))
  {
    hide Represents, IsEligible;
    r := tallies;
    assert marks + MarksOf(inp, InterfaceNeighbors(inp.edges[..0], seeds), InterfaceNeighbor) == marks;
    for i := 0 to |inp.edges|
      invariant Represents(r, marks + MarksOf(inp, InterfaceNeighbors(inp.edges[..i], seeds), InterfaceNeighbor))
    {
      var e := inp.edges[i];
      ghost var reached := InterfaceNeighbors(inp.edges[..i], seeds);
      assert inp.edges[..i + 1] == inp.edges[..i] + [e];
      if e.kind == InterfaceReference {
        if e.source in seeds {
          MarkOne(inp, r, marks, reached, e.target, InterfaceNeighbor);
          r := Added(r, IsEligible(inp, e.target), e.target, InterfaceNeighbor);
          reached := reached + {e.target};
        }
        if e.target in seeds {
          MarkOne(inp, r, marks, reached, e.source, InterfaceNeighbor);
          r := Added(r, IsEligible(inp, e.source), e.source, InterfaceNeighbor);
          reached := reached + {e.source};
        }
      }
      assert reached == InterfaceNeighbors(inp.edges[..i + 1], seeds);
    }
    assert inp.edges[..|inp.edges|] == inp.edges;
  }

  function Neighbors(nodes: seq<Node>, seeds: set<string>): set<string> {
    set n, s | n in nodes && s in seeds && IsNeighbor(n, s) :: n.path
  }

  method AddLocals(inp: Input, tallies: map<string, Tally>, ghost marks: set<Mark>, seeds: set<string>) returns (r: map<string, Tally>)
    requires Represents(tallies, marks)
    ensures Represents(r, marks + MarksOf(inp, Neighbors(inp.nodes, seeds), LocalModule))
  {
    hide Represents, IsEligible, IsNeighbor;
    r := tallies;
    var todo := seeds;
    assert marks + MarksOf(inp, Neighbors(inp.nodes, seeds - todo), LocalModule) == marks;
    while todo != {}
      invariant todo <= seeds
      invariant Represents(r, marks + MarksOf(inp, Neighbors(inp.nodes, seeds - todo), LocalModule))
    {
      var seed :| seed in todo;
      ghost var before := Neighbors(inp.nodes, seeds - todo);
      assert before + Neighbors(inp.nodes[..0], {seed}) == before;
      for i := 0 to |inp.nodes|
        invariant Represents(r, marks + MarksOf(inp, before + Neighbors(inp.nodes[..i], {seed}), LocalModule))
      {
        var n := inp.nodes[i];
        ghost var reached := before + Neighbors(inp.nodes[..i], {seed});
        assert inp.nodes[..i + 1] == inp.nodes[..i] + [n];
        if IsNeighbor(n, seed) {
          MarkOne(inp, r, marks, reached, n.path, LocalModule);
          r := Added(r, IsEligible(inp, n.path), n.path, LocalModule);
          reached := reached + {n.path};
        }
        assert reached == before + Neighbors(inp.nodes[..i + 1], {seed});
      }
      assert inp.nodes[..|inp.nodes|] == inp.nodes;
      assert before + Neighbors(inp.nodes, {seed}) == Neighbors(inp.nodes, seeds - (todo - {seed}));
      todo := todo - {seed};
    }
    assert seeds - todo == seeds;
  }

  /** All marks a path can earn. */
  ghost function AllMarks(inp: Input): set<Mark> {
    var seeds := SeedsOf(inp);
    MarksOf(inp, Members(inp.frames), Stack) + MarksOf(inp, Members(inp.tests), FailingTest)
    + MarksOf(inp, TestedSources(inp), TestedBy) + MarksOf(inp, RelatedChangedFiles(inp, inp.changed, seeds), RelatedChanged)
    + MarksOf(inp, DepNeighbors(inp.edges, seeds), DepNeighbor)
    + MarksOf(inp, SharedPaths(inp.edges, seeds), SharedUtility)
    + MarksOf(inp, InterfaceNeighbors(inp.edges, seeds), InterfaceNeighbor)
    + MarksOf(inp, Neighbors(inp.nodes, seeds), LocalModule) + MarksOf(inp, Members(inp.reusable), ReusableMemory)
  }

  function SharedPaths(edges: seq<Edge>, seeds: set<string>): set<string> {
    set p | p in Targets(edges, seeds) && |Owners(edges, seeds, p)| >= 2
  }

  lemma MarkIs(inp: Input, paths: set<string>, signal: Signal, m: Mark)
    ensures m in MarksOf(inp, paths, signal) <==> m.signal == signal && m.path in paths && IsEligible(inp, m.path)
  {
  }

  lemma EdgePaths(inp: Input, path: string)
    ensures var seeds := SeedsOf(inp);
      && (path in DepNeighbors(inp.edges, seeds) <==> IsDepNeighbor(inp.edges, seeds, path))
      && (path in SharedPaths(inp.edges, seeds) <==> |Owners(inp.edges, seeds, path)| >= 2)
      && (path in InterfaceNeighbors(inp.edges, seeds) <==> IsInterface(inp.edges, seeds, path))
      && (path in Neighbors(inp.nodes, seeds) <==> IsLocal(inp.nodes, seeds, path))
  {
    hide IsDependency, IsDependent, IsTestPath, IsNeighbor;
    if path !in Targets(inp.edges, SeedsOf(inp)) {
      NoOwners(inp.edges, SeedsOf(inp), path);
    }
  }

  /** The accumulated marks are exactly the declared ones. */
  lemma MarksAreSignals(inp: Input, m: Mark)
    ensures m in AllMarks(inp) <==> IsMarked(inp, m.path, m.signal)
  {
    var seeds := SeedsOf(inp);
    EdgePaths(inp, m.path);
    MarkIs(inp, Members(inp.frames), Stack, m);
    MarkIs(inp, Members(inp.tests), FailingTest, m);
    MarkIs(inp, TestedSources(inp), TestedBy, m);
    MarkIs(inp, RelatedChangedFiles(inp, inp.changed, seeds), RelatedChanged, m);
    MarkIs(inp, DepNeighbors(inp.edges, seeds), DepNeighbor, m);
    MarkIs(inp, SharedPaths(inp.edges, seeds), SharedUtility, m);
    MarkIs(inp, InterfaceNeighbors(inp.edges, seeds), InterfaceNeighbor, m);
    MarkIs(inp, Neighbors(inp.nodes, seeds), LocalModule, m);
    MarkIs(inp, Members(inp.reusable), ReusableMemory, m);
    hide MarksOf, IsEligible, DepNeighbors, SharedPaths, InterfaceNeighbors, Neighbors, IsDepNeighbor, IsInterface, IsLocal, Owners, IsRelated;
  }

  lemma SharedIsShared(incoming: map<string, set<string>>, edges: seq<Edge>, seeds: set<string>)
    requires Gathers(incoming, edges, seeds)
    ensures Shared(incoming, incoming.Keys) == SharedPaths(edges, seeds)
  {
    hide Owners, Targets;
  }

  /** The accumulation over all evidence, one kind after another. */
  method Tallies(inp: Input) returns (r: map<string, Tally>)
    ensures Represents(r, AllMarks(inp))
  {
    hide Represents, MarksOf, IsEligible, DepNeighbors, InterfaceNeighbors, Neighbors, SharedPaths, IsSeed;
    var sources := ListTestedSources(inp);
    var seeds := SeedsOf(inp);
    r := map[];
    NothingTallied();
    ghost var marks: set<Mark> := {};
    r := AddAll(inp, r, marks, inp.frames, Stack);
    marks := marks + MarksOf(inp, Members(inp.frames), Stack);
    r := AddAll(inp, r, marks, inp.tests, FailingTest);
    marks := marks + MarksOf(inp, Members(inp.tests), FailingTest);
    r := AddAll(inp, r, marks, sources, TestedBy);
    marks := marks + MarksOf(inp, TestedSources(inp), TestedBy);
    r := AddRelatedChanged(inp, r, marks, seeds);
    marks := marks + MarksOf(inp, RelatedChangedFiles(inp, inp.changed, seeds), RelatedChanged);
    var incoming;
    r, incoming := AddDepNeighbors(inp, r, marks, seeds);
    marks := marks + MarksOf(inp, DepNeighbors(inp.edges, seeds), DepNeighbor);
    SharedIsShared(incoming, inp.edges, seeds);
    r := AddSharedUtilities(inp, r, marks, incoming);
    marks := marks + MarksOf(inp, SharedPaths(inp.edges, seeds), SharedUtility);
    r := AddInterfaces(inp, r, marks, seeds);
    marks := marks + MarksOf(inp, InterfaceNeighbors(inp.edges, seeds), InterfaceNeighbor);
    r := AddLocals(inp, r, marks, seeds);
    marks := marks + MarksOf(inp, Neighbors(inp.nodes, seeds), LocalModule);
    r := AddAll(inp, r, marks, inp.reusable, ReusableMemory);
    marks := marks + MarksOf(inp, Members(inp.reusable), ReusableMemory);
    assert AllMarks(inp) == marks;
  }

  lemma NothingTallied()
    ensures Represents(map[], {})
  {
  }

  ghost predicate IsRanked(ranked: seq<Candidate>) {
    forall i, j :: 0 <= i < j < |ranked| ==> RanksBefore(ranked[i], ranked[j])
  }

  method InsertRanked(ranked: seq<Candidate>, c: Candidate) returns (r: seq<Candidate>)
    requires IsRanked(ranked) && forall x :: x in ranked ==> x.path != c.path
    ensures IsRanked(r) && forall x :: x in r <==> x in ranked || x == c
  {
    var i := 0;
    while i < |ranked| && RanksBefore(ranked[i], c)
      invariant 0 <= i <= |ranked|
      invariant forall k :: 0 <= k < i ==> RanksBefore(ranked[k], c)
    {
      i := i + 1;
    }
    r := ranked[..i] + [c] + ranked[i..];
    WorseFollow(ranked, c, i);
    assert ranked == ranked[..i] + ranked[i..];
  }

  lemma WorseFollow(ranked: seq<Candidate>, c: Candidate, i: nat)
    requires IsRanked(ranked) && i <= |ranked| && forall x :: x in ranked ==> x.path != c.path
    requires i < |ranked| ==> !RanksBefore(ranked[i], c)
    ensures forall k :: i <= k < |ranked| ==> RanksBefore(c, ranked[k])
  {
    if i < |ranked| {
      assert ranked[i] in ranked;
      RanksAreTotal(c, ranked[i]);
      forall k | i < k < |ranked| ensures RanksBefore(c, ranked[k]) {
        RanksAreTransitive(c, ranked[i], ranked[k]);
      }
    }
  }

  lemma RanksAreTotal(a: Candidate, b: Candidate)
    requires a.path != b.path
    ensures RanksBefore(a, b) || RanksBefore(b, a)
  {
    TextLessIsStrictOrder(a.path, b.path, a.path);
  }

  lemma RanksAreTransitive(a: Candidate, b: Candidate, c: Candidate)
    requires RanksBefore(a, b) && RanksBefore(b, c)
    ensures RanksBefore(a, c)
  {
    TextLessIsStrictOrder(a.path, b.path, c.path);
  }

  lemma AllAreListed(s: Signal)
    ensures s in ALL_SIGNALS
  {
    match s
    case Stack =>
    case FailingTest =>
    case TestedBy =>
    case RelatedChanged =>
    case DepNeighbor =>
    case InterfaceNeighbor =>
    case LocalModule =>
    case ReusableMemory =>
    case SharedUtility =>
  }

  lemma TallyIsSignals(inp: Input, tallies: map<string, Tally>, path: string)
    requires Represents(tallies, AllMarks(inp))
    ensures path in tallies <==> SignalsOf(inp, path) != {}
    ensures path in tallies ==> tallies[path].signals == SignalsOf(inp, path) && Clamp(tallies[path].score) == ScoreOf(inp, path)
  {
    hide AllMarks, IsMarked, Sum;
    forall s ensures s in SignalsOf(inp, path) <==> Mark(path, s) in AllMarks(inp) {
      MarksAreSignals(inp, Mark(path, s));
      AllAreListed(s);
    }
    if path in tallies {
      assert forall s :: s in tallies[path].signals <==> Mark(path, s) in AllMarks(inp);
      assert tallies[path].signals == SignalsOf(inp, path);
    } else {
      assert forall s :: Mark(path, s) !in AllMarks(inp);
      assert SignalsOf(inp, path) == {};
    }
  }

  /** Every path with a signal, once, with its score, best first. */
  method RankFaultCandidates(inp: Input) returns (ranked: seq<Candidate>)
    ensures IsRanking(inp, ranked)
  {
    var tallies := Tallies(inp);
    hide Represents, SignalsOf, ScoreOf, AllMarks;
    forall p
      ensures p in tallies <==> SignalsOf(inp, p) != {}
      ensures p in tallies ==> tallies[p].signals == SignalsOf(inp, p) && Clamp(tallies[p].score) == ScoreOf(inp, p)
    {
      TallyIsSignals(inp, tallies, p);
    }
    ranked := [];
    var todo := tallies.Keys;
    while todo != {}
      invariant todo <= tallies.Keys && IsRanked(ranked)
      invariant forall c :: c in ranked ==> c.path in tallies && c.path !in todo && c.signals == tallies[c.path].signals && c.score == Clamp(tallies[c.path].score)
      invariant forall p :: p in tallies && p !in todo ==> exists c :: c in ranked && c.path == p
    {
      var p :| p in todo;
      var c := Candidate(p, Clamp(tallies[p].score), tallies[p].signals);
      ghost var before := ranked;
      ranked := InsertRanked(ranked, c);
      assert forall x :: x in before ==> x in ranked;
      assert c in ranked;
      todo := todo - {p};
    }
  }
}
