/** What a path's score is, read off the frames, tests, edges and files. */
module RankingReadings {
  import opened CacheValidity
  import opened FaultRanking

  predicate IsSeedPath(inp: Input, p: string) {
    p in inp.frames || p in inp.tests || exists r :: r in inp.relations && r.source == p && r.test in inp.tests
  }

  predicate HasNoSlash(p: string, from: nat) {
    forall i :: from <= i < |p| ==> p[i] != '/'
  }

  /** The part of a path before its last slash. */
  predicate IsDirectoryOf(d: string, p: string) {
    (HasNoSlash(p, 0) && d == "") || (|d| < |p| && d <= p && p[|d|] == '/' && HasNoSlash(p, |d| + 1))
  }

  ghost predicate AreSiblings(x: string, y: string) {
    exists d :: IsDirectoryOf(d, x) && IsDirectoryOf(d, y)
  }

  predicate OccursIn(part: string, text: string) {
    exists i :: 0 <= i <= |text| && part <= text[i..]
  }

  predicate IsTestFile(p: string) {
    OccursIn(".test.", p) || OccursIn(".spec.", p) || OccursIn("/tests/", p)
  }

  predicate IsImport(e: Edge) {
    e.kind == Imports || e.kind == Requires || e.kind == DynamicImport
  }

  /** A seed, beside one, or joined to one by any edge or test relation. */
  ghost predicate IsRelatedPath(inp: Input, p: string) {
    || IsSeedPath(inp, p)
    || (exists x :: IsSeedPath(inp, x) && AreSiblings(x, p))
    || (exists e :: e in inp.edges && ((e.source == p && IsSeedPath(inp, e.target)) || (e.target == p && IsSeedPath(inp, e.source))))
    || (exists r :: r in inp.relations && ((r.test == p && IsSeedPath(inp, r.source)) || (r.source == p && IsSeedPath(inp, r.test))))
  }

  /** Imports a seed or is imported by one, other than itself. */
  predicate IsImportNeighbor(inp: Input, p: string) {
    exists e :: e in inp.edges && IsImport(e) && e.source != e.target
      && ((e.target == p && IsSeedPath(inp, e.source)) || (e.source == p && IsSeedPath(inp, e.target)))
  }

  /** The import is by a seed that is no test file. */
  predicate IsOwnImport(inp: Input, e: Edge, p: string) {
    IsImport(e) && e.target == p && e.source != p && IsSeedPath(inp, e.source) && !IsTestFile(e.source)
  }

  /** Two different seeds, no test files, import it. */
  predicate IsSharedByTwo(inp: Input, p: string) {
    exists e, f :: e in inp.edges && f in inp.edges && e.source != f.source && IsOwnImport(inp, e, p) && IsOwnImport(inp, f, p)
  }

  predicate IsInterfaceNeighbor(inp: Input, p: string) {
    exists e :: e in inp.edges && e.kind == InterfaceReference
      && ((e.source == p && IsSeedPath(inp, e.target)) || (e.target == p && IsSeedPath(inp, e.source)))
  }

  /** A source, test or schema file beside a seed other than itself. */
  ghost predicate IsModuleNeighbor(inp: Input, p: string) {
    exists n, x :: n in inp.nodes && n.path == p && (n.kind == SourceNode || n.kind == TestNode || n.kind == SchemaNode)
      && x != p && IsSeedPath(inp, x) && AreSiblings(x, p)
  }

  function If(condition: bool, points: nat): nat {
    if condition then points else 0
  }

  /** The hundredths a path collects; none if it has no name, or is neither indexed nor a seed. */
  ghost function PointsOf(inp: Input, p: string): nat {
    if p == "" || !(p in inp.indexed || IsSeedPath(inp, p)) then 0
    else
      If(p in inp.frames, 40) + If(p in inp.tests, 30)
      + If(exists r :: r in inp.relations && r.source == p && r.test in inp.tests, 25)
      + If(p in inp.changed && IsRelatedPath(inp, p), 20) + If(IsSharedByTwo(inp, p), 18) + If(IsImportNeighbor(inp, p), 12)
      + If(IsInterfaceNeighbor(inp, p), 10) + If(IsModuleNeighbor(inp, p), 8) + If(p in inp.reusable, 6)
  }

  lemma {:induction false} DirectoryMeans(p: string)
    ensures IsDirectoryOf(DirOf(p), p)
    ensures forall d :: IsDirectoryOf(d, p) ==> d == DirOf(p)
  {
    if p == "" {
    } else {
      var init, last := p[..|p| - 1], p[|p| - 1];
      DirectoryMeans(init);
      if last != '/' {
        forall d ensures IsDirectoryOf(d, p) <==> IsDirectoryOf(d, init) {
          assert HasNoSlash(p, 0) <==> HasNoSlash(init, 0);
          if |d| < |init| { assert p[|d|] == init[|d|] && (HasNoSlash(p, |d| + 1) <==> HasNoSlash(init, |d| + 1)); }
        }
      } else {
        forall k: nat | k <= |p| - 1 ensures !HasNoSlash(p, k) { assert p[|p| - 1] == '/'; }
        assert IsDirectoryOf(init, p);
      }
    }
  }

  lemma SiblingsMean(x: string, y: string)
    ensures AreSiblings(x, y) <==> DirOf(x) == DirOf(y)
  {
    DirectoryMeans(x);
    DirectoryMeans(y);
  }

  lemma {:induction false} OccurringMeans(text: string, part: string)
    ensures Contains(text, part) <==> OccursIn(part, text)
  {
    if part <= text {
      assert part <= text[0..];
    } else if text == "" {
    } else {
      OccurringMeans(text[1..], part);
      if i :| 0 <= i <= |text[1..]| && part <= text[1..][i..] {
        assert text[i + 1..] == text[1..][i..];
      }
      if i :| 0 <= i <= |text| && part <= text[i..] {
        assert i > 0 && text[i..] == text[1..][i - 1..];
      }
    }
  }

  lemma TestFileMeans(p: string)
    ensures IsTestPath(p) <==> IsTestFile(p)
  {
    OccurringMeans(p, ".test.");
    OccurringMeans(p, ".spec.");
    OccurringMeans(p, "/tests/");
  }

  lemma SeedMeans(inp: Input, p: string)
    ensures p in SeedsOf(inp) <==> IsSeedPath(inp, p)
  {
  }

  lemma RelatedMeans(inp: Input, p: string)
    ensures IsRelated(inp, SeedsOf(inp), p) <==> IsRelatedPath(inp, p)
  {
    forall x { SeedMeans(inp, x); }
    forall x { SiblingsMean(x, p); }
    hide AreSiblings, DirOf, SeedsOf, IsSeedPath;
  }

  lemma SharedMeans(inp: Input, p: string)
    ensures |Owners(inp.edges, SeedsOf(inp), p)| >= 2 <==> IsSharedByTwo(inp, p)
  {
    var owners := Owners(inp.edges, SeedsOf(inp), p);
    forall x { SeedMeans(inp, x); }
    forall x { TestFileMeans(x); }
    hide SeedsOf, IsSeedPath, IsTestPath, IsTestFile;
    assert forall x :: x in owners <==> exists e :: e in inp.edges && IsOwnImport(inp, e, p) && e.source == x by {
      forall e | e in inp.edges ensures IsDependency(e, SeedsOf(inp)) && e.target == p && !IsTestPath(e.source) <==> IsOwnImport(inp, e, p) {}
    }
    hide IsOwnImport, Owners;
    if |owners| >= 2 {
      var x :| x in owners;
      assert |owners - {x}| >= 1;
      var y :| y in owners - {x};
    }
    if IsSharedByTwo(inp, p) {
      var e, f :| e in inp.edges && f in inp.edges && e.source != f.source && IsOwnImport(inp, e, p) && IsOwnImport(inp, f, p);
      assert {e.source, f.source} <= owners;
      SubsetIsSmaller({e.source, f.source}, owners);
    }
  }

  lemma NeighborsMean(inp: Input, p: string)
    ensures IsDepNeighbor(inp.edges, SeedsOf(inp), p) <==> IsImportNeighbor(inp, p)
    ensures IsInterface(inp.edges, SeedsOf(inp), p) <==> IsInterfaceNeighbor(inp, p)
    ensures IsLocal(inp.nodes, SeedsOf(inp), p) <==> IsModuleNeighbor(inp, p)
  {
    forall x { SeedMeans(inp, x); }
    forall x { SiblingsMean(x, p); }
    hide AreSiblings, DirOf, SeedsOf, IsSeedPath;
    if IsLocal(inp.nodes, SeedsOf(inp), p) {
      var x, n :| x in SeedsOf(inp) && n in inp.nodes && IsNeighbor(n, x) && n.path == p;
      assert AreSiblings(x, p);
    }
  }

  /** Each signal holds when its reading does. */
  ghost predicate Reads(inp: Input, p: string, s: Signal) {
    match s
    case Stack => p in inp.frames
    case FailingTest => p in inp.tests
    case TestedBy => exists r :: r in inp.relations && r.source == p && r.test in inp.tests
    case RelatedChanged => p in inp.changed && IsRelatedPath(inp, p)
    case SharedUtility => IsSharedByTwo(inp, p)
    case DepNeighbor => IsImportNeighbor(inp, p)
    case InterfaceNeighbor => IsInterfaceNeighbor(inp, p)
    case LocalModule => IsModuleNeighbor(inp, p)
    case ReusableMemory => p in inp.reusable
  }

  lemma SignalMeans(inp: Input, p: string, s: Signal)
    ensures s in SignalsOf(inp, p) <==> p != "" && (p in inp.indexed || IsSeedPath(inp, p)) && Reads(inp, p, s)
  {
    RelatedMeans(inp, p);
    SharedMeans(inp, p);
    NeighborsMean(inp, p);
    AllAreListed(s);
    hide SeedsOf, IsRelated, IsRelatedPath, IsSharedByTwo, IsImportNeighbor, IsInterfaceNeighbor, IsModuleNeighbor, IsDepNeighbor, IsInterface,
      IsLocal, Owners;
  }

  lemma PointsAreScore(inp: Input, p: string)
    ensures SignalsOf(inp, p) == {} <==> PointsOf(inp, p) == 0
    ensures Sum(SignalsOf(inp, p)) == PointsOf(inp, p)
  {
    forall s ensures s in SignalsOf(inp, p) <==> p != "" && (p in inp.indexed || IsSeedPath(inp, p)) && Reads(inp, p, s) {
      SignalMeans(inp, p, s);
    }
    hide SignalsOf, IsRelatedPath, IsSharedByTwo, IsImportNeighbor, IsInterfaceNeighbor, IsModuleNeighbor, IsSeedPath, Sum;
    var signals := SignalsOf(inp, p);
    SumIsPoints(signals);
    if p == "" || !(p in inp.indexed || IsSeedPath(inp, p)) {
      assert signals == {};
    } else {
      ReadingsAdd(inp, p, signals);
    }
  }

  lemma ReadingsAdd(inp: Input, p: string, signals: set<Signal>)
    requires p != "" && (p in inp.indexed || IsSeedPath(inp, p)) && forall s :: s in signals <==> Reads(inp, p, s)
    ensures Sum(signals) == PointsOf(inp, p)
  {
    hide IsRelatedPath, IsSharedByTwo, IsImportNeighbor, IsInterfaceNeighbor, IsModuleNeighbor, IsSeedPath, Sum;
    SumIsPoints(signals);
    assert (Stack in signals <==> p in inp.frames) && (FailingTest in signals <==> p in inp.tests);
    assert TestedBy in signals <==> exists r :: r in inp.relations && r.source == p && r.test in inp.tests;
    assert (RelatedChanged in signals <==> p in inp.changed && IsRelatedPath(inp, p)) && (SharedUtility in signals <==> IsSharedByTwo(inp, p));
    assert (DepNeighbor in signals <==> IsImportNeighbor(inp, p)) && (InterfaceNeighbor in signals <==> IsInterfaceNeighbor(inp, p));
    assert (LocalModule in signals <==> IsModuleNeighbor(inp, p)) && (ReusableMemory in signals <==> p in inp.reusable);
    hide Reads, If;
  }

  lemma SumIsPoints(signals: set<Signal>)
    ensures Sum(signals) == If(Stack in signals, 40) + If(FailingTest in signals, 30) + If(TestedBy in signals, 25) + If(RelatedChanged in signals, 20)
      + If(SharedUtility in signals, 18) + If(DepNeighbor in signals, 12) + If(InterfaceNeighbor in signals, 10) + If(LocalModule in signals, 8)
      + If(ReusableMemory in signals, 6)
    ensures signals == {} <==> Sum(signals) == 0
  {
    assert Points(signals, Stack) == If(Stack in signals, 40) && Points(signals, FailingTest) == If(FailingTest in signals, 30);
    assert Points(signals, TestedBy) == If(TestedBy in signals, 25) && Points(signals, RelatedChanged) == If(RelatedChanged in signals, 20);
    assert Points(signals, SharedUtility) == If(SharedUtility in signals, 18) && Points(signals, DepNeighbor) == If(DepNeighbor in signals, 12);
    assert Points(signals, InterfaceNeighbor) == If(InterfaceNeighbor in signals, 10) && Points(signals, LocalModule) == If(LocalModule in signals, 8);
    assert Points(signals, ReusableMemory) == If(ReusableMemory in signals, 6);
    hide Points, If;
    if signals != {} {
      var s :| s in signals;
      SignalCounts(signals, s);
    } else {
      NothingCounts();
    }
  }

  lemma NothingCounts()
    ensures Sum({}) == 0
  {
  }

  lemma SignalCounts(signals: set<Signal>, s: Signal)
    requires s in signals
    ensures Sum(signals) > 0
  {
    assert Points(signals, s) > 0;
    hide Points;
  }

  /** A ranking lists exactly the paths with points, each with its points, at most a hundred. */
  lemma RankingReads(inp: Input, ranked: seq<Candidate>, p: string)
    requires IsRanking(inp, ranked)
    ensures (exists c :: c in ranked && c.path == p) <==> PointsOf(inp, p) > 0
    ensures forall c :: c in ranked && c.path == p ==> c.score == if PointsOf(inp, p) > 100 then 100 else PointsOf(inp, p)
  {
    PointsAreScore(inp, p);
    hide PointsOf, SignalsOf, Sum;
  }
}
