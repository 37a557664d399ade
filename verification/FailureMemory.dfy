/** Failure memory: counters per failure signature and what they say about the history of failures. */
module FailureMemory {
  import opened Basics

  datatype MemoryOutcome = OpenOutcome | LoopOutcome | ResolvedOutcome | HistoricalOutcome

  datatype Entry = Entry(
    signature: string, occurrences: nat, lastDigest: Option<string>, streak: nat, lastRecordId: string,
    outcome: MemoryOutcome, candidatePaths: seq<string>)

  datatype Failure = Failure(signature: string, digest: Option<string>, recordId: string, candidatePaths: seq<string>)

  /** A diagnosis never names a new failure; a resolution carries the digest of the accepted correction. */
  datatype Event =
    | Occurred(failure: Failure)
    | Diagnosed(signature: string, matchIsHistorical: bool, candidatePaths: seq<string>)
    | Resolved(signature: string, digest: string)

  const LOOP_THRESHOLD := 3

  function SignatureOf(e: Event): string {
    match e
    case Occurred(f) => f.signature
    case Diagnosed(signature, _, _) => signature
    case Resolved(signature, _) => signature
  }

  function FirstEntry(f: Failure): Entry {
    Entry(f.signature, 1, f.digest, 1, f.recordId, OpenOutcome, f.candidatePaths)
  }

  function WithCandidates(entry: Entry, candidates: seq<string>): Entry {
    if candidates == [] then entry else entry.(candidatePaths := candidates)
  }

  function Recurred(entry: Entry, f: Failure): Entry {
    if entry.lastRecordId == f.recordId then WithCandidates(entry, f.candidatePaths)
    else
      var streak := if Present(f.digest) && entry.lastDigest == f.digest then entry.streak + 1 else 1;
      WithCandidates(
        entry.(occurrences := entry.occurrences + 1, streak := streak, lastDigest := f.digest, lastRecordId := f.recordId,
               outcome := if streak >= LOOP_THRESHOLD then LoopOutcome else entry.outcome),
        f.candidatePaths)
  }

  /** What an event does to the entry of its signature. */
  function After(entry: Option<Entry>, e: Event): Option<Entry> {
    match e
    case Occurred(f) => Some(if entry.None? then FirstEntry(f) else Recurred(entry.value, f))
    case Diagnosed(_, historical, candidates) =>
      if entry.None? then None
      else Some(entry.value.(
        candidatePaths := candidates,
        outcome := if entry.value.streak >= LOOP_THRESHOLD then LoopOutcome
                   else if historical && entry.value.outcome == ResolvedOutcome then HistoricalOutcome
                   else entry.value.outcome))
    case Resolved(_, digest) =>
      if entry.None? then None else Some(entry.value.(outcome := ResolvedOutcome, lastDigest := Some(digest)))
  }

  /** The first entry with a signature. */
  function Find(entries: seq<Entry>, signature: string): (r: Option<nat>)
    ensures r.Some? ==> r.value < |entries| && entries[r.value].signature == signature
    ensures r.None? ==> forall i :: 0 <= i < |entries| ==> entries[i].signature != signature
  {
    if entries == [] then None
    else if entries[0].signature == signature then Some(0)
    else
      var rest := Find(entries[1..], signature);
      if rest.None? then None else Some(rest.value + 1)
  }

  function EntryFor(entries: seq<Entry>, signature: string): Option<Entry> {
    var i := Find(entries, signature);
    if i.None? then None else Some(entries[i.value])
  }

  /** The entry of the event's signature follows the event, every other entry is as it was. */
  ghost predicate Follows(before: seq<Entry>, after: seq<Entry>, e: Event) {
    && EntryFor(after, SignatureOf(e)) == After(EntryFor(before, SignatureOf(e)), e)
    && forall signature :: signature != SignatureOf(e) ==> EntryFor(after, signature) == EntryFor(before, signature)
  }

  ghost predicate HasOneEntryEach(entries: seq<Entry>) {
    forall i, j :: 0 <= i < j < |entries| ==> entries[i].signature != entries[j].signature
  }

  lemma EntryAt(entries: seq<Entry>, i: nat)
    requires HasOneEntryEach(entries) && i < |entries|
    ensures Find(entries, entries[i].signature) == Some(i)
  {
    var found := Find(entries, entries[i].signature);
    assert found.Some?;
  }

  class Memory {
    var entries: seq<Entry>

    ghost predicate Valid()
      reads this
    {
      HasOneEntryEach(entries)
    }

    constructor ()
      ensures Valid() && entries == []
    {
      entries := [];
    }

    /** The entry of the failure's signature follows the event; every other entry is untouched. */
    method UpsertFailureOccurrence(f: Failure)
      requires Valid()
      modifies this
      ensures Valid()
      ensures Follows(old(entries), entries, Occurred(f))
    {
      var i := Find(entries, f.signature);
      if i.None? {
        ghost var before := entries;
        entries := entries + [FirstEntry(f)];
        AppendedEntry(before, FirstEntry(f), f.signature);
        forall signature | signature != f.signature ensures EntryFor(entries, signature) == EntryFor(before, signature) {
          AppendedEntry(before, FirstEntry(f), signature);
        }
        return;
      }
      var entry := entries[i.value];
      if entry.lastRecordId != f.recordId {
        entry := entry.(occurrences := entry.occurrences + 1);
        if Present(f.digest) && entry.lastDigest == f.digest {
          entry := entry.(streak := entry.streak + 1);
        } else {
          entry := entry.(streak := 1);
        }
        entry := entry.(lastDigest := f.digest, lastRecordId := f.recordId);
        if entry.streak >= LOOP_THRESHOLD {
          entry := entry.(outcome := LoopOutcome);
        }
      }
      if f.candidatePaths != [] {
        entry := entry.(candidatePaths := f.candidatePaths);
      }
      Replace(i.value, entry);
    }

    method Replace(i: nat, entry: Entry)
      requires Valid() && i < |entries| && entry.signature == entries[i].signature
      modifies this
      ensures Valid()
      ensures EntryFor(entries, entry.signature) == Some(entry)
      ensures forall signature :: signature != entry.signature ==> EntryFor(entries, signature) == old(EntryFor(entries, signature))
    {
      ghost var before := entries;
      entries := entries[i := entry];
      EntryAt(entries, i);
      forall signature | signature != entry.signature ensures EntryFor(entries, signature) == EntryFor(before, signature) {
        ReplacedEntry(before, i, entry, signature);
      }
    }

    /** Fails where the signature was never recorded. */
    method NoteDiagnosisAttempt(signature: string, matchIsHistorical: bool, candidates: seq<string>) returns (result: Option<Entry>)
      requires Valid()
      modifies this
      ensures Valid() && result == EntryFor(entries, signature)
      ensures Follows(old(entries), entries, Diagnosed(signature, matchIsHistorical, candidates))
    {
      var i := Find(entries, signature);
      if i.None? {
        return None;
      }
      var entry := entries[i.value].(candidatePaths := candidates);
      if matchIsHistorical && entry.outcome == ResolvedOutcome {
        entry := entry.(outcome := HistoricalOutcome);
      }
      if entry.streak >= LOOP_THRESHOLD {
        entry := entry.(outcome := LoopOutcome);
      }
      Replace(i.value, entry);
      result := Some(entry);
    }

    /** Records an accepted correction: the last digest becomes the correction's, the counters stay. */
    method MarkVerifiedResolution(signature: string, digest: string) returns (ok: bool)
      requires Valid()
      modifies this
      ensures Valid() && (ok <==> old(EntryFor(entries, signature)).Some?)
      ensures Follows(old(entries), entries, Resolved(signature, digest))
    {
      var i := Find(entries, signature);
      if i.None? {
        return false;
      }
      Replace(i.value, entries[i.value].(outcome := ResolvedOutcome, lastDigest := Some(digest)));
      ok := true;
    }
  }

  lemma {:induction false} AppendedEntry(entries: seq<Entry>, entry: Entry, signature: string)
    ensures EntryFor(entries + [entry], signature)
      == if EntryFor(entries, signature).Some? then EntryFor(entries, signature) else if entry.signature == signature then Some(entry) else None
  {
    if entries == [] || entries[0].signature == signature {
    } else {
      assert (entries + [entry])[1..] == entries[1..] + [entry];
      AppendedEntry(entries[1..], entry, signature);
    }
  }

  lemma {:induction false} ReplacedEntry(entries: seq<Entry>, i: nat, entry: Entry, signature: string)
    requires i < |entries| && entry.signature == entries[i].signature != signature
    ensures EntryFor(entries[i := entry], signature) == EntryFor(entries, signature)
  {
    if i > 0 {
      assert entries[i := entry][1..] == entries[1..][i - 1 := entry];
      ReplacedEntry(entries[1..], i - 1, entry, signature);
    } else {
      assert entries[i := entry][1..] == entries[1..];
    }
  }

  /** Histories. */

  function About(signature: string): Event -> bool {
    (e: Event) => SignatureOf(e) == signature
  }

  /** The memories after each event, from an empty one. */
  ghost predicate IsHistory(memories: seq<seq<Entry>>, events: seq<Event>) {
    && |memories| == |events| + 1 && memories[0] == []
    && forall i :: 0 <= i < |events| ==> Follows(memories[i], memories[i + 1], events[i])
  }

  function EntryAfterAll(events: seq<Event>): Option<Entry> {
    if events == [] then None else After(EntryAfterAll(events[..|events| - 1]), events[|events| - 1])
  }

  /** A signature's entry depends on the events about that signature only. */
  lemma {:induction false} EntriesAreIndependent(memories: seq<seq<Entry>>, events: seq<Event>, signature: string)
    requires IsHistory(memories, events)
    ensures EntryFor(memories[|events|], signature) == EntryAfterAll(Filter(events, About(signature)))
  {
    if events == [] {
    } else {
      var init, last := events[..|events| - 1], events[|events| - 1];
      assert events == init + [last];
      assert IsHistory(memories[..|events|], init);
      EntriesAreIndependent(memories[..|events|], init, signature);
      FilterAppend(init, last, About(signature));
      assert Follows(memories[|init|], memories[|events|], last);
      var kept := Filter(init, About(signature));
      assert (kept + [last])[..|kept|] == kept;
    }
  }

  /** Distinct failures in order: re-reporting the failure just recorded is no new observation. */
  function Observations(events: seq<Event>): seq<Failure> {
    if events == [] then []
    else
      var init := Observations(events[..|events| - 1]);
      match events[|events| - 1]
      case Occurred(f) => Observe(init, f)
      case _ => init
  }

  function Streak(observed: seq<Failure>): nat {
    if |observed| <= 1 then |observed|
    else
      var last, before := observed[|observed| - 1], observed[|observed| - 2];
      if Present(last.digest) && before.digest == last.digest then Streak(observed[..|observed| - 1]) + 1 else 1
  }

  /** The last k observations share one digest that is present. */
  predicate ShareDigest(observed: seq<Failure>, k: nat)
    requires 1 <= k <= |observed|
  {
    var digest := observed[|observed| - 1].digest;
    Present(digest) && forall i :: |observed| - k <= i < |observed| ==> observed[i].digest == digest
  }

  /** The streak is the length of the longest suffix with one present digest, or 1 where the last has none. */
  lemma {:induction false} StreakIsLongestSuffix(observed: seq<Failure>)
    requires observed != []
    ensures 1 <= Streak(observed) <= |observed|
    ensures !Present(observed[|observed| - 1].digest) ==> Streak(observed) == 1
    ensures Present(observed[|observed| - 1].digest) ==>
      forall k :: 1 <= k <= |observed| ==> (ShareDigest(observed, k) <==> k <= Streak(observed))
  {
    if |observed| <= 1 {
    } else {
      var init := observed[..|observed| - 1];
      StreakIsLongestSuffix(init);
      if Present(observed[|observed| - 1].digest) {
        forall k | 1 <= k <= |observed| ensures ShareDigest(observed, k) <==> k <= Streak(observed) {
          if k > 1 {
            assert ShareDigest(observed, k) ==> observed[|observed| - 2].digest == observed[|observed| - 1].digest;
            if observed[|observed| - 2].digest == observed[|observed| - 1].digest {
              assert ShareDigest(observed, k) <==> ShareDigest(init, k - 1);
            }
          }
        }
      }
    }
  }

  /** The failure just recorded, reported again. */
  predicate IsRepeated(observed: seq<Failure>, f: Failure) {
    observed != [] && observed[|observed| - 1].recordId == f.recordId
  }

  function Observe(observed: seq<Failure>, f: Failure): seq<Failure> {
    if IsRepeated(observed, f) then observed else observed + [f]
  }

  /** Histories with resolutions: an observation together with the digest memory held when it came, which is that of the
      previous observation or of a resolution since. */

  datatype Sighting = Sighting(failure: Failure, held: Option<string>)

  function HeldDigest(events: seq<Event>): Option<string> {
    if events == [] then None
    else
      var init := events[..|events| - 1];
      match events[|events| - 1]
      case Occurred(f) => if IsRepeated(Observations(init), f) then HeldDigest(init) else f.digest
      case Diagnosed(_, _, _) => HeldDigest(init)
      case Resolved(_, digest) => if Observations(init) == [] then None else Some(digest)
  }

  function Sightings(events: seq<Event>): (r: seq<Sighting>)
    ensures |r| == |Observations(events)|
    ensures forall i :: 0 <= i < |r| ==> r[i].failure == Observations(events)[i]
  {
    if events == [] then []
    else
      var init := events[..|events| - 1];
      var seen := Sightings(init);
      match events[|events| - 1]
      case Occurred(f) => if IsRepeated(Observations(init), f) then seen else seen + [Sighting(f, HeldDigest(init))]
      case _ => seen
  }

  /** The failure recurred at the digest memory held. */
  predicate IsLinked(s: Sighting) {
    Present(s.failure.digest) && s.held == s.failure.digest
  }

  function Links(sightings: seq<Sighting>): seq<bool> {
    seq(|sightings|, i requires 0 <= i < |sightings| => IsLinked(sightings[i]))
  }

  /** How many at the end are true. */
  function Trailing(marks: seq<bool>): nat {
    if marks == [] || !marks[|marks| - 1] then 0 else Trailing(marks[..|marks| - 1]) + 1
  }

  lemma {:induction false} TrailingMeaning(marks: seq<bool>, k: nat)
    requires k <= |marks|
    ensures k <= Trailing(marks) <==> forall i :: |marks| - k <= i < |marks| ==> marks[i]
  {
    if k == 0 || !marks[|marks| - 1] {
    } else {
      TrailingMeaning(marks[..|marks| - 1], k - 1);
    }
  }

  /** The lists differ at i and are true from there on. */
  predicate DivergesAt(a: seq<bool>, b: seq<bool>, i: nat)
    requires |a| == |b| && i < |a|
  {
    a[i] != b[i] && forall j :: i < j < |a| ==> a[j] && b[j]
  }

  predicate NoneDiverges(a: seq<bool>, b: seq<bool>)
    requires |a| == |b|
  {
    forall i :: 0 <= i < |a| ==> !DivergesAt(a, b, i)
  }

  lemma {:induction false} TrailingAgreesExactlyWhen(a: seq<bool>, b: seq<bool>)
    requires |a| == |b|
    ensures Trailing(a) == Trailing(b) <==> NoneDiverges(a, b)
  {
    if a == [] {
      assert Trailing(a) == Trailing(b) == 0;
    } else {
      var n := |a|;
      var x, y := a[..n - 1], b[..n - 1];
      TrailingAgreesExactlyWhen(x, y);
      if a[n - 1] && b[n - 1] {
        assert forall i :: 0 <= i < n - 1 ==> DivergesAt(a, b, i) == DivergesAt(x, y, i);
      } else if a[n - 1] != b[n - 1] {
        assert DivergesAt(a, b, n - 1);
      }
    }
  }

  /** What the entry says of the sightings. */
  predicate Counts(entry: Option<Entry>, sightings: seq<Sighting>, held: Option<string>) {
    && (entry.None? <==> sightings == [])
    && (entry.Some? ==>
          && entry.value.occurrences == |sightings| && entry.value.streak == Trailing(Links(sightings)) + 1
          && entry.value.lastDigest == held && entry.value.lastRecordId == sightings[|sightings| - 1].failure.recordId)
  }

  lemma SightingCounts(entry: Entry, sightings: seq<Sighting>, held: Option<string>, f: Failure)
    requires Counts(Some(entry), sightings, held) && entry.lastRecordId != f.recordId
    ensures Counts(Some(Recurred(entry, f)), sightings + [Sighting(f, held)], f.digest)
  {
    var all := sightings + [Sighting(f, held)];
    assert Links(all)[..|sightings|] == Links(sightings);
  }

  /** Over every history, resolutions included: occurrences is the number of distinct recorded failures, and the streak is
      one more than the length of the longest suffix of failures each seen at the digest memory then held. */
  lemma {:induction false} CountersRefineHistory(events: seq<Event>)
    ensures Counts(EntryAfterAll(events), Sightings(events), HeldDigest(events))
  {
    if events == [] {
      assert EntryAfterAll(events) == None && Sightings(events) == [];
    } else {
      var init := events[..|events| - 1];
      CountersRefineHistory(init);
      FirstIsNotLinked(init);
      var entry, seen := EntryAfterAll(init), Sightings(init);
      match events[|events| - 1]
      case Occurred(f) =>
        if entry.Some? && entry.value.lastRecordId != f.recordId {
          SightingCounts(entry.value, seen, HeldDigest(init), f);
        }
      case _ =>
    }
  }

  /** So the streak reaches k exactly when the last k - 1 failures each recurred at the digest memory held. */
  lemma StreakIsLongestLinkedSuffix(events: seq<Event>, k: nat)
    requires EntryAfterAll(events).Some? && k < |Sightings(events)|
    ensures k + 1 <= EntryAfterAll(events).value.streak
      <==> forall i :: |Sightings(events)| - k <= i < |Sightings(events)| ==> IsLinked(Sightings(events)[i])
  {
    CountersRefineHistory(events);
    hide EntryAfterAll, Sightings;
    TrailingMeaning(Links(Sightings(events)), k);
    assert forall i :: 0 <= i < |Sightings(events)| ==> Links(Sightings(events))[i] == IsLinked(Sightings(events)[i]);
  }

  predicate IsLooping(entry: Entry) {
    entry.streak >= LOOP_THRESHOLD
  }

  predicate AreThreeAlike(observed: seq<Failure>) {
    |observed| >= LOOP_THRESHOLD && ShareDigest(observed, LOOP_THRESHOLD)
  }

  /** Over every history a loop is reported exactly when the last two failures recurred at the digest memory held. That is
      the digest shared by the last three, where these are alike, unless another was resolved in between; so with no
      resolution a loop means the last three are alike. */
  lemma LoopMeansThreeAlike(events: seq<Event>)
    requires EntryAfterAll(events).Some?
    ensures var entry, sightings, observed := EntryAfterAll(events).value, Sightings(events), Observations(events);
      var n := |sightings|;
      && (IsLooping(entry) <==> n >= LOOP_THRESHOLD && IsLinked(sightings[n - 1]) && IsLinked(sightings[n - 2]))
      && (AreThreeAlike(observed) ==>
            (IsLooping(entry) <==> sightings[n - 1].held == sightings[n - 2].held == observed[n - 1].digest))
      && (IsUnresolved(events) ==> (IsLooping(entry) <==> AreThreeAlike(observed)))
  {
    hide EntryAfterAll, Sightings, Observations;
    if IsUnresolved(events) {
      UnresolvedHoldsLastSeen(events);
    }
    CountersRefineHistory(events);
    FirstIsNotLinked(events);
    var links := Links(Sightings(events));
    assert !links[0];
    if |links| >= 2 {
      TrailingMeaning(links, 2);
    }
  }

  /** The failure came at the digest of the one before it. */
  predicate RecursAt(observed: seq<Failure>, i: nat)
    requires i < |observed|
  {
    i > 0 && Present(observed[i].digest) && observed[i].digest == observed[i - 1].digest
  }

  function Repeats(observed: seq<Failure>): seq<bool> {
    seq(|observed|, i requires 0 <= i < |observed| => RecursAt(observed, i))
  }

  lemma {:induction false} StreakIsTrailingRepeats(observed: seq<Failure>)
    requires observed != []
    ensures Streak(observed) == Trailing(Repeats(observed)) + 1
  {
    if |observed| == 1 {
      assert Streak(observed) == 1;
    } else {
      var init := observed[..|observed| - 1];
      StreakIsTrailingRepeats(init);
      assert Repeats(observed)[..|init|] == Repeats(init);
    }
  }

  /** Over every history the streak is the longest suffix of failures at one digest, unless some failure continued the one
      but not the other, because of a resolution since the failure before it, and all later failures continued both. */
  lemma StreakIsSuffixExactlyWhen(events: seq<Event>)
    requires EntryAfterAll(events).Some?
    ensures EntryAfterAll(events).value.streak == Streak(Observations(events))
      <==> NoneDiverges(Links(Sightings(events)), Repeats(Observations(events)))
  {
    CountersRefineHistory(events);
    hide EntryAfterAll, Sightings, NoneDiverges, Streak, Trailing;
    StreakIsTrailingRepeats(Observations(events));
    TrailingAgreesExactlyWhen(Links(Sightings(events)), Repeats(Observations(events)));
  }

  /** A failure continues one and not the other exactly when a resolution at another digest stands between it and the
      failure before, and it came at one of these two digests. */
  lemma PartingNeedsResolution(events: seq<Event>, i: nat)
    requires i < |Sightings(events)|
    ensures var s, observed := Sightings(events)[i], Observations(events);
      IsLinked(s) != RecursAt(observed, i) <==>
        && i > 0 && Present(s.failure.digest) && s.held != observed[i - 1].digest
        && s.failure.digest in {s.held, observed[i - 1].digest}
  {
    FirstIsNotLinked(events);
  }

  lemma {:induction false} FirstIsNotLinked(events: seq<Event>)
    ensures Observations(events) == [] ==> HeldDigest(events) == None
    ensures Sightings(events) != [] ==> Sightings(events)[0].held == None
  {
    if events == [] {
      assert Sightings(events) == [];
    } else {
      FirstIsNotLinked(events[..|events| - 1]);
    }
  }

  predicate IsUnresolved(events: seq<Event>) {
    forall i :: 0 <= i < |events| ==> !events[i].Resolved?
  }

  lemma {:induction false} UnresolvedHoldsLastSeen(events: seq<Event>)
    requires IsUnresolved(events)
    ensures Observations(events) != [] ==> HeldDigest(events) == Observations(events)[|Observations(events)| - 1].digest
    ensures forall i :: 0 < i < |Sightings(events)| ==> Sightings(events)[i].held == Observations(events)[i - 1].digest
  {
    if events == [] {
      assert Sightings(events) == [];
    } else {
      UnresolvedHoldsLastSeen(events[..|events| - 1]);
    }
  }

  /** With no resolution the streak is the longest suffix at one digest. */
  lemma UnresolvedStreakIsSuffix(events: seq<Event>)
    requires IsUnresolved(events) && EntryAfterAll(events).Some?
    ensures EntryAfterAll(events).value.streak == Streak(Observations(events))
  {
    UnresolvedHoldsLastSeen(events);
    FirstIsNotLinked(events);
    StreakIsSuffixExactlyWhen(events);
  }

  predicate Agrees(entry: Entry, observed: seq<Failure>) {
    && observed != [] && entry.streak == Streak(observed)
    && entry.lastDigest == observed[|observed| - 1].digest && entry.lastRecordId == observed[|observed| - 1].recordId
  }

  /** One resolution between two failures sets the digest the later is compared with. A streak that was the suffix stays it
      exactly when the new failure has no digest, or comes both at the corrective digest and at the last seen one, or at
      neither. */
  lemma StreakAfterResolution(entry: Entry, observed: seq<Failure>, digest: string, f: Failure)
    requires digest != "" && f.recordId != entry.lastRecordId
    ensures var streak := After(After(Some(entry), Resolved(entry.signature, digest)), Occurred(f)).value.streak;
      && streak == (if f.digest == Some(digest) then entry.streak + 1 else 1)
      && (Agrees(entry, observed) ==>
            (streak == Streak(Observe(observed, f)) <==> !Present(f.digest) || (f.digest == Some(digest) <==> f.digest == entry.lastDigest)))
  {
    if observed != [] {
      StreakIsLongestSuffix(observed);
      assert (observed + [f])[..|observed|] == observed;
    }
  }

  /** So across a resolution the streak may count a failure seen at another digest. */
  lemma StreakSpansResolution()
    ensures var events := [
        Occurred(Failure("s", Some("broken"), "f1", [])), Resolved("s", "fixed"), Occurred(Failure("s", Some("fixed"), "f2", []))];
      EntryAfterAll(events).Some? && EntryAfterAll(events).value.streak == 2 && Streak(Observations(events)) == 1
  {
    var f1, f2 := Failure("s", Some("broken"), "f1", []), Failure("s", Some("fixed"), "f2", []);
    var events := [Occurred(f1), Resolved("s", "fixed"), Occurred(f2)];
    ResolvedOnce(f1, "fixed");
    assert events[..|events| - 1] == [Occurred(f1), Resolved("s", "fixed")];
    assert Observations(events) == [f1, f2];
  }

  /** And it may fall short: a failure back at the digest seen before the resolution starts anew. */
  lemma ResolutionMayHideAStreak()
    ensures var events := [
        Occurred(Failure("s", Some("broken"), "f1", [])), Resolved("s", "fixed"), Occurred(Failure("s", Some("broken"), "f2", []))];
      EntryAfterAll(events).Some? && EntryAfterAll(events).value.streak == 1 && Streak(Observations(events)) == 2
  {
    var f1, f2 := Failure("s", Some("broken"), "f1", []), Failure("s", Some("broken"), "f2", []);
    var events := [Occurred(f1), Resolved("s", "fixed"), Occurred(f2)];
    ResolvedOnce(f1, "fixed");
    assert events[..|events| - 1] == [Occurred(f1), Resolved("s", "fixed")];
    assert Observations(events) == [f1, f2];
  }

  lemma ResolvedOnce(f: Failure, digest: string)
    ensures var events := [Occurred(f), Resolved(f.signature, digest)];
      EntryAfterAll(events) == Some(FirstEntry(f).(outcome := ResolvedOutcome, lastDigest := Some(digest))) && Observations(events) == [f]
  {
    var events := [Occurred(f), Resolved(f.signature, digest)];
    assert events[..1] == [Occurred(f)] && [Occurred(f)][..0] == [];
    assert EntryAfterAll([Occurred(f)]) == Some(FirstEntry(f)) && Observations([Occurred(f)]) == [f];
  }
}
