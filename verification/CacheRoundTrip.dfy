/** From populating the cache to being answered HIT: exactly when nothing recorded has changed. */
module CacheRoundTrip {
  import opened Basics
  import opened Gates
  import opened Records
  import opened CacheIntegrity
  import opened CacheValidity
  import opened CachePopulation
  import opened CacheStore
  import opened CacheDecision

  /** A record just populated, asked for again while its inputs are unchanged, makes the gate a HIT. */
  lemma UnchangedInputsHit(s: Store, a: Asker, changed: set<string>, e: Evidence, made: Bundle, madeEnv: Env, now: Tick)
    requires WellFormed(s) && BelongsTo(s, a.projectId)
    requires IsCacheable(a.projectId, e, made, madeEnv) && HasText(e.outputDigest)
    ensures var r := RecordOf(a.projectId, changed, e, made, madeEnv, now);
      var t := Persisted(s, r).0;
      && WellFormed(t) && BelongsTo(t, a.projectId)
      && (IsSearched(t.index, a, e.gate) && InputsUnchanged(r, made, madeEnv, a.bundle.value, a.env) ==> IsHit(t, a, e.gate))
  {
    var r := RecordOf(a.projectId, changed, e, made, madeEnv, now);
    var t := Persisted(s, r).0;
    PersistKeepsWellFormed(s, r);
    PersistKeepsProjection(s, r);
    PopulatedRecordsAreMadeFrom(a.projectId, changed, e, made, madeEnv, now);
    if IsSearched(t.index, a, e.gate) {
      hide IsCurrent, IsSemanticallyValid, MadeFrom, Rewritten;

      CurrentExactlyWhenUnchanged(r, made, madeEnv, a.bundle.value, a.env);
      HitMeansNewestUsable(t, a, e.gate);
      assert t.records[r.id] == r;
    }
  }

  /** A HIT on a record means its inputs are unchanged. */
  lemma HitInputsAreUnchanged(s: Store, a: Asker, gate: Gate, made: Bundle, madeEnv: Env)
    requires WellFormed(s) && IsHit(s, a, gate)
    requires MadeFrom(s.records[CandidateOf(s, a, gate).value], made, madeEnv)
    ensures InputsUnchanged(s.records[CandidateOf(s, a, gate).value], made, madeEnv, a.bundle.value, a.env)
  {
    hide IsCurrent, MadeFrom, InputsUnchanged;
    HitIsUsable(s, a, gate);
    CurrentExactlyWhenUnchanged(s.records[CandidateOf(s, a, gate).value], made, madeEnv, a.bundle.value, a.env);
  }
}
