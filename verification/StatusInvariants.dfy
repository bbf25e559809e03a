/**
 What every status write keeps: timestamps and conditions agree, honored force values stay behind the
 results they waited for, and each level's condition tells the outcome of the last Job ingested.
 */
module StatusInvariants {
  import opened Types
  import opened ConditionSet
  import opened Jobs
  import opened Reconcile

  predicate HasResult(st: Status, t: CondType) { Real(Find(st.conditions, t)) }

  /** Without a result a level's condition is absent or exactly the placeholder. */
  predicate Placeheld(st: Status, t: CondType) {
    t in st.conditions ==> HasResult(st, t) || st.conditions[t] == NOT_YET
  }

  /** A condition with a result tells how the last ingested Job ended. */
  predicate TellsLast(st: Status, t: CondType, lv: Level) {
    HasResult(st, t) ==>
      lv.ingests != [] &&
      st.conditions[t].status == (if lv.ingests[|lv.ingests| - 1].ok then IsTrue else IsFalse)
  }

  predicate LevelTold(st: Status, t: CondType, lv: Level) { Placeheld(st, t) && TellsLast(st, t, lv) }

  /** An honored value is whole seconds and strictly before the level's recorded result. */
  predicate HonoredBefore(honored: Option<Time>, marker: Option<Time>) {
    honored.Some? ==> Stored(honored.value) == honored.value && After(marker, honored.value)
  }

  predicate E2Synced(st: Status) { st.verifiedValidationAt.Some? <==> HasResult(st, MetadataValid) }
  predicate E3Synced(st: Status) { st.verifiedSampledAt.Some? <==> HasResult(st, SampledIntegrityValid) }
  predicate E4Synced(st: Status) { st.lastFullRetrieval.Some? ==> HasResult(st, FullRetrievalCompleted) }

  /** What the last ingest that carried counts says: its time, its counts, and why its Job was created. */
  function LastCounted(ingests: seq<Ingest>, spawns: seq<Spawn>): Option<FullRetrieval>
    requires forall i :: 0 <= i < |ingests| ==> ingests[i].id < |spawns|
  {
    if ingests == [] then None
    else
      var last := ingests[|ingests| - 1];
      if last.counts.Some? then Some(FullRetrieval(last.at, last.counts.value, spawns[last.id].cause.Forced?))
      else LastCounted(ingests[..|ingests| - 1], spawns)
  }

  /** The recorded retrieval is that of the last ingest that carried counts. */
  ghost predicate RetrievalKept(st: Status, lv: Level) {
    && (forall i :: 0 <= i < |lv.ingests| ==> lv.ingests[i].id < |lv.spawns|)
    && st.lastFullRetrieval == LastCounted(lv.ingests, lv.spawns)
  }

  lemma {:induction false} LastCountedLater(ingests: seq<Ingest>, spawns: seq<Spawn>, spawns': seq<Spawn>)
    requires spawns <= spawns' && forall i :: 0 <= i < |ingests| ==> ingests[i].id < |spawns|
    ensures LastCounted(ingests, spawns) == LastCounted(ingests, spawns')
  {
    if ingests != [] && ingests[|ingests| - 1].counts.None? {
      LastCountedLater(ingests[..|ingests| - 1], spawns, spawns');
    }
  }

  // ----- the write of a completed reconcile -----

  /** A write told of the written status as a value of its own. */
  ghost predicate Wrote(spec: Spec, st: Status, p: Probe, plan: Plan, now: Time, st': Status) {
    var fields := FieldsAfter(st, p, plan, now);
    && st' == fields.(conditions := st'.conditions)
    && Written(spec, fields, ProbeInputs(spec, st, p, plan, now), st'.conditions)
  }

  lemma StatusAfterWrote(spec: Spec, st: Status, p: Probe, plan: Plan, now: Time)
    ensures Wrote(spec, st, p, plan, now, StatusAfter(spec, st, p, plan, now))
  {
    ConditionsWritten(spec, FieldsAfter(st, p, plan, now), ProbeInputs(spec, st, p, plan, now));
  }

  lemma WriteE2(spec: Spec, st: Status, p: Probe, plan: Plan, now: Time, st': Status, lv: Level, lv': Level)
    requires Wrote(spec, st, p, plan, now, st')
    requires E2Synced(st) && LevelTold(st, MetadataValid, lv)
    requires lv'.ingests == Record(lv, plan.o2.completed, plan.o2.counts).ingests
    ensures E2Synced(st') && LevelTold(st', MetadataValid, lv')
    ensures st'.verifiedValidationAt == Advance(st.verifiedValidationAt, plan.o2.completed)
  {
    assert MetadataValid in LEAF_TYPES;
  }

  lemma WriteE3(spec: Spec, st: Status, p: Probe, plan: Plan, now: Time, st': Status, lv: Level, lv': Level)
    requires Wrote(spec, st, p, plan, now, st')
    requires LevelTold(st, SampledIntegrityValid, lv)
    requires lv'.ingests == Record(lv, plan.o3.completed, plan.o3.counts).ingests
    ensures LevelTold(st', SampledIntegrityValid, lv')
    ensures HasResult(st', SampledIntegrityValid) ==> st'.verifiedSampledAt.Some?
    ensures spec.sampledInterval.Some? && E3Synced(st) ==>
              E3Synced(st') && st'.verifiedSampledAt == Advance(st.verifiedSampledAt, plan.o3.completed)
  {
    assert SampledIntegrityValid in LEAF_TYPES;
  }

  /** Disabling E3 while it holds a result is the one write that separates its timestamp from its condition. */
  lemma E3SyncExactly(spec: Spec, st: Status, p: Probe, plan: Plan, now: Time, st': Status)
    requires Wrote(spec, st, p, plan, now, st') && (plan.o3.completed.Some? ==> spec.sampledInterval.Some?)
    ensures E3Synced(st') <==>
            spec.sampledInterval.Some? || !(st.verifiedSampledAt.Some? && HasResult(st, SampledIntegrityValid))
  {
    assert SampledIntegrityValid in LEAF_TYPES;
  }

  lemma WriteE4(spec: Spec, st: Status, p: Probe, plan: Plan, now: Time, st': Status, lv: Level, lv': Level)
    requires Wrote(spec, st, p, plan, now, st')
    requires E4Synced(st) && LevelTold(st, FullRetrievalCompleted, lv)
    requires lv'.ingests == Record(lv, plan.o4.completed, plan.o4.counts).ingests
    ensures E4Synced(st') && LevelTold(st', FullRetrievalCompleted, lv')
    ensures plan.o4.completed.None? || plan.o4.counts.None? ==>
              st'.lastFullRetrieval == st.lastFullRetrieval
    ensures plan.o4.completed.Some? && plan.o4.counts.Some? ==>
              var j := plan.o4.completed.value;
              st'.lastFullRetrieval == Some(FullRetrieval(j.CompletedAt(), plan.o4.counts.value, j.manual))
  {
    assert FullRetrievalCompleted in LEAF_TYPES;
  }

  // ----- the write of a credential failure -----

  ghost predicate WroteFailure(spec: Spec, st: Status, now: Time, st': Status) {
    var probed := st.(lastProbedAt := Some(Stored(now)));
    && st' == probed.(conditions := st'.conditions)
    && Written(spec, probed, CredentialInputs(st.conditions), st'.conditions)
  }

  lemma CredentialFailureWrote(spec: Spec, st: Status, now: Time)
    ensures WroteFailure(spec, st, now, StatusAfterCredentialFailure(spec, st, now))
  {
    ConditionsWritten(spec, st.(lastProbedAt := Some(Stored(now))), CredentialInputs(st.conditions));
  }

  lemma CredentialWrite(spec: Spec, st: Status, now: Time, st': Status, t: CondType, lv: Level)
    requires t in {MetadataValid, SampledIntegrityValid, FullRetrievalCompleted}
    requires WroteFailure(spec, st, now, st') && LevelTold(st, t, lv)
    ensures LevelTold(st', t, lv)
    ensures t in st'.conditions ==> (HasResult(st, t) <==> HasResult(st', t))
    ensures HasResult(st, t) && t in st'.conditions ==> st'.conditions[t] == st.conditions[t]
    ensures t == MetadataValid ==> t in st'.conditions
    ensures t == SampledIntegrityValid ==> (t in st'.conditions <==> spec.sampledInterval.Some?)
    ensures t == FullRetrievalCompleted ==>
              (t in st'.conditions <==> spec.fullInterval.Some? || st.lastFullRetrieval.Some?)
  {
    assert t in LEAF_TYPES;
  }
}
