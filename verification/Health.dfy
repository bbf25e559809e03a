/**
 What Healthy means: exactly which facts each of its three values stands for.
 */
module Health {
  import opened Types
  import opened ConditionSet
  import opened Jobs
  import opened Reconcile
  import opened Runs
  import opened StatusInvariants
  import opened Invariants

  /** This cycle's probe reached a secure bucket holding a recent enough backup. */
  predicate ProbeGood(spec: Spec, p: Probe, now: Time) {
    p.reachable && p.secure && p.lastBackup.Some? && now - p.lastBackup.value <= spec.maxBackupLag
  }

  /** The inventory on record, this cycle's or an earlier one's, fits the budget if there is one. */
  predicate WithinBudget(spec: Spec, st: Status) {
    spec.sizeBudget.Some? ==> st.inventory.Some? && st.inventory.value.totalBytes <= spec.sizeBudget.value
  }

  predicate Pending(spec: Spec, st: Status) {
    spec.sizeBudget.Some? && st.inventory.None?
  }

  predicate ProbeLeavesTrue(cs: Conditions) {
    TrueOrAbsent(cs, Reachable) && TrueOrAbsent(cs, BucketSecurityValid) && TrueOrAbsent(cs, BackupCurrent)
  }

  predicate ProbeLeavesNotFalse(cs: Conditions) {
    NotFalse(cs, Reachable) && NotFalse(cs, BucketSecurityValid) && NotFalse(cs, BackupCurrent)
  }

  predicate LevelsTrue(cs: Conditions) {
    && TrueOrAbsent(cs, MetadataValid) && TrueOrAbsent(cs, SampledIntegrityValid)
    && TrueOrAbsent(cs, FullRetrievalCompleted)
  }

  predicate LevelsNotFalse(cs: Conditions) {
    && NotFalse(cs, MetadataValid) && NotFalse(cs, SampledIntegrityValid)
    && NotFalse(cs, FullRetrievalCompleted)
  }

  /** The leaves of a write, read off its inputs. */
  lemma LeafStatuses(spec: Spec, st: Status, p: Probe, plan: Plan, now: Time, st': Status)
    requires Wrote(spec, st, p, plan, now, st')
    ensures var cs := st'.conditions;
            && (ProbeLeavesTrue(cs) <==> ProbeGood(spec, p, now))
            && (ProbeLeavesNotFalse(cs) <==> ProbeGood(spec, p, now))
            && (TrueOrAbsent(cs, SizeWithinBudget) <==> WithinBudget(spec, st'))
            && (NotFalse(cs, SizeWithinBudget) <==> WithinBudget(spec, st') || Pending(spec, st'))
            && MetadataValid in cs
            && (SampledIntegrityValid in cs <==> spec.sampledInterval.Some?)
            && (spec.fullInterval.Some? || st'.lastFullRetrieval.Some? ==> FullRetrievalCompleted in cs)
  {
    assert Reachable in LEAF_TYPES && BucketSecurityValid in LEAF_TYPES && BackupCurrent in LEAF_TYPES;
    assert SizeWithinBudget in LEAF_TYPES && MetadataValid in LEAF_TYPES;
    assert SampledIntegrityValid in LEAF_TYPES && FullRetrievalCompleted in LEAF_TYPES;
  }

  lemma AllLeaves(cs: Conditions)
    ensures (forall t :: t in ALL_LEAVES ==> TrueOrAbsent(cs, t)) <==>
            ProbeLeavesTrue(cs) && TrueOrAbsent(cs, SizeWithinBudget) && LevelsTrue(cs)
    ensures (exists t :: t in ALL_LEAVES && !NotFalse(cs, t)) <==>
            !(ProbeLeavesNotFalse(cs) && NotFalse(cs, SizeWithinBudget) && LevelsNotFalse(cs))
  {
    assert Reachable in ALL_LEAVES && BucketSecurityValid in ALL_LEAVES && BackupCurrent in ALL_LEAVES;
    assert SizeWithinBudget in ALL_LEAVES && MetadataValid in ALL_LEAVES;
    assert SampledIntegrityValid in ALL_LEAVES && FullRetrievalCompleted in ALL_LEAVES;
  }

  /** Exactly what each value of Healthy stands for; the third is False. */
  predicate HealthMeans(spec: Spec, p: Probe, now: Time, st: Status) {
    var cs := st.conditions;
    && Healthy in cs
    && (cs[Healthy].status == IsTrue <==> ProbeGood(spec, p, now) && WithinBudget(spec, st) && LevelsTrue(cs))
    && (cs[Healthy].status == IsUnknown <==>
          && ProbeGood(spec, p, now) && (WithinBudget(spec, st) || Pending(spec, st)) && LevelsNotFalse(cs)
          && !(WithinBudget(spec, st) && LevelsTrue(cs)))
  }

  lemma WrittenHealth(spec: Spec, st: Status, p: Probe, plan: Plan, now: Time, st': Status)
    requires Wrote(spec, st, p, plan, now, st')
    ensures HealthMeans(spec, p, now, st')
  {
    LeafStatuses(spec, st, p, plan, now, st');
    AllLeaves(st'.conditions);
  }

  /** Healthy as a function of the probe, the budget and the level conditions, all three values. */
  lemma HealthyExactly(spec: Spec, st: Status, p: Probe, plan: Plan, now: Time)
    ensures HealthMeans(spec, p, now, StatusAfter(spec, st, p, plan, now))
  {
    StatusAfterWrote(spec, st, p, plan, now);
    WrittenHealth(spec, st, p, plan, now, StatusAfter(spec, st, p, plan, now));
  }

  predicate LastPassed(lv: Level) { lv.ingests != [] && lv.ingests[|lv.ingests| - 1].ok }

  predicate HealthIs(w: World, s: CondStatus) {
    Healthy in w.status.conditions && w.status.conditions[Healthy].status == s
  }

  /** What Healthy=True vouches for. */
  predicate Vouched(w: World, p: Probe) {
    && ProbeGood(w.spec, p, w.now)
    && WithinBudget(w.spec, w.status)
    && LastPassed(w.e2)
    && (w.spec.sampledInterval.Some? ==> LastPassed(w.e3))
    && (w.spec.fullInterval.Some? || w.status.lastFullRetrieval.Some? ==> LastPassed(w.e4))
  }

  /** Something is still to come: the first inventory, or a level's first result. */
  predicate Awaited(w: World) {
    || Pending(w.spec, w.status)
    || Find(w.status.conditions, MetadataValid) == Some(NOT_YET)
    || Find(w.status.conditions, SampledIntegrityValid) == Some(NOT_YET)
    || Find(w.status.conditions, FullRetrievalCompleted) == Some(NOT_YET)
  }

  lemma EffectHealth(pol: Policy, w: World, io: ReconcileIO, w': World)
    requires Inv(pol, w') && Effect(w, io, w') && io.patchOk
    ensures HealthIs(w', IsTrue) ==> Vouched(w', io.probe)
    ensures HealthIs(w', IsUnknown) ==> ProbeGood(w'.spec, io.probe, w'.now) && Awaited(w')
  {
    var plan := MakePlan(w, io);
    WrittenHealth(w.spec, w.status, io.probe, plan, io.end, w'.status);
    LeafStatuses(w.spec, w.status, io.probe, plan, io.end, w'.status);
    assert E2Status(w'.status, w'.e2) && E3Status(w'.status, w'.e3, pol.keepE3) && E4Status(w'.status, w'.e4);
  }

  /**
   On every run: a write that leaves Healthy=True saw a good probe, an inventory within budget, and a
   last ingested Job that passed for every level in force.
   */
  lemma HealthyIsSound(pol: Policy, w0: World, acts: seq<Action>, io: ReconcileIO)
    requires Starts(pol, w0) && ValidRun(pol, w0, acts) && io.patchOk
    requires Enabled(EndOf(w0, acts), Run(Resolved, io)) && Obeys(pol, EndOf(w0, acts), Run(Resolved, io))
    ensures var w' := ReconcileResolved(EndOf(w0, acts), io);
            HealthIs(w', IsTrue) ==> Vouched(w', io.probe)
  {
    var w := EndOf(w0, acts);
    ReachableInv(pol, w0, acts);
    ResolvedEffect(w, io);
    ResolvedKeepsInv(pol, w, io, ReconcileResolved(w, io));
    EffectHealth(pol, w, io, ReconcileResolved(w, io));
  }

  /**
   On every run: a write that leaves Healthy=Unknown had a good probe, and something is still to come:
   a level without a result, or the first inventory. In particular no outage looks Unknown.
   */
  lemma HealthyUnknownMeansPending(pol: Policy, w0: World, acts: seq<Action>, io: ReconcileIO)
    requires Starts(pol, w0) && ValidRun(pol, w0, acts) && io.patchOk
    requires Enabled(EndOf(w0, acts), Run(Resolved, io)) && Obeys(pol, EndOf(w0, acts), Run(Resolved, io))
    ensures var w' := ReconcileResolved(EndOf(w0, acts), io);
            HealthIs(w', IsUnknown) ==> ProbeGood(w'.spec, io.probe, w'.now) && Awaited(w')
  {
    var w := EndOf(w0, acts);
    ReachableInv(pol, w0, acts);
    ResolvedEffect(w, io);
    ResolvedKeepsInv(pol, w, io, ReconcileResolved(w, io));
    EffectHealth(pol, w, io, ReconcileResolved(w, io));
  }

  // ----- credential failures -----

  /** Reachable and Healthy are both False. */
  predicate Loud(cs: Conditions) {
    && Find(cs, Reachable) == Some(Condition(IsFalse, CredentialsUnavailable))
    && Healthy in cs && cs[Healthy].status == IsFalse
  }

  lemma FailureIsLoud(spec: Spec, st: Status, now: Time, st': Status)
    requires WroteFailure(spec, st, now, st')
    ensures Loud(st'.conditions)
  {
    assert Reachable in LEAF_TYPES && Reachable in ALL_LEAVES;
    assert !NotFalse(st'.conditions, Reachable);
  }

  /** A credential failure reads Reachable=False and Healthy=False, whatever was there before. */
  lemma CredentialFailureIsLoud(spec: Spec, st: Status, now: Time)
    ensures Loud(StatusAfterCredentialFailure(spec, st, now).conditions)
  {
    CredentialFailureWrote(spec, st, now);
    FailureIsLoud(spec, st, now, StatusAfterCredentialFailure(spec, st, now));
  }

  /** Any number of credential failures in a row. */
  function FailRepeatedly(spec: Spec, st: Status, times: seq<Time>): Status
    decreases |times|
  {
    if times == [] then st else FailRepeatedly(spec, StatusAfterCredentialFailure(spec, st, times[0]), times[1..])
  }

  /** The level is one a credential failure shows a condition for. */
  predicate Shown(spec: Spec, st: Status, t: CondType) {
    || t == MetadataValid
    || (t == SampledIntegrityValid && spec.sampledInterval.Some?)
    || (t == FullRetrievalCompleted && (spec.fullInterval.Some? || st.lastFullRetrieval.Some?))
  }

  lemma OneFailurePreserves(spec: Spec, st: Status, now: Time, st': Status, t: CondType)
    requires WroteFailure(spec, st, now, st') && HasResult(st, t) && Shown(spec, st, t)
    ensures Find(st'.conditions, t) == Find(st.conditions, t) && HasResult(st', t) && Shown(spec, st', t)
  {
    assert t in LEAF_TYPES;
  }

  /** However long the credentials stay unusable, every real validation result survives. */
  lemma {:induction false} FailuresPreserveResults(spec: Spec, st: Status, times: seq<Time>, t: CondType)
    requires HasResult(st, t) && Shown(spec, st, t)
    ensures Find(FailRepeatedly(spec, st, times).conditions, t) == Find(st.conditions, t)
    ensures var st' := FailRepeatedly(spec, st, times);
            st' == st.(conditions := st'.conditions, lastProbedAt := st'.lastProbedAt)
    ensures times != [] ==> Loud(FailRepeatedly(spec, st, times).conditions)
    decreases |times|
  {
    if times != [] {
      var st1 := StatusAfterCredentialFailure(spec, st, times[0]);
      CredentialFailureWrote(spec, st, times[0]);
      OneFailurePreserves(spec, st, times[0], st1, t);
      FailureIsLoud(spec, st, times[0], st1);
      FailuresPreserveResults(spec, st1, times[1..], t);
      if times[1..] == [] {
        assert FailRepeatedly(spec, st, times) == st1;
      }
    }
  }
}
