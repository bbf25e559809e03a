/**
 What each write leaves on record, told of the inputs of the write and of the run that led to it.
 */
module Writes {
  import opened Types
  import opened ConditionSet
  import opened Jobs
  import opened Reconcile
  import opened Runs
  import opened StatusInvariants
  import opened Invariants
  import opened Guarantees
  import opened Progress
  import opened Results
  import opened Health

  // ----- the credential gate -----

  /** The Secret was first found missing then, and has been ever since, as far as this controller knows. */
  function MissingSince(w: World, acts: seq<Action>, since: Option<Time>): Option<Time>
    decreases |acts|
  {
    if acts == [] then since
    else
      var a := acts[0];
      var since' :=
        if a.Restart? || (a.Run? && a.creds == Resolved) then None
        else if a.Run? && a.creds == SecretNotFound && since.None? then Some(w.now)
        else since;
      MissingSince(Step(w, a), acts[1..], since')
  }

  lemma {:induction false} FirstMissIsKept(w: World, acts: seq<Action>)
    ensures EndOf(w, acts).firstMiss == MissingSince(w, acts, w.firstMiss)
    decreases |acts|
  {
    if acts != [] {
      FirstMissStep(w, acts[0]);
      FirstMissIsKept(Step(w, acts[0]), acts[1..]);
    }
  }

  lemma FirstMissStep(w: World, a: Action)
    ensures Step(w, a).firstMiss ==
            if a.Restart? || (a.Run? && a.creds == Resolved) then None
            else if a.Run? && a.creds == SecretNotFound && w.firstMiss.None? then Some(w.now)
            else w.firstMiss
  {
  }

  /** Unusable credentials are reported at once, a missing Secret once it has been missing for a minute. */
  predicate Reportable(creds: Credentials, since: Option<Time>, now: Time) {
    || creds == Unusable
    || (creds == SecretNotFound && since.Some? && now - since.value >= 60 * SECOND)
  }

  /**
   On every run: a reconcile without credentials writes Reachable=False and Healthy=False exactly if the credentials
   are unusable or the Secret has been missing for a minute, and the patch succeeds; otherwise the status stays.
   */
  lemma FailureReportedExactly(pol: Policy, w0: World, acts: seq<Action>, creds: Credentials, io: ReconcileIO)
    requires Starts(pol, w0) && ValidRun(pol, w0, acts) && creds != Resolved
    ensures var w := EndOf(w0, acts); var w' := Step(w, Run(creds, io));
            if Reportable(creds, MissingSince(w0, acts, None), w.now) && io.patchOk then
              && w'.credentialFailures == w.credentialFailures + [w.now]
              && WroteFailure(w.spec, w.status, w.now, w'.status) && Loud(w'.status.conditions)
            else w'.status == w.status && w'.credentialFailures == w.credentialFailures
  {
    FirstMissIsKept(w0, acts);
    GateReports(EndOf(w0, acts), creds, io);
  }

  lemma GateReports(w: World, creds: Credentials, io: ReconcileIO)
    requires creds != Resolved
    ensures var w' := ReconcileStep(w, creds, io);
            if Reportable(creds, w.firstMiss, w.now) && io.patchOk then
              && w'.credentialFailures == w.credentialFailures + [w.now]
              && WroteFailure(w.spec, w.status, w.now, w'.status) && Loud(w'.status.conditions)
            else w'.status == w.status && w'.credentialFailures == w.credentialFailures
  {
    CredentialFailureWrote(w.spec, w.status, w.now);
    CredentialFailureIsLoud(w.spec, w.status, w.now);
  }

  // ----- what the probe leaves on record -----

  predicate IsRecorded(a: Action) { a.Run? && a.creds == Resolved && a.io.patchOk }

  /** The inventory of the last recorded reconcile whose probe listed the whole prefix. */
  function LastListing(acts: seq<Action>): Option<Inventory> {
    if acts == [] then None
    else
      var a := acts[|acts| - 1];
      if IsRecorded(a) && a.io.probe.inventory.Some? then a.io.probe.inventory else LastListing(acts[..|acts| - 1])
  }

  /** The probe of the last recorded reconcile. */
  function LastProbe(acts: seq<Action>): Option<Probe> {
    if acts == [] then None
    else
      var a := acts[|acts| - 1];
      if IsRecorded(a) then Some(a.io.probe) else LastProbe(acts[..|acts| - 1])
  }

  function BackupOf(p: Option<Probe>): Option<Time> { if p.Some? then StoredOption(p.value.lastBackup) else None }

  predicate ProbeOnRecord(st: Status, acts: seq<Action>) {
    st.inventory == LastListing(acts) && st.claimedLastBackup == BackupOf(LastProbe(acts))
  }

  lemma EffectRecordsProbe(w: World, a: Action, w': World, acts: seq<Action>)
    requires ProbeOnRecord(w.status, acts) && StepEffect(w, a, w')
    ensures ProbeOnRecord(w'.status, acts + [a])
  {
    assert (acts + [a])[..|acts|] == acts;
  }

  lemma EndOfInit(pol: Policy, w: World, acts: seq<Action>)
    requires acts != [] && ValidRun(pol, w, acts)
    ensures var init := acts[..|acts| - 1];
            ValidRun(pol, w, init) && EndOf(w, acts) == Step(EndOf(w, init), acts[|acts| - 1])
  {
    var init, last := acts[..|acts| - 1], acts[|acts| - 1];
    assert acts == init + [last] && [last][1..] == [];
    RunSplits(pol, w, init, [last]);
  }

  /**
   On every run the inventory on record is that of the last complete listing, and the backup on record is the one the
   last recorded probe found, or none if it found none.
   */
  lemma {:induction false} ProbeIsOnRecord(pol: Policy, w: World, acts: seq<Action>)
    requires Starts(pol, w) && ValidRun(pol, w, acts)
    ensures ProbeOnRecord(EndOf(w, acts).status, acts)
    decreases |acts|
  {
    if acts != [] {
      var init, last := acts[..|acts| - 1], acts[|acts| - 1];
      EndOfInit(pol, w, acts);
      ProbeIsOnRecord(pol, w, init);
      StepTakesEffect(EndOf(w, init), last);
      EffectRecordsProbe(EndOf(w, init), last, EndOf(w, acts), init);
      assert acts == init + [last];
    }
  }

  // ----- what the probe shows -----

  /** E1's conditions after a recorded reconcile. */
  predicate ProbeShown(spec: Spec, p: Probe, inventory: Option<Inventory>, now: Time, cs: Conditions) {
    && Find(cs, Reachable) == Some(Condition(if p.reachable then IsTrue else IsFalse, p.reachableReason))
    && (!p.reachable ==>
          && Find(cs, BucketSecurityValid) == Some(Condition(IsUnknown, S3Unreachable))
          && Find(cs, BackupCurrent) == Some(Condition(IsUnknown, S3Unreachable)))
    && (p.reachable ==>
          && Find(cs, BucketSecurityValid) == Some(Condition(if p.secure then IsTrue else IsFalse, p.securityReason))
          && Find(cs, BackupCurrent) == Some(BackupShown(p.lastBackup, spec.maxBackupLag, now)))
    && SizeShown(spec, inventory, cs)
  }

  function BackupShown(last: Option<Time>, maxLag: Time, now: Time): Condition {
    match last
    case None => Condition(IsFalse, RepositoryEmpty)
    case Some(at) =>
      if now > at + maxLag then Condition(IsFalse, BackupLagExceeded) else Condition(IsTrue, ProbeSucceeded)
  }

  predicate SizeShown(spec: Spec, inventory: Option<Inventory>, cs: Conditions) {
    match spec.sizeBudget
    case None => SizeWithinBudget !in cs
    case Some(budget) =>
      SizeWithinBudget in cs &&
      (match inventory
       case None => cs[SizeWithinBudget] == Condition(IsUnknown, LayerTwoNotYetAvailable)
       case Some(i) =>
         cs[SizeWithinBudget] ==
         if i.totalBytes > budget then Condition(IsFalse, SizeBudgetExceeded) else Condition(IsTrue, ProbeSucceeded))
  }

  /**
   On every run: E1's conditions after a recorded reconcile, each from this probe, the size from the last complete
   listing; and the time of the probe is on record.
   */
  lemma ProbeShownExactly(pol: Policy, w0: World, acts: seq<Action>, io: ReconcileIO)
    requires Starts(pol, w0) && ValidRun(pol, w0, acts) && io.patchOk
    ensures var w' := ReconcileResolved(EndOf(w0, acts), io);
            && ProbeShown(w'.spec, io.probe, LastListing(acts + [Run(Resolved, io)]), io.end, w'.status.conditions)
            && w'.status.lastProbedAt == Some(Stored(io.end))
  {
    var w, a := EndOf(w0, acts), Run(Resolved, io);
    ProbeIsOnRecord(pol, w0, acts);
    StepTakesEffect(w, a);
    EffectRecordsProbe(w, a, Step(w, a), acts);
    WrittenProbe(w, io, Step(w, a));
  }

  lemma WrittenProbe(w: World, io: ReconcileIO, w': World)
    requires Effect(w, io, w') && io.patchOk
    ensures ProbeShown(w'.spec, io.probe, w'.status.inventory, io.end, w'.status.conditions)
    ensures w'.status.lastProbedAt == Some(Stored(io.end))
  {
    assert Reachable in LEAF_TYPES && BucketSecurityValid in LEAF_TYPES && BackupCurrent in LEAF_TYPES;
    assert SizeWithinBudget in LEAF_TYPES;
  }

  /**
   Every condition a credential failure writes, from any status: E1 is unevaluated but for the size on record, and each
   level keeps what it had to say.
   */
  lemma FailureShownExactly(spec: Spec, st: Status, now: Time, st': Status)
    requires WroteFailure(spec, st, now, st')
    ensures var cs := st'.conditions;
            && Find(cs, Reachable) == Some(Condition(IsFalse, CredentialsUnavailable))
            && Find(cs, BucketSecurityValid) == Some(Condition(IsUnknown, ProbeSucceeded))
            && Find(cs, BackupCurrent) == Some(Condition(IsUnknown, ProbeSucceeded))
            && SizeShown(spec, st.inventory, cs)
            && Find(cs, MetadataValid) == Some(Carried(st, MetadataValid))
            && Find(cs, SampledIntegrityValid) ==
               (if spec.sampledInterval.Some? then Some(Carried(st, SampledIntegrityValid)) else None)
            && (FullRetrievalCompleted in cs <==> spec.fullInterval.Some? || st.lastFullRetrieval.Some?)
            && (FullRetrievalCompleted in cs && HasResult(st, FullRetrievalCompleted) ==>
                  cs[FullRetrievalCompleted] == st.conditions[FullRetrievalCompleted])
    ensures st' == st.(conditions := st'.conditions, lastProbedAt := Some(Stored(now)))
  {
    assert Reachable in LEAF_TYPES && BucketSecurityValid in LEAF_TYPES && BackupCurrent in LEAF_TYPES;
    assert SizeWithinBudget in LEAF_TYPES && MetadataValid in LEAF_TYPES;
    assert SampledIntegrityValid in LEAF_TYPES && FullRetrievalCompleted in LEAF_TYPES;
  }

  predicate FitsBudget(spec: Spec, listing: Option<Inventory>) {
    spec.sizeBudget.Some? ==> listing.Some? && listing.value.totalBytes <= spec.sizeBudget.value
  }

  /** On every run: a write that leaves Healthy=True means the last complete listing fits the budget, if set. */
  lemma HealthyMeansListingFits(pol: Policy, w0: World, acts: seq<Action>, io: ReconcileIO)
    requires Starts(pol, w0) && ValidRun(pol, w0, acts) && io.patchOk
    requires Enabled(EndOf(w0, acts), Run(Resolved, io)) && Obeys(pol, EndOf(w0, acts), Run(Resolved, io))
    ensures var w' := ReconcileResolved(EndOf(w0, acts), io);
            HealthIs(w', IsTrue) ==> FitsBudget(w'.spec, LastListing(acts + [Run(Resolved, io)]))
  {
    var w, a := EndOf(w0, acts), Run(Resolved, io);
    ProbeIsOnRecord(pol, w0, acts);
    StepTakesEffect(w, a);
    EffectRecordsProbe(w, a, Step(w, a), acts);
    HealthyIsSound(pol, w0, acts, io);
  }

  // ----- what a level shows -----

  /** The reconcile found E4 at work or put it to work. */
  predicate E4AtWork(w: World, io: ReconcileIO) {
    Reads(w, io, E4) && (Busy(w.e4.jobs) || (DueAt(w, E4, io.e4.at) && io.e4.create != CreateFailed))
  }

  lemma AtWorkIsActive(w: World, io: ReconcileIO)
    ensures MakePlan(w, io).o4.active <==> E4AtWork(w, io)
  {
    LevelsWantExactlyWhenDue(w, io);
    assert E4Wanted(w, io.e4.at) == WantedAt(w, E4, IOOf(io, E4).at);
  }

  /** The condition a level had, unless it was only the placeholder. */
  function Carried(st: Status, t: CondType): Condition {
    if HasResult(st, t) then st.conditions[t] else NOT_YET
  }

  /** What a finished Job says of its level. */
  function Told(j: Job, d: Depth): Condition {
    if j.phase == Succeeded then Condition(IsTrue, ProbeSucceeded) else Condition(IsFalse, FailureOf(d))
  }

  /** E2 and an enabled E3 always show a condition: the result just taken, else the one that stands. */
  predicate ShownLevel(w: World, w': World, d: Depth, taken: Option<Job>) {
    Find(w'.status.conditions, ConditionOf(d)) ==
      Some(if taken.Some? then Told(taken.value, d) else Carried(w.status, ConditionOf(d)))
  }

  /** E4's, where there is anything to show. */
  function E4Shown(w: World, taken: Option<Job>, atWork: bool): Condition {
    if taken.Some? then Told(taken.value, E4)
    else if w.status.lastFullRetrieval.Some? || !atWork then Carried(w.status, FullRetrievalCompleted)
    else NOT_YET
  }

  predicate ShownE4(w: World, io: ReconcileIO, w': World, taken: Option<Job>) {
    Find(w'.status.conditions, FullRetrievalCompleted) ==
      if w.spec.fullInterval.Some? || w'.status.lastFullRetrieval.Some? || E4AtWork(w, io)
      then Some(E4Shown(w, taken, E4AtWork(w, io)))
      else None
  }

  predicate LevelsShown(w: World, io: ReconcileIO, w': World) {
    var plan := MakePlan(w, io);
    && ShownLevel(w, w', E2, plan.o2.completed)
    && (w.spec.sampledInterval.None? ==> SampledIntegrityValid !in w'.status.conditions)
    && (w.spec.sampledInterval.Some? ==> ShownLevel(w, w', E3, plan.o3.completed))
    && ShownE4(w, io, w', plan.o4.completed)
    && (Reads(w, io, E4) && Busy(w'.e4.jobs) ==> FullRetrievalCompleted in w'.status.conditions)
  }

  lemma EffectShows(pol: Policy, w: World, io: ReconcileIO, w': World)
    requires StatusInv(pol, w) && Effect(w, io, w') && io.patchOk
    ensures LevelsShown(w, io, w')
  {
    AtWorkIsActive(w, io);
    BusyIsActive(w, io, w');
    assert MetadataValid in LEAF_TYPES && SampledIntegrityValid in LEAF_TYPES && FullRetrievalCompleted in LEAF_TYPES;
  }

  /**
   On every run, each level's condition after a recorded reconcile. E4 shows one exactly if it is scheduled, has a
   retrieval on record, or is at work; a Job at work without a retrieval on record shows the placeholder.
   */
  lemma LevelsShownExactly(pol: Policy, w0: World, acts: seq<Action>, io: ReconcileIO)
    requires Starts(pol, w0) && ValidRun(pol, w0, acts) && io.patchOk
    ensures LevelsShown(EndOf(w0, acts), io, ReconcileResolved(EndOf(w0, acts), io))
  {
    var w := EndOf(w0, acts);
    ReachableInv(pol, w0, acts);
    ResolvedEffect(w, io);
    EffectShows(pol, w, io, ReconcileResolved(w, io));
  }

  lemma BusyIsActive(w: World, io: ReconcileIO, w': World)
    requires Effect(w, io, w')
    ensures Reads(w, io, E4) && Busy(w'.e4.jobs) ==> MakePlan(w, io).o4.active
  {
    PlanOfLevel(w, io, E4);
    EffectOnLevel(w, io, w', E4);
  }

  // ----- a timestamp whose condition is lost -----

  /**
   From any status, reachable or not: a recorded reconcile that takes no result at a level whose condition shows none
   clears the level's timestamp, so that the level is due again as if it had never run.
   */
  lemma LostConditionClearsTimestamp(w: World, io: ReconcileIO, d: Depth)
    requires io.patchOk && OutOf(MakePlan(w, io), d).completed.None? && !HasResult(w.status, ConditionOf(d))
    ensures MarkerOf(ReconcileResolved(w, io), d).None?
  {
    ResolvedEffect(w, io);
  }
}
