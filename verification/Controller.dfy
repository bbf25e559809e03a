/**
 The BackupRepository controller as it is written: an object whose fields change step by step. Each
 method is tied to the function that says what it does.
 */
module Controller {
  import opened Types
  import opened Rollup
  import opened ConditionSet
  import opened Jobs
  import opened Reconcile
  import opened Runs

  /** List a level's Jobs, take the latest finished one unless it is on record, create one if wanted. */
  method ProcessLevel(lv: Level, marker: Option<Time>, want: Option<Cause>, io: LevelIO, listing: seq<Job>)
    returns (out: LevelOut, taken: LevelIO)
    requires Lists(listing, lv.jobs)
    ensures Answered(io, taken, lv)
    ensures out == Process(lv, marker, want, taken)
  {
    taken := io;
    out := Skipped(lv);
    if !io.listOk {
      return;
    }
    var active := FirstActiveJob(listing);
    if active.Some? {
      out := out.(active := true);
    }
    var latest := PickLatestCompletedJob(listing);
    taken := io.(pick := latest);
    if latest.Some? {
      var alreadyIngested := marker.Some? && !(latest.value.CompletedAt() > marker.value);
      if !alreadyIngested {
        out := out.(completed := latest, counts := io.log);
      }
    }
    if !out.active && want.Some? {
      if io.create != CreateFailed {
        out := out.(active := true, submitted := true);
        if io.create == Created {
          out := out.(after := Submit(lv, want.value, io.at));
        }
      }
    }
  }

  class BackupRepositoryReconciler {
    var now: Time
    var spec: Spec
    var status: Status
    var forceRevalidate: Option<Time>
    var forceE4: Option<Time>
    var e2: Level
    var e3: Level
    var e4: Level
    var credsTransient: Option<Time>
    ghost var credentialFailures: seq<Time>

    ghost function View(): World
      reads this
    {
      World(now, spec, status, forceRevalidate, forceE4, e2, e3, e4, credsTransient, credentialFailures)
    }

    constructor (spec: Spec, now: Time)
      ensures View() == World(now, spec, EMPTY_STATUS, None, None, EMPTY_LEVEL, EMPTY_LEVEL, EMPTY_LEVEL, None, [])
    {
      this.now, this.spec, status := now, spec, EMPTY_STATUS;
      forceRevalidate, forceE4, credsTransient := None, None, None;
      e2, e3, e4 := EMPTY_LEVEL, EMPTY_LEVEL, EMPTY_LEVEL;
      credentialFailures := [];
    }

    method SetCondition(t: CondType, c: Condition)
      modifies this`status
      ensures status == old(status).(conditions := old(status).conditions[t := c])
    {
      status := status.(conditions := status.conditions[t := c]);
    }

    method RemoveCondition(t: CondType)
      modifies this`status
      ensures status == old(status).(conditions := old(status).conditions - {t})
    {
      status := status.(conditions := status.conditions - {t});
    }

    method ApplyProbeConditions(in_: Inputs)
      modifies this`status
      ensures status == old(status).(conditions := status.conditions)
      ensures forall t :: t in PROBE_LEAVES ==> Find(status.conditions, t) == Leaf(spec, old(status), in_, t)
      ensures forall t :: t !in PROBE_LEAVES ==> Find(status.conditions, t) == Find(old(status).conditions, t)
    {
      SetCondition(Reachable, in_.reachable);
      SetCondition(BucketSecurityValid, OrElse(in_.bucketSecurity, Condition(IsUnknown, ProbeSucceeded)));
      SetCondition(BackupCurrent, OrElse(in_.backupCurrent, Condition(IsUnknown, ProbeSucceeded)));
      if spec.sizeBudget.Some? {
        SetCondition(SizeWithinBudget, SizeLeaf(status.inventory, spec.sizeBudget.value));
      } else {
        RemoveCondition(SizeWithinBudget);
      }
    }

    method ApplyLevelConditions(in_: Inputs)
      modifies this`status
      ensures status == old(status).(conditions := status.conditions)
      ensures forall t :: t in VALIDATION_LEAVES ==> Find(status.conditions, t) == Leaf(spec, old(status), in_, t)
      ensures forall t :: t !in VALIDATION_LEAVES ==> Find(status.conditions, t) == Find(old(status).conditions, t)
    {
      SetCondition(MetadataValid, OrElse(in_.metadata, NOT_YET));
      if spec.sampledInterval.Some? {
        SetCondition(SampledIntegrityValid, OrElse(in_.sampled, NOT_YET));
      } else {
        RemoveCondition(SampledIntegrityValid);
      }
      if spec.fullInterval.Some? || status.lastFullRetrieval.Some? || in_.e4Active {
        if in_.full.Some? {
          SetCondition(FullRetrievalCompleted, in_.full.value);
        } else if in_.e4Active {
          SetCondition(FullRetrievalCompleted, NOT_YET);
        } else if FullRetrievalCompleted !in status.conditions {
          SetCondition(FullRetrievalCompleted, NOT_YET);
        }
      } else {
        RemoveCondition(FullRetrievalCompleted);
      }
    }

    method ApplyConditions(in_: Inputs)
      modifies this`status
      ensures status == old(status).(conditions := ConditionsAfter(spec, old(status), in_))
    {
      ApplyProbeConditions(in_);
      ApplyLevelConditions(in_);
      ghost var leaves := status.conditions;
      var probeHealthy := RollupAND(status.conditions, PROBE_LEAVES);
      SetCondition(ProbeHealthy, probeHealthy);
      var validationHealthy := RollupAND(status.conditions, VALIDATION_LEAVES);
      SetCondition(ValidationHealthy, validationHealthy);
      var overall := RollupAND(status.conditions, [ProbeHealthy, ValidationHealthy]);
      SetCondition(Healthy, overall);
      RollupsComplete(spec, old(status), in_, leaves);
    }

    method RecordCredentialsFailure(patchOk: bool)
      modifies this`status, this`credentialFailures
      ensures View() == ReconcileFailed(old(View()), patchOk)
    {
      if !patchOk {
        return;
      }
      var metadata := Preserved(status.conditions, MetadataValid);
      var sampled := Preserved(status.conditions, SampledIntegrityValid);
      var full := Preserved(status.conditions, FullRetrievalCompleted);
      status := status.(lastProbedAt := Some(Stored(now)));
      ApplyConditions(Inputs(Condition(IsFalse, CredentialsUnavailable), None, None, metadata, sampled, full, false));
      credentialFailures := credentialFailures + [now];
    }

    /** Record or carry over one level's result; the old timestamp goes if its condition is gone. */
    method CarryMetadata(completed: Option<Job>) returns (c: Option<Condition>)
      modifies this`status
      ensures c == LevelInput(completed, MetadataValidationFailed, old(status).verifiedValidationAt.Some?,
                              old(status).conditions, MetadataValid)
      ensures status == old(status).(verifiedValidationAt :=
                          LevelMarker(completed, old(status).verifiedValidationAt,
                                      old(status).conditions, MetadataValid))
    {
      c := None;
      if completed.Some? {
        c := Some(Verdict(completed.value, MetadataValidationFailed));
        status := status.(verifiedValidationAt := Some(completed.value.CompletedAt()));
      } else if status.verifiedValidationAt.Some? {
        if MetadataValid in status.conditions && status.conditions[MetadataValid].reason != LayerTwoNotYetAvailable {
          c := Some(status.conditions[MetadataValid]);
        } else {
          status := status.(verifiedValidationAt := None);
        }
      }
    }

    method CarrySampled(completed: Option<Job>) returns (c: Option<Condition>)
      modifies this`status
      ensures c == LevelInput(completed, SampledIntegrityFailed, old(status).verifiedSampledAt.Some?,
                              old(status).conditions, SampledIntegrityValid)
      ensures status == old(status).(verifiedSampledAt :=
                          LevelMarker(completed, old(status).verifiedSampledAt,
                                      old(status).conditions, SampledIntegrityValid))
    {
      c := None;
      if completed.Some? {
        c := Some(Verdict(completed.value, SampledIntegrityFailed));
        status := status.(verifiedSampledAt := Some(completed.value.CompletedAt()));
      } else if status.verifiedSampledAt.Some? {
        if SampledIntegrityValid in status.conditions
           && status.conditions[SampledIntegrityValid].reason != LayerTwoNotYetAvailable
        {
          c := Some(status.conditions[SampledIntegrityValid]);
        } else {
          status := status.(verifiedSampledAt := None);
        }
      }
    }

    method CarryRetrieval(completed: Option<Job>, counts: Option<Stats>) returns (c: Option<Condition>)
      modifies this`status
      ensures c == LevelInput(completed, FullRetrievalFailed, old(status).lastFullRetrieval.Some?,
                              old(status).conditions, FullRetrievalCompleted)
      ensures status == old(status).(lastFullRetrieval :=
                          Retrieval(completed, counts, old(status).lastFullRetrieval, old(status).conditions))
    {
      c := None;
      if completed.Some? {
        var j := completed.value;
        c := Some(Verdict(j, FullRetrievalFailed));
        if counts.Some? {
          status := status.(lastFullRetrieval := Some(FullRetrieval(j.CompletedAt(), counts.value, j.manual)));
        }
      } else if status.lastFullRetrieval.Some? {
        if FullRetrievalCompleted in status.conditions
           && status.conditions[FullRetrievalCompleted].reason != LayerTwoNotYetAvailable
        {
          c := Some(status.conditions[FullRetrievalCompleted]);
        } else {
          status := status.(lastFullRetrieval := None);
        }
      }
    }

    method ApplyStatus(p: Probe, plan: Plan, at: Time)
      modifies this`status
      ensures status == StatusAfter(spec, old(status), p, plan, at)
    {
      status := status.(lastProbedAt := Some(Stored(at)));
      if plan.honored.Some? {
        status := status.(lastForceRevalidatedAt := StoredOption(plan.honored));
      }
      if plan.honoredE4.Some? {
        status := status.(lastForcedE4At := StoredOption(plan.honoredE4));
      }
      status := status.(claimedLastBackup := StoredOption(p.lastBackup));
      if p.inventory.Some? {
        status := status.(inventory := p.inventory);
      }
      var metadata := CarryMetadata(plan.o2.completed);
      var sampled := CarrySampled(plan.o3.completed);
      var full := CarryRetrieval(plan.o4.completed, plan.o4.counts);
      assert status == FieldsAfter(old(status), p, plan, at);
      ApplyConditions(Inputs(
        FromBool(p.reachable, p.reachableReason),
        Some(IfReachable(p.reachable, FromBool(p.secure, p.securityReason))),
        Some(IfReachable(p.reachable, BackupCurrentLeaf(p.lastBackup, spec.maxBackupLag, at))),
        metadata, sampled, full, plan.o4.active));
    }

    method ProcessE2(force: Option<Time>, io: LevelIO, listing: seq<Job>) returns (out: LevelOut, ghost taken: LevelIO)
      requires Lists(listing, e2.jobs)
      modifies this`e2
      ensures Answered(io, taken, old(e2))
      ensures out == E2By(old(View()), force, taken) && e2 == out.after
    {
      var want := Wanted(status.verifiedValidationAt, Some(spec.metadataInterval), force, io.at);
      out, taken := ProcessLevel(e2, status.verifiedValidationAt, want, io, listing);
      e2 := out.after;
    }

    /** Skipped while the level is not enabled. */
    method ProcessE3(force: Option<Time>, io: LevelIO, listing: seq<Job>) returns (out: LevelOut, ghost taken: LevelIO)
      requires Lists(listing, e3.jobs)
      modifies this`e3
      ensures Answered(io, taken, old(e3))
      ensures out == E3By(old(View()), force, taken) && e3 == out.after
    {
      if spec.sampledInterval.None? {
        taken := SomeAnswer(io, e3);
        return Skipped(e3), taken;
      }
      var want := Wanted(status.verifiedSampledAt, spec.sampledInterval, force, io.at);
      out, taken := ProcessLevel(e3, status.verifiedSampledAt, want, io, listing);
      e3 := out.after;
    }

    /** No destination, no Job; a forced Job takes its annotation with it. */
    method ProcessE4(force: Option<Time>, io: LevelIO, listing: seq<Job>, clearOk: bool)
      returns (out: LevelOut, ghost taken: LevelIO)
      requires Lists(listing, e4.jobs)
      modifies this`e4, this`forceE4
      ensures Answered(io, taken, old(e4))
      ensures out == E4By(old(View()), force, taken) && e4 == out.after
      ensures forceE4 == if out.submitted && force.Some? && clearOk then None else old(forceE4)
    {
      var want := Wanted(FullRetrievalAt(status), spec.fullInterval, force, io.at);
      if !spec.storageClass || !spec.pvcSize {
        want := None;
      }
      out, taken := ProcessLevel(e4, FullRetrievalAt(status), want, io, listing);
      e4 := out.after;
      if out.submitted && force.Some? {
        if clearOk {
          forceE4 := None;
        }
      }
    }

    /** The three levels in order, each waiting for the ones before it. */
    method ProcessLevels(gates: Gates, io: ReconcileIO, l2: seq<Job>, l3: seq<Job>, l4: seq<Job>)
      returns (o2: LevelOut, o3: LevelOut, o4: LevelOut, ghost t2: LevelIO, ghost t3: LevelIO, ghost t4: LevelIO)
      requires Lists(l2, e2.jobs) && Lists(l3, e3.jobs) && Lists(l4, e4.jobs)
      modifies this`e2, this`e3, this`e4, this`forceE4
      ensures Answered(io.e2, t2, old(e2)) && Answered(io.e3, t3, old(e3)) && Answered(io.e4, t4, old(e4))
      ensures o2 == E2By(old(View()), gates.f2, t2) && e2 == o2.after
      ensures o3 == (if o2.active then Skipped(old(e3)) else E3By(old(View()), gates.f3, t3)) && e3 == o3.after
      ensures o4 == (if o2.active || o3.active then Skipped(old(e4)) else E4By(old(View()), gates.f4, t4))
      ensures e4 == o4.after
      ensures forceE4 == if o4.submitted && gates.f4.Some? && io.clearOk then None else old(forceE4)
    {
      ghost var w := View();
      o2, t2 := ProcessE2(gates.f2, io.e2, l2);
      ghost var w2 := View();
      if o2.active {
        o3, t3 := Skipped(e3), SomeAnswer(io.e3, e3);
      } else {
        o3, t3 := ProcessE3(gates.f3, io.e3, l3);
        assert o3 == E3By(w, gates.f3, t3) by { OnlyOwnJobs(w, w2, gates, t3, t3); }
      }
      ghost var w3 := View();
      if o2.active || o3.active {
        o4, t4 := Skipped(e4), SomeAnswer(io.e4, e4);
      } else {
        o4, t4 := ProcessE4(gates.f4, io.e4, l4, io.clearOk);
        assert o4 == E4By(w, gates.f4, t4) by { OnlyOwnJobs(w, w3, gates, t4, t4); }
      }
    }

    /** Which levels are asked for by an annotation, and which annotations are spent. */
    method ResolveForces() returns (gates: Gates)
      ensures gates == Gates(E2Force(View()), E3Force(View()), E4Force(View()), Honored(View()), HonoredE4(View()))
    {
      var force := ResolveForce(forceRevalidate, status.lastForceRevalidatedAt);
      var f2, f3 := None, None;
      if force.Some? {
        f2 := ForceNeeded(force, status.verifiedValidationAt);
        if spec.sampledInterval.Some? {
          f3 := ForceNeeded(force, status.verifiedSampledAt);
        }
      }
      var forced4 := ResolveForce(forceE4, status.lastForcedE4At);
      var f4 := ForceNeeded(forced4, FullRetrievalAt(status));
      gates := Gates(f2, f3, f4,
                     if force.Some? && f2.None? && f3.None? then force else None,
                     if forced4.Some? && f4.None? then forced4 else None);
    }

    /** Everything a reconcile decides and spawns before it writes the status. */
    method Decide(io: ReconcileIO, l2: seq<Job>, l3: seq<Job>, l4: seq<Job>)
      returns (plan: Plan, ghost taken: ReconcileIO)
      requires Lists(l2, e2.jobs) && Lists(l3, e3.jobs) && Lists(l4, e4.jobs)
      modifies this`e2, this`e3, this`e4, this`forceE4
      ensures AnsweredAll(io, taken, old(View())) && plan == MakePlan(old(View()), taken)
      ensures e2 == plan.o2.after && e3 == plan.o3.after && e4 == plan.o4.after
      ensures forceE4 == if plan.clearE4 then None else old(forceE4)
    {
      ghost var w := View();
      var gates := ResolveForces();
      var o2, o3, o4;
      ghost var t2, t3, t4;
      o2, o3, o4, t2, t3, t4 := ProcessLevels(gates, io, l2, l3, l4);
      taken := io.(e2 := t2, e3 := t3, e4 := t4);
      plan := Plan(o2, o3, o4, gates.honored, gates.honoredE4, o4.submitted && gates.f4.Some? && io.clearOk);
      assert plan == MakePlan(w, taken) by {
        PlanAssembled(w, taken, gates, plan);
      }
    }

    method ReconcileWithCredentials(io: ReconcileIO, l2: seq<Job>, l3: seq<Job>, l4: seq<Job>)
      returns (ghost taken: ReconcileIO)
      requires Lists(l2, e2.jobs) && Lists(l3, e3.jobs) && Lists(l4, e4.jobs)
      modifies this
      ensures AnsweredAll(io, taken, old(View()))
      ensures View() == ReconcileResolved(old(View()), taken)
    {
      ghost var w := View();
      credsTransient := None;
      ghost var w1 := View();
      var plan;
      plan, taken := Decide(io, l2, l3, l4);
      assert plan == MakePlan(w, taken) by {
        PlanIgnoresGap(w, w1, taken);
      }
      now := io.end;
      if io.patchOk {
        ApplyStatus(io.probe, plan, io.end);
        e2 := Record(e2, plan.o2.completed, plan.o2.counts);
        e3 := Record(e3, plan.o3.completed, plan.o3.counts);
        e4 := Record(e4, plan.o4.completed, plan.o4.counts);
      }
    }

    /** One call is one step of the run model, for the answers the call was given. */
    method Reconcile(creds: Credentials, io: ReconcileIO, l2: seq<Job>, l3: seq<Job>, l4: seq<Job>)
      returns (ghost taken: ReconcileIO)
      requires Lists(l2, e2.jobs) && Lists(l3, e3.jobs) && Lists(l4, e4.jobs)
      requires now <= io.e2.at <= io.e3.at <= io.e4.at <= io.end && WellFormedProbe(io.probe)
      modifies this
      ensures AnsweredAll(io, taken, old(View()))
      ensures Enabled(old(View()), Run(creds, taken))
      ensures View() == Step(old(View()), Run(creds, taken))
    {
      if creds == Resolved {
        taken := ReconcileWithCredentials(io, l2, l3, l4);
        return;
      }
      taken := io.(e2 := SomeAnswer(io.e2, e2), e3 := SomeAnswer(io.e3, e3), e4 := SomeAnswer(io.e4, e4));
      if creds == SecretNotFound {
        if credsTransient.None? {
          credsTransient := Some(now);
        }
        var elapsed := now - credsTransient.value;
        if elapsed < CREDENTIALS_TOLERANCE {
          return;
        }
      }
      RecordCredentialsFailure(io.patchOk);
    }
  }

  /** The forcing timestamp of each level, and the annotation values to record as honored. */
  datatype Gates = Gates(
    f2: Option<Time>,
    f3: Option<Time>,
    f4: Option<Time>,
    honored: Option<Time>,
    honoredE4: Option<Time>)

  /** The answers a level went by are the given ones; the pick is one its Job list allows. */
  predicate Answered(io: LevelIO, taken: LevelIO, lv: Level) {
    taken == io.(pick := taken.pick) && LevelAnswers(lv, taken)
  }

  predicate AnsweredAll(io: ReconcileIO, taken: ReconcileIO, w: World) {
    && taken == io.(e2 := taken.e2, e3 := taken.e3, e4 := taken.e4)
    && Answered(io.e2, taken.e2, w.e2) && Answered(io.e3, taken.e3, w.e3) && Answered(io.e4, taken.e4, w.e4)
  }

  /** What a level that is not looked at would have been answered. */
  ghost function SomeAnswer(io: LevelIO, lv: Level): (taken: LevelIO)
    ensures Answered(io, taken, lv)
  {
    PickExists(lv.jobs);
    var pick :| ValidPick(lv.jobs, pick);
    io.(pick := pick)
  }

  // ----- each level, for a given forcing timestamp -----

  function E2By(w: World, force: Option<Time>, io: LevelIO): LevelOut {
    var marker := w.status.verifiedValidationAt;
    Process(w.e2, marker, Wanted(marker, Some(w.spec.metadataInterval), force, io.at), io)
  }

  function E3By(w: World, force: Option<Time>, io: LevelIO): LevelOut {
    var marker := w.status.verifiedSampledAt;
    if w.spec.sampledInterval.None? then Skipped(w.e3)
    else Process(w.e3, marker, Wanted(marker, w.spec.sampledInterval, force, io.at), io)
  }

  function E4By(w: World, force: Option<Time>, io: LevelIO): LevelOut {
    var marker := FullRetrievalAt(w.status);
    var wanted := Wanted(marker, w.spec.fullInterval, force, io.at);
    Process(w.e4, marker, if w.spec.storageClass && w.spec.pvcSize then wanted else None, io)
  }

  lemma OnlyOwnJobs(w: World, w': World, gates: Gates, t3: LevelIO, t4: LevelIO)
    requires w'.spec == w.spec && w'.status == w.status
    ensures w'.e3 == w.e3 ==> E3By(w', gates.f3, t3) == E3By(w, gates.f3, t3)
    ensures w'.e4 == w.e4 ==> E4By(w', gates.f4, t4) == E4By(w, gates.f4, t4)
  {
  }

  /** A plan put together level by level is the plan of the reconcile. */
  lemma PlanAssembled(w: World, io: ReconcileIO, gates: Gates, plan: Plan)
    requires gates == Gates(E2Force(w), E3Force(w), E4Force(w), Honored(w), HonoredE4(w))
    requires plan.o2 == E2By(w, gates.f2, io.e2)
    requires plan.o3 == if plan.o2.active then Skipped(w.e3) else E3By(w, gates.f3, io.e3)
    requires plan.o4 == if plan.o2.active || plan.o3.active then Skipped(w.e4) else E4By(w, gates.f4, io.e4)
    requires plan.honored == gates.honored && plan.honoredE4 == gates.honoredE4
    requires plan.clearE4 == (plan.o4.submitted && gates.f4.Some? && io.clearOk)
    ensures plan == MakePlan(w, io)
  {
    assert plan.o2 == E2Out(w, io.e2);
    assert !plan.o2.active ==> plan.o3 == E3Out(w, io.e3);
    assert !plan.o2.active && !plan.o3.active ==> plan.o4 == E4Out(w, io.e4);
  }

  lemma PlanIgnoresGap(w: World, w': World, io: ReconcileIO)
    requires w' == w.(firstMiss := w'.firstMiss)
    ensures MakePlan(w', io) == MakePlan(w, io)
  {
    assert E2Out(w', io.e2) == E2Out(w, io.e2);
    assert E3Out(w', io.e3) == E3Out(w, io.e3);
    assert E4Out(w', io.e4) == E4Out(w, io.e4);
  }

  /** Once the leaves are written, rolling up in place gives the condition set of the write. */
  lemma RollupsComplete(spec: Spec, st: Status, in_: Inputs, cs: Conditions)
    requires forall t :: t in VALIDATION_LEAVES ==> Find(cs, t) == Leaf(spec, st, in_, t)
    requires forall t :: t in PROBE_LEAVES ==> Find(cs, t) == Leaf(spec, st, in_, t)
    ensures var p := cs[ProbeHealthy := RolledUpCondition(cs, PROBE_LEAVES)];
            var v := p[ValidationHealthy := RolledUpCondition(p, VALIDATION_LEAVES)];
            v[Healthy := RolledUpCondition(v, [ProbeHealthy, ValidationHealthy])] == ConditionsAfter(spec, st, in_)
  {
    var cs' := ConditionsAfter(spec, st, in_);
    WriteShape(spec, st, in_);
    forall t | t in LEAF_TYPES ensures Find(cs, t) == Find(cs', t) {
      assert t in PROBE_LEAVES || t in VALIDATION_LEAVES;
    }
    InPlaceRollups(cs, cs');
  }

  lemma InPlaceRollups(cs: Conditions, cs': Conditions)
    requires forall t :: t in LEAF_TYPES ==> Find(cs, t) == Find(cs', t)
    requires ProbeHealthy in cs' && cs'[ProbeHealthy] == RolledUpCondition(cs', PROBE_LEAVES)
    requires ValidationHealthy in cs' && cs'[ValidationHealthy] == RolledUpCondition(cs', VALIDATION_LEAVES)
    requires Healthy in cs' && cs'[Healthy] == RolledUpCondition(cs', [ProbeHealthy, ValidationHealthy])
    ensures var p := cs[ProbeHealthy := RolledUpCondition(cs, PROBE_LEAVES)];
            var v := p[ValidationHealthy := RolledUpCondition(p, VALIDATION_LEAVES)];
            v[Healthy := RolledUpCondition(v, [ProbeHealthy, ValidationHealthy])] == cs'
  {
    var p := cs[ProbeHealthy := RolledUpCondition(cs, PROBE_LEAVES)];
    var v := p[ValidationHealthy := RolledUpCondition(p, VALIDATION_LEAVES)];
    RollupsSeeOnlyLeaves(cs, cs', PROBE_LEAVES);
    RollupsSeeOnlyLeaves(p, cs', VALIDATION_LEAVES);
    RollupsSeeOnlyLeaves(v, cs', [ProbeHealthy, ValidationHealthy]);
    SameConditions(v[Healthy := RolledUpCondition(v, [ProbeHealthy, ValidationHealthy])], cs');
  }

  /** Ten types and no more: sets that agree on each are equal. */
  lemma SameConditions(a: Conditions, b: Conditions)
    requires forall t :: t in LEAF_TYPES ==> Find(a, t) == Find(b, t)
    requires Find(a, ProbeHealthy) == Find(b, ProbeHealthy) && Find(a, ValidationHealthy) == Find(b, ValidationHealthy)
    requires Find(a, Healthy) == Find(b, Healthy)
    ensures a == b
  {
    forall t: CondType ensures Find(a, t) == Find(b, t) {
      match t
      case ProbeHealthy =>
      case ValidationHealthy =>
      case Healthy =>
      case _ => assert t in LEAF_TYPES;
    }
    forall t: CondType ensures (t in a <==> t in b) && (t in a ==> a[t] == b[t]) {
      assert Find(a, t) == Find(b, t);
    }
  }
}
