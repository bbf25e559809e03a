/**
 What becomes of a force-revalidate request over many reconciles: how many it takes to be honored, and what
 keeps it from getting there.
 */
module Requests {
  import opened Types
  import opened Jobs
  import opened Reconcile
  import opened Runs
  import opened LevelInvariants
  import opened StatusInvariants
  import opened Invariants
  import opened Guarantees
  import opened Progress

  // ----- what a level still owes the request -----

  /** Some listed Job was created after the request. */
  predicate Underway(lv: Level, ts: Time) { exists j :: j in lv.jobs && ts < j.created }

  /** The looks at the level it still takes: one to start a Job, one to take its result. */
  function Owed(lv: Level, marker: Option<Time>, ts: Time): nat {
    if After(marker, ts) then 0 else if Underway(lv, ts) then 1 else 2
  }

  /** All levels of a reconcile, and the reconcile that records the request as honored. */
  function OwedInAll(w: World, ts: Time): nat {
    1 + Owed(w.e2, w.status.verifiedValidationAt, ts)
    + if w.spec.sampledInterval.Some? then Owed(w.e3, w.status.verifiedSampledAt, ts) else 0
  }

  lemma CreatedAfter(ts: Time, at: Time)
    requires Stored(ts) == ts && ts + SECOND <= at
    ensures ts < Stored(at)
  {
    StoredMonotone(ts + SECOND, at);
  }

  /** The level's Jobs have finished, its list succeeds, and a Job is created unless one has run since the request. */
  predicate LevelTended(lv: Level, io: LevelIO, ts: Time) {
    !Busy(lv.jobs) && io.listOk && (Underway(lv, ts) || io.create == Created)
  }

  /** A tended look at a level that owes the request a result brings it one closer. */
  lemma LookServes(lv: Level, marker: Option<Time>, want: Option<Cause>, io: LevelIO, ts: Time, now: Time)
    requires JobsInv(lv, now) && LevelTended(lv, io, ts) && ValidPick(lv.jobs, io.pick)
    requires Stored(ts) == ts && ts + SECOND <= io.at && !After(marker, ts) && want.Some?
    ensures var out := Process(lv, marker, want, io);
            Owed(Recorded(out), Advance(marker, out.completed), ts) < Owed(lv, marker, ts)
  {
    var out := Process(lv, marker, want, io);
    if Underway(lv, ts) {
      var j :| j in lv.jobs && ts < j.created;
      assert JobFits(lv, j) && j.Done();
      assert j.CompletedAt() <= io.pick.value.CompletedAt();
    } else {
      CreatedAfter(ts, io.at);
      assert Job(|lv.spawns|, Stored(io.at), InFlight, None, want.value.Forced?) in out.after.jobs;
      assert Underway(Recorded(out), ts);
    }
  }

  /** No look at a level, whatever it is answered, makes it owe more. */
  lemma LookOwesNoMore(lv: Level, marker: Option<Time>, lv': Level, marker': Option<Time>, ts: Time)
    requires lv.jobs <= lv'.jobs && NoEarlier(marker, marker')
    ensures Owed(lv', marker', ts) <= Owed(lv, marker, ts)
  {
    if Underway(lv, ts) {
      var j :| j in lv.jobs && ts < j.created;
      assert j in lv'.jobs;
    }
  }

  /** Finishing a Job, or collecting one that is on record, owes no more than before. */
  lemma JobsChangeOwesNoMore(lv: Level, marker: Option<Time>, ts: Time, now: Time, j: Job, put: set<Job>)
    requires JobsInv(lv, now) && j in lv.jobs
    requires (exists j' :: j' in put && j'.created == j.created) || (j.Done() && Passed(marker, j))
    ensures Owed(lv.(jobs := lv.jobs - {j} + put), marker, ts) <= Owed(lv, marker, ts)
  {
    var lv' := lv.(jobs := lv.jobs - {j} + put);
    assert JobFits(lv, j);
    if Underway(lv, ts) && !After(marker, ts) {
      var k :| k in lv.jobs && ts < k.created;
      if k != j {
        assert k in lv'.jobs;
      } else {
        var j' :| j' in put && j'.created == j.created;
        assert j' in lv'.jobs;
      }
    }
  }

  // ----- one step -----

  /**
   The reconcile tends to what the request waits for: E2 until it has a result from after the request, then E3, which
   gets its turn if E2's Jobs have finished and E2 is not due again on its own schedule.
   */
  predicate Tended(w: World, io: ReconcileIO, ts: Time) {
    if !After(w.status.verifiedValidationAt, ts) then LevelTended(w.e2, io.e2, ts)
    else if w.spec.sampledInterval.Some? && !After(w.status.verifiedSampledAt, ts) then
      && !Busy(w.e2.jobs)
      && !Elapsed(Some(w.spec.metadataInterval), w.status.verifiedValidationAt, io.e2.at)
      && LevelTended(w.e3, io.e3, ts)
    else true
  }

  /** A step that brings the request closer. Other reconciles may come in between, however they end. */
  predicate Tends(w: World, a: Action, ts: Time) {
    a.Run? && a.creds == Resolved && a.io.patchOk && Tended(w, a.io, ts)
  }

  predicate Standing(w: World, ts: Time) {
    && w.forceRevalidate == Some(ts) && Stored(ts) == ts && ts + SECOND <= w.now
    && (w.status.lastForceRevalidatedAt.Some? ==> w.status.lastForceRevalidatedAt.value <= ts)
  }

  predicate IsHonored(w: World, ts: Time) { w.status.lastForceRevalidatedAt == Some(ts) }

  /** The levels' own facts a step needs. */
  ghost predicate LevelsFit(w: World) {
    && JobsInv(w.e2, w.now) && JobsInv(w.e3, w.now) && E2Synced(w.status)
    && (w.spec.sampledInterval.Some? ==> E3Synced(w.status))
  }

  /** Where the markers stand after a recorded reconcile. */
  lemma MarkersAdvance(w: World, io: ReconcileIO, w': World)
    requires LevelsFit(w) && Effect(w, io, w') && io.patchOk
    ensures var plan := MakePlan(w, io);
            && w'.status.verifiedValidationAt == Advance(w.status.verifiedValidationAt, plan.o2.completed)
            && (w.spec.sampledInterval.Some? ==>
                  w'.status.verifiedSampledAt == Advance(w.status.verifiedSampledAt, plan.o3.completed))
  {
  }

  lemma JobsOnlyAdded(w: World, io: ReconcileIO, w': World, d: Depth)
    requires Effect(w, io, w')
    ensures LevelOf(w, d).jobs <= LevelOf(w', d).jobs
  {
    PlanOfLevel(w, io, d);
    EffectOnLevel(w, io, w', d);
  }

  lemma MarkersNeverBack(w: World, io: ReconcileIO, w': World)
    requires LevelsFit(w) && Effect(w, io, w')
    ensures NoEarlier(w.status.verifiedValidationAt, w'.status.verifiedValidationAt)
    ensures w.spec.sampledInterval.Some? ==> NoEarlier(w.status.verifiedSampledAt, w'.status.verifiedSampledAt)
  {
    if io.patchOk {
      MarkersAdvance(w, io, w');
      PlanAdvances(w, io);
    }
  }

  /** Markers only advance and Jobs are only added, so neither level owes more. */
  lemma ReconcileOwesNoMore(w: World, io: ReconcileIO, w': World, ts: Time)
    requires LevelsFit(w) && Effect(w, io, w')
    ensures Owed(w'.e2, w'.status.verifiedValidationAt, ts) <= Owed(w.e2, w.status.verifiedValidationAt, ts)
    ensures w.spec.sampledInterval.Some? ==>
              Owed(w'.e3, w'.status.verifiedSampledAt, ts) <= Owed(w.e3, w.status.verifiedSampledAt, ts)
  {
    MarkersNeverBack(w, io, w');
    assert w.e2.jobs <= w'.e2.jobs by { JobsOnlyAdded(w, io, w', E2); }
    assert w.e3.jobs <= w'.e3.jobs by { JobsOnlyAdded(w, io, w', E3); }
    LookOwesNoMore(w.e2, w.status.verifiedValidationAt, w'.e2, w'.status.verifiedValidationAt, ts);
    if w.spec.sampledInterval.Some? {
      LookOwesNoMore(w.e3, w.status.verifiedSampledAt, w'.e3, w'.status.verifiedSampledAt, ts);
    }
  }

  lemma E2Serves(w: World, io: ReconcileIO, w': World, ts: Time)
    requires LevelsFit(w) && Standing(w, ts) && !IsHonored(w, ts) && Enabled(w, Run(Resolved, io))
    requires Tended(w, io, ts) && Effect(w, io, w') && io.patchOk && !After(w.status.verifiedValidationAt, ts)
    ensures Owed(w'.e2, w'.status.verifiedValidationAt, ts) < Owed(w.e2, w.status.verifiedValidationAt, ts)
  {
    MarkersAdvance(w, io, w');
    assert E2Wanted(w, io.e2.at) == Some(Forced(ts));
    LookServes(w.e2, w.status.verifiedValidationAt, E2Wanted(w, io.e2.at), io.e2, ts, w.now);
  }

  lemma E3Serves(w: World, io: ReconcileIO, w': World, ts: Time)
    requires LevelsFit(w) && Standing(w, ts) && !IsHonored(w, ts) && Enabled(w, Run(Resolved, io))
    requires Tended(w, io, ts) && Effect(w, io, w') && io.patchOk && After(w.status.verifiedValidationAt, ts)
    requires w.spec.sampledInterval.Some? && !After(w.status.verifiedSampledAt, ts)
    ensures Owed(w'.e3, w'.status.verifiedSampledAt, ts) < Owed(w.e3, w.status.verifiedSampledAt, ts)
  {
    MarkersAdvance(w, io, w');
    assert E2Wanted(w, io.e2.at).None?;
    assert E3Wanted(w, io.e3.at) == Some(Forced(ts));
    LookServes(w.e3, w.status.verifiedSampledAt, E3Wanted(w, io.e3.at), io.e3, ts, w.now);
  }

  /** A reconcile honors the request, or leaves it standing and owing no more; one that tends to it, owing less. */
  lemma ReconcileServes(w: World, io: ReconcileIO, w': World, ts: Time)
    requires LevelsFit(w) && Standing(w, ts) && Enabled(w, Run(Resolved, io)) && Effect(w, io, w')
    ensures Standing(w', ts) && (IsHonored(w, ts) ==> IsHonored(w', ts))
    ensures OwedInAll(w', ts) <= OwedInAll(w, ts)
    ensures io.patchOk && Tended(w, io, ts) ==> IsHonored(w', ts) || OwedInAll(w', ts) < OwedInAll(w, ts)
  {
    ReconcileOwesNoMore(w, io, w', ts);
    if !IsHonored(w, ts) && io.patchOk && Tended(w, io, ts) {
      if !After(w.status.verifiedValidationAt, ts) {
        E2Serves(w, io, w', ts);
      } else if w.spec.sampledInterval.Some? && !After(w.status.verifiedSampledAt, ts) {
        E3Serves(w, io, w', ts);
      }
    }
  }

  lemma EnvironmentServes(w: World, a: Action, w': World, ts: Time)
    requires LevelsFit(w) && Standing(w, ts) && Enabled(w, a) && LeavesStanding(w, a)
    requires !a.Run? && w' == Environment(w, a)
    ensures Standing(w', ts) && OwedInAll(w', ts) <= OwedInAll(w, ts) && (IsHonored(w, ts) ==> IsHonored(w', ts))
  {
    if a.Finish? && a.depth != E4 {
      var j' := Finished(a.job, a.ok, a.completion);
      assert j' in {j'};
      JobsChangeOwesNoMore(LevelOf(w, a.depth), MarkerOf(w, a.depth), ts, w.now, a.job, {j'});
    } else if a.Collect? && a.depth != E4 {
      var lv := LevelOf(w, a.depth);
      JobsChangeOwesNoMore(lv, MarkerOf(w, a.depth), ts, w.now, a.job, {});
      assert lv.jobs - {a.job} + {} == lv.jobs - {a.job};
    }
  }

  // ----- every run -----

  /** Nobody touches the spec or the request, and a Job is collected only once its result is recorded. */
  predicate LeavesStanding(w: World, a: Action) {
    && !a.EditSpec? && !a.AnnotateRevalidate?
    && (a.Collect? ==> a.job.Done() && Passed(MarkerOf(w, a.depth), a.job))
  }

  predicate Untouched(w: World, acts: seq<Action>)
    decreases |acts|
  {
    acts == [] || (LeavesStanding(w, acts[0]) && Untouched(Step(w, acts[0]), acts[1..]))
  }

  /** How many reconciles of a run tend to the request. */
  function Tending(w: World, acts: seq<Action>, ts: Time): nat
    decreases |acts|
  {
    if acts == [] then 0
    else (if Tends(w, acts[0], ts) then 1 else 0) + Tending(Step(w, acts[0]), acts[1..], ts)
  }

  /** E3's timestamp and condition agree, where it is enabled; they always do unless E3 was once switched off. */
  predicate E3Fit(w: World) { w.spec.sampledInterval.Some? ==> E3Synced(w.status) }

  lemma E3StaysFit(w: World, a: Action, w': World)
    requires LevelTold(w.status, SampledIntegrityValid, w.e3) && E3Fit(w) && StepEffect(w, a, w') && !a.EditSpec?
    ensures E3Fit(w')
  {
    if a.Run? && w.spec.sampledInterval.Some? && w'.status != w.status {
      if a.creds == Resolved {
        var plan := MakePlan(w, a.io);
        WriteE3(w.spec, w.status, a.io.probe, plan, a.io.end, w'.status, w.e3,
                Record(w.e3, plan.o3.completed, plan.o3.counts));
      } else {
        CredentialWrite(w.spec, w.status, w.now, w'.status, SampledIntegrityValid, w.e3);
      }
    }
  }

  lemma FactsOf(pol: Policy, w: World)
    requires Inv(pol, w) && E3Fit(w)
    ensures LevelsFit(w) && LevelTold(w.status, SampledIntegrityValid, w.e3)
  {
  }

  lemma StepServes(w: World, a: Action, w': World, ts: Time)
    requires LevelsFit(w) && Standing(w, ts) && Enabled(w, a)
    requires LeavesStanding(w, a) && StepEffect(w, a, w')
    ensures Standing(w', ts) && (IsHonored(w, ts) ==> IsHonored(w', ts))
    ensures IsHonored(w', ts) || OwedInAll(w', ts) + (if Tends(w, a, ts) then 1 else 0) <= OwedInAll(w, ts)
  {
    if !a.Run? {
      EnvironmentServes(w, a, w', ts);
    } else if a.creds == Resolved {
      ReconcileServes(w, a.io, w', ts);
    }
  }

  lemma {:induction false} OwedIsPaid(pol: Policy, w: World, acts: seq<Action>, ts: Time)
    requires Inv(pol, w) && E3Fit(w) && Standing(w, ts) && ValidRun(pol, w, acts) && Untouched(w, acts)
    ensures IsHonored(w, ts) || Tending(w, acts, ts) >= OwedInAll(w, ts) ==> IsHonored(EndOf(w, acts), ts)
    decreases |acts|
  {
    if acts != [] {
      var w1 := Step(w, acts[0]);
      FactsOf(pol, w);
      StepTakesEffect(w, acts[0]);
      StepServes(w, acts[0], w1, ts);
      E3StaysFit(w, acts[0], w1);
      StepKeepsInv(pol, w, acts[0]);
      OwedIsPaid(pol, w1, acts[1..], ts);
    }
  }

  /**
   On every run: a whole-second request at least a second old is honored by the fifth reconcile that tends to it,
   by the third where E3 is disabled, whatever other reconciles find or fail at in between. Two go to each level,
   since the one that takes a level's result still decides by the timestamp from before.
   */
  lemma RequestIsHonored(pol: Policy, w0: World, acts: seq<Action>, more: seq<Action>, ts: Time)
    requires Starts(pol, w0) && ValidRun(pol, w0, acts) && ValidRun(pol, EndOf(w0, acts), more)
    requires E3Fit(EndOf(w0, acts)) && Standing(EndOf(w0, acts), ts)
    requires Untouched(EndOf(w0, acts), more)
    requires Tending(EndOf(w0, acts), more, ts) >= if EndOf(w0, acts).spec.sampledInterval.Some? then 5 else 3
    ensures IsHonored(EndOf(EndOf(w0, acts), more), ts)
  {
    ReachableInv(pol, w0, acts);
    OwedIsPaid(pol, EndOf(w0, acts), more, ts);
  }

  // ----- what can keep E3 and E4 waiting for ever -----

  /** Every reconcile with credentials finds E2 at work or puts it to work. */
  predicate E2First(w: World, a: Action) {
    a.Run? && a.creds == Resolved ==>
      a.io.e2.listOk && (Busy(w.e2.jobs) || (DueAt(w, E2, a.io.e2.at) && a.io.e2.create != CreateFailed))
  }

  predicate E2AlwaysFirst(w: World, acts: seq<Action>)
    decreases |acts|
  {
    acts == [] || (E2First(w, acts[0]) && E2AlwaysFirst(Step(w, acts[0]), acts[1..]))
  }

  lemma EffectStarves(w: World, a: Action, w': World)
    requires E2First(w, a) && StepEffect(w, a, w')
    ensures w'.e3.spawns == w.e3.spawns && w'.e4.spawns == w.e4.spawns
  {
    if a.Run? && a.creds == Resolved {
      assert MakePlan(w, a.io).o2.active;
    }
  }

  /** While E2 is due or at work at every reconcile, neither E3 nor E4 ever gets a Job, forced or not. */
  lemma {:induction false} E2StarvesTheOthers(w: World, acts: seq<Action>)
    requires E2AlwaysFirst(w, acts)
    ensures EndOf(w, acts).e3.spawns == w.e3.spawns && EndOf(w, acts).e4.spawns == w.e4.spawns
    decreases |acts|
  {
    if acts != [] {
      StepTakesEffect(w, acts[0]);
      EffectStarves(w, acts[0], Step(w, acts[0]));
      E2StarvesTheOthers(Step(w, acts[0]), acts[1..]);
    }
  }
}
