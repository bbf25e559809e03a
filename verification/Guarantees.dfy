/**
 What holds on every run of the BackupRepository controller.
 */
module Guarantees {
  import opened Types
  import opened Jobs
  import opened Reconcile
  import opened Runs
  import opened LevelInvariants
  import opened StatusInvariants
  import opened Invariants

  lemma {:induction false} RunSplits(pol: Policy, w: World, a: seq<Action>, b: seq<Action>)
    requires ValidRun(pol, w, a + b)
    ensures ValidRun(pol, w, a) && ValidRun(pol, EndOf(w, a), b)
    ensures EndOf(w, a + b) == EndOf(EndOf(w, a), b)
    decreases |a|
  {
    if a == [] {
      assert a + b == b;
    } else {
      assert (a + b)[1..] == a[1..] + b;
      RunSplits(pol, Step(w, a[0]), a[1..], b);
    }
  }

  // ----- timestamps and conditions -----

  /** A level's timestamp is set exactly while its condition carries a result. */
  lemma TimestampsMatchConditions(pol: Policy, w: World, acts: seq<Action>)
    requires Starts(pol, w) && ValidRun(pol, w, acts)
    ensures var st := EndOf(w, acts).status;
            && E2Synced(st) && E4Synced(st)
            && (pol.keepE3 ==> E3Synced(st))
  {
    ReachableInv(pol, w, acts);
  }

  /** Set stays set, and never moves back. */
  predicate NoEarlier(m: Option<Time>, m': Option<Time>) {
    m.Some? ==> m'.Some? && m.value <= m'.value
  }

  predicate MarkersNoEarlier(pol: Policy, w: World, w': World) {
    && NoEarlier(w.status.verifiedValidationAt, w'.status.verifiedValidationAt)
    && NoEarlier(FullRetrievalAt(w.status), FullRetrievalAt(w'.status))
    && (pol.keepE3 ==> NoEarlier(w.status.verifiedSampledAt, w'.status.verifiedSampledAt))
  }

  /** What a level ingests completed after its marker. */
  lemma PlanAdvances(w: World, io: ReconcileIO)
    ensures var plan := MakePlan(w, io);
            && NoEarlier(w.status.verifiedValidationAt, Advance(w.status.verifiedValidationAt, plan.o2.completed))
            && NoEarlier(w.status.verifiedSampledAt, Advance(w.status.verifiedSampledAt, plan.o3.completed))
            && NoEarlier(FullRetrievalAt(w.status), Advance(FullRetrievalAt(w.status), plan.o4.completed))
  {
  }

  lemma ResolvedMarkers(pol: Policy, w: World, io: ReconcileIO, w': World)
    requires StatusInv(pol, w) && Effect(w, io, w')
    ensures MarkersNoEarlier(pol, w, w')
  {
    if io.patchOk {
      var plan := MakePlan(w, io);
      PlanAdvances(w, io);
      WriteE2(w.spec, w.status, io.probe, plan, io.end, w'.status, w.e2,
              Record(w.e2, plan.o2.completed, plan.o2.counts));
      WriteE3(w.spec, w.status, io.probe, plan, io.end, w'.status, w.e3,
              Record(w.e3, plan.o3.completed, plan.o3.counts));
      WriteE4(w.spec, w.status, io.probe, plan, io.end, w'.status, w.e4,
              Record(w.e4, plan.o4.completed, plan.o4.counts));
    }
  }

  lemma EffectMarkers(pol: Policy, w: World, a: Action, w': World)
    requires StatusInv(pol, w) && StepEffect(w, a, w')
    ensures MarkersNoEarlier(pol, w, w')
  {
    if a.Run? && a.creds == Resolved {
      ResolvedMarkers(pol, w, a.io, w');
    }
  }

  lemma StepMarkers(pol: Policy, w: World, a: Action)
    requires Inv(pol, w)
    ensures MarkersNoEarlier(pol, w, Step(w, a))
  {
    StepTakesEffect(w, a);
    EffectMarkers(pol, w, a, Step(w, a));
  }

  lemma {:induction false} RunMarkers(pol: Policy, w: World, acts: seq<Action>)
    requires Inv(pol, w) && ValidRun(pol, w, acts)
    ensures MarkersNoEarlier(pol, w, EndOf(w, acts))
    decreases |acts|
  {
    if acts != [] {
      StepMarkers(pol, w, acts[0]);
      StepKeepsInv(pol, w, acts[0]);
      RunMarkers(pol, Step(w, acts[0]), acts[1..]);
    }
  }

  /** The branches that clear a timestamp are never taken for E2 and E4, nor for an E3 that stays enabled. */
  lemma TimestampsNeverDecrease(pol: Policy, w: World, acts: seq<Action>, more: seq<Action>)
    requires Starts(pol, w) && ValidRun(pol, w, acts + more)
    ensures MarkersNoEarlier(pol, EndOf(w, acts), EndOf(w, acts + more))
  {
    RunSplits(pol, w, acts, more);
    ReachableInv(pol, w, acts);
    RunMarkers(pol, EndOf(w, acts), more);
  }

  // ----- force annotations -----

  lemma HonoredStaysBehindResults(pol: Policy, w: World, acts: seq<Action>)
    requires Starts(pol, w) && ValidRun(pol, w, acts)
    ensures var st := EndOf(w, acts).status;
            && (st.lastForceRevalidatedAt.Some? ==> After(st.verifiedValidationAt, st.lastForceRevalidatedAt.value))
            && (pol.keepE3 && st.lastForceRevalidatedAt.Some? ==>
                  After(st.verifiedSampledAt, st.lastForceRevalidatedAt.value))
            && (st.lastForcedE4At.Some? ==> After(FullRetrievalAt(st), st.lastForcedE4At.value))
  {
    ReachableInv(pol, w, acts);
  }

  lemma StoredSplit(old_: Time, ts: Time)
    requires Stored(old_) == old_ && old_ < ts
    ensures old_ <= Stored(ts)
    ensures old_ < Stored(ts) <==> old_ + SECOND <= ts
  {
  }

  /** What honoring does to the honored timestamp. */
  predicate Honors(annotation: Option<Time>, ts: Time, before: Option<Time>, after: Option<Time>) {
    && after == Some(Stored(ts))
    && (before.Some? ==> before.value <= Stored(ts))
    && (before.Some? ==> (before.value < Stored(ts) <==> before.value + SECOND <= ts))
    && (ResolveForce(annotation, after).None? <==> Stored(ts) == ts)
  }

  lemma HonoringStores(annotation: Option<Time>, ts: Time, before: Option<Time>)
    requires ResolveForce(annotation, before) == Some(ts) && (before.Some? ==> Stored(before.value) == before.value)
    ensures Honors(annotation, ts, before, Some(Stored(ts)))
  {
    StoredBounds(ts);
    if before.Some? {
      StoredSplit(before.value, ts);
    }
  }

  /**
   Honoring a value never moves the honored timestamp back; it moves forward exactly when the value
   is at least a second later, and the same annotation is then spent exactly when it is whole seconds.
   */
  lemma HonoringAdvances(pol: Policy, w: World, io: ReconcileIO)
    requires Inv(pol, w) && io.patchOk && Honored(w).Some?
    ensures Honors(w.forceRevalidate, Honored(w).value, w.status.lastForceRevalidatedAt,
                   ReconcileResolved(w, io).status.lastForceRevalidatedAt)
  {
    ResolvedEffect(w, io);
    EffectHonors(pol, w, io, ReconcileResolved(w, io));
  }

  lemma HonoringE4Advances(pol: Policy, w: World, io: ReconcileIO)
    requires Inv(pol, w) && io.patchOk && HonoredE4(w).Some?
    ensures Honors(w.forceE4, HonoredE4(w).value, w.status.lastForcedE4At,
                   ReconcileResolved(w, io).status.lastForcedE4At)
  {
    ResolvedEffect(w, io);
    EffectHonors(pol, w, io, ReconcileResolved(w, io));
  }

  lemma EffectHonors(pol: Policy, w: World, io: ReconcileIO, w': World)
    requires StatusInv(pol, w) && io.patchOk && Effect(w, io, w')
    ensures Honored(w).Some? ==>
              Honors(w.forceRevalidate, Honored(w).value, w.status.lastForceRevalidatedAt,
                     w'.status.lastForceRevalidatedAt)
    ensures HonoredE4(w).Some? ==>
              Honors(w.forceE4, HonoredE4(w).value, w.status.lastForcedE4At, w'.status.lastForcedE4At)
    ensures Honored(w).None? ==> w'.status.lastForceRevalidatedAt == w.status.lastForceRevalidatedAt
    ensures HonoredE4(w).None? ==> w'.status.lastForcedE4At == w.status.lastForcedE4At
  {
    if Honored(w).Some? {
      HonoringStores(w.forceRevalidate, Honored(w).value, w.status.lastForceRevalidatedAt);
    }
    if HonoredE4(w).Some? {
      HonoringStores(w.forceE4, HonoredE4(w).value, w.status.lastForcedE4At);
    }
  }

  /**
   An honored annotation is honored again by the next reconcile exactly if it is not whole seconds and E3, where
   enabled, keeps a timestamp: its condition is still there or this reconcile brought a new result.
   */
  lemma HonoredAgainExactlyIfFractional(pol: Policy, w: World, io: ReconcileIO)
    requires Inv(pol, w) && io.patchOk && Honored(w).Some?
    ensures var ts := Honored(w).value;
            var e3Stands := w.spec.sampledInterval.None? || E3Synced(w.status) || MakePlan(w, io).o3.completed.Some?;
            Honored(ReconcileResolved(w, io)) == if Stored(ts) != ts && e3Stands then Some(ts) else None
  {
    ResolvedEffect(w, io);
    HonoredAgain(pol, w, io, ReconcileResolved(w, io));
  }

  lemma HonoredAgain(pol: Policy, w: World, io: ReconcileIO, w': World)
    requires StatusInv(pol, w) && io.patchOk && Honored(w).Some? && Effect(w, io, w')
    ensures var ts := Honored(w).value;
            var e3Stands := w.spec.sampledInterval.None? || E3Synced(w.status) || MakePlan(w, io).o3.completed.Some?;
            Honored(w') == if Stored(ts) != ts && e3Stands then Some(ts) else None
  {
    EffectHonors(pol, w, io, w');
    ResolvedMarkers(pol, w, io, w');
    PlanAdvances(w, io);
  }

  predicate HonoredNoEarlier(w: World, w': World) {
    && NoEarlier(w.status.lastForceRevalidatedAt, w'.status.lastForceRevalidatedAt)
    && NoEarlier(w.status.lastForcedE4At, w'.status.lastForcedE4At)
  }

  lemma EffectHonored(pol: Policy, w: World, a: Action, w': World)
    requires StatusInv(pol, w) && StepEffect(w, a, w')
    ensures HonoredNoEarlier(w, w')
  {
    if a.Run? && a.creds == Resolved && a.io.patchOk {
      EffectHonors(pol, w, a.io, w');
    }
  }

  lemma StepHonored(pol: Policy, w: World, a: Action)
    requires Inv(pol, w)
    ensures HonoredNoEarlier(w, Step(w, a))
  {
    StepTakesEffect(w, a);
    EffectHonored(pol, w, a, Step(w, a));
  }

  lemma {:induction false} HonoredNeverDecreases(pol: Policy, w: World, acts: seq<Action>)
    requires Inv(pol, w) && ValidRun(pol, w, acts)
    ensures HonoredNoEarlier(w, EndOf(w, acts))
    decreases |acts|
  {
    if acts != [] {
      StepHonored(pol, w, acts[0]);
      StepKeepsInv(pol, w, acts[0]);
      HonoredNeverDecreases(pol, Step(w, acts[0]), acts[1..]);
    }
  }

  // ----- cadence and bounded forcing -----

  /** Which levels the policy covers. */
  predicate Paced(pol: Policy, d: Depth) {
    pol.prompt && (d == E3 ==> pol.keepE3) && (d == E4 ==> pol.stats)
  }

  lemma ReachableLevel(pol: Policy, w: World, acts: seq<Action>, d: Depth)
    requires Starts(pol, w) && ValidRun(pol, w, acts) && Paced(pol, d)
    ensures var lv := LevelOf(EndOf(w, acts), d);
            && (forall k :: 2 <= k < |lv.spawns| ==> Spaced(lv.spawns, k))
            && (forall i, k :: 0 <= i < k < |lv.spawns| ==> lv.spawns[i].at <= lv.spawns[k].at)
  {
    ReachableInv(pol, w, acts);
  }

  /** Spacing from the Job two before is spacing from all Jobs before that one. */
  lemma SpacedFurther(s: seq<Spawn>, i: nat, k: nat)
    requires i + 2 <= k < |s| && Spaced(s, k)
    requires forall i, k :: 0 <= i < k < |s| ==> s[i].at <= s[k].at
    ensures match s[k].cause
            case Scheduled(interval) => s[k].at >= Stored(s[i].at) + interval
            case Forced(ts) => Stored(s[i].at) <= ts
  {
    if i < k - 2 {
      StoredMonotone(s[i].at, s[k - 2].at);
    }
  }

  /** A scheduled Job comes at least its interval after any Job two or more before it was created. */
  lemma RateLimit(pol: Policy, w: World, acts: seq<Action>, d: Depth, i: nat, k: nat)
    requires Starts(pol, w) && ValidRun(pol, w, acts) && Paced(pol, d)
    requires i + 2 <= k < |LevelOf(EndOf(w, acts), d).spawns|
    requires LevelOf(EndOf(w, acts), d).spawns[k].cause.Scheduled?
    ensures var s := LevelOf(EndOf(w, acts), d).spawns;
            s[k].at >= Stored(s[i].at) + s[k].cause.interval
  {
    ReachableLevel(pol, w, acts, d);
    SpacedFurther(LevelOf(EndOf(w, acts), d).spawns, i, k);
  }

  predicate SpacedFrom(s: seq<Spawn>, interval: Time, at: Time) {
    forall i :: 0 <= i < |s| ==> at >= Stored(s[i].at) + interval
  }

  /** What is still listed decides: everything else is behind the marker. */
  lemma SpacedByTheList(lv: Level, marker: Option<Time>, interval: Time, at: Time, now: Time)
    requires JobsInv(lv, now) && CadenceInv(lv, marker) && Justified(Scheduled(interval), marker, at)
    ensures SpacedFrom(lv.spawns, interval, at) <==> forall j :: j in lv.jobs ==> at >= j.created + interval
  {
    if forall j :: j in lv.jobs ==> at >= j.created + interval {
      forall i | 0 <= i < |lv.spawns| ensures at >= Stored(lv.spawns[i].at) + interval {
        if !Covers(marker, lv.spawns[i]) {
          var j :| j in lv.jobs && j.id == i;
          assert JobFits(lv, j);
        }
      }
    }
    if SpacedFrom(lv.spawns, interval, at) {
      forall j | j in lv.jobs ensures at >= j.created + interval {
        assert JobFits(lv, j);
      }
    }
  }

  lemma RecordedIsSpaced(lv: Level, marker: Option<Time>, interval: Time, at: Time, now: Time)
    requires JobsInv(lv, now) && Justified(Scheduled(interval), marker, at)
    requires forall j :: j in lv.jobs ==> Passed(marker, j)
    ensures forall j :: j in lv.jobs ==> at >= j.created + interval
  {
    forall j | j in lv.jobs ensures at >= j.created + interval {
      assert JobFits(lv, j) && Passed(marker, j);
    }
  }

  /** When a scheduled Job keeps its interval from every earlier one, by what is listed before it is created. */
  predicate SpacedExactly(lv: Level, marker: Option<Time>, s: Spawn)
    requires s.cause.Scheduled?
  {
    && (SpacedFrom(lv.spawns, s.cause.interval, s.at) <==>
          forall j :: j in lv.jobs ==> s.at >= j.created + s.cause.interval)
    && ((forall j :: j in lv.jobs ==> Passed(marker, j)) ==> SpacedFrom(lv.spawns, s.cause.interval, s.at))
  }

  lemma LevelSpaces(lv: Level, marker: Option<Time>, s: Spawn, now: Time)
    requires JobsInv(lv, now) && CadenceInv(lv, marker) && s.cause.Scheduled? && Justified(s.cause, marker, s.at)
    ensures SpacedExactly(lv, marker, s)
  {
    SpacedByTheList(lv, marker, s.cause.interval, s.at, now);
    if forall j :: j in lv.jobs ==> Passed(marker, j) {
      RecordedIsSpaced(lv, marker, s.cause.interval, s.at, now);
    }
  }

  /** A Job a reconcile creates was wanted for its reason at the time of the look. */
  lemma SpawnIsJustified(w: World, io: ReconcileIO, w': World, d: Depth, s: Spawn)
    requires Effect(w, io, w') && LevelOf(w', d).spawns == LevelOf(w, d).spawns + [s]
    ensures Justified(s.cause, MarkerOf(w, d), s.at)
  {
    var at := IOOf(io, d).at;
    assert WantedAt(w, d, at) == Some(s.cause) && s.at == at by {
      PlanOfLevel(w, io, d);
      EffectOnLevel(w, io, w', d);
      assert LevelOf(w', d).spawns[|LevelOf(w, d).spawns|] == s;
    }
    WantsAreJustified(w, at);
  }

  /**
   The interval separates a scheduled Job from every earlier one, collected ones included, exactly if it separates it
   from those still listed; and it does whenever all of these are on record, so that there is nothing to ingest.
   */
  lemma JobIsSpacedExactly(pol: Policy, w0: World, acts: seq<Action>, io: ReconcileIO, d: Depth, s: Spawn)
    requires Starts(pol, w0) && ValidRun(pol, w0, acts) && Paced(pol, d)
    requires Enabled(EndOf(w0, acts), Run(Resolved, io))
    requires var lv, lv' := LevelOf(EndOf(w0, acts), d), LevelOf(ReconcileResolved(EndOf(w0, acts), io), d);
             lv'.spawns == lv.spawns + [s] && s.cause.Scheduled?
    ensures SpacedExactly(LevelOf(EndOf(w0, acts), d), MarkerOf(EndOf(w0, acts), d), s)
  {
    var w := EndOf(w0, acts);
    ReachableInv(pol, w0, acts);
    InvOfLevel(pol, w, d);
    ResolvedEffect(w, io);
    SpawnIsJustified(w, io, ReconcileResolved(w, io), d, s);
    LevelSpaces(LevelOf(w, d), MarkerOf(w, d), s, w.now);
  }

  /**
   One force value creates at most two Jobs of a level: from the second Job on after one created later
   than the value, no Job is forced by it.
   */
  lemma BoundedForcing(pol: Policy, w: World, acts: seq<Action>, d: Depth, ts: Time, i: nat, k: nat)
    requires Starts(pol, w) && ValidRun(pol, w, acts) && Paced(pol, d)
    requires i + 2 <= k < |LevelOf(EndOf(w, acts), d).spawns|
    requires ts < Stored(LevelOf(EndOf(w, acts), d).spawns[i].at)
    ensures LevelOf(EndOf(w, acts), d).spawns[k].cause != Forced(ts)
  {
    ReachableLevel(pol, w, acts, d);
    SpacedFurther(LevelOf(EndOf(w, acts), d).spawns, i, k);
  }

  predicate AnnotatesE4(acts: seq<Action>) { exists i :: 0 <= i < |acts| && acts[i].AnnotateE4? }

  predicate OnlyScheduledSince(s: seq<Spawn>, s': seq<Spawn>) {
    s <= s' && forall k :: |s| <= k < |s'| ==> s'[k].cause.Scheduled?
  }

  lemma UnannotatedStep(w: World, a: Action)
    requires w.forceE4.None? && !a.AnnotateE4?
    ensures var w' := Step(w, a);
            && w'.forceE4.None?
            && w'.status.lastForcedE4At == w.status.lastForcedE4At
            && OnlyScheduledSince(w.e4.spawns, w'.e4.spawns)
  {
    if a.Run? && a.creds == Resolved {
      assert E4Force(w).None? && HonoredE4(w).None?;
    }
  }

  /** Without a live annotation, no Job is forced and no value is honored until someone annotates again. */
  lemma {:induction false} NoForcedE4WithoutAnnotation(pol: Policy, w: World, acts: seq<Action>)
    requires w.forceE4.None? && ValidRun(pol, w, acts) && !AnnotatesE4(acts)
    ensures var w' := EndOf(w, acts);
            && w'.forceE4.None?
            && w'.status.lastForcedE4At == w.status.lastForcedE4At
            && OnlyScheduledSince(w.e4.spawns, w'.e4.spawns)
    decreases |acts|
  {
    if acts != [] {
      UnannotatedStep(w, acts[0]);
      NoForcedE4WithoutAnnotation(pol, Step(w, acts[0]), acts[1..]);
    }
  }

  /** A forced E4 spawn whose clear succeeds is the only one of its annotation, and it is never honored. */
  lemma ForcedE4Once(pol: Policy, w: World, io: ReconcileIO, acts: seq<Action>)
    requires MakePlan(w, io).clearE4 && ValidRun(pol, ReconcileResolved(w, io), acts) && !AnnotatesE4(acts)
    ensures var w1 := ReconcileResolved(w, io); var w' := EndOf(w1, acts);
            && OnlyScheduledSince(w1.e4.spawns, w'.e4.spawns)
            && w'.status.lastForcedE4At == w.status.lastForcedE4At
  {
    NoForcedE4WithoutAnnotation(pol, ReconcileResolved(w, io), acts);
  }

  // ----- ingestion -----

  /** Each Job is ingested at most once, in strictly increasing order of completion. */
  lemma IngestedAtMostOnce(pol: Policy, w: World, acts: seq<Action>, d: Depth)
    requires Starts(pol, w) && ValidRun(pol, w, acts)
    requires (d == E3 ==> pol.keepE3) && (d == E4 ==> pol.stats)
    ensures var lv := LevelOf(EndOf(w, acts), d); Increasing(lv.ingests) && DistinctIds(lv.ingests)
  {
    ReachableInv(pol, w, acts);
  }

  /** The recorded retrieval tells whether its Job was forced, even if the annotation is long gone. */
  lemma TriggerSourceIsTheSpawnFlag(pol: Policy, w: World, acts: seq<Action>)
    requires Starts(pol, w) && ValidRun(pol, w, acts)
    ensures RetrievalKept(EndOf(w, acts).status, EndOf(w, acts).e4)
  {
    ReachableInv(pol, w, acts);
  }

  // ----- Jobs in flight -----

  lemma OneJobInFlightPerLevel(pol: Policy, w: World, acts: seq<Action>, d: Depth, j: Job, k: Job)
    requires Starts(pol, w) && ValidRun(pol, w, acts)
    requires j in LevelOf(EndOf(w, acts), d).jobs && k in LevelOf(EndOf(w, acts), d).jobs
    requires !j.Done() && !k.Done()
    ensures j == k
  {
    ReachableInv(pol, w, acts);
    AtMostOneInFlight(LevelOf(EndOf(w, acts), d), EndOf(w, acts).now, j, k);
  }

  function JobsCreated(w: World, w': World): int {
    |w'.e2.spawns| - |w.e2.spawns| + |w'.e3.spawns| - |w.e3.spawns| + |w'.e4.spawns| - |w.e4.spawns|
  }

  /** What E3 and E4 wait for. */
  predicate InOrder(w: World, io: ReconcileIO, w': World) {
    && 0 <= JobsCreated(w, w') <= 1
    && (w'.e3.spawns != w.e3.spawns && io.e2.listOk ==> !Busy(w.e2.jobs) && !Busy(w'.e2.jobs))
    && (w'.e4.spawns != w.e4.spawns && io.e2.listOk ==> !Busy(w.e2.jobs) && !Busy(w'.e2.jobs))
    && (w'.e4.spawns != w.e4.spawns && io.e3.listOk && w.spec.sampledInterval.Some? ==>
          !Busy(w.e3.jobs) && !Busy(w'.e3.jobs))
  }

  lemma EffectInOrder(w: World, io: ReconcileIO, w': World)
    requires Effect(w, io, w')
    ensures InOrder(w, io, w')
  {
  }

  /** One reconcile creates at most one Job; E3 and E4 only while the levels before them are idle. */
  lemma OneJobPerReconcile(w: World, io: ReconcileIO)
    ensures InOrder(w, io, ReconcileResolved(w, io))
  {
    ResolvedEffect(w, io);
    EffectInOrder(w, io, ReconcileResolved(w, io));
  }
}
