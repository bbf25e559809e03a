/**
 That the controller does not sit still: which levels are due, and that the first one gets its Job.
 */
module Progress {
  import opened Types
  import opened Jobs
  import opened Reconcile
  import opened Runs
  import opened Guarantees

  /** An annotation that was not honored yet. */
  predicate Live(annotation: Option<Time>, honored: Option<Time>) {
    annotation.Some? && (honored.Some? ==> honored.value < annotation.value)
  }

  /** The operator asked for a run and no result is from after the request. */
  predicate Requested(annotation: Option<Time>, honored: Option<Time>, marker: Option<Time>) {
    Live(annotation, honored) && (marker.Some? ==> marker.value <= annotation.value)
  }

  predicate Elapsed(interval: Option<Time>, marker: Option<Time>, at: Time) {
    interval.Some? && (marker.Some? ==> marker.value + interval.value <= at)
  }

  predicate Asks(w: World, d: Depth) {
    match d
    case E2 => Requested(w.forceRevalidate, w.status.lastForceRevalidatedAt, w.status.verifiedValidationAt)
    case E3 => w.spec.sampledInterval.Some? &&
               Requested(w.forceRevalidate, w.status.lastForceRevalidatedAt, w.status.verifiedSampledAt)
    case E4 => Requested(w.forceE4, w.status.lastForcedE4At, FullRetrievalAt(w.status))
  }

  function IntervalOf(w: World, d: Depth): Option<Time> {
    match d
    case E2 => Some(w.spec.metadataInterval)
    case E3 => w.spec.sampledInterval
    case E4 => w.spec.fullInterval
  }

  predicate DueAt(w: World, d: Depth, at: Time) {
    && (d == E4 ==> w.spec.storageClass && w.spec.pvcSize)
    && (Asks(w, d) || Elapsed(IntervalOf(w, d), MarkerOf(w, d), at))
  }

  /** No Job runs, every list succeeds, every create creates. */
  predicate Undisturbed(w: World, io: ReconcileIO) {
    forall d: Depth ::
      !Busy(LevelOf(w, d).jobs) && IOOf(io, d).listOk && IOOf(io, d).create == Created
  }

  /** The first level in order that is due. */
  function FirstDue(w: World, io: ReconcileIO): Option<Depth> {
    if DueAt(w, E2, io.e2.at) then Some(E2)
    else if DueAt(w, E3, io.e3.at) then Some(E3)
    else if DueAt(w, E4, io.e4.at) then Some(E4)
    else None
  }

  function CauseFor(w: World, d: Depth): Cause
    requires Asks(w, d) || IntervalOf(w, d).Some?
  {
    if Asks(w, d) then Forced(if d == E4 then w.forceE4.value else w.forceRevalidate.value)
    else Scheduled(IntervalOf(w, d).value)
  }

  predicate Unspawned(w: World, w': World, d: Depth) { LevelOf(w', d).spawns == LevelOf(w, d).spawns }

  /**
   An undisturbed reconcile starts exactly one Job, at the first level that is due and for the reason it is
   due, or none exactly if no level is due. Whether the status patch succeeds makes no difference.
   */
  lemma FirstDueLevelGetsTheJob(w: World, io: ReconcileIO)
    requires Undisturbed(w, io)
    ensures var w' := ReconcileResolved(w, io); var first := FirstDue(w, io);
            && (first.None? <==> JobsCreated(w, w') == 0)
            && (first.Some? ==>
                  && LevelOf(w', first.value).spawns ==
                     LevelOf(w, first.value).spawns + [Spawn(IOOf(io, first.value).at, CauseFor(w, first.value))]
                  && forall d: Depth :: d != first.value ==> Unspawned(w, w', d))
  {
    LevelsWantExactlyWhenDue(w, io);
    assert !Busy(LevelOf(w, E2).jobs) && IOOf(io, E2).listOk && IOOf(io, E2).create == Created;
    assert !Busy(LevelOf(w, E3).jobs) && IOOf(io, E3).listOk && IOOf(io, E3).create == Created;
    assert !Busy(LevelOf(w, E4).jobs) && IOOf(io, E4).listOk && IOOf(io, E4).create == Created;
    SpawnsOf(w, io);
    PlanSpawns(w, io, MakePlan(w, io));
  }

  lemma LevelsWantExactlyWhenDue(w: World, io: ReconcileIO)
    ensures forall d: Depth :: var want := WantedAt(w, d, IOOf(io, d).at);
              (want.Some? <==> DueAt(w, d, IOOf(io, d).at)) && (want.Some? ==> want.value == CauseFor(w, d))
  {
    forall d: Depth
      ensures var want := WantedAt(w, d, IOOf(io, d).at);
              (want.Some? <==> DueAt(w, d, IOOf(io, d).at)) && (want.Some? ==> want.value == CauseFor(w, d))
    {
      match d
      case E2 =>
      case E3 =>
      case E4 =>
    }
  }

  lemma SpawnsOf(w: World, io: ReconcileIO)
    ensures var w' := ReconcileResolved(w, io); var plan := MakePlan(w, io);
            && w'.e2.spawns == plan.o2.after.spawns
            && w'.e3.spawns == plan.o3.after.spawns
            && w'.e4.spawns == plan.o4.after.spawns
  {
  }

  function Submitted(s: seq<Spawn>, want: Option<Cause>, at: Time): seq<Spawn> {
    if want.Some? then s + [Spawn(at, want.value)] else s
  }

  lemma PlanSpawns(w: World, io: ReconcileIO, plan: Plan)
    requires plan == MakePlan(w, io)
    requires !Busy(w.e2.jobs) && !Busy(w.e3.jobs) && !Busy(w.e4.jobs)
    requires io.e2.listOk && io.e3.listOk && io.e4.listOk
    requires io.e2.create == Created && io.e3.create == Created && io.e4.create == Created
    ensures var k2, k3, k4 := E2Wanted(w, io.e2.at), E3Wanted(w, io.e3.at), E4Wanted(w, io.e4.at);
            && plan.o2.after.spawns == Submitted(w.e2.spawns, k2, io.e2.at)
            && plan.o3.after.spawns == Submitted(w.e3.spawns, if k2.Some? then None else k3, io.e3.at)
            && plan.o4.after.spawns == Submitted(w.e4.spawns, if k2.Some? || k3.Some? then None else k4, io.e4.at)
  {
  }

  // ----- a request is not forgotten -----

  /** What becomes of both honored values: the request, stored, if it is live and its levels are served. */
  lemma HonoredExactly(w: World, io: ReconcileIO)
    requires io.patchOk
    ensures var st, st' := w.status, ReconcileResolved(w, io).status;
            && st'.lastForceRevalidatedAt ==
               (if Live(w.forceRevalidate, st.lastForceRevalidatedAt) && !Asks(w, E2) && !Asks(w, E3)
                then Some(Stored(w.forceRevalidate.value)) else st.lastForceRevalidatedAt)
            && st'.lastForcedE4At ==
               (if Live(w.forceE4, st.lastForcedE4At) && !Asks(w, E4)
                then Some(Stored(w.forceE4.value)) else st.lastForcedE4At)
  {
  }

  /** The force-e4 annotation goes exactly if its request was submitted, in whatever way, and the clear succeeds. */
  lemma AnnotationClearedExactly(w: World, io: ReconcileIO)
    ensures var w' := ReconcileResolved(w, io);
            && w'.forceRevalidate == w.forceRevalidate
            && w'.forceE4 ==
               if && Asks(w, E4) && w.spec.storageClass && w.spec.pvcSize
                  && Reads(w, io, E4) && !Busy(w.e4.jobs) && io.e4.create != CreateFailed && io.clearOk
               then None else w.forceE4
  {
    assert Asks(w, E4) <==> E4Force(w).Some?;
    ResolvedE4Out(w, io);
  }

  lemma ResolvedE4Out(w: World, io: ReconcileIO)
    ensures MakePlan(w, io).o4 == if Reads(w, io, E4) then E4Out(w, io.e4) else Skipped(w.e4)
  {
  }

  /**
   A recorded reconcile spends a whole-second request exactly if every level it applies to has a result from
   after it; until then the request stays live.
   */
  lemma RequestSpentExactlyWhenServed(w: World, io: ReconcileIO)
    requires io.patchOk && Live(w.forceRevalidate, w.status.lastForceRevalidatedAt)
    requires Stored(w.forceRevalidate.value) == w.forceRevalidate.value
    ensures var w' := ReconcileResolved(w, io);
            && (Live(w'.forceRevalidate, w'.status.lastForceRevalidatedAt) <==> Asks(w, E2) || Asks(w, E3))
            && (!Asks(w, E2) && !Asks(w, E3) ==> w'.status.lastForceRevalidatedAt == w.forceRevalidate)
  {
  }
}
