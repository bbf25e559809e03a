/**
 Where the controller promises less than its documentation says: concrete runs, and the exact extent.
 */
module Limits {
  import opened Types
  import opened ConditionSet
  import opened Jobs
  import opened Reconcile
  import opened Runs
  import opened StatusInvariants
  import opened Invariants
  import opened Health

  const MINUTE: Time := 60 * SECOND
  const HOUR: Time := 3600 * SECOND
  const PLAIN := Spec(HOUR, None, None, false, false, HOUR, None)
  const GOOD_PROBE := Probe(true, ProbeSucceeded, true, ProbeSucceeded, Some(0), None)

  function Answers(at: Time, pick: Option<Job>): LevelIO { LevelIO(at, true, pick, None, Created) }

  function Cycle(at: Time, pick: Option<Job>): Action {
    Run(Resolved, ReconcileIO(GOOD_PROBE, Answers(at, pick), Answers(at, None), Answers(at, None), true, true, at))
  }

  // The first Job completes after a minute (Job names differ from minute to minute); the cycle that ingests
  // it starts the next one within that second.
  const START := Initial(PLAIN, 0)
  const LATE: Time := 65 * SECOND + 200_000_000
  const FIRST := Job(0, 0, InFlight, None, false)
  const FIRST_DONE := FIRST.(phase := Succeeded, completion := Some(65 * SECOND))
  const SECOND_JOB := Job(1, 65 * SECOND, InFlight, None, false)
  const SECOND_FAILED := SECOND_JOB.(phase := Failed)

  /** A cycle of a repository with only E2 enabled and nothing forced. */
  predicate Plain(w: World) {
    && w.spec == PLAIN && w.forceRevalidate.None? && w.forceE4.None?
    && w.e3 == EMPTY_LEVEL && w.e4 == EMPTY_LEVEL && w.status.lastFullRetrieval.None?
  }

  function PlainOut(w: World, at: Time, pick: Option<Job>): LevelOut {
    var marker := w.status.verifiedValidationAt;
    Process(w.e2, marker, if Due(marker, HOUR, at) then Some(Scheduled(HOUR)) else None, Answers(at, pick))
  }

  lemma PlainPlan(w: World, at: Time, pick: Option<Job>)
    requires Plain(w)
    ensures var plan := MakePlan(w, Cycle(at, pick).io);
            && plan.o2 == PlainOut(w, at, pick)
            && plan.o3 == Skipped(EMPTY_LEVEL) && plan.o4 == Skipped(EMPTY_LEVEL)
            && plan.honored.None? && plan.honoredE4.None? && !plan.clearE4
  {
  }

  lemma PlainCycle(w: World, at: Time, pick: Option<Job>)
    requires Plain(w)
    ensures var w', out := Step(w, Cycle(at, pick)), PlainOut(w, at, pick);
            && Plain(w') && w'.now == at
            && w'.e2 == Recorded(out)
            && w'.status.verifiedValidationAt ==
               LevelMarker(out.completed, w.status.verifiedValidationAt, w.status.conditions, MetadataValid)
  {
    PlainPlan(w, at, pick);
  }

  // ----- a run in which the second Job follows the first at once and its failure is never seen -----

  const E2_ONLY := Policy(true, false, false)

  const RUN := [
    Cycle(0, None),
    Tick(LATE),
    Finish(E2, FIRST, true, Some(65 * SECOND)),
    Cycle(LATE, Some(FIRST_DONE)),
    Finish(E2, SECOND_JOB, false, None)]

  predicate At1(w: World) {
    && Plain(w) && w.status.verifiedValidationAt.None? && w.now == 0
    && w.e2 == Level({FIRST}, [Spawn(0, Scheduled(HOUR))], [])
  }

  predicate At2(w: World) {
    && Plain(w) && w.status.verifiedValidationAt.None? && w.now == LATE
    && w.e2 == Level({FIRST}, [Spawn(0, Scheduled(HOUR))], [])
  }

  predicate At3(w: World) {
    && Plain(w) && w.status.verifiedValidationAt.None? && w.now == LATE
    && w.e2 == Level({FIRST_DONE}, [Spawn(0, Scheduled(HOUR))], [])
  }

  predicate At4(w: World) {
    && Plain(w) && w.status.verifiedValidationAt == Some(65 * SECOND) && w.now == LATE
    && w.e2 == Level({FIRST_DONE, SECOND_JOB}, SPAWNS, [Ingest(0, 65 * SECOND, true, None)])
  }

  predicate At5(w: World) {
    && Plain(w) && w.status.verifiedValidationAt == Some(65 * SECOND) && w.now == LATE
    && w.e2 == Level({FIRST_DONE, SECOND_FAILED}, SPAWNS, [Ingest(0, 65 * SECOND, true, None)])
  }

  lemma FirstCycle(w: World)
    requires w == START
    ensures Enabled(w, RUN[0]) && At1(Step(w, RUN[0]))
  {
    PlainCycle(w, 0, None);
    assert Stored(0) == 0;
  }

  lemma FirstFinishes(w: World)
    requires At2(w)
    ensures Enabled(w, RUN[2]) && At3(Step(w, RUN[2]))
  {
    assert {FIRST} - {FIRST} + {FIRST_DONE} == {FIRST_DONE};
  }

  const SPAWNS := [Spawn(0, Scheduled(HOUR)), Spawn(LATE, Scheduled(HOUR))]

  lemma SecondOut(w: World)
    requires w.status.verifiedValidationAt.None? && w.e2 == Level({FIRST_DONE}, [Spawn(0, Scheduled(HOUR))], [])
    ensures PlainOut(w, LATE, Some(FIRST_DONE)) ==
            LevelOut(true, Some(FIRST_DONE), None, true, Level({FIRST_DONE, SECOND_JOB}, SPAWNS, []))
  {
    assert Stored(LATE) == 65 * SECOND;
    assert {FIRST_DONE} + {SECOND_JOB} == {FIRST_DONE, SECOND_JOB};
    assert [Spawn(0, Scheduled(HOUR))] + [Spawn(LATE, Scheduled(HOUR))] == SPAWNS;
  }

  lemma SecondCycle(w: World)
    requires At3(w)
    ensures Enabled(w, RUN[3]) && At4(Step(w, RUN[3]))
  {
    SecondOut(w);
    PlainCycle(w, LATE, Some(FIRST_DONE));
    assert IsLatest({FIRST_DONE}, FIRST_DONE);
  }

  lemma SecondFails(w: World)
    requires At4(w)
    ensures Enabled(w, RUN[4]) && At5(Step(w, RUN[4]))
  {
    assert {FIRST_DONE, SECOND_JOB} - {SECOND_JOB} + {SECOND_FAILED} == {FIRST_DONE, SECOND_FAILED};
  }

  lemma {:induction false} RunExtends(pol: Policy, w: World, acts: seq<Action>, a: Action)
    requires ValidRun(pol, w, acts) && Enabled(EndOf(w, acts), a) && Obeys(pol, EndOf(w, acts), a)
    ensures ValidRun(pol, w, acts + [a]) && EndOf(w, acts + [a]) == Step(EndOf(w, acts), a)
    decreases |acts|
  {
    if acts == [] {
      assert [a][1..] == [];
    } else {
      assert (acts + [a])[1..] == acts[1..] + [a];
      RunExtends(pol, Step(w, acts[0]), acts[1..], a);
    }
  }

  lemma Prefix1()
    ensures ValidRun(E2_ONLY, START, RUN[..1]) && At1(EndOf(START, RUN[..1]))
  {
    FirstCycle(START);
    RunExtends(E2_ONLY, START, [], RUN[0]);
    assert [] + [RUN[0]] == RUN[..1];
  }

  lemma Prefix2()
    ensures ValidRun(E2_ONLY, START, RUN[..2]) && At2(EndOf(START, RUN[..2]))
  {
    Prefix1();
    RunExtends(E2_ONLY, START, RUN[..1], RUN[1]);
    assert RUN[..1] + [RUN[1]] == RUN[..2];
  }

  lemma Prefix3()
    ensures ValidRun(E2_ONLY, START, RUN[..3]) && At3(EndOf(START, RUN[..3]))
  {
    Prefix2();
    FirstFinishes(EndOf(START, RUN[..2]));
    RunExtends(E2_ONLY, START, RUN[..2], RUN[2]);
    assert RUN[..2] + [RUN[2]] == RUN[..3];
  }

  lemma Prefix4()
    ensures ValidRun(E2_ONLY, START, RUN[..4]) && At4(EndOf(START, RUN[..4]))
  {
    Prefix3();
    SecondCycle(EndOf(START, RUN[..3]));
    RunExtends(E2_ONLY, START, RUN[..3], RUN[3]);
    assert RUN[..3] + [RUN[3]] == RUN[..4];
  }

  lemma RunIsValid()
    ensures ValidRun(E2_ONLY, START, RUN) && At5(EndOf(START, RUN))
  {
    Prefix4();
    SecondFails(EndOf(START, RUN[..4]));
    RunExtends(E2_ONLY, START, RUN[..4], RUN[4]);
    assert RUN[..4] + [RUN[4]] == RUN;
  }

  /** The interval does not separate a Job from the one before it: two scheduled Jobs 65.2s apart, interval one hour. */
  lemma ScheduledJobsBackToBack()
    ensures ValidRun(E2_ONLY, START, RUN)
    ensures var s := EndOf(START, RUN).e2.spawns;
            |s| == 2 && s[1].cause == Scheduled(HOUR) && s[1].at < s[0].at + HOUR
  {
    RunIsValid();
  }

  /** The newest Job failed, was listed, and Healthy is True: its stand-in completion time is not after the marker. */
  lemma FailureInTheSameSecondIsMissed()
    ensures ValidRun(E2_ONLY, START, RUN) && SECOND_FAILED in EndOf(START, RUN).e2.jobs
    ensures var last := Cycle(LATE, Some(FIRST_DONE)); var w' := Step(EndOf(START, RUN), last);
            && Enabled(EndOf(START, RUN), last)
            && Healthy in w'.status.conditions && w'.status.conditions[Healthy].status == IsTrue
  {
    RunIsValid();
    ReachableInv(E2_ONLY, START, RUN);
    var w := EndOf(START, RUN);
    assert E2Status(w.status, w.e2);
    assert IsLatest({FIRST_DONE, SECOND_FAILED}, FIRST_DONE);
    StillHealthy(w);
  }

  lemma StillHealthy(w: World)
    requires At5(w) && E2Status(w.status, w.e2)
    ensures var cs := Step(w, Cycle(LATE, Some(FIRST_DONE))).status.conditions;
            Healthy in cs && cs[Healthy].status == IsTrue
  {
    var io := Cycle(LATE, Some(FIRST_DONE)).io;
    var plan := MakePlan(w, io);
    PlainPlan(w, LATE, Some(FIRST_DONE));
    assert plan.o2.completed.None?;
    WriteStaysHealthy(w, io, plan);
  }

  lemma WriteStaysHealthy(w: World, io: ReconcileIO, plan: Plan)
    requires Plain(w) && ProbeGood(w.spec, io.probe, io.end)
    requires plan.o2.completed.None? && plan.o4.completed.None? && !plan.o4.active
    requires w.status.verifiedValidationAt.Some? && HasResult(w.status, MetadataValid)
    requires w.status.conditions[MetadataValid].status == IsTrue
    ensures var cs := StatusAfter(w.spec, w.status, io.probe, plan, io.end).conditions;
            Healthy in cs && cs[Healthy].status == IsTrue
  {
    HealthyExactly(w.spec, w.status, io.probe, plan, io.end);
    StatusAfterWrote(w.spec, w.status, io.probe, plan, io.end);
    LevelsStayTrue(w, io, plan, StatusAfter(w.spec, w.status, io.probe, plan, io.end));
  }

  lemma LevelsStayTrue(w: World, io: ReconcileIO, plan: Plan, st': Status)
    requires Plain(w) && Wrote(w.spec, w.status, io.probe, plan, io.end, st')
    requires plan.o2.completed.None? && plan.o4.completed.None? && !plan.o4.active
    requires w.status.verifiedValidationAt.Some? && HasResult(w.status, MetadataValid)
    requires w.status.conditions[MetadataValid].status == IsTrue
    ensures LevelsTrue(st'.conditions)
  {
    assert MetadataValid in LEAF_TYPES && SampledIntegrityValid in LEAF_TYPES && FullRetrievalCompleted in LEAF_TYPES;
  }

  // ----- the rate limit rests on the status patches -----

  function FailingCycle(at: Time, pick: Option<Job>): Action {
    Run(Resolved, ReconcileIO(GOOD_PROBE, Answers(at, pick), Answers(at, None), Answers(at, None), true, false, at))
  }

  predicate NothingCollected(acts: seq<Action>) { forall i :: 0 <= i < |acts| ==> !acts[i].Collect? }

  /** Every minute a scheduled Job, all finished, none on record. */
  predicate EveryMinute(s: seq<Spawn>) { forall k :: 0 <= k < |s| ==> s[k] == Spawn(k * MINUTE, Scheduled(HOUR)) }

  predicate Retrying(w: World, n: nat, last: Option<Job>) {
    && Plain(w) && w.status.verifiedValidationAt.None? && w.now == n * MINUTE
    && |w.e2.spawns| == n && EveryMinute(w.e2.spawns)
    && !Busy(w.e2.jobs) && ValidPick(w.e2.jobs, last)
    && forall j :: j in w.e2.jobs ==> j.CompletedAt() <= w.now
  }

  function Newest(n: nat): Job { Job(n, n * MINUTE, InFlight, None, false) }

  function NewestDone(n: nat): Job { Finished(Newest(n), true, Some(n * MINUTE)) }

  lemma WholeSeconds(k: int)
    ensures Stored(k * 1_000_000_000) == k * 1_000_000_000
  {
    assert k * 1_000_000_000 / 1_000_000_000 == k;
  }

  lemma WholeMinutes(n: nat)
    ensures Stored(n * MINUTE) == n * MINUTE
  {
    WholeSeconds(n * 60);
    assert n * 60 * 1_000_000_000 == n * 60_000_000_000 == n * MINUTE;
  }

  lemma SubmitsNewest(w: World, n: nat, last: Option<Job>)
    requires Retrying(w, n, last)
    ensures PlainOut(w, w.now, last) == LevelOut(true, last, None, true, Submit(w.e2, Scheduled(HOUR), w.now))
    ensures Submit(w.e2, Scheduled(HOUR), w.now).jobs == w.e2.jobs + {Newest(n)}
  {
    WholeMinutes(n);
  }

  lemma FailingCycleSubmits(w: World, n: nat, last: Option<Job>)
    requires Retrying(w, n, last)
    ensures var a := FailingCycle(w.now, last);
            Enabled(w, a) && Step(w, a) == w.(e2 := Submit(w.e2, Scheduled(HOUR), w.now), firstMiss := None)
    ensures Submit(w.e2, Scheduled(HOUR), w.now).jobs == w.e2.jobs + {Newest(n)}
  {
    SubmitsNewest(w, n, last);
    PlainPlan(w, w.now, last);
    assert MakePlan(w, FailingCycle(w.now, last).io) == MakePlan(w, Cycle(w.now, last).io);
  }

  /** What is left after the new Job has finished and a minute has passed. */
  lemma RoundEnds(w: World, w1: World, n: nat, last: Option<Job>)
    requires Retrying(w, n, last)
    requires w1 == w.(e2 := Submit(w.e2, Scheduled(HOUR), w.now), firstMiss := None)
    requires w1.e2.jobs == w.e2.jobs + {Newest(n)}
    ensures var fin := Finish(E2, Newest(n), true, Some(n * MINUTE));
            && Enabled(w1, fin)
            && Enabled(Step(w1, fin), Tick((n + 1) * MINUTE))
            && Retrying(Step(Step(w1, fin), Tick((n + 1) * MINUTE)), n + 1, Some(NewestDone(n)))
  {
    var fin := Finish(E2, Newest(n), true, Some(n * MINUTE));
    var jobs := Step(w1, fin).e2.jobs;
    assert Newest(n) in w1.e2.jobs;
    forall j | j in jobs ensures j.Done() && j.CompletedAt() <= n * MINUTE {
      assert j == NewestDone(n) || j in w.e2.jobs;
    }
    assert NewestDone(n) in jobs;
  }

  lemma {:induction false} RetryRun(n: nat) returns (acts: seq<Action>, last: Option<Job>)
    ensures ValidRun(ANY_RUN, START, acts) && NothingCollected(acts) && Retrying(EndOf(START, acts), n, last)
  {
    if n == 0 {
      acts, last := [], None;
    } else {
      acts, last := RetryRun(n - 1);
      var w := EndOf(START, acts);
      var a, tick := FailingCycle(w.now, last), Tick(n * MINUTE);
      var fin := Finish(E2, Newest(n - 1), true, Some((n - 1) * MINUTE));
      FailingCycleSubmits(w, n - 1, last);
      RoundEnds(w, Step(w, a), n - 1, last);
      RunExtends(ANY_RUN, START, acts, a);
      RunExtends(ANY_RUN, START, acts + [a], fin);
      RunExtends(ANY_RUN, START, acts + [a] + [fin], tick);
      acts, last := acts + [a] + [fin] + [tick], Some(NewestDone(n - 1));
    }
  }

  /** While patches fail, an interval of an hour bounds nothing: any number of scheduled Jobs, a minute apart. */
  lemma FailedPatchesUnboundTheRate(n: nat)
    ensures exists acts :: && ValidRun(ANY_RUN, START, acts) && NothingCollected(acts)
                           && |EndOf(START, acts).e2.spawns| == n && EveryMinute(EndOf(START, acts).e2.spawns)
  {
    var acts, last := RetryRun(n);
  }

  // ----- sequencing is one-directional -----

  /** Whether E2 starts a Job does not depend on what E3 and E4 are doing. */
  lemma E2IgnoresTheOtherLevels(w: World, io: ReconcileIO, e3: Level, e4: Level)
    ensures MakePlan(w.(e3 := e3, e4 := e4), io).o2 == MakePlan(w, io).o2
  {
  }

  // ----- forced requests -----

  /** A cleared E4 annotation got a Job exactly if the create was not answered with "already exists". */
  lemma ClearedRequestHasAJob(w: World, io: ReconcileIO)
    requires MakePlan(w, io).clearE4
    ensures var w' := ReconcileResolved(w, io);
            && w'.forceE4.None?
            && (io.e4.create == Created <==> w'.e4.spawns != w.e4.spawns)
            && (io.e4.create == AlreadyExists <==> w'.e4.spawns == w.e4.spawns)
  {
  }

  /**
   An E4 Job that was ingested is ingested again while it stays listed, exactly if this look found no STATS line in
   its log, for whatever reason; otherwise its counts are recorded.
   */
  lemma RetakenExactlyWithoutCounts(w: World, io: ReconcileIO, j: Job)
    requires io.patchOk && MakePlan(w, io).o4.completed == Some(j)
    ensures var st' := ReconcileResolved(w, io).status; var counts := io.e4.log;
            && (Unrecorded(Some(j), FullRetrievalAt(st')) == Some(j) <==> counts.None?)
            && (counts.None? ==> st'.lastFullRetrieval == w.status.lastFullRetrieval)
            && (counts.Some? ==>
                  st'.lastFullRetrieval == Some(FullRetrieval(j.CompletedAt(), counts.value, j.manual)))
  {
    ResolvedEffect(w, io);
  }
}
