/**
 Runs from an empty status that reach the states in which the controller does less than its documentation says.
 */
module Witnesses {
  import opened Types
  import opened ConditionSet
  import opened Jobs
  import opened Reconcile
  import opened Runs
  import opened LevelInvariants
  import opened StatusInvariants
  import opened Invariants
  import opened Guarantees
  import opened Results
  import opened Health
  import opened Limits

  const UNLISTED := LevelIO(0, false, None, None, Created)

  /** One more step at the end of a run. */
  lemma Extended(w0: World, acts: seq<Action>, a: Action) returns (acts': seq<Action>)
    requires ValidRun(ANY_RUN, w0, acts) && Enabled(EndOf(w0, acts), a)
    ensures ValidRun(ANY_RUN, w0, acts') && EndOf(w0, acts') == Step(EndOf(w0, acts), a)
  {
    RunExtends(ANY_RUN, w0, acts, a);
    acts' := acts + [a];
  }

  // ----- E4: a request that gets no Job, a result that is taken twice -----

  const E4_ON_DEMAND := Spec(HOUR, None, None, true, true, HOUR, None)

  /** A cycle in which only E4 can be listed. */
  function E4Cycle(at: Time, pick: Option<Job>, create: CreateOutcome): Action {
    var none := UNLISTED.(at := at);
    Run(Resolved, ReconcileIO(GOOD_PROBE, none, none, LevelIO(at, true, pick, None, create), true, true, at))
  }

  /** Nothing retrieved or honored so far. */
  predicate E4At(w: World, now: Time, request: Option<Time>, e4: Level) {
    && w.now == now && w.spec == E4_ON_DEMAND && w.forceE4 == request && w.e4 == e4
    && w.status.lastFullRetrieval.None? && w.status.lastForcedE4At.None?
  }

  function E4Took(request: Option<Time>, e4: Level, at: Time, pick: Option<Job>, create: CreateOutcome): LevelOut {
    Process(e4, None, if request.Some? then Some(Forced(request.value)) else None,
            LevelIO(at, true, pick, None, create))
  }

  lemma E4Cycles(w: World, request: Option<Time>, e4: Level, at: Time, pick: Option<Job>, create: CreateOutcome)
    requires E4At(w, w.now, request, e4) && w.now <= at && ValidPick(e4.jobs, pick)
    ensures var a := E4Cycle(at, pick, create); var out := E4Took(request, e4, at, pick, create);
            && Enabled(w, a)
            && E4At(Step(w, a), at, if out.submitted then None else request, Recorded(out))
  {
    var io := E4Cycle(at, pick, create).io;
    var out := E4Took(request, e4, at, pick, create);
    ResolvedEffect(w, io);
    assert MakePlan(w, io).o4 == out;
    assert HonoredE4(w).None?;
  }

  const RETRIEVAL := Job(0, 0, InFlight, None, true)
  const RETRIEVAL_FAILED := RETRIEVAL.(phase := Failed)
  const FORCED_ONCE := [Spawn(0, Forced(0))]

  lemma FirstRetrievalStarts() returns (acts: seq<Action>)
    ensures ValidRun(ANY_RUN, Initial(E4_ON_DEMAND, 0), acts)
    ensures E4At(EndOf(Initial(E4_ON_DEMAND, 0), acts), 0, None, Level({RETRIEVAL}, FORCED_ONCE, []))
  {
    var w0 := Initial(E4_ON_DEMAND, 0);
    acts := Extended(w0, [], AnnotateE4(Some(0)));
    E4Cycles(EndOf(w0, acts), Some(0), EMPTY_LEVEL, 0, None, Created);
    assert E4Took(Some(0), EMPTY_LEVEL, 0, None, Created).after == Level({RETRIEVAL}, FORCED_ONCE, []) by {
      assert Stored(0) == 0 && {} + {RETRIEVAL} == {RETRIEVAL};
    }
    acts := Extended(w0, acts, E4Cycle(0, None, Created));
  }

  lemma FirstRetrievalFails() returns (acts: seq<Action>)
    ensures ValidRun(ANY_RUN, Initial(E4_ON_DEMAND, 0), acts)
    ensures E4At(EndOf(Initial(E4_ON_DEMAND, 0), acts), 0, None, Level({RETRIEVAL_FAILED}, FORCED_ONCE, []))
  {
    acts := FirstRetrievalStarts();
    acts := Extended(Initial(E4_ON_DEMAND, 0), acts, Finish(E4, RETRIEVAL, false, None));
    assert {RETRIEVAL} - {RETRIEVAL} + {RETRIEVAL_FAILED} == {RETRIEVAL_FAILED};
  }

  const TAKEN := Ingest(0, 0, false, None)

  /** Asked for again two seconds later: the name is taken within the same minute. */
  lemma SecondRequest() returns (acts: seq<Action>)
    ensures ValidRun(ANY_RUN, Initial(E4_ON_DEMAND, 0), acts)
    ensures E4At(EndOf(Initial(E4_ON_DEMAND, 0), acts), 2 * SECOND, Some(SECOND),
                 Level({RETRIEVAL_FAILED}, FORCED_ONCE, []))
  {
    var w0 := Initial(E4_ON_DEMAND, 0);
    acts := FirstRetrievalFails();
    acts := Extended(w0, acts, AnnotateE4(Some(SECOND)));
    acts := Extended(w0, acts, Tick(2 * SECOND));
  }

  /** A run and a reconcile after which the request is gone from the object and never had a Job. */
  lemma RequestLostToANameClash()
    ensures exists acts ::
              && ValidRun(ANY_RUN, Initial(E4_ON_DEMAND, 0), acts)
              && var w := EndOf(Initial(E4_ON_DEMAND, 0), acts);
                 var a := E4Cycle(2 * SECOND, Some(RETRIEVAL_FAILED), AlreadyExists);
              && Enabled(w, a) && w.forceE4 == Some(SECOND)
              && Step(w, a).forceE4.None? && Step(w, a).e4.spawns == FORCED_ONCE
  {
    var acts := SecondRequest();
    var w := EndOf(Initial(E4_ON_DEMAND, 0), acts);
    assert IsLatest({RETRIEVAL_FAILED}, RETRIEVAL_FAILED);
    E4Cycles(w, Some(SECOND), w.e4, 2 * SECOND, Some(RETRIEVAL_FAILED), AlreadyExists);
  }

  lemma ResultTakenOnce() returns (acts: seq<Action>)
    ensures ValidRun(ANY_RUN, Initial(E4_ON_DEMAND, 0), acts)
    ensures E4At(EndOf(Initial(E4_ON_DEMAND, 0), acts), 0, None, Level({RETRIEVAL_FAILED}, FORCED_ONCE, [TAKEN]))
  {
    var w0 := Initial(E4_ON_DEMAND, 0);
    acts := FirstRetrievalFails();
    assert IsLatest({RETRIEVAL_FAILED}, RETRIEVAL_FAILED);
    E4Cycles(EndOf(w0, acts), None, EndOf(w0, acts).e4, 0, Some(RETRIEVAL_FAILED), Created);
    acts := Extended(w0, acts, E4Cycle(0, Some(RETRIEVAL_FAILED), Created));
  }

  const COUNTS := Stats(1, 0, 0, 1, 0)

  /** A look at the same Job that does find its counts. */
  function CountedLook(at: Time): ReconcileIO {
    var io := E4Cycle(at, Some(RETRIEVAL_FAILED), Created).io;
    io.(e4 := io.e4.(log := Some(COUNTS)))
  }

  lemma SecondLook(w: World, w': World)
    requires E4At(w, 0, None, Level({RETRIEVAL_FAILED}, FORCED_ONCE, [TAKEN])) && Effect(w, CountedLook(0), w')
    ensures w'.e4.ingests == [TAKEN, TAKEN.(counts := Some(COUNTS))]
  {
    var io := CountedLook(0);
    assert MakePlan(w, io).o4 == Process(w.e4, None, None, io.e4);
  }

  /** A run in which one E4 Job is ingested twice: its log could not be read at first. */
  lemma ResultTakenTwice()
    ensures exists acts ::
              && ValidRun(ANY_RUN, Initial(E4_ON_DEMAND, 0), acts)
              && EndOf(Initial(E4_ON_DEMAND, 0), acts).e4.ingests == [TAKEN, TAKEN.(counts := Some(COUNTS))]
  {
    var w0 := Initial(E4_ON_DEMAND, 0);
    var acts := ResultTakenOnce();
    var w := EndOf(w0, acts);
    assert IsLatest({RETRIEVAL_FAILED}, RETRIEVAL_FAILED);
    ResolvedEffect(w, CountedLook(0));
    SecondLook(w, ReconcileResolved(w, CountedLook(0)));
    acts := Extended(w0, acts, Run(Resolved, CountedLook(0)));
  }

  // ----- E3: a timestamp without a condition -----

  const SAMPLING := PLAIN.(sampledInterval := Some(HOUR))

  /** A cycle in which only E3 can be listed. */
  function E3Cycle(at: Time, pick: Option<Job>, create: CreateOutcome): Action {
    var none := UNLISTED.(at := at);
    Run(Resolved, ReconcileIO(GOOD_PROBE, none, LevelIO(at, true, pick, None, create), none, true, true, at))
  }

  predicate E3At(w: World, now: Time, e3: Level) {
    && w.now == now && w.spec == SAMPLING && w.forceRevalidate.None? && w.e3 == e3
    && w.status.verifiedSampledAt.None?
  }

  function E3Took(e3: Level, at: Time, pick: Option<Job>, create: CreateOutcome): LevelOut {
    Process(e3, None, Some(Scheduled(HOUR)), LevelIO(at, true, pick, None, create))
  }

  predicate E3Ran(w: World, w': World, at: Time, out: LevelOut) {
    && w'.now == at && w'.spec == SAMPLING && w'.forceRevalidate.None?
    && w'.e3 == Recorded(out)
    && (if out.completed.None? then w'.status.verifiedSampledAt.None?
        else w'.status.verifiedSampledAt.Some? && HasResult(w'.status, SampledIntegrityValid))
  }

  lemma E3Effect(w: World, io: ReconcileIO, w': World, out: LevelOut)
    requires E3At(w, w.now, w.e3) && Effect(w, io, w') && io.patchOk && !io.e2.listOk
    requires out == E3Out(w, io.e3)
    ensures E3Ran(w, w', io.end, out)
  {
    assert SampledIntegrityValid in LEAF_TYPES;
  }

  lemma E3Cycles(w: World, e3: Level, at: Time, pick: Option<Job>, create: CreateOutcome)
    requires E3At(w, w.now, e3) && w.now <= at && ValidPick(e3.jobs, pick)
    ensures var a := E3Cycle(at, pick, create);
            Enabled(w, a) && E3Ran(w, Step(w, a), at, E3Took(e3, at, pick, create))
  {
    var io := E3Cycle(at, pick, create).io;
    ResolvedEffect(w, io);
    E3Effect(w, io, ReconcileResolved(w, io), E3Took(e3, at, pick, create));
  }

  const SAMPLE := Job(0, 0, InFlight, None, false)
  const SAMPLED := SAMPLE.(phase := Succeeded, completion := Some(0))

  const SAMPLE_SPAWNED := Level({SAMPLE}, [Spawn(0, Scheduled(HOUR))], [])

  lemma SampleFinished() returns (acts: seq<Action>)
    ensures ValidRun(ANY_RUN, Initial(SAMPLING, 0), acts)
    ensures E3At(EndOf(Initial(SAMPLING, 0), acts), 0, SAMPLE_SPAWNED.(jobs := {SAMPLED}))
  {
    var w0 := Initial(SAMPLING, 0);
    E3Cycles(w0, EMPTY_LEVEL, 0, None, Created);
    assert Stored(0) == 0 && {} + {SAMPLE} == {SAMPLE};
    acts := Extended(w0, [], E3Cycle(0, None, Created));
    assert E3At(EndOf(w0, acts), 0, SAMPLE_SPAWNED);
    acts := Extended(w0, acts, Finish(E3, SAMPLE, true, Some(0)));
    assert {SAMPLE} - {SAMPLE} + {SAMPLED} == {SAMPLED};
  }

  /** E3 has a result on record. */
  lemma Sampled() returns (acts: seq<Action>)
    ensures ValidRun(ANY_RUN, Initial(SAMPLING, 0), acts)
    ensures var st := EndOf(Initial(SAMPLING, 0), acts).status;
            st.verifiedSampledAt.Some? && HasResult(st, SampledIntegrityValid)
  {
    var w0 := Initial(SAMPLING, 0);
    acts := SampleFinished();
    assert IsLatest({SAMPLED}, SAMPLED);
    E3Cycles(EndOf(w0, acts), SAMPLE_SPAWNED.(jobs := {SAMPLED}), 0, Some(SAMPLED), CreateFailed);
    acts := Extended(w0, acts, E3Cycle(0, Some(SAMPLED), CreateFailed));
  }

  /** A run that switches E3 off and leaves its timestamp without a condition. */
  lemma TimestampWithoutCondition()
    ensures exists acts ::
              && ValidRun(ANY_RUN, Initial(SAMPLING, 0), acts)
              && !E3Synced(EndOf(Initial(SAMPLING, 0), acts).status)
  {
    var w0 := Initial(SAMPLING, 0);
    var acts := Sampled();
    acts := Extended(w0, acts, EditSpec(PLAIN));
    var w := EndOf(w0, acts);
    var io := Cycle(w.now, None).io;
    io := io.(e2 := io.e2.(listOk := false), e3 := io.e3.(listOk := false), e4 := io.e4.(listOk := false));
    acts := Extended(w0, acts, Run(Resolved, io));
    ResolvedEffect(w, io);
    E3SyncExactly(w.spec, w.status, io.probe, MakePlan(w, io), io.end, ReconcileResolved(w, io).status);
  }

  // ----- a fraction of a second -----

  const HALF: Time := 500_000_000

  function E2Cycle(at: Time, pick: Option<Job>, create: CreateOutcome): Action {
    var none := UNLISTED.(at := at);
    Run(Resolved, ReconcileIO(GOOD_PROBE, LevelIO(at, true, pick, None, create), none, none, true, true, at))
  }

  /** Half a second past the epoch E2 is asked for. */
  predicate HalfAt(w: World, e2: Level, marker: Option<Time>) {
    && w.now == SECOND && w.spec == PLAIN && w.forceRevalidate == Some(HALF) && w.e2 == e2
    && w.status.verifiedValidationAt == marker && w.status.lastForceRevalidatedAt.None?
  }

  lemma HalfCycles(w: World, e2: Level, pick: Option<Job>, create: CreateOutcome)
    requires HalfAt(w, e2, None) && ValidPick(e2.jobs, pick)
    ensures var a := E2Cycle(SECOND, pick, create);
            var out := Process(e2, None, Some(Forced(HALF)), LevelIO(SECOND, true, pick, None, create));
            && Enabled(w, a)
            && HalfAt(Step(w, a), Recorded(out), Advance(None, pick))
  {
    var io := E2Cycle(SECOND, pick, create).io;
    ResolvedEffect(w, io);
    assert Honored(w).None? && E2Wanted(w, SECOND) == Some(Forced(HALF));
  }

  const FORCED := Job(0, SECOND, InFlight, None, true)
  const FORCED_DONE := FORCED.(phase := Succeeded, completion := Some(SECOND))

  const HALF_SPAWNED := Level({FORCED}, [Spawn(SECOND, Forced(HALF))], [])

  lemma HalfSpawned() returns (acts: seq<Action>)
    ensures ValidRun(ANY_RUN, START, acts) && HalfAt(EndOf(START, acts), HALF_SPAWNED, None)
  {
    acts := Extended(START, [], AnnotateRevalidate(Some(HALF)));
    acts := Extended(START, acts, Tick(SECOND));
    HalfCycles(EndOf(START, acts), EMPTY_LEVEL, None, Created);
    assert Stored(SECOND) == SECOND && {} + {FORCED} == {FORCED};
    acts := Extended(START, acts, E2Cycle(SECOND, None, Created));
  }

  lemma HalfFinished() returns (acts: seq<Action>)
    ensures ValidRun(ANY_RUN, START, acts) && HalfAt(EndOf(START, acts), HALF_SPAWNED.(jobs := {FORCED_DONE}), None)
  {
    acts := HalfSpawned();
    acts := Extended(START, acts, Finish(E2, FORCED, true, Some(SECOND)));
    assert {FORCED} - {FORCED} + {FORCED_DONE} == {FORCED_DONE};
  }

  lemma HalfServed() returns (acts: seq<Action>)
    ensures ValidRun(ANY_RUN, START, acts)
    ensures Honored(EndOf(START, acts)) == Some(HALF) && EndOf(START, acts).spec == PLAIN
  {
    acts := HalfFinished();
    assert IsLatest({FORCED_DONE}, FORCED_DONE);
    HalfCycles(EndOf(START, acts), HALF_SPAWNED.(jobs := {FORCED_DONE}), Some(FORCED_DONE), CreateFailed);
    acts := Extended(START, acts, E2Cycle(SECOND, Some(FORCED_DONE), CreateFailed));
  }

  /** A run after which the request is honored, as the epoch, and the reconcile after that honors it again. */
  lemma HonoredTwice()
    ensures exists acts ::
              && ValidRun(ANY_RUN, START, acts)
              && var w := EndOf(START, acts);
                 w.status.lastForceRevalidatedAt == Some(0) && Honored(w) == Some(HALF)
  {
    var acts := HalfServed();
    var w := EndOf(START, acts);
    var io := E2Cycle(w.now, None, CreateFailed).io;
    io := io.(e2 := io.e2.(listOk := false));
    ReachableInv(ANY_RUN, START, acts);
    HonoringAdvances(ANY_RUN, w, io);
    HonoredAgainExactlyIfFractional(ANY_RUN, w, io);
    acts := Extended(START, acts, Run(Resolved, io));
  }

  // ----- two Jobs that finish in the same second -----

  /** Whatever happens from here on, the Job with this id is not ingested. */
  ghost predicate NeverTaken(w: World, d: Depth, id: nat) {
    forall more :: ValidRun(ANY_RUN, w, more) ==>
      NotTakenSince(LevelOf(w, d).ingests, LevelOf(EndOf(w, more), d).ingests, id)
  }

  lemma {:induction false} AnyRun(pol: Policy, w: World, acts: seq<Action>)
    requires ValidRun(pol, w, acts)
    ensures ValidRun(ANY_RUN, w, acts)
    decreases |acts|
  {
    if acts != [] {
      AnyRun(pol, Step(w, acts[0]), acts[1..]);
    }
  }

  predicate TieAt(w: World, second: Job) {
    && Plain(w) && w.status.verifiedValidationAt.None? && w.now == LATE
    && w.e2 == Level({FIRST_DONE, second}, SPAWNS, [])
  }

  lemma SecondStartsUnrecorded() returns (acts: seq<Action>)
    ensures ValidRun(ANY_RUN, START, acts) && TieAt(EndOf(START, acts), SECOND_JOB)
  {
    Prefix3();
    acts := RUN[..3];
    AnyRun(E2_ONLY, START, acts);
    var w := EndOf(START, acts);
    SecondOut(w);
    PlainPlan(w, LATE, Some(FIRST_DONE));
    assert MakePlan(w, FailingCycle(LATE, Some(FIRST_DONE)).io) == MakePlan(w, Cycle(LATE, Some(FIRST_DONE)).io);
    assert IsLatest({FIRST_DONE}, FIRST_DONE);
    acts := Extended(START, acts, FailingCycle(LATE, Some(FIRST_DONE)));
  }

  lemma SecondFailsUnrecorded() returns (acts: seq<Action>)
    ensures ValidRun(ANY_RUN, START, acts) && TieAt(EndOf(START, acts), SECOND_FAILED)
  {
    acts := SecondStartsUnrecorded();
    acts := Extended(START, acts, Finish(E2, SECOND_JOB, false, None));
    assert {FIRST_DONE, SECOND_JOB} - {SECOND_JOB} + {SECOND_FAILED} == {FIRST_DONE, SECOND_FAILED};
  }

  lemma TieEffect(w: World, io: ReconcileIO, w': World)
    requires TieAt(w, SECOND_FAILED) && io == Cycle(LATE, Some(FIRST_DONE)).io && Effect(w, io, w')
    ensures HealthIs(w', IsTrue) && w'.e2.ingests == [IngestOf(FIRST_DONE, None)]
    ensures SECOND_FAILED in w'.e2.jobs && w'.status.verifiedValidationAt == Some(65 * SECOND)
  {
    var plan := MakePlan(w, io);
    PlainPlan(w, LATE, Some(FIRST_DONE));
    assert plan.o2.completed == Some(FIRST_DONE) && plan.o2.after.ingests == [];
    WrittenHealth(w.spec, w.status, io.probe, plan, io.end, w'.status);
    assert MetadataValid in LEAF_TYPES && SampledIntegrityValid in LEAF_TYPES && FullRetrievalCompleted in LEAF_TYPES;
  }

  /**
   Without the promptness of the policy, being later than the timestamp is not enough: both Jobs finished after the
   (absent) timestamp and in the same second, the pick fell on the one that passed, and the failure is lost for good.
   */
  lemma TiedFailureIsMissed()
    ensures exists acts ::
              && ValidRun(ANY_RUN, START, acts)
              && var w := EndOf(START, acts); var a := Cycle(LATE, Some(FIRST_DONE)); var w' := Step(w, a);
              && SECOND_FAILED in w.e2.jobs && !Passed(MarkerOf(w, E2), SECOND_FAILED) && Enabled(w, a)
              && HealthIs(w', IsTrue) && NeverTaken(w', E2, SECOND_FAILED.id)
  {
    var acts := SecondFailsUnrecorded();
    var w := EndOf(START, acts);
    var a := Cycle(LATE, Some(FIRST_DONE));
    var w' := Step(w, a);
    assert IsLatest({FIRST_DONE, SECOND_FAILED}, FIRST_DONE);
    ResolvedEffect(w, a.io);
    TieEffect(w, a.io, w');
    var acts' := Extended(START, acts, a);
    LostFromHere(acts', w');
  }

  lemma LostFromHere(acts: seq<Action>, w: World)
    requires ValidRun(ANY_RUN, START, acts) && w == EndOf(START, acts)
    requires SECOND_FAILED in w.e2.jobs && Passed(MarkerOf(w, E2), SECOND_FAILED)
    ensures NeverTaken(w, E2, SECOND_FAILED.id)
  {
    forall more | ValidRun(ANY_RUN, w, more)
      ensures NotTakenSince(w.e2.ingests, EndOf(w, more).e2.ingests, SECOND_FAILED.id)
    {
      BehindTheMarkerIsNeverTaken(ANY_RUN, START, acts, more, E2, SECOND_FAILED);
    }
  }

  /** In the prompt run too, the failure in the second of the recorded result is lost for good. */
  lemma SameSecondFailureIsLost()
    ensures ValidRun(ANY_RUN, START, RUN) && SECOND_FAILED in EndOf(START, RUN).e2.jobs
    ensures NeverTaken(EndOf(START, RUN), E2, SECOND_FAILED.id)
  {
    RunIsValid();
    AnyRun(E2_ONLY, START, RUN);
    LostFromHere(RUN, EndOf(START, RUN));
  }

  // ----- a failed run moves E2's timestamp -----

  const FIRST_FAILED := FIRST.(phase := Failed)

  lemma FirstFails() returns (acts: seq<Action>)
    ensures ValidRun(ANY_RUN, START, acts)
    ensures var w := EndOf(START, acts);
            && Plain(w) && w.status.verifiedValidationAt.None? && w.now == LATE
            && w.e2 == Level({FIRST_FAILED}, [Spawn(0, Scheduled(HOUR))], [])
  {
    Prefix2();
    AnyRun(E2_ONLY, START, RUN[..2]);
    acts := Extended(START, RUN[..2], Finish(E2, FIRST, false, None));
    assert {FIRST} - {FIRST} + {FIRST_FAILED} == {FIRST_FAILED};
  }

  const FAILURE := Ingest(0, 0, false, None)

  lemma FailureTaken(w: World, w': World, out: LevelOut)
    requires w.status.verifiedValidationAt.None? && w.e2 == Level({FIRST_FAILED}, [Spawn(0, Scheduled(HOUR))], [])
    requires out == PlainOut(w, LATE, Some(FIRST_FAILED)) && w'.e2 == Recorded(out)
    requires w'.status.verifiedValidationAt ==
             LevelMarker(out.completed, w.status.verifiedValidationAt, w.status.conditions, MetadataValid)
    ensures w'.status.verifiedValidationAt == Some(0) && w'.e2.ingests == [FAILURE]
  {
    assert out.completed == Some(FIRST_FAILED) && out.counts.None? && out.after.ingests == [];
  }

  lemma NoSuccess()
    ensures LastSuccess([FAILURE]).None?
  {
    assert [FAILURE][..0] == [];
  }

  /** A run whose only E2 Job failed and whose status says when E2 was last validated. */
  lemma FailedRunSetsTimestamp()
    ensures exists acts ::
              && ValidRun(ANY_RUN, START, acts)
              && var w := EndOf(START, acts);
                 && w.status.verifiedValidationAt == Some(0) && w.e2.ingests == [FAILURE]
                 && LastSuccess(w.e2.ingests).None?
  {
    var acts := FirstFails();
    var w := EndOf(START, acts);
    var a := Cycle(LATE, Some(FIRST_FAILED));
    PlainCycle(w, LATE, Some(FIRST_FAILED));
    FailureTaken(w, Step(w, a), PlainOut(w, LATE, Some(FIRST_FAILED)));
    NoSuccess();
    assert IsLatest({FIRST_FAILED}, FIRST_FAILED);
    acts := Extended(START, acts, a);
  }
}
