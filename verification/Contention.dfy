/**
 Levels at work at the same time: in which order their Jobs came, the runs that get there, and how E2 can keep the
 deeper levels waiting.
 */
module Contention {
  import opened Types
  import opened Jobs
  import opened Reconcile
  import opened Runs
  import opened LevelInvariants
  import opened Invariants
  import opened Guarantees
  import opened StatusInvariants
  import opened Progress
  import opened Requests
  import opened Limits
  import opened Witnesses

  // ----- what holds of overlaps -----

  /** Of two Jobs in flight together, the deeper one was created no later. */
  predicate DeeperFirst(shallow: Level, deep: Level) {
    forall j, k :: j in shallow.jobs && k in deep.jobs && !j.Done() && !k.Done() ==> k.created <= j.created
  }

  predicate ListsOk(a: Action) { a.Run? && a.creds == Resolved ==> a.io.e2.listOk && a.io.e3.listOk }

  predicate AllListed(acts: seq<Action>) { forall i :: 0 <= i < |acts| ==> ListsOk(acts[i]) }

  /** A reconcile leaves a level's Jobs alone or adds one, created at the time of its look. */
  predicate Grew(lv: Level, lv': Level, at: Time) {
    || (lv'.jobs == lv.jobs && lv'.spawns == lv.spawns)
    || (|lv'.spawns| > |lv.spawns| && forall j :: j in lv'.jobs ==> j in lv.jobs || j.created == Stored(at))
  }

  lemma LevelGrows(w: World, io: ReconcileIO, w': World, d: Depth)
    requires Effect(w, io, w')
    ensures Grew(LevelOf(w, d), LevelOf(w', d), IOOf(io, d).at)
  {
    PlanOfLevel(w, io, d);
    EffectOnLevel(w, io, w', d);
  }

  /** The deeper level gets a Job only while the shallow one is idle; a Job of the shallow one comes later than any. */
  lemma GrowthKeepsOrder(shallow: Level, deep: Level, shallow': Level, deep': Level, at: Time, deepAt: Time, now: Time)
    requires DeeperFirst(shallow, deep) && JobsInv(deep, now) && now <= at
    requires Grew(shallow, shallow', at) && Grew(deep, deep', deepAt)
    requires deep'.spawns != deep.spawns ==> !Busy(shallow'.jobs)
    ensures DeeperFirst(shallow', deep')
  {
    forall j, k | j in shallow'.jobs && k in deep'.jobs && !j.Done() && !k.Done() ensures k.created <= j.created {
      assert Busy(shallow'.jobs) && k in deep.jobs;
      if j !in shallow.jobs {
        assert JobFits(deep, k);
        StoredMonotone(deep.spawns[k.id].at, at);
      }
    }
  }

  /** Who waits for whom: E3 and E4 for E2, and E4 for an E3 that stays enabled. */
  predicate OrderKept(pol: Policy, w: World) {
    DeeperFirst(w.e2, w.e3) && DeeperFirst(w.e2, w.e4) && (pol.keepE3 ==> DeeperFirst(w.e3, w.e4))
  }

  lemma ReconcileKeepsOrder(pol: Policy, w: World, io: ReconcileIO, w': World)
    requires OrderKept(pol, w) && JobsInv(w.e3, w.now) && JobsInv(w.e4, w.now) && Effect(w, io, w')
    requires pol.keepE3 ==> w.spec.sampledInterval.Some?
    requires w.now <= io.e2.at && w.now <= io.e3.at && io.e2.listOk && io.e3.listOk
    ensures OrderKept(pol, w')
  {
    EffectInOrder(w, io, w');
    LevelGrows(w, io, w', E2);
    LevelGrows(w, io, w', E3);
    LevelGrows(w, io, w', E4);
    GrowthKeepsOrder(w.e2, w.e3, w'.e2, w'.e3, io.e2.at, io.e3.at, w.now);
    GrowthKeepsOrder(w.e2, w.e4, w'.e2, w'.e4, io.e2.at, io.e4.at, w.now);
    if pol.keepE3 {
      GrowthKeepsOrder(w.e3, w.e4, w'.e3, w'.e4, io.e3.at, io.e4.at, w.now);
    }
  }

  /** Outside the controller Jobs only finish or go. */
  lemma ChangeKeepsOrder(shallow: Level, deep: Level, shallow': Level, deep': Level)
    requires DeeperFirst(shallow, deep)
    requires forall j :: j in shallow'.jobs && !j.Done() ==> j in shallow.jobs
    requires forall k :: k in deep'.jobs && !k.Done() ==> k in deep.jobs
    ensures DeeperFirst(shallow', deep')
  {
  }

  lemma StepKeepsOrder(pol: Policy, w: World, a: Action, w': World)
    requires OrderKept(pol, w) && JobsInv(w.e3, w.now) && JobsInv(w.e4, w.now)
    requires pol.keepE3 ==> w.spec.sampledInterval.Some?
    requires Enabled(w, a) && ListsOk(a) && StepEffect(w, a, w')
    ensures OrderKept(pol, w')
  {
    if a.Run? && a.creds == Resolved {
      ReconcileKeepsOrder(pol, w, a.io, w');
    } else {
      ChangeKeepsOrder(w.e2, w.e3, w'.e2, w'.e3);
      ChangeKeepsOrder(w.e2, w.e4, w'.e2, w'.e4);
      if pol.keepE3 {
        ChangeKeepsOrder(w.e3, w.e4, w'.e3, w'.e4);
      }
    }
  }

  lemma {:induction false} RunKeepsOrder(pol: Policy, w: World, acts: seq<Action>)
    requires Inv(pol, w) && OrderKept(pol, w) && ValidRun(pol, w, acts) && AllListed(acts)
    ensures OrderKept(pol, EndOf(w, acts))
    decreases |acts|
  {
    if acts != [] {
      assert ListsOk(acts[0]);
      StepTakesEffect(w, acts[0]);
      StepKeepsOrder(pol, w, acts[0], Step(w, acts[0]));
      StepKeepsInv(pol, w, acts[0]);
      RunKeepsOrder(pol, Step(w, acts[0]), acts[1..]);
    }
  }

  /**
   On every run whose lists succeed: when an E2 Job is in flight together with an E3 or E4 Job, or, E3 staying
   enabled, an E3 Job with an E4 Job, the deeper one was created no later. A level starts beside a deeper one, never
   beside a shallower one.
   */
  lemma DeeperJobCameFirst(pol: Policy, w: World, acts: seq<Action>)
    requires Starts(pol, w) && ValidRun(pol, w, acts) && AllListed(acts)
    ensures OrderKept(pol, EndOf(w, acts))
  {
    RunKeepsOrder(pol, w, acts);
  }

  // ----- runs that overlap -----

  /** A cycle of a repository with E2 and E3 enabled. */
  function BothCycle(at: Time, e2: LevelIO, e3: LevelIO): Action {
    Run(Resolved, ReconcileIO(GOOD_PROBE, e2.(at := at), e3.(at := at), UNLISTED.(at := at), true, true, at))
  }

  predicate BothAt(w: World, now: Time, e2: Level, marker: Option<Time>, e3: Level) {
    && w.now == now && w.spec == SAMPLING && w.forceRevalidate.None? && w.e2 == e2 && w.e3 == e3
    && w.status.verifiedValidationAt == marker && w.status.verifiedSampledAt.None?
  }

  function E2Took(e2: Level, marker: Option<Time>, io: LevelIO): LevelOut {
    Process(e2, marker, if Due(marker, HOUR, io.at) then Some(Scheduled(HOUR)) else None, io)
  }

  function E3TookAfter(o2: LevelOut, e3: Level, io: LevelIO): LevelOut {
    if o2.active then Skipped(e3) else Process(e3, None, Some(Scheduled(HOUR)), io)
  }

  /** What a cycle leaves behind, given what its two levels did. */
  predicate BothRan(w: World, w': World, at: Time, marker: Option<Time>, o2: LevelOut, o3: LevelOut) {
    && w'.now == at && w'.spec == SAMPLING && w'.forceRevalidate.None?
    && w'.e2 == Recorded(o2)
    && w'.e3 == Recorded(o3)
    && (o2.completed.Some? || marker.None? ==> w'.status.verifiedValidationAt == Advance(marker, o2.completed))
    && (o3.completed.None? ==> w'.status.verifiedSampledAt.None?)
  }

  lemma BothEffect(w: World, io: ReconcileIO, w': World, o2: LevelOut)
    requires BothAt(w, w.now, w.e2, w.status.verifiedValidationAt, w.e3) && Effect(w, io, w') && io.patchOk
    requires o2 == E2Took(w.e2, w.status.verifiedValidationAt, io.e2)
    ensures BothRan(w, w', io.end, w.status.verifiedValidationAt, o2, E3TookAfter(o2, w.e3, io.e3))
  {
    assert MakePlan(w, io).o2 == o2;
    assert MakePlan(w, io).o3 == E3TookAfter(o2, w.e3, io.e3);
  }

  lemma BothCycles(w: World, e2: Level, marker: Option<Time>, e3: Level, at: Time, l2: LevelIO, l3: LevelIO,
                   o2: LevelOut)
    requires BothAt(w, w.now, e2, marker, e3) && w.now <= at && l2.at == at && l3.at == at
    requires LevelAnswers(e2, l2) && LevelAnswers(e3, l3) && o2 == E2Took(e2, marker, l2)
    ensures var a := BothCycle(at, l2, l3);
            Enabled(w, a) && BothRan(w, Step(w, a), at, marker, o2, E3TookAfter(o2, e3, l3))
  {
    var a := BothCycle(at, l2, l3);
    ResolvedEffect(w, a.io);
    BothEffect(w, a.io, ReconcileResolved(w, a.io), o2);
  }

  lemma ListedRun(w0: World, acts: seq<Action>, a: Action) returns (acts': seq<Action>)
    requires ValidRun(ANY_RUN, w0, acts) && AllListed(acts) && Enabled(EndOf(w0, acts), a) && ListsOk(a)
    ensures ValidRun(ANY_RUN, w0, acts') && AllListed(acts') && EndOf(w0, acts') == Step(EndOf(w0, acts), a)
  {
    RunExtends(ANY_RUN, w0, acts, a);
    acts' := acts + [a];
  }

  function Creates(at: Time): LevelIO { LevelIO(at, true, None, None, Created) }

  const E2_STARTED := Level({FIRST}, [Spawn(0, Scheduled(HOUR))], [])

  lemma FirstOut()
    ensures E2Took(EMPTY_LEVEL, None, Creates(0)) == LevelOut(true, None, None, true, E2_STARTED)
  {
    assert Stored(0) == 0 && {} + {FIRST} == {FIRST};
  }

  /** The E2 Job the first cycle starts. */
  lemma FirstStarts() returns (acts: seq<Action>)
    ensures ValidRun(ANY_RUN, Initial(SAMPLING, 0), acts) && AllListed(acts)
    ensures BothAt(EndOf(Initial(SAMPLING, 0), acts), 0, E2_STARTED, None, EMPTY_LEVEL)
  {
    FirstOut();
    BothCycles(Initial(SAMPLING, 0), EMPTY_LEVEL, None, EMPTY_LEVEL, 0, Creates(0), Creates(0),
               LevelOut(true, None, None, true, E2_STARTED));
    acts := ListedRun(Initial(SAMPLING, 0), [], BothCycle(0, Creates(0), Creates(0)));
  }

  const DONE_AT_ONCE := FIRST.(phase := Succeeded, completion := Some(0))
  const E2_DONE := E2_STARTED.(jobs := {DONE_AT_ONCE})
  const E2_TAKEN := E2_DONE.(ingests := [Ingest(0, 0, true, None)])

  lemma FirstDone() returns (acts: seq<Action>)
    ensures ValidRun(ANY_RUN, Initial(SAMPLING, 0), acts) && AllListed(acts)
    ensures BothAt(EndOf(Initial(SAMPLING, 0), acts), MINUTE, E2_DONE, None, EMPTY_LEVEL)
  {
    acts := FirstStarts();
    acts := ListedRun(Initial(SAMPLING, 0), acts, Finish(E2, FIRST, true, Some(0)));
    assert {FIRST} - {FIRST} + {DONE_AT_ONCE} == {DONE_AT_ONCE};
    acts := ListedRun(Initial(SAMPLING, 0), acts, Tick(MINUTE));
  }

  function Sees(at: Time, create: CreateOutcome): LevelIO { LevelIO(at, true, Some(DONE_AT_ONCE), None, create) }

  const BESIDE := Job(0, MINUTE, InFlight, None, false)
  const E3_STARTED := Level({BESIDE}, [Spawn(MINUTE, Scheduled(HOUR))], [])

  lemma E3FirstOut()
    ensures Process(EMPTY_LEVEL, None, Some(Scheduled(HOUR)), Creates(MINUTE)) ==
            LevelOut(true, None, None, true, E3_STARTED)
  {
    WholeMinutes(1);
    assert {} + {BESIDE} == {BESIDE};
  }

  /** E2's result is taken, E2 fails to start again, and E3 gets its turn. */
  lemma E3Starts() returns (acts: seq<Action>)
    ensures ValidRun(ANY_RUN, Initial(SAMPLING, 0), acts) && AllListed(acts)
    ensures BothAt(EndOf(Initial(SAMPLING, 0), acts), MINUTE, E2_TAKEN, Some(0), E3_STARTED)
  {
    acts := FirstDone();
    assert IsLatest({DONE_AT_ONCE}, DONE_AT_ONCE);
    E3FirstOut();
    BothCycles(EndOf(Initial(SAMPLING, 0), acts), E2_DONE, None, EMPTY_LEVEL, MINUTE, Sees(MINUTE, CreateFailed),
               Creates(MINUTE), LevelOut(false, Some(DONE_AT_ONCE), None, false, E2_DONE));
    acts := ListedRun(Initial(SAMPLING, 0), acts, BothCycle(MINUTE, Sees(MINUTE, CreateFailed), Creates(MINUTE)));
  }

  /** Two Jobs in flight, the shallow one created after the deep one. */
  predicate Overlaps(shallow: Level, deep: Level) {
    exists j, k :: j in shallow.jobs && k in deep.jobs && !j.Done() && !k.Done() && k.created < j.created
  }

  const AN_HOUR_LATER := Job(1, HOUR, InFlight, None, false)

  lemma E2AgainOut()
    ensures E2Took(E2_TAKEN, Some(0), Sees(HOUR, Created)) ==
            LevelOut(true, None, None, true,
                     E2_TAKEN.(jobs := {DONE_AT_ONCE, AN_HOUR_LATER},
                               spawns := E2_TAKEN.spawns + [Spawn(HOUR, Scheduled(HOUR))]))
  {
    WholeMinutes(60);
    assert {DONE_AT_ONCE} + {AN_HOUR_LATER} == {DONE_AT_ONCE, AN_HOUR_LATER};
  }

  /** A run, its lists all successful, with an E3 Job in flight beside which E2 starts one. */
  lemma E2StartsBesideE3()
    ensures exists acts ::
              && ValidRun(ANY_RUN, Initial(SAMPLING, 0), acts) && AllListed(acts)
              && var w := EndOf(Initial(SAMPLING, 0), acts); Overlaps(w.e2, w.e3)
  {
    var w0 := Initial(SAMPLING, 0);
    var acts := E3Starts();
    acts := ListedRun(w0, acts, Tick(HOUR));
    var o2 := E2Took(E2_TAKEN, Some(0), Sees(HOUR, Created));
    E2AgainOut();
    assert IsLatest({DONE_AT_ONCE}, DONE_AT_ONCE);
    BothCycles(EndOf(w0, acts), E2_TAKEN, Some(0), E3_STARTED, HOUR, Sees(HOUR, Created), Creates(HOUR), o2);
    acts := ListedRun(w0, acts, BothCycle(HOUR, Sees(HOUR, Created), Creates(HOUR)));
    var w := EndOf(w0, acts);
    assert AN_HOUR_LATER in w.e2.jobs && BESIDE in w.e3.jobs;
  }

  /** A failed list is what it takes for a deeper level to start beside a shallower one. */
  lemma UnlistedE3StartsBesideE2()
    ensures exists acts ::
              && ValidRun(ANY_RUN, Initial(SAMPLING, 0), acts)
              && var w := EndOf(Initial(SAMPLING, 0), acts); Overlaps(w.e3, w.e2)
  {
    var w0 := Initial(SAMPLING, 0);
    var acts := FirstStarts();
    var l2 := UNLISTED.(at := MINUTE);
    E3FirstOut();
    BothCycles(EndOf(w0, acts), E2_STARTED, None, EMPTY_LEVEL, MINUTE, l2, Creates(MINUTE), Skipped(E2_STARTED));
    acts := Extended(w0, acts, BothCycle(MINUTE, l2, Creates(MINUTE)));
    var w := EndOf(w0, acts);
    assert BESIDE in w.e3.jobs && FIRST in w.e2.jobs;
  }

  // ----- a request that waits for ever -----

  function Reconciles(acts: seq<Action>): nat {
    if acts == [] then 0 else (if acts[0].Run? then 1 else 0) + Reconciles(acts[1..])
  }

  const ALWAYS_DUE := SAMPLING.(metadataInterval := MINUTE)
  const PROMPT := Policy(true, true, true)

  /** After n rounds: a request from the epoch still stands, E2 ran every minute, E3 never. */
  predicate Starving(w: World, n: nat, last: Option<Job>) {
    && w.spec == ALWAYS_DUE && w.now == n * MINUTE && w.e3 == EMPTY_LEVEL
    && w.forceRevalidate == Some(0) && w.status.lastForceRevalidatedAt.None?
    && w.status.verifiedSampledAt.None?
    && (w.status.verifiedValidationAt.Some? ==> w.status.verifiedValidationAt.value + MINUTE <= w.now)
    && |w.e2.spawns| == n && !Busy(w.e2.jobs) && ValidPick(w.e2.jobs, last)
    && forall j :: j in w.e2.jobs ==> j.CompletedAt() + MINUTE <= w.now
  }

  function HungryCycle(at: Time, pick: Option<Job>): Action {
    BothCycle(at, LevelIO(at, true, pick, None, Created), Creates(at))
  }

  function Fresh(n: nat, manual: bool): Job { Job(n, n * MINUTE, InFlight, None, manual) }

  /** E2 is due again, so E3 is not looked at. */
  lemma RoundStarts(w: World, n: nat, last: Option<Job>, w1: World) returns (manual: bool)
    requires Starving(w, n, last) && E2Synced(w.status) && Effect(w, HungryCycle(w.now, last).io, w1)
    ensures w1.spec == w.spec && w1.now == w.now && w1.e3 == EMPTY_LEVEL && w1.forceRevalidate == Some(0)
    ensures w1.status.lastForceRevalidatedAt.None? && w1.status.verifiedSampledAt.None?
    ensures |w1.e2.spawns| == n + 1 && w1.e2.jobs == w.e2.jobs + {Fresh(n, manual)}
    ensures w1.status.verifiedValidationAt.Some? ==> w1.status.verifiedValidationAt.value + MINUTE <= w.now
    ensures MakePlan(w, HungryCycle(w.now, last).io).o4 == Skipped(w.e4)
  {
    var io := HungryCycle(w.now, last).io;
    var want := E2Wanted(w, w.now);
    assert want.Some?;
    WholeMinutes(n);
    manual := want.value.Forced?;
    assert MakePlan(w, io).o2.after == Submit(w.e2, want.value, w.now);
    assert Honored(w).None?;
  }

  lemma RoundCloses(w1: World, n: nat, manual: bool, jobs: set<Job>, w2: World, w3: World)
    requires w1.spec == ALWAYS_DUE && w1.now == n * MINUTE && w1.e3 == EMPTY_LEVEL && w1.forceRevalidate == Some(0)
    requires w1.status.lastForceRevalidatedAt.None? && w1.status.verifiedSampledAt.None?
    requires |w1.e2.spawns| == n + 1 && w1.e2.jobs == jobs + {Fresh(n, manual)}
    requires forall j :: j in jobs ==> j.Done() && j.CompletedAt() + MINUTE <= w1.now
    requires w1.status.verifiedValidationAt.Some? ==> w1.status.verifiedValidationAt.value + MINUTE <= w1.now
    requires w2 == Environment(w1, Finish(E2, Fresh(n, manual), true, Some(n * MINUTE)))
    requires w3 == Environment(w2, Tick((n + 1) * MINUTE))
    ensures Starving(w3, n + 1, Some(Finished(Fresh(n, manual), true, Some(n * MINUTE))))
  {
    var done := Finished(Fresh(n, manual), true, Some(n * MINUTE));
    forall j | j in w3.e2.jobs ensures j.Done() && j.CompletedAt() <= n * MINUTE {
      assert j == done || j in jobs;
    }
    assert done in w3.e2.jobs && IsLatest(w3.e2.jobs, done);
  }

  lemma {:induction false} StarvingRun(n: nat) returns (acts: seq<Action>, last: Option<Job>)
    ensures ValidRun(PROMPT, Initial(ALWAYS_DUE, 0), acts) && Reconciles(acts) == n
    ensures Starving(EndOf(Initial(ALWAYS_DUE, 0), acts), n, last)
  {
    var w0 := Initial(ALWAYS_DUE, 0);
    if n == 0 {
      RunExtends(PROMPT, w0, [], AnnotateRevalidate(Some(0)));
      acts, last := [AnnotateRevalidate(Some(0))], None;
      assert [] + [AnnotateRevalidate(Some(0))] == acts;
    } else {
      acts, last := StarvingRun(n - 1);
      acts, last := OneMoreRound(n - 1, acts, last);
    }
  }

  lemma OneMoreRound(n: nat, acts: seq<Action>, last: Option<Job>) returns (acts': seq<Action>, last': Option<Job>)
    requires ValidRun(PROMPT, Initial(ALWAYS_DUE, 0), acts) && Reconciles(acts) == n
    requires Starving(EndOf(Initial(ALWAYS_DUE, 0), acts), n, last)
    ensures ValidRun(PROMPT, Initial(ALWAYS_DUE, 0), acts') && Reconciles(acts') == n + 1
    ensures Starving(EndOf(Initial(ALWAYS_DUE, 0), acts'), n + 1, last')
  {
    var w0 := Initial(ALWAYS_DUE, 0);
    var w := EndOf(w0, acts);
    var a := HungryCycle(w.now, last);
    var w1 := Step(w, a);
    assert E2Synced(w.status) by { ReachableInv(PROMPT, w0, acts); }
    ResolvedEffect(w, a.io);
    var manual := RoundStarts(w, n, last, w1);
    var fin, tick := Finish(E2, Fresh(n, manual), true, Some(n * MINUTE)), Tick((n + 1) * MINUTE);
    assert Fresh(n, manual) in w1.e2.jobs;
    var w2 := Step(w1, fin);
    RoundCloses(w1, n, manual, w.e2.jobs, w2, Step(w2, tick));
    last' := Some(Finished(Fresh(n, manual), true, Some(n * MINUTE)));
    acts' := ThreeMore(w0, acts, a, fin, tick);
  }

  lemma ThreeMore(w0: World, acts: seq<Action>, a: Action, b: Action, c: Action) returns (acts': seq<Action>)
    requires ValidRun(PROMPT, w0, acts) && a.Run? && !b.Run? && !c.Run?
    requires Enabled(EndOf(w0, acts), a) && Obeys(PROMPT, EndOf(w0, acts), a)
    requires var w1 := Step(EndOf(w0, acts), a); Enabled(w1, b) && Obeys(PROMPT, w1, b)
    requires var w2 := Step(Step(EndOf(w0, acts), a), b); Enabled(w2, c) && Obeys(PROMPT, w2, c)
    ensures ValidRun(PROMPT, w0, acts') && Reconciles(acts') == Reconciles(acts) + 1
    ensures EndOf(w0, acts') == Step(Step(Step(EndOf(w0, acts), a), b), c)
  {
    RunExtends(PROMPT, w0, acts, a);
    RunExtends(PROMPT, w0, acts + [a], b);
    RunExtends(PROMPT, w0, acts + [a] + [b], c);
    ReconcilesExtend(acts, a);
    ReconcilesExtend(acts + [a], b);
    ReconcilesExtend(acts + [a] + [b], c);
    acts' := acts + [a] + [b] + [c];
  }

  lemma {:induction false} ReconcilesExtend(acts: seq<Action>, a: Action)
    ensures Reconciles(acts + [a]) == Reconciles(acts) + if a.Run? then 1 else 0
  {
    if acts != [] {
      assert (acts + [a])[1..] == acts[1..] + [a];
      ReconcilesExtend(acts[1..], a);
    }
  }

  /**
   For every number of reconciles there is a run, prompt and with every answer a success, in which E2 is due at each
   of them, a request from before the first minute stands, and E3, enabled and asked for, never gets a Job.
   */
  lemma RequestStarves(n: nat)
    requires n > 0
    ensures exists acts ::
              && ValidRun(PROMPT, Initial(ALWAYS_DUE, 0), acts) && Reconciles(acts) == n
              && var w := EndOf(Initial(ALWAYS_DUE, 0), acts);
                 Standing(w, 0) && !IsHonored(w, 0) && Asks(w, E3) && w.e3.spawns == []
  {
    var acts, last := StarvingRun(n);
    assert Stored(0) == 0;
  }
}
