/**
 Runs: every interleaving of reconciles with what the cluster, the clock and the operator do.
 */
module Runs {
  import opened Types
  import opened Jobs
  import opened Reconcile

  datatype Depth = E2 | E3 | E4

  datatype Action =
    | Tick(to: Time)
    | Finish(depth: Depth, job: Job, ok: bool, completion: Option<Time>)
    | Collect(depth: Depth, job: Job)
    | EditSpec(spec: Spec)
    | AnnotateRevalidate(ts: Option<Time>)
    | AnnotateE4(e4: Option<Time>)
    | Restart
    | Run(creds: Credentials, io: ReconcileIO)

  function LevelOf(w: World, d: Depth): Level {
    match d case E2 => w.e2 case E3 => w.e3 case E4 => w.e4
  }

  function MarkerOf(w: World, d: Depth): Option<Time> {
    match d
    case E2 => w.status.verifiedValidationAt
    case E3 => w.status.verifiedSampledAt
    case E4 => FullRetrievalAt(w.status)
  }

  function IOOf(io: ReconcileIO, d: Depth): LevelIO {
    match d case E2 => io.e2 case E3 => io.e3 case E4 => io.e4
  }

  function OutOf(plan: Plan, d: Depth): LevelOut {
    match d case E2 => plan.o2 case E3 => plan.o3 case E4 => plan.o4
  }

  function WantedAt(w: World, d: Depth, at: Time): Option<Cause> {
    match d case E2 => E2Wanted(w, at) case E3 => E3Wanted(w, at) case E4 => E4Wanted(w, at)
  }

  /** The reconcile gets to see the level's Jobs: it is enabled, not waiting, and its list succeeds. */
  predicate Reads(w: World, io: ReconcileIO, d: Depth) {
    var plan := MakePlan(w, io);
    && IOOf(io, d).listOk
    && (d == E3 ==> w.spec.sampledInterval.Some? && !plan.o2.active)
    && (d == E4 ==> !plan.o2.active && !plan.o3.active)
  }

  function WithLevel(w: World, d: Depth, lv: Level): World {
    match d
    case E2 => w.(e2 := lv)
    case E3 => w.(e3 := lv)
    case E4 => w.(e4 := lv)
  }

  function Finished(job: Job, ok: bool, completion: Option<Time>): Job {
    job.(phase := if ok then Succeeded else Failed, completion := completion)
  }

  /** An unreachable repository yields no other probe result. */
  predicate WellFormedProbe(p: Probe) {
    !p.reachable ==> !p.secure && p.lastBackup.None? && p.inventory.None?
  }

  predicate LevelAnswers(lv: Level, io: LevelIO) { io.listOk ==> ValidPick(lv.jobs, io.pick) }

  /** Lists are current, the clock does not go back, a Job does not complete before it exists. */
  predicate Enabled(w: World, a: Action) {
    match a
    case Tick(to) => w.now <= to
    case Finish(d, j, ok, completion) =>
      && j in LevelOf(w, d).jobs && !j.Done()
      && (completion.Some? ==> j.created <= completion.value <= w.now)
      && (ok ==> completion.Some?)
    case Collect(d, j) => j in LevelOf(w, d).jobs
    case Run(creds, io) =>
      && w.now <= io.e2.at <= io.e3.at <= io.e4.at <= io.end
      && WellFormedProbe(io.probe)
      && LevelAnswers(w.e2, io.e2) && LevelAnswers(w.e3, io.e3) && LevelAnswers(w.e4, io.e4)
    case _ => true
  }

  /** What happens around the controller. */
  function Environment(w: World, a: Action): World
    requires !a.Run?
  {
    match a
    case Tick(to) => w.(now := to)
    case Finish(d, j, ok, completion) =>
      var lv := LevelOf(w, d);
      WithLevel(w, d, lv.(jobs := lv.jobs - {j} + {Finished(j, ok, completion)}))
    case Collect(d, j) =>
      var lv := LevelOf(w, d);
      WithLevel(w, d, lv.(jobs := lv.jobs - {j}))
    case EditSpec(spec) => w.(spec := spec)
    case AnnotateRevalidate(ts) => w.(forceRevalidate := ts)
    case AnnotateE4(e4) => w.(forceE4 := e4)
    case Restart => w.(firstMiss := None)
  }

  function Step(w: World, a: Action): World {
    if a.Run? then ReconcileStep(w, a.creds, a.io) else Environment(w, a)
  }

  /** What a theorem assumes of its runs beyond what is always possible. */
  datatype Policy = Policy(
    prompt: bool,    // status patches succeed and a Job is deleted only once its result is recorded
    keepE3: bool,    // the E3 interval stays set
    stats: bool)     // every look that takes an E4 Job finds the STATS line in its log

  /** Nothing beyond what is always possible. */
  const ANY_RUN := Policy(false, false, false)

  predicate Obeys(pol: Policy, w: World, a: Action) {
    && (pol.prompt ==>
      && (a.Run? && a.creds == Resolved ==> a.io.patchOk)
      && (a.Collect? ==>
            && a.job.Done() && MarkerOf(w, a.depth).Some?
            && a.job.CompletedAt() <= MarkerOf(w, a.depth).value))
    && (pol.keepE3 ==> a.EditSpec? ==> a.spec.sampledInterval.Some?)
    && (pol.stats ==>
          a.Run? && a.creds == Resolved && MakePlan(w, a.io).o4.completed.Some? ==> a.io.e4.log.Some?)
  }

  predicate ValidRun(pol: Policy, w: World, acts: seq<Action>)
    decreases |acts|
  {
    acts == [] ||
    (Enabled(w, acts[0]) && Obeys(pol, w, acts[0]) && ValidRun(pol, Step(w, acts[0]), acts[1..]))
  }

  function EndOf(w: World, acts: seq<Action>): World
    decreases |acts|
  {
    if acts == [] then w else EndOf(Step(w, acts[0]), acts[1..])
  }

  /** A repository just declared: no status, no Jobs, nothing remembered. */
  function Initial(spec: Spec, now: Time): World {
    World(now, spec, EMPTY_STATUS, None, None, EMPTY_LEVEL, EMPTY_LEVEL, EMPTY_LEVEL, None, [])
  }

  predicate Starts(pol: Policy, w: World) {
    w == Initial(w.spec, w.now) && (pol.keepE3 ==> w.spec.sampledInterval.Some?)
  }
}
