/**
 One reconcile of a BackupRepository as a function of the state it starts in and of everything the
 outside world answers while it runs.
 */
module Reconcile {
  import opened Types
  import opened ConditionSet
  import opened Jobs

  /** How long a missing Secret is tolerated before any condition flips. */
  const CREDENTIALS_TOLERANCE: Time := 60 * SECOND

  /** How soon a reconcile is repeated while the Secret is missing. */
  const CREDENTIALS_REQUEUE: Time := 30 * SECOND

  /**
   The repository object, the Jobs of its three levels, the clock, the controller's memory of the
   first missed Secret, and the times at which a credential failure was written to the status.
   An annotation holds its parsed timestamp; absent and malformed ones are both None.
   */
  datatype World = World(
    now: Time,
    spec: Spec,
    status: Status,
    forceRevalidate: Option<Time>,
    forceE4: Option<Time>,
    e2: Level,
    e3: Level,
    e4: Level,
    firstMiss: Option<Time>,
    credentialFailures: seq<Time>)

  datatype Credentials = Resolved | SecretNotFound | Unusable

  datatype ReconcileIO = ReconcileIO(
    probe: Probe,
    e2: LevelIO,
    e3: LevelIO,
    e4: LevelIO,
    clearOk: bool,
    patchOk: bool,
    end: Time)

  /** A force annotation counts while it is later than the value last honored. */
  function ResolveForce(annotation: Option<Time>, honored: Option<Time>): Option<Time> {
    if annotation.Some? && (honored.None? || honored.value < annotation.value) then annotation else None
  }

  /** The forcing timestamp, as long as the level has no result from after it. */
  function ForceNeeded(force: Option<Time>, marker: Option<Time>): Option<Time> {
    if force.Some? && !After(marker, force.value) then force else None
  }

  /** Everything one reconcile decides before it writes the status. */
  datatype Plan = Plan(
    o2: LevelOut,
    o3: LevelOut,
    o4: LevelOut,
    honored: Option<Time>,
    honoredE4: Option<Time>,
    clearE4: bool)

  function E2Force(w: World): Option<Time> {
    ForceNeeded(ResolveForce(w.forceRevalidate, w.status.lastForceRevalidatedAt), w.status.verifiedValidationAt)
  }

  function E3Force(w: World): Option<Time> {
    if w.spec.sampledInterval.None? then None
    else ForceNeeded(ResolveForce(w.forceRevalidate, w.status.lastForceRevalidatedAt), w.status.verifiedSampledAt)
  }

  function E4Force(w: World): Option<Time> {
    ForceNeeded(ResolveForce(w.forceE4, w.status.lastForcedE4At), FullRetrievalAt(w.status))
  }

  function E2Wanted(w: World, at: Time): Option<Cause> {
    Wanted(w.status.verifiedValidationAt, Some(w.spec.metadataInterval), E2Force(w), at)
  }

  function E3Wanted(w: World, at: Time): Option<Cause> {
    Wanted(w.status.verifiedSampledAt, w.spec.sampledInterval, E3Force(w), at)
  }

  /** E4 is asked for like the others but refused while its destination is not specified. */
  function E4Wanted(w: World, at: Time): Option<Cause> {
    if !w.spec.storageClass || !w.spec.pvcSize then None
    else Wanted(FullRetrievalAt(w.status), w.spec.fullInterval, E4Force(w), at)
  }

  function E2Out(w: World, io: LevelIO): LevelOut {
    Process(w.e2, w.status.verifiedValidationAt, E2Wanted(w, io.at), io)
  }

  function E3Out(w: World, io: LevelIO): LevelOut {
    if w.spec.sampledInterval.None? then Skipped(w.e3)
    else Process(w.e3, w.status.verifiedSampledAt, E3Wanted(w, io.at), io)
  }

  function E4Out(w: World, io: LevelIO): LevelOut {
    Process(w.e4, FullRetrievalAt(w.status), E4Wanted(w, io.at), io)
  }

  /** A force value is honored once no level it applies to still needs it. */
  function Honored(w: World): Option<Time> {
    var force := ResolveForce(w.forceRevalidate, w.status.lastForceRevalidatedAt);
    if force.Some? && E2Force(w).None? && E3Force(w).None? then force else None
  }

  function HonoredE4(w: World): Option<Time> {
    var force := ResolveForce(w.forceE4, w.status.lastForcedE4At);
    if force.Some? && E4Force(w).None? then force else None
  }

  /** E3 waits for E2, E4 waits for both; nothing makes E2 wait. */
  function MakePlan(w: World, io: ReconcileIO): Plan {
    var o2 := E2Out(w, io.e2);
    var o3 := if o2.active then Skipped(w.e3) else E3Out(w, io.e3);
    var o4 := if o2.active || o3.active then Skipped(w.e4) else E4Out(w, io.e4);
    Plan(o2, o3, o4, Honored(w), HonoredE4(w), o4.submitted && E4Force(w).Some? && io.clearOk)
  }

  // ----- the status write -----

  function Verdict(j: Job, failure: Reason): Condition {
    if j.phase == Succeeded then Condition(IsTrue, ProbeSucceeded) else Condition(IsFalse, failure)
  }

  /** A level's condition input: a new result, else the previous one while its timestamp stands. */
  function LevelInput(completed: Option<Job>, failure: Reason, recorded: bool, cs: Conditions, t: CondType)
    : Option<Condition>
  {
    if completed.Some? then Some(Verdict(completed.value, failure))
    else if recorded then Preserved(cs, t)
    else None
  }

  /** A level's timestamp: the new result's, else the old one unless its condition was lost. */
  function LevelMarker(completed: Option<Job>, marker: Option<Time>, cs: Conditions, t: CondType): Option<Time> {
    if completed.Some? then Some(completed.value.CompletedAt())
    else if marker.Some? && !Real(Find(cs, t)) then None
    else marker
  }

  /** E4's record: the new result's if its log gave counts, else the old one unless its condition was lost. */
  function Retrieval(completed: Option<Job>, counts: Option<Stats>, lfr: Option<FullRetrieval>, cs: Conditions)
    : Option<FullRetrieval>
  {
    if completed.Some? then
      var j := completed.value;
      if counts.Some? then Some(FullRetrieval(j.CompletedAt(), counts.value, j.manual)) else lfr
    else if lfr.Some? && !Real(Find(cs, FullRetrievalCompleted)) then None
    else lfr
  }

  function StoredOption(t: Option<Time>): Option<Time> {
    if t.Some? then Some(Stored(t.value)) else None
  }

  function ProbeInputs(spec: Spec, st: Status, p: Probe, plan: Plan, now: Time): Inputs {
    Inputs(
      FromBool(p.reachable, p.reachableReason),
      Some(IfReachable(p.reachable, FromBool(p.secure, p.securityReason))),
      Some(IfReachable(p.reachable, BackupCurrentLeaf(p.lastBackup, spec.maxBackupLag, now))),
      LevelInput(plan.o2.completed, MetadataValidationFailed, st.verifiedValidationAt.Some?,
                 st.conditions, MetadataValid),
      LevelInput(plan.o3.completed, SampledIntegrityFailed, st.verifiedSampledAt.Some?,
                 st.conditions, SampledIntegrityValid),
      LevelInput(plan.o4.completed, FullRetrievalFailed, st.lastFullRetrieval.Some?,
                 st.conditions, FullRetrievalCompleted),
      plan.o4.active)
  }

  /** Every status field but the conditions, after a reconcile that got as far as probing. */
  function FieldsAfter(st: Status, p: Probe, plan: Plan, now: Time): Status {
    Status(
      st.conditions,
      Some(Stored(now)),
      if plan.honored.Some? then StoredOption(plan.honored) else st.lastForceRevalidatedAt,
      if plan.honoredE4.Some? then StoredOption(plan.honoredE4) else st.lastForcedE4At,
      StoredOption(p.lastBackup),
      if p.inventory.Some? then p.inventory else st.inventory,
      LevelMarker(plan.o2.completed, st.verifiedValidationAt, st.conditions, MetadataValid),
      LevelMarker(plan.o3.completed, st.verifiedSampledAt, st.conditions, SampledIntegrityValid),
      Retrieval(plan.o4.completed, plan.o4.counts, st.lastFullRetrieval, st.conditions))
  }

  function StatusAfter(spec: Spec, st: Status, p: Probe, plan: Plan, now: Time): Status {
    var fields := FieldsAfter(st, p, plan, now);
    fields.(conditions := ConditionsAfter(spec, fields, ProbeInputs(spec, st, p, plan, now)))
  }

  function CredentialInputs(cs: Conditions): Inputs {
    Inputs(Condition(IsFalse, CredentialsUnavailable), None, None,
           Preserved(cs, MetadataValid), Preserved(cs, SampledIntegrityValid),
           Preserved(cs, FullRetrievalCompleted), false)
  }

  /** A credential failure is no evidence about the data: validation results stay. */
  function StatusAfterCredentialFailure(spec: Spec, st: Status, now: Time): Status {
    var probed := st.(lastProbedAt := Some(Stored(now)));
    probed.(conditions := ConditionsAfter(spec, probed, CredentialInputs(st.conditions)))
  }

  // ----- the whole reconcile -----

  function ReconcileResolved(w: World, io: ReconcileIO): World {
    var plan := MakePlan(w, io);
    var w' := w.(
      now := io.end,
      firstMiss := None,
      forceE4 := if plan.clearE4 then None else w.forceE4,
      e2 := plan.o2.after,
      e3 := plan.o3.after,
      e4 := plan.o4.after);
    if !io.patchOk then w'
    else w'.(
      status := StatusAfter(w.spec, w.status, io.probe, plan, io.end),
      e2 := Recorded(plan.o2),
      e3 := Recorded(plan.o3),
      e4 := Recorded(plan.o4))
  }

  function ReconcileFailed(w: World, patchOk: bool): World {
    if !patchOk then w
    else w.(status := StatusAfterCredentialFailure(w.spec, w.status, w.now),
            credentialFailures := w.credentialFailures + [w.now])
  }

  /** The time the current gap started: the first missed Secret, this one if none was seen before. */
  function GapStart(w: World): Time {
    if w.firstMiss.Some? then w.firstMiss.value else w.now
  }

  /** A missing Secret only counts as a failure once it has been missing for the tolerance. */
  function ReconcileStep(w: World, creds: Credentials, io: ReconcileIO): World {
    match creds
    case Resolved => ReconcileResolved(w, io)
    case Unusable => ReconcileFailed(w, io.patchOk)
    case SecretNotFound =>
      var w' := w.(firstMiss := Some(GapStart(w)));
      if w.now - GapStart(w) < CREDENTIALS_TOLERANCE then w' else ReconcileFailed(w', io.patchOk)
  }
}
