/**
 The values a BackupRepository is made of: timestamps, spec, conditions, status, probe results and
 the Jobs of one validation level.
 */
module Types {
  datatype Option<+T> = None | Some(value: T)

  /** Nanoseconds since the epoch; a duration is a difference of two of them. */
  type Time = int

  const SECOND: int := 1_000_000_000

  /** What is left of a timestamp once the API server has stored it: metav1.Time keeps whole seconds. */
  function Stored(t: Time): Time { t / SECOND * SECOND }

  datatype Spec = Spec(
    metadataInterval: Time,
    sampledInterval: Option<Time>,
    fullInterval: Option<Time>,
    storageClass: bool,
    pvcSize: bool,
    maxBackupLag: Time,
    sizeBudget: Option<int>)

  datatype CondType =
    | Reachable | BucketSecurityValid | BackupCurrent | SizeWithinBudget
    | MetadataValid | SampledIntegrityValid | FullRetrievalCompleted
    | ProbeHealthy | ValidationHealthy | Healthy

  datatype CondStatus = IsTrue | IsFalse | IsUnknown

  datatype Reason =
    | ProbeSucceeded | RolledUp | LayerTwoNotYetAvailable
    | CredentialsUnavailable | S3Unreachable | RepositoryEmpty | BackupLagExceeded | SizeBudgetExceeded
    | MetadataValidationFailed | SampledIntegrityFailed | FullRetrievalFailed
    | ProbeReason(code: nat)  // any other reason the probe reports

  datatype Condition = Condition(status: CondStatus, reason: Reason)

  type Conditions = map<CondType, Condition>

  function Find(cs: Conditions, t: CondType): Option<Condition> {
    if t in cs then Some(cs[t]) else None
  }

  /** The placeholder a level shows before it has a result. */
  const NOT_YET := Condition(IsUnknown, LayerTwoNotYetAvailable)

  function FromBool(ok: bool, reason: Reason): Condition {
    Condition(if ok then IsTrue else IsFalse, reason)
  }

  datatype Inventory = Inventory(objectCount: nat, totalBytes: int)

  datatype Stats = Stats(duration: int, bytes: int, throughput: int, objects: int, failed: int)

  datatype FullRetrieval = FullRetrieval(completedAt: Time, stats: Stats, manual: bool)

  datatype Status = Status(
    conditions: Conditions,
    lastProbedAt: Option<Time>,
    lastForceRevalidatedAt: Option<Time>,
    lastForcedE4At: Option<Time>,
    claimedLastBackup: Option<Time>,
    inventory: Option<Inventory>,
    verifiedValidationAt: Option<Time>,
    verifiedSampledAt: Option<Time>,
    lastFullRetrieval: Option<FullRetrieval>)

  const EMPTY_STATUS := Status(map[], None, None, None, None, None, None, None, None)

  /** The timestamp E4 uses where E2 and E3 have a field of their own. */
  function FullRetrievalAt(st: Status): Option<Time> {
    if st.lastFullRetrieval.Some? then Some(st.lastFullRetrieval.value.completedAt) else None
  }

  /** One E1 cycle, as the controller sees it. */
  datatype Probe = Probe(
    reachable: bool,
    reachableReason: Reason,
    secure: bool,
    securityReason: Reason,
    lastBackup: Option<Time>,
    inventory: Option<Inventory>)

  datatype Phase = InFlight | Succeeded | Failed

  datatype Job = Job(
    id: nat,
    created: Time,
    phase: Phase,
    completion: Option<Time>,
    manual: bool)
  {
    predicate Done() { phase != InFlight }

    /** A failed Job carries no completion time, so its creation time stands in. */
    function CompletedAt(): Time { if completion.Some? then completion.value else created }
  }

  lemma StoredBounds(t: Time)
    ensures Stored(t) <= t < Stored(t) + SECOND
    ensures Stored(Stored(t)) == Stored(t)
  {
  }

  lemma StoredMonotone(s: Time, t: Time)
    requires s <= t
    ensures Stored(s) <= Stored(t)
  {
  }
}
