/**
 The condition set of one status write: each leaf from its inputs, then the rollups over the leaves.
 */
module ConditionSet {
  import opened Types
  import opened Rollup

  /** What one reconcile hands to the condition writer; None means "no value this cycle". */
  datatype Inputs = Inputs(
    reachable: Condition,
    bucketSecurity: Option<Condition>,
    backupCurrent: Option<Condition>,
    metadata: Option<Condition>,
    sampled: Option<Condition>,
    full: Option<Condition>,
    e4Active: bool)

  const PROBE_LEAVES := [Reachable, BucketSecurityValid, BackupCurrent, SizeWithinBudget]
  const VALIDATION_LEAVES := [MetadataValid, SampledIntegrityValid, FullRetrievalCompleted]

  const ALL_LEAVES := PROBE_LEAVES + VALIDATION_LEAVES

  const LEAF_TYPES: set<CondType> :=
    {Reachable, BucketSecurityValid, BackupCurrent, SizeWithinBudget,
     MetadataValid, SampledIntegrityValid, FullRetrievalCompleted}

  /** A level's condition carries a result, as opposed to the placeholder. */
  predicate Real(c: Option<Condition>) {
    c.Some? && c.value.reason != LayerTwoNotYetAvailable
  }

  /** The condition worth carrying over a cycle that produced no result of its own. */
  function Preserved(cs: Conditions, t: CondType): Option<Condition> {
    if Real(Find(cs, t)) then Find(cs, t) else None
  }

  function BackupCurrentLeaf(last: Option<Time>, maxLag: Time, now: Time): Condition {
    if last.None? then Condition(IsFalse, RepositoryEmpty)
    else if now - last.value <= maxLag then Condition(IsTrue, ProbeSucceeded)
    else Condition(IsFalse, BackupLagExceeded)
  }

  function SizeLeaf(inventory: Option<Inventory>, budget: int): Condition {
    if inventory.None? then NOT_YET
    else if inventory.value.totalBytes <= budget then Condition(IsTrue, ProbeSucceeded)
    else Condition(IsFalse, SizeBudgetExceeded)
  }

  /** Downstream leaves are not evaluated when the repository could not be listed. */
  function IfReachable(reachable: bool, c: Condition): Condition {
    if reachable then c else Condition(IsUnknown, S3Unreachable)
  }

  function OrElse(c: Option<Condition>, default: Condition): Condition {
    if c.Some? then c.value else default
  }

  /** E4 shows a condition when scheduled, running, or once it has a recorded retrieval. */
  predicate E4Meaningful(spec: Spec, lfr: Option<FullRetrieval>, in_: Inputs) {
    spec.fullInterval.Some? || lfr.Some? || in_.e4Active
  }

  function FullLeaf(existing: Option<Condition>, in_: Inputs): Condition {
    if in_.full.Some? then in_.full.value
    else if in_.e4Active then NOT_YET
    else OrElse(existing, NOT_YET)
  }

  /** The condition a write gives one leaf type, or None where the leaf is left out. */
  function Leaf(spec: Spec, st: Status, in_: Inputs, t: CondType): Option<Condition> {
    match t
    case Reachable => Some(in_.reachable)
    case BucketSecurityValid => Some(OrElse(in_.bucketSecurity, Condition(IsUnknown, ProbeSucceeded)))
    case BackupCurrent => Some(OrElse(in_.backupCurrent, Condition(IsUnknown, ProbeSucceeded)))
    case SizeWithinBudget =>
      if spec.sizeBudget.Some? then Some(SizeLeaf(st.inventory, spec.sizeBudget.value)) else None
    case MetadataValid => Some(OrElse(in_.metadata, NOT_YET))
    case SampledIntegrityValid =>
      if spec.sampledInterval.Some? then Some(OrElse(in_.sampled, NOT_YET)) else None
    case FullRetrievalCompleted =>
      if E4Meaningful(spec, st.lastFullRetrieval, in_)
      then Some(FullLeaf(Find(st.conditions, FullRetrievalCompleted), in_))
      else None
    case _ => None
  }

  function Leaves(spec: Spec, st: Status, in_: Inputs): Conditions {
    map t | t in LEAF_TYPES && Leaf(spec, st, in_, t).Some? :: Leaf(spec, st, in_, t).value
  }

  /** The whole condition set after a write: it depends on the old set only through the E4 leaf. */
  function ConditionsAfter(spec: Spec, st: Status, in_: Inputs): Conditions {
    var leaves := Leaves(spec, st, in_);
    var probe := RolledUpCondition(leaves, PROBE_LEAVES);
    var validation := RolledUpCondition(leaves, VALIDATION_LEAVES);
    leaves[ProbeHealthy := probe][ValidationHealthy := validation]
      [Healthy := RolledUpCondition(map[ProbeHealthy := probe, ValidationHealthy := validation],
                                    [ProbeHealthy, ValidationHealthy])]
  }

  /** The seven leaves, in any order and with any repetition. */
  predicate ListsLeaves(order: seq<CondType>) {
    SameTypes(order, ALL_LEAVES)
  }

  lemma RollupsSeeOnlyLeaves(cs: Conditions, cs': Conditions, types: seq<CondType>)
    requires forall t :: t in types ==> Find(cs, t) == Find(cs', t)
    ensures RolledUpCondition(cs, types) == RolledUpCondition(cs', types)
  {
    forall s ensures Shows(cs, types, s) == Shows(cs', types, s) {
      if Shows(cs, types, s) {
        var t :| t in types && t in cs && cs[t].status == s;
        assert Find(cs, t) == Find(cs', t);
        assert t in cs';
      }
      if Shows(cs', types, s) {
        var t :| t in types && t in cs' && cs'[t].status == s;
        assert Find(cs, t) == Find(cs', t);
        assert t in cs;
      }
    }
    assert Present(cs, types) == Present(cs', types) by {
      if Present(cs, types) {
        var t :| t in types && t in cs;
        assert Find(cs, t) == Find(cs', t);
        assert t in cs';
      }
      if Present(cs', types) {
        var t :| t in types && t in cs';
        assert Find(cs, t) == Find(cs', t);
        assert t in cs;
      }
    }
  }

  lemma WriteShape(spec: Spec, st: Status, in_: Inputs)
    ensures var cs := ConditionsAfter(spec, st, in_);
            && ProbeHealthy in cs && cs[ProbeHealthy] == RolledUpCondition(cs, PROBE_LEAVES)
            && ValidationHealthy in cs && cs[ValidationHealthy] == RolledUpCondition(cs, VALIDATION_LEAVES)
            && Healthy in cs && cs[Healthy] == RolledUpCondition(cs, [ProbeHealthy, ValidationHealthy])
            && forall t :: t in LEAF_TYPES ==> Find(cs, t) == Leaf(spec, st, in_, t)
  {
    var cs := ConditionsAfter(spec, st, in_);
    var leaves := Leaves(spec, st, in_);
    forall t | t in LEAF_TYPES ensures Find(cs, t) == Find(leaves, t) == Leaf(spec, st, in_, t) {
    }
    RollupsSeeOnlyLeaves(cs, leaves, PROBE_LEAVES);
    RollupsSeeOnlyLeaves(cs, leaves, VALIDATION_LEAVES);
    var two := map[ProbeHealthy := cs[ProbeHealthy], ValidationHealthy := cs[ValidationHealthy]];
    RollupsSeeOnlyLeaves(cs, two, [ProbeHealthy, ValidationHealthy]);
  }

  /** Healthy, built from two nested rollups, is one flat three-valued AND over the leaves present. */
  lemma HealthyIsFlatRollup(spec: Spec, st: Status, in_: Inputs, order: seq<CondType>)
    requires ListsLeaves(order)
    ensures var cs := ConditionsAfter(spec, st, in_);
            Healthy in cs && cs[Healthy].status == RolledUpCondition(cs, order).status
  {
    var cs := ConditionsAfter(spec, st, in_);
    WriteShape(spec, st, in_);
    assert Reachable in LEAF_TYPES && MetadataValid in LEAF_TYPES;
    assert Reachable in PROBE_LEAVES && Reachable in cs;
    assert MetadataValid in VALIDATION_LEAVES && MetadataValid in cs;
    NestedIsFlat(cs, ProbeHealthy, PROBE_LEAVES, ValidationHealthy, VALIDATION_LEAVES, order);
  }

  /** Status of a leaf, absent leaves not counting against the repository. */
  predicate TrueOrAbsent(cs: Conditions, t: CondType) { t in cs ==> cs[t].status == IsTrue }

  predicate NotFalse(cs: Conditions, t: CondType) { t in cs ==> cs[t].status != IsFalse }

  /** What Healthy says of the leaves beside it. */
  ghost predicate HealthyTells(cs: Conditions) {
    && Healthy in cs
    && (cs[Healthy].status == IsTrue <==> forall t :: t in ALL_LEAVES ==> TrueOrAbsent(cs, t))
    && (cs[Healthy].status == IsFalse <==> exists t :: t in ALL_LEAVES && !NotFalse(cs, t))
  }

  /** A rollup over leaves of which one is present, told leaf by leaf. */
  lemma RollupTells(cs: Conditions)
    requires Healthy in cs && Reachable in cs && cs[Healthy].status == RolledUpCondition(cs, ALL_LEAVES).status
    ensures HealthyTells(cs)
  {
    assert Reachable in ALL_LEAVES;
    if cs[Healthy].status == IsFalse {
      var t :| t in ALL_LEAVES && t in cs && cs[t].status == IsFalse;
      assert !NotFalse(cs, t);
    }
    if t :| t in ALL_LEAVES && !NotFalse(cs, t) {
      assert Shows(cs, ALL_LEAVES, IsFalse);
    }
    if cs[Healthy].status == IsTrue {
      assert !Shows(cs, ALL_LEAVES, IsFalse) && !Shows(cs, ALL_LEAVES, IsUnknown);
    }
  }

  /** Which statuses the leaves must have for each value of Healthy. */
  lemma HealthyFromLeaves(spec: Spec, st: Status, in_: Inputs)
    ensures HealthyTells(ConditionsAfter(spec, st, in_))
  {
    HealthyIsFlatRollup(spec, st, in_, ALL_LEAVES);
    WriteShape(spec, st, in_);
    assert Reachable in LEAF_TYPES;
    RollupTells(ConditionsAfter(spec, st, in_));
  }

  /** A write told without the rollups: every leaf, and what Healthy says of them. */
  ghost predicate Written(spec: Spec, st: Status, in_: Inputs, cs: Conditions) {
    HealthyTells(cs) && forall t :: t in LEAF_TYPES ==> Find(cs, t) == Leaf(spec, st, in_, t)
  }

  lemma ConditionsWritten(spec: Spec, st: Status, in_: Inputs)
    ensures Written(spec, st, in_, ConditionsAfter(spec, st, in_))
  {
    HealthyFromLeaves(spec, st, in_);
    WriteShape(spec, st, in_);
  }
}
