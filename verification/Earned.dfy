/**
 What stands behind each variant the conditional applies, on every run of both controllers.
 */
module Earned {
  import opened Types
  import opened ConditionSet
  import opened Jobs
  import opened Reconcile
  import opened Runs
  import opened Invariants
  import opened Results
  import opened Health
  import opened TwoControllers
  import C = Conditional

  /** Between writes the rollup on record is still that of the leaves on record. */
  ghost predicate Consistent(cs: Conditions) {
    || cs == map[]
    || (HealthyTells(cs) && Reachable in cs && BucketSecurityValid in cs && BackupCurrent in cs && MetadataValid in cs)
  }

  lemma WriteIsConsistent(spec: Spec, st: Status, in_: Inputs, cs: Conditions)
    requires Written(spec, st, in_, cs)
    ensures Consistent(cs)
  {
    assert Reachable in LEAF_TYPES && BucketSecurityValid in LEAF_TYPES;
    assert BackupCurrent in LEAF_TYPES && MetadataValid in LEAF_TYPES;
  }

  lemma EffectConsistent(w: World, a: Action, w': World)
    requires Consistent(w.status.conditions) && StepEffect(w, a, w')
    ensures Consistent(w'.status.conditions)
  {
    if a.Run? && w'.status != w.status {
      if a.creds == Resolved {
        var plan := MakePlan(w, a.io);
        WriteIsConsistent(w.spec, FieldsAfter(w.status, a.io.probe, plan, a.io.end),
                          ProbeInputs(w.spec, w.status, a.io.probe, plan, a.io.end), w'.status.conditions);
      } else {
        WriteIsConsistent(w.spec, w.status.(lastProbedAt := Some(Stored(w.now))),
                          CredentialInputs(w.status.conditions), w'.status.conditions);
      }
    }
  }

  ghost predicate JointInv(s: System) { Inv(ANY_RUN, s.w) && Consistent(s.w.status.conditions) }

  /** Both objects just declared. */
  predicate Begins(s: System) {
    Starts(ANY_RUN, s.w) && s.rec == C.EMPTY_RECORD && s.applies == [] && s.lastRecorded.None?
  }

  lemma {:induction false} JointRun(s: System, ms: seq<Move>)
    requires JointInv(s) && ValidMoves(s, ms)
    ensures JointInv(EndState(s, ms))
    decreases |ms|
  {
    if ms != [] {
      if ms[0].Repository? {
        StepKeepsInv(ANY_RUN, s.w, ms[0].a);
        StepTakesEffect(s.w, ms[0].a);
        EffectConsistent(s.w, ms[0].a, Step(s.w, ms[0].a));
      }
      JointRun(Moved(s, ms[0]), ms[1..]);
    }
  }

  /** The level's condition, where there is one, is the success of the last Job ingested. */
  predicate LevelPassed(w: World, t: CondType, lv: Level) { t in w.status.conditions ==> LastPassed(lv) }

  /** Everything on record is True, and behind each level's condition stands a Job that passed. */
  predicate AllTrue(w: World) {
    var cs := w.status.conditions;
    && ShowsTrue(cs, Reachable) && ShowsTrue(cs, BucketSecurityValid) && ShowsTrue(cs, BackupCurrent)
    && (forall t :: t in ALL_LEAVES ==> TrueOrAbsent(cs, t))
    && LastPassed(w.e2)
    && LevelPassed(w, SampledIntegrityValid, w.e3)
    && LevelPassed(w, FullRetrievalCompleted, w.e4)
  }

  lemma HealthyStateIsEarned(w: World)
    requires Inv(ANY_RUN, w) && Consistent(w.status.conditions) && ShowsTrue(w.status.conditions, Healthy)
    ensures AllTrue(w)
  {
    var cs := w.status.conditions;
    AllLeaves(cs);
    assert E2Status(w.status, w.e2) && E3Status(w.status, w.e3, false) && E4Status(w.status, w.e4);
  }

  /**
   Whatever a pass applies after any joint run: the healthy variant only over a reachable, secure repository
   with a recent backup, within its budget if it has one, whose last ingested Jobs passed; the empty one only
   over an inventory of no objects; the degraded one only over a repository that is not known healthy and,
   once there was a decision, not merely unknown.
   */
  lemma AppliesAreEarned(s0: System, ms: seq<Move>, read: Read, m: C.Manifest, patchOk: bool)
    requires Begins(s0) && ValidMoves(s0, ms)
    ensures var s := EndState(s0, ms); var s' := Moved(s, Pass(read, m, patchOk));
            s'.applies != s.applies ==>
              var a := s'.applies[|s.applies|];
              && s'.applies == s.applies + [a] && a.slot in s.spec.variants
              && (a.slot == C.WhenHealthy ==> AllTrue(s.w))
              && (a.slot == C.WhenEmpty ==> s.w.status.claimedLastBackup.None? && HoldsNothing(s.w.status))
              && (a.slot == C.WhenDegraded ==>
                    && !ShowsTrue(s.w.status.conditions, Healthy)
                    && (C.HealthyUnknown(s.w.status) ==> s.rec.decided.None?))
  {
    JointRun(s0, ms);
    var s := EndState(s0, ms);
    if ShowsTrue(s.w.status.conditions, Healthy) {
      HealthyStateIsEarned(s.w);
    }
    ApplyFollowsState(s, read, m, patchOk);
  }

  lemma ApplyFollowsState(s: System, read: Read, m: C.Manifest, patchOk: bool)
    ensures var s' := Moved(s, Pass(read, m, patchOk)); var st := s.w.status;
            s'.applies != s.applies ==>
              && |s'.applies| == |s.applies| + 1 && s'.applies == s.applies + [s'.applies[|s.applies|]]
              && var slot := s'.applies[|s.applies|].slot;
              && slot in s.spec.variants && slot == C.SlotFor(C.DeriveState(st)) && !C.Holds(s.rec, st)
  {
  }
}
