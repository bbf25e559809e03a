/**
 Both controllers together: the conditional reads the repository's status between its reconciles.
 */
module TwoControllers {
  import opened Types
  import opened Reconcile
  import opened Runs
  import opened StatusInvariants
  import opened Invariants
  import opened Health
  import C = Conditional

  /** `applies` is everything ever applied, `lastRecorded` the last apply whose status write succeeded. */
  datatype System = System(
    w: World,
    spec: C.ConditionalSpec,
    rec: C.Record,
    applies: seq<C.Applied>,
    lastRecorded: Option<C.Applied>)

  datatype Move =
    | Repository(a: Action)
    | EditConditional(spec: C.ConditionalSpec)
    | Pass(read: Read, m: C.Manifest, patchOk: bool)

  /** How the conditional's read of the repository goes. */
  datatype Read = ReadsCurrent | ReadsMissing | ReadFails

  function Lookup(s: System, read: Read): C.Lookup {
    match read
    case ReadsCurrent => C.Found(s.w.status)
    case ReadsMissing => C.NotFound
    case ReadFails => C.LookupError
  }

  function Moved(s: System, m: Move): System {
    match m
    case Repository(a) => s.(w := Step(s.w, a))
    case EditConditional(spec) => s.(spec := spec)
    case Pass(read, mf, patchOk) =>
      var found := Lookup(s, read);
      var a := C.AppliedBy(s.spec, s.rec, found, mf, s.w.now);
      s.(applies := if a.Some? then s.applies + [a.value] else s.applies,
         lastRecorded := if a.Some? && patchOk then a else s.lastRecorded,
         rec := if patchOk then C.RecordAfter(s.spec, s.rec, found, mf, s.w.now) else s.rec)
  }

  predicate ValidMoves(s: System, ms: seq<Move>)
    decreases |ms|
  {
    ms == [] ||
    ((ms[0].Repository? ==> Enabled(s.w, ms[0].a)) && ValidMoves(Moved(s, ms[0]), ms[1..]))
  }

  function EndState(s: System, ms: seq<Move>): System
    decreases |ms|
  {
    if ms == [] then s else EndState(Moved(s, ms[0]), ms[1..])
  }

  // ----- the decision record -----

  /** Decided, DecidedAt and AppliedRef are set together and repeat the last apply on record. */
  predicate RecordInv(s: System) {
    match s.lastRecorded
    case None => s.rec.decided.None? && s.rec.decidedAt.None? && s.rec.appliedRef.None?
    case Some(a) =>
      s.rec.decided == Some(a.slot) && s.rec.decidedAt == Some(Stored(a.at)) && s.rec.appliedRef == Some(a.ref)
  }

  predicate PatchesSucceed(ms: seq<Move>) { forall i :: 0 <= i < |ms| ==> ms[i].Pass? ==> ms[i].patchOk }

  /** On every run the decision record is the last recorded apply, and once set it is never erased. */
  lemma {:induction false} DecisionRecordIsHistory(s: System, ms: seq<Move>)
    requires RecordInv(s) && ValidMoves(s, ms)
    ensures RecordInv(EndState(s, ms))
    ensures s.rec.decided.Some? ==> EndState(s, ms).rec.decided.Some?
    ensures s.applies <= EndState(s, ms).applies
    ensures PatchesSucceed(ms) && (s.applies != [] ==> s.lastRecorded == Some(s.applies[|s.applies| - 1])) ==>
              var s' := EndState(s, ms);
              s'.applies != [] ==> s'.lastRecorded == Some(s'.applies[|s'.applies| - 1])
    decreases |ms|
  {
    if ms != [] {
      var s1 := Moved(s, ms[0]);
      assert RecordInv(s1);
      if PatchesSucceed(ms) {
        assert PatchesSucceed(ms[1..]);
      }
      DecisionRecordIsHistory(s1, ms[1..]);
    }
  }

  /** The pass gets to apply: the repository was read, no decision is held, and the variant's manifest is accepted. */
  predicate GoesThrough(s: System, read: Read, m: C.Manifest, slot: C.Slot) {
    read == ReadsCurrent && !C.Holds(s.rec, s.w.status) && slot in s.spec.variants && m.ApplyAccepted?
  }

  /** The variant that belongs to the state of a repository. */
  predicate SlotBelongs(st: Status, slot: C.Slot) {
    var empty := st.claimedLastBackup.None? && HoldsNothing(st);
    var healthy := Healthy in st.conditions && st.conditions[Healthy].status == IsTrue;
    match slot
    case WhenEmpty => empty
    case WhenHealthy => !empty && healthy
    case WhenDegraded => !empty && !healthy
  }

  /**
   A pass applies exactly one object, the accepted manifest's for the variant that belongs to the repository's state,
   if it goes through, and nothing otherwise. Being held takes a decision on record and a Healthy of Unknown.
   */
  lemma PassAppliesExactly(s: System, read: Read, m: C.Manifest, patchOk: bool, slot: C.Slot)
    requires SlotBelongs(s.w.status, slot)
    ensures var s' := Moved(s, Pass(read, m, patchOk));
            if GoesThrough(s, read, m, slot) then
              exists ref :: && s'.applies == s.applies + [C.Applied(slot, ref, s.w.now)]
                            && ref == m.obj.(namespace := ref.namespace)
                            && ref.namespace == (if m.obj.namespace == "" then s.spec.namespace else m.obj.namespace)
            else s'.applies == s.applies
    ensures C.Holds(s.rec, s.w.status) <==>
            slot == C.WhenDegraded && s.rec.decided.Some? && C.HealthyUnknown(s.w.status)
  {
    var s' := Moved(s, Pass(read, m, patchOk));
    if GoesThrough(s, read, m, slot) {
      assert s'.applies == s.applies + [C.Applied(slot, C.Defaulted(m.obj, s.spec.namespace), s.w.now)];
    }
  }

  /** The manifest is looked at: the repository was read, no decision is held, and the state has a variant. */
  predicate LooksAtManifest(s: System, read: Read, slot: C.Slot) {
    read == ReadsCurrent && !C.Holds(s.rec, s.w.status) && slot in s.spec.variants
  }

  /** How far the manifest got, condition by condition; what was not reached keeps its old report. */
  predicate ManifestReported(before: map<C.PassCond, bool>, cs: map<C.PassCond, bool>, m: C.Manifest) {
    var found := m != C.SourceMissing;
    var parsed := found && m != C.ParseFailed && m != C.Incomplete;
    && Reports(cs, C.SourceFound, found)
    && (if found then Reports(cs, C.ManifestParsed, parsed) else Unchanged(before, cs, C.ManifestParsed))
    && (if parsed then Reports(cs, C.ChildApplied, m.ApplyAccepted?) else Unchanged(before, cs, C.ChildApplied))
  }

  predicate Reports(cs: map<C.PassCond, bool>, c: C.PassCond, holds: bool) { c in cs && cs[c] == holds }

  predicate Unchanged(before: map<C.PassCond, bool>, cs: map<C.PassCond, bool>, c: C.PassCond) {
    if c in before then Reports(cs, c, before[c]) else c !in cs
  }

  /**
   What a recorded pass reports: whether it found the repository, how far the manifest got, the state it saw, and
   whether it decided, which it did if it held or applied. A pass that cannot read reports nothing.
   */
  lemma PassReportsExactly(s: System, read: Read, m: C.Manifest, slot: C.Slot)
    requires SlotBelongs(s.w.status, slot)
    ensures var s' := Moved(s, Pass(read, m, true)); var before, cs := s.rec.conditions, s'.rec.conditions;
            if read == ReadFails then s'.rec == s.rec
            else
              && Reports(cs, C.RepositoryFound, read == ReadsCurrent)
              && Reports(cs, C.Decided,
                         read == ReadsCurrent && (C.Holds(s.rec, s.w.status) || s'.applies != s.applies))
              && (if LooksAtManifest(s, read, slot) then ManifestReported(before, cs, m)
                  else forall c :: c in {C.SourceFound, C.ManifestParsed, C.ChildApplied} ==> Unchanged(before, cs, c))
              && (if read == ReadsCurrent then s'.rec.observed.Some? && C.SlotFor(s'.rec.observed.value) == slot
                  else s'.rec.observed == s.rec.observed)
  {
    var s' := Moved(s, Pass(read, m, true));
    assert s'.applies != s.applies <==> LooksAtManifest(s, read, slot) && m.ApplyAccepted?;
  }

  /** Once decided, a pass over an unknown repository applies nothing and keeps the decision. */
  lemma UnknownHoldsTheDecision(s: System, m: C.Manifest, read: Read, patchOk: bool)
    requires s.rec.decided.Some? && C.HealthyUnknown(s.w.status) && C.DeriveState(s.w.status) != C.StateEmpty
    ensures var s' := Moved(s, Pass(read, m, patchOk));
            && s'.applies == s.applies
            && s'.rec.decided == s.rec.decided && s'.rec.appliedRef == s.rec.appliedRef
            && s'.rec.decidedAt == s.rec.decidedAt
  {
  }

  // ----- a short credential gap -----

  /** Every repository reconcile finds the Secret missing, and the controller is not restarted. */
  predicate GapMove(m: Move) {
    m.Repository? ==> !m.a.Restart? && (m.a.Run? ==> m.a.creds == SecretNotFound)
  }

  predicate GapOnly(ms: seq<Move>) { forall i :: 0 <= i < |ms| ==> GapMove(ms[i]) }

  predicate WithinTolerance(w: World) {
    w.firstMiss.Some? ==> w.now - w.firstMiss.value < CREDENTIALS_TOLERANCE
  }

  lemma StepClock(w: World, a: Action)
    requires Enabled(w, a)
    ensures w.now <= Step(w, a).now
  {
  }

  lemma {:induction false} GapClock(s: System, ms: seq<Move>)
    requires ValidMoves(s, ms) && GapOnly(ms)
    ensures s.w.now <= EndState(s, ms).w.now
    ensures s.w.firstMiss.Some? ==> EndState(s, ms).w.firstMiss == s.w.firstMiss
    decreases |ms|
  {
    if ms != [] {
      assert GapMove(ms[0]);
      if ms[0].Repository? {
        StepClock(s.w, ms[0].a);
      }
      GapClock(Moved(s, ms[0]), ms[1..]);
    }
  }

  /** What the conditional applied since, and for which slot. */
  predicate OnlyApplies(old_: seq<C.Applied>, now: seq<C.Applied>, slot: C.Slot) {
    old_ <= now && forall i :: |old_| <= i < |now| ==> now[i].slot == slot
  }

  /**
   While the Secret has been missing for less than the tolerance, no interleaving of the two
   controllers changes the repository's status, so every pass picks the slot it would have picked.
   */
  lemma {:induction false} ShortGapChangesNothing(s: System, ms: seq<Move>)
    requires ValidMoves(s, ms) && GapOnly(ms) && WithinTolerance(EndState(s, ms).w)
    ensures var s' := EndState(s, ms);
            && s'.w.status == s.w.status
            && s'.w.credentialFailures == s.w.credentialFailures
            && OnlyApplies(s.applies, s'.applies, C.SlotFor(C.DeriveState(s.w.status)))
    decreases |ms|
  {
    if ms != [] {
      var s1 := Moved(s, ms[0]);
      assert GapMove(ms[0]);
      GapClock(s1, ms[1..]);
      if ms[0].Repository? {
        StepClock(s.w, ms[0].a);
      }
      ShortGapChangesNothing(s1, ms[1..]);
    }
  }

  // ----- the gap grows past the tolerance -----

  /** Reconciles come at most the requeue interval apart: the clock never runs further past the last one. */
  predicate Requeued(w: World, acts: seq<Action>, last: Time)
    decreases |acts|
  {
    && w.now <= last + CREDENTIALS_REQUEUE
    && (acts == [] || Requeued(Step(w, acts[0]), acts[1..], if acts[0].Run? then w.now else last))
  }

  predicate MissingSecret(a: Action) {
    !a.Restart? && (a.Run? ==> a.creds == SecretNotFound && a.io.patchOk)
  }

  predicate MissingThroughout(acts: seq<Action>) { forall i :: 0 <= i < |acts| ==> MissingSecret(acts[i]) }

  /** No failure yet, or the first one came in the window; past the window there is one. */
  predicate FlipsInWindow(failures: seq<Time>, before: nat, first: Time, now: Time) {
    if |failures| <= before then now < first + CREDENTIALS_TOLERANCE + CREDENTIALS_REQUEUE
    else first + CREDENTIALS_TOLERANCE <= failures[before] < first + CREDENTIALS_TOLERANCE + CREDENTIALS_REQUEUE
  }

  lemma {:induction false} GapProgress(w: World, acts: seq<Action>, last: Time, before: nat, first: Time)
    requires ValidRun(ANY_RUN, w, acts) && MissingThroughout(acts) && Requeued(w, acts, last)
    requires w.firstMiss == Some(first) && before <= |w.credentialFailures|
    requires |w.credentialFailures| == before ==> last < first + CREDENTIALS_TOLERANCE
    requires FlipsInWindow(w.credentialFailures, before, first, w.now)
    ensures var w' := EndOf(w, acts); FlipsInWindow(w'.credentialFailures, before, first, w'.now)
    ensures w.credentialFailures <= EndOf(w, acts).credentialFailures
    decreases |acts|
  {
    if acts != [] {
      var w1 := Step(w, acts[0]);
      assert MissingSecret(acts[0]);
      GapProgress(w1, acts[1..], if acts[0].Run? then w.now else last, before, first);
    }
  }

  /**
   A Secret that stays missing: with reconciles at most 30s apart the failure is written no earlier than
   60s and before 90s after the first miss, and that write reads Reachable=False and Healthy=False.
   */
  lemma LongGapFlipsOnTime(w: World, io: ReconcileIO, acts: seq<Action>)
    requires w.firstMiss.None? && Enabled(w, Run(SecretNotFound, io))
    requires ValidRun(ANY_RUN, Step(w, Run(SecretNotFound, io)), acts) && MissingThroughout(acts)
    requires Requeued(Step(w, Run(SecretNotFound, io)), acts, w.now)
    ensures var w1 := Step(w, Run(SecretNotFound, io)); var w' := EndOf(w1, acts);
            && w1.status == w.status
            && FlipsInWindow(w'.credentialFailures, |w.credentialFailures|, w.now, w'.now)
            && (w'.now >= w.now + CREDENTIALS_TOLERANCE + CREDENTIALS_REQUEUE ==>
                  |w'.credentialFailures| > |w.credentialFailures|)
  {
    GapProgress(Step(w, Run(SecretNotFound, io)), acts, w.now, |w.credentialFailures|, w.now);
  }

  lemma FailureWriteIsLoud(w: World, a: Action)
    requires a.Run? && Step(w, a).credentialFailures != w.credentialFailures
    ensures var w' := Step(w, a);
            w'.credentialFailures == w.credentialFailures + [w.now] && Loud(w'.status.conditions)
  {
    CredentialFailureIsLoud(w.spec, w.status, w.now);
  }

  // ----- outages -----

  /** Whatever the probes say, no complete inventory came back empty. */
  predicate NoEmptyInventory(m: Move) {
    m.Repository? && m.a.Run? && m.a.io.probe.inventory.Some? ==> m.a.io.probe.inventory.value.objectCount > 0
  }

  predicate NeverSeenEmpty(ms: seq<Move>) { forall i :: 0 <= i < |ms| ==> NoEmptyInventory(ms[i]) }

  predicate HasObjects(st: Status) { st.inventory.Some? && st.inventory.value.objectCount > 0 }

  /**
   From a repository known to hold objects, no sequence of unreachable probes, failed inventories and
   credential failures makes it look empty, so the empty variant is never applied.
   */
  lemma {:induction false} OutageNeverLooksEmpty(s: System, ms: seq<Move>)
    requires HasObjects(s.w.status) && ValidMoves(s, ms) && NeverSeenEmpty(ms)
    ensures var s' := EndState(s, ms);
            && HasObjects(s'.w.status) && C.DeriveState(s'.w.status) != C.StateEmpty
            && s.applies <= s'.applies
            && forall i :: |s.applies| <= i < |s'.applies| ==> s'.applies[i].slot != C.WhenEmpty
    decreases |ms|
  {
    if ms != [] {
      var s1 := Moved(s, ms[0]);
      assert NoEmptyInventory(ms[0]);
      if ms[0].Repository? {
        InventoryKept(s.w, ms[0].a);
      }
      OutageNeverLooksEmpty(s1, ms[1..]);
    }
  }

  lemma InventoryKept(w: World, a: Action)
    ensures var st' := Step(w, a).status;
            st'.inventory == w.status.inventory ||
            (a.Run? && a.io.probe.inventory.Some? && st'.inventory == a.io.probe.inventory)
  {
  }

  /** A repository that is called empty was: its last complete inventory held no object. */
  predicate EmptyWasSeen(a: Action) {
    a.Run? && a.io.probe.inventory.Some? && a.io.probe.inventory.value.objectCount == 0
  }

  lemma OnlyAnEmptyInventoryLooksEmpty(w: World, a: Action)
    requires !HoldsNothing(w.status) && C.DeriveState(Step(w, a).status) == C.StateEmpty
    ensures EmptyWasSeen(a) && a.io.probe.lastBackup.None?
  {
    InventoryKept(w, a);
  }

  /** The last complete inventory on record held no object. */
  predicate HoldsNothing(st: Status) { st.inventory.Some? && st.inventory.value.objectCount == 0 }

  /** The inventory a recorded reconcile leaves: this probe's, or the one on record if this probe has none. */
  function ListedNow(st: Status, p: Probe): Option<Inventory> {
    if p.inventory.Some? then p.inventory else st.inventory
  }

  /**
   The state a recorded reconcile leaves, exactly: empty if no object is listed and the probe found no backup, healthy
   if the probe is good, the inventory fits and no level objects, else degraded.
   */
  lemma StateExactly(w: World, io: ReconcileIO)
    requires io.patchOk
    ensures var w' := ReconcileResolved(w, io); var listed := ListedNow(w.status, io.probe);
            && (C.DeriveState(w'.status) == C.StateEmpty <==>
                  io.probe.lastBackup.None? && listed.Some? && listed.value.objectCount == 0)
            && (C.DeriveState(w'.status) == C.StateHealthy <==>
                  && ProbeGood(w.spec, io.probe, io.end) && LevelsTrue(w'.status.conditions)
                  && (w.spec.sizeBudget.Some? ==> listed.Some? && listed.value.totalBytes <= w.spec.sizeBudget.value))
  {
    ResolvedEffect(w, io);
    WrittenState(w, io, ReconcileResolved(w, io));
  }

  lemma WrittenState(w: World, io: ReconcileIO, w': World)
    requires Effect(w, io, w') && io.patchOk
    ensures var listed := ListedNow(w.status, io.probe);
            && (C.DeriveState(w'.status) == C.StateEmpty <==>
                  io.probe.lastBackup.None? && listed.Some? && listed.value.objectCount == 0)
            && (C.DeriveState(w'.status) == C.StateHealthy <==>
                  && ProbeGood(w.spec, io.probe, io.end) && LevelsTrue(w'.status.conditions)
                  && (w.spec.sizeBudget.Some? ==> listed.Some? && listed.value.totalBytes <= w.spec.sizeBudget.value))
  {
    WrittenHealth(w.spec, w.status, io.probe, MakePlan(w, io), io.end, w'.status);
  }

  /** A written credential failure leaves a repository empty exactly if it was, and degraded otherwise. */
  lemma StateAfterFailureExactly(w: World, w': World)
    requires WroteFailure(w.spec, w.status, w.now, w'.status)
    ensures C.DeriveState(w'.status) ==
            if w.status.claimedLastBackup.None? && HoldsNothing(w.status) then C.StateEmpty else C.StateDegraded
  {
    FailureIsLoud(w.spec, w.status, w.now, w'.status);
  }

  /**
   A written outage derives empty exactly if the inventory on record held nothing: an unreachable probe takes
   the claimed backup away, so it can turn a repository known to hold no objects to empty, and no other.
   */
  lemma OutageLooksEmptyExactly(w: World, io: ReconcileIO)
    requires io.patchOk && WellFormedProbe(io.probe) && !io.probe.reachable
    ensures C.DeriveState(ReconcileResolved(w, io).status) == C.StateEmpty <==> HoldsNothing(w.status)
  {
    ResolvedEffect(w, io);
    WrittenOutage(w, io, ReconcileResolved(w, io));
  }

  lemma WrittenOutage(w: World, io: ReconcileIO, w': World)
    requires Effect(w, io, w') && io.patchOk && WellFormedProbe(io.probe) && !io.probe.reachable
    ensures C.DeriveState(w'.status) == C.StateEmpty <==> HoldsNothing(w.status)
  {
  }
}
