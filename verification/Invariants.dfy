/**
 The invariant of every run, and the induction that carries it from the empty status to any state.
 */
module Invariants {
  import opened Types
  import opened Jobs
  import opened Reconcile
  import opened Runs
  import opened LevelInvariants
  import opened StatusInvariants

  predicate E2Status(st: Status, lv: Level) {
    && E2Synced(st)
    && LevelTold(st, MetadataValid, lv)
    && HonoredBefore(st.lastForceRevalidatedAt, st.verifiedValidationAt)
  }

  predicate E3Status(st: Status, lv: Level, keep: bool) {
    && LevelTold(st, SampledIntegrityValid, lv)
    && (HasResult(st, SampledIntegrityValid) ==> st.verifiedSampledAt.Some?)
    && (keep ==> E3Synced(st) && HonoredBefore(st.lastForceRevalidatedAt, st.verifiedSampledAt))
  }

  ghost predicate E4Status(st: Status, lv: Level) {
    && E4Synced(st)
    && LevelTold(st, FullRetrievalCompleted, lv)
    && HonoredBefore(st.lastForcedE4At, FullRetrievalAt(st))
    && RetrievalKept(st, lv)
  }

  ghost predicate E2Inv(pol: Policy, w: World) {
    && E2Status(w.status, w.e2)
    && LevelInv(w.e2, w.status.verifiedValidationAt, w.now, true, pol.prompt)
  }

  ghost predicate E3Inv(pol: Policy, w: World) {
    && (pol.keepE3 ==> w.spec.sampledInterval.Some?)
    && E3Status(w.status, w.e3, pol.keepE3)
    && LevelInv(w.e3, w.status.verifiedSampledAt, w.now, pol.keepE3, pol.keepE3 && pol.prompt)
  }

  ghost predicate E4Inv(pol: Policy, w: World) {
    && E4Status(w.status, w.e4)
    && LevelInv(w.e4, FullRetrievalAt(w.status), w.now, pol.stats, pol.stats && pol.prompt)
  }

  /** What each level keeps: its Jobs, its ledger, its cadence, and what the status says of it. */
  ghost predicate Inv(pol: Policy, w: World) { E2Inv(pol, w) && E3Inv(pol, w) && E4Inv(pol, w) }

  /** The part of it that is about the status. */
  ghost predicate StatusInv(pol: Policy, w: World) {
    E2Status(w.status, w.e2) && E3Status(w.status, w.e3, pol.keepE3) && E4Status(w.status, w.e4)
    && (pol.keepE3 ==> w.spec.sampledInterval.Some?)
  }

  // ----- what the write of a reconcile with credentials says about each level -----

  lemma E2StatusKept(w: World, io: ReconcileIO, plan: Plan, st': Status, lv': Level)
    requires E2Status(w.status, w.e2) && Wrote(w.spec, w.status, io.probe, plan, io.end, st')
    requires plan.honored == Honored(w)
    requires lv'.ingests == Record(w.e2, plan.o2.completed, plan.o2.counts).ingests
    requires plan.o2.completed == Unrecorded(plan.o2.completed, w.status.verifiedValidationAt)
    ensures E2Status(st', lv')
    ensures st'.verifiedValidationAt == Advance(w.status.verifiedValidationAt, plan.o2.completed)
  {
    WriteE2(w.spec, w.status, io.probe, plan, io.end, st', w.e2, lv');
    if plan.honored.Some? {
      StoredBounds(plan.honored.value);
    }
  }

  lemma E4StatusKept(w: World, io: ReconcileIO, plan: Plan, st': Status, lv': Level)
    requires E4Status(w.status, w.e4) && Wrote(w.spec, w.status, io.probe, plan, io.end, st')
    requires plan.honoredE4 == HonoredE4(w)
    requires lv'.ingests == Record(w.e4, plan.o4.completed, plan.o4.counts).ingests && w.e4.spawns <= lv'.spawns
    requires plan.o4.completed == Unrecorded(plan.o4.completed, FullRetrievalAt(w.status))
    requires plan.o4.completed.Some? ==> JobFits(w.e4, plan.o4.completed.value)
    ensures E4Status(st', lv')
    ensures plan.o4.completed.None? || plan.o4.counts.Some? ==>
              FullRetrievalAt(st') == Advance(FullRetrievalAt(w.status), plan.o4.completed)
  {
    WriteE4(w.spec, w.status, io.probe, plan, io.end, st', w.e4, lv');
    if plan.honoredE4.Some? {
      StoredBounds(plan.honoredE4.value);
    }
    RetrievalStays(w.status, w.e4, w.e4.(spawns := lv'.spawns));
    if plan.o4.completed.Some? {
      assert lv'.ingests[..|lv'.ingests| - 1] == w.e4.ingests;
    }
  }

  lemma RetrievalStays(st: Status, lv: Level, lv': Level)
    requires RetrievalKept(st, lv) && lv'.ingests == lv.ingests && lv.spawns <= lv'.spawns
    ensures RetrievalKept(st, lv')
  {
    LastCountedLater(lv.ingests, lv.spawns, lv'.spawns);
  }

  // ----- a reconcile with credentials, level by level -----

  /** A reconcile with credentials told without the rollups: which Jobs, which leaves, which fields. */
  ghost predicate Effect(w: World, io: ReconcileIO, w': World) {
    var plan := MakePlan(w, io);
    && w' == w.(now := io.end, firstMiss := None, forceE4 := if plan.clearE4 then None else w.forceE4,
                status := w'.status, e2 := w'.e2, e3 := w'.e3, e4 := w'.e4)
    && (!io.patchOk ==>
          w'.status == w.status && w'.e2 == plan.o2.after && w'.e3 == plan.o3.after && w'.e4 == plan.o4.after)
    && (io.patchOk ==>
          && Wrote(w.spec, w.status, io.probe, plan, io.end, w'.status)
          && w'.e2 == Recorded(plan.o2)
          && w'.e3 == Recorded(plan.o3)
          && w'.e4 == Recorded(plan.o4))
  }

  lemma ResolvedEffect(w: World, io: ReconcileIO)
    ensures Effect(w, io, ReconcileResolved(w, io))
  {
    StatusAfterWrote(w.spec, w.status, io.probe, MakePlan(w, io), io.end);
  }

  /** What a reconcile does to one level, whichever it is. */
  lemma PlanOfLevel(w: World, io: ReconcileIO, d: Depth)
    ensures var lv := LevelOf(w, d);
            OutOf(MakePlan(w, io), d) ==
              if Reads(w, io, d) then Process(lv, MarkerOf(w, d), WantedAt(w, d, IOOf(io, d).at), IOOf(io, d))
              else Skipped(lv)
  {
  }

  lemma EffectOnLevel(w: World, io: ReconcileIO, w': World, d: Depth)
    requires Effect(w, io, w')
    ensures var out := OutOf(MakePlan(w, io), d);
            LevelOf(w', d) == if io.patchOk then Recorded(out) else out.after
  {
  }

  /** A reconcile without credentials: at most the failure is written. */
  ghost predicate FailEffect(w: World, w': World) {
    && w' == w.(firstMiss := w'.firstMiss, credentialFailures := w'.credentialFailures, status := w'.status)
    && (w'.status == w.status || WroteFailure(w.spec, w.status, w.now, w'.status))
  }

  ghost predicate StepEffect(w: World, a: Action, w': World) {
    if !a.Run? then w' == Environment(w, a)
    else if a.creds == Resolved then Effect(w, a.io, w')
    else FailEffect(w, w')
  }

  lemma StepTakesEffect(w: World, a: Action)
    ensures StepEffect(w, a, Step(w, a))
  {
    if a.Run? {
      if a.creds == Resolved {
        ResolvedEffect(w, a.io);
      } else {
        CredentialFailureWrote(w.spec, w.status, w.now);
      }
    }
  }

  /** Only Jobs later than the marker are ingested, and the ingest list is all they change there. */
  lemma ProcessReports(lv: Level, marker: Option<Time>, want: Option<Cause>, io: LevelIO)
    requires io.listOk ==> ValidPick(lv.jobs, io.pick)
    ensures var out := Process(lv, marker, want, io);
            && out.completed == Unrecorded(out.completed, marker)
            && (out.completed.Some? ==> out.completed.value in lv.jobs && out.completed.value.Done())
            && out.after.ingests == lv.ingests && lv.spawns <= out.after.spawns
            && Recorded(out).ingests == Record(lv, out.completed, out.counts).ingests
            && Recorded(out).spawns == out.after.spawns
  {
  }

  lemma WantsAreJustified(w: World, at: Time)
    ensures E2Wanted(w, at).Some? ==> Justified(E2Wanted(w, at).value, w.status.verifiedValidationAt, at)
    ensures E3Wanted(w, at).Some? ==> Justified(E3Wanted(w, at).value, w.status.verifiedSampledAt, at)
    ensures E4Wanted(w, at).Some? ==> Justified(E4Wanted(w, at).value, FullRetrievalAt(w.status), at)
  {
  }

  /** A level that was processed or skipped, with everything later steps use about it. */
  lemma LevelKept(lv: Level, marker: Option<Time>, want: Option<Cause>, io: LevelIO, out: LevelOut,
                  now: Time, end: Time, ledger: bool, cadence: bool)
    requires LevelInv(lv, marker, now, ledger, cadence) && now <= io.at <= end
    requires io.listOk ==> ValidPick(lv.jobs, io.pick)
    requires want.Some? ==> Justified(want.value, marker, io.at)
    requires out == Skipped(lv) || out == Process(lv, marker, want, io)
    ensures LevelInv(Recorded(out), Advance(marker, out.completed), end, ledger, cadence)
    ensures LevelInv(out.after, marker, end, ledger, false)
    ensures out.completed == Unrecorded(out.completed, marker)
    ensures out.completed.Some? ==>
              out.completed.value in lv.jobs && out.completed.value.Done() && JobFits(lv, out.completed.value)
    ensures Recorded(out).ingests == Record(lv, out.completed, out.counts).ingests
    ensures out.after.ingests == lv.ingests && lv.spawns <= out.after.spawns == Recorded(out).spawns
  {
    ProcessReports(lv, marker, want, io);
    ProcessKeepsLevel(lv, marker, want, io, now, end, ledger, cadence);
    LevelInvLater(lv, marker, now, end, ledger, cadence);
    LevelInvLater(lv, marker, now, end, ledger, false);
  }

  /** A level's Jobs, ledger and cadence after a reconcile with credentials. */
  lemma ResolvedLevel(w: World, io: ReconcileIO, w': World, d: Depth, ledger: bool, cadence: bool)
    requires LevelInv(LevelOf(w, d), MarkerOf(w, d), w.now, ledger, cadence)
    requires Enabled(w, Run(Resolved, io)) && Effect(w, io, w')
    ensures var completed := OutOf(MakePlan(w, io), d).completed;
            if io.patchOk then LevelInv(LevelOf(w', d), Advance(MarkerOf(w, d), completed), io.end, ledger, cadence)
            else LevelInv(LevelOf(w', d), MarkerOf(w, d), io.end, ledger, false)
  {
    var lv, marker, lio := LevelOf(w, d), MarkerOf(w, d), IOOf(io, d);
    var want, out := WantedAt(w, d, lio.at), OutOf(MakePlan(w, io), d);
    assert out == Skipped(lv) || out == Process(lv, marker, want, lio) by {
      PlanOfLevel(w, io, d);
    }
    assert want.Some? ==> Justified(want.value, marker, lio.at) by {
      WantsAreJustified(w, lio.at);
    }
    LevelKept(lv, marker, want, lio, out, w.now, io.end, ledger, cadence);
    assert LevelOf(w', d) == if io.patchOk then Recorded(out) else out.after by {
      EffectOnLevel(w, io, w', d);
    }
  }

  /** What a level reports is later than its marker, and is all that its history gains. */
  lemma ResolvedReports(w: World, io: ReconcileIO, w': World, d: Depth)
    requires Enabled(w, Run(Resolved, io)) && Effect(w, io, w')
    ensures var lv, lv' := LevelOf(w, d), LevelOf(w', d); var completed := OutOf(MakePlan(w, io), d).completed;
            && completed == Unrecorded(completed, MarkerOf(w, d))
            && (completed.Some? ==> completed.value in lv.jobs && completed.value.Done())
            && lv.spawns <= lv'.spawns
            && lv'.ingests ==
               (if io.patchOk then Record(lv, completed, OutOf(MakePlan(w, io), d).counts).ingests else lv.ingests)
  {
    PlanOfLevel(w, io, d);
    EffectOnLevel(w, io, w', d);
    ProcessReports(LevelOf(w, d), MarkerOf(w, d), WantedAt(w, d, IOOf(io, d).at), IOOf(io, d));
  }

  lemma ResolvedE2Status(w: World, io: ReconcileIO, w': World)
    requires E2Status(w.status, w.e2) && Enabled(w, Run(Resolved, io)) && Effect(w, io, w')
    ensures E2Status(w'.status, w'.e2)
    ensures io.patchOk ==>
              MarkerOf(w', E2) == Advance(MarkerOf(w, E2), MakePlan(w, io).o2.completed)
  {
    ResolvedReports(w, io, w', E2);
    if io.patchOk {
      E2StatusKept(w, io, MakePlan(w, io), w'.status, w'.e2);
    }
  }

  lemma ResolvedE2(pol: Policy, w: World, io: ReconcileIO, w': World)
    requires E2Inv(pol, w) && Enabled(w, Run(Resolved, io)) && Obeys(pol, w, Run(Resolved, io)) && Effect(w, io, w')
    ensures E2Inv(pol, w')
  {
    ResolvedE2Status(w, io, w');
    ResolvedLevel(w, io, w', E2, true, pol.prompt);
  }

  lemma E3StatusKept(w: World, io: ReconcileIO, plan: Plan, st': Status, lv': Level)
    requires E3Status(w.status, w.e3, true) && w.spec.sampledInterval.Some?
    requires Wrote(w.spec, w.status, io.probe, plan, io.end, st') && plan.honored == Honored(w)
    requires lv'.ingests == Record(w.e3, plan.o3.completed, plan.o3.counts).ingests
    requires plan.o3.completed == Unrecorded(plan.o3.completed, w.status.verifiedSampledAt)
    ensures E3Status(st', lv', true)
    ensures st'.verifiedSampledAt == Advance(w.status.verifiedSampledAt, plan.o3.completed)
  {
    WriteE3(w.spec, w.status, io.probe, plan, io.end, st', w.e3, lv');
    if plan.honored.Some? {
      StoredBounds(plan.honored.value);
    }
  }

  lemma ResolvedE3Status(w: World, io: ReconcileIO, w': World, keep: bool)
    requires E3Status(w.status, w.e3, keep) && (keep ==> w.spec.sampledInterval.Some?)
    requires Enabled(w, Run(Resolved, io)) && Effect(w, io, w')
    ensures E3Status(w'.status, w'.e3, keep)
    ensures io.patchOk && keep ==>
              MarkerOf(w', E3) == Advance(MarkerOf(w, E3), MakePlan(w, io).o3.completed)
  {
    ResolvedReports(w, io, w', E3);
    if io.patchOk {
      if keep {
        E3StatusKept(w, io, MakePlan(w, io), w'.status, w'.e3);
      } else {
        WriteE3(w.spec, w.status, io.probe, MakePlan(w, io), io.end, w'.status, w.e3, w'.e3);
      }
    }
  }

  lemma ResolvedE3(pol: Policy, w: World, io: ReconcileIO, w': World)
    requires E3Inv(pol, w) && Enabled(w, Run(Resolved, io)) && Obeys(pol, w, Run(Resolved, io)) && Effect(w, io, w')
    ensures E3Inv(pol, w')
  {
    ResolvedE3Status(w, io, w', pol.keepE3);
    ResolvedLevel(w, io, w', E3, pol.keepE3, pol.keepE3 && pol.prompt);
  }

  lemma ResolvedE4Status(w: World, io: ReconcileIO, w': World)
    requires E4Status(w.status, w.e4) && (forall j :: j in w.e4.jobs ==> JobFits(w.e4, j))
    requires Enabled(w, Run(Resolved, io)) && Effect(w, io, w')
    ensures E4Status(w'.status, w'.e4)
    ensures io.patchOk && (MakePlan(w, io).o4.completed.Some? ==> MakePlan(w, io).o4.counts.Some?) ==>
              MarkerOf(w', E4) == Advance(MarkerOf(w, E4), MakePlan(w, io).o4.completed)
  {
    ResolvedReports(w, io, w', E4);
    if io.patchOk {
      E4StatusKept(w, io, MakePlan(w, io), w'.status, w'.e4);
    } else {
      RetrievalStays(w.status, w.e4, w'.e4);
    }
  }

  lemma CountsTaken(w: World, io: ReconcileIO)
    ensures var o4 := MakePlan(w, io).o4; o4.completed.Some? ==> o4.counts == io.e4.log
  {
  }

  lemma ResolvedE4(pol: Policy, w: World, io: ReconcileIO, w': World)
    requires E4Inv(pol, w) && Enabled(w, Run(Resolved, io)) && Obeys(pol, w, Run(Resolved, io)) && Effect(w, io, w')
    ensures E4Inv(pol, w')
  {
    assert E4Status(w'.status, w'.e4) && (pol.stats && io.patchOk ==>
             MarkerOf(w', E4) == Advance(MarkerOf(w, E4), MakePlan(w, io).o4.completed)) by {
      CountsTaken(w, io);
      ResolvedE4Status(w, io, w');
    }
    ResolvedLevel(w, io, w', E4, pol.stats, pol.stats && pol.prompt);
  }

  lemma ResolvedKeepsInv(pol: Policy, w: World, io: ReconcileIO, w': World)
    requires Inv(pol, w) && Enabled(w, Run(Resolved, io)) && Obeys(pol, w, Run(Resolved, io)) && Effect(w, io, w')
    ensures Inv(pol, w')
  {
    ResolvedE2(pol, w, io, w');
    ResolvedE3(pol, w, io, w');
    ResolvedE4(pol, w, io, w');
  }

  // ----- a reconcile without credentials -----

  lemma FailedKeepsInv(pol: Policy, w: World, w': World)
    requires Inv(pol, w) && FailEffect(w, w')
    ensures Inv(pol, w')
  {
    if w'.status != w.status {
      CredentialWrite(w.spec, w.status, w.now, w'.status, MetadataValid, w.e2);
      CredentialWrite(w.spec, w.status, w.now, w'.status, SampledIntegrityValid, w.e3);
      CredentialWrite(w.spec, w.status, w.now, w'.status, FullRetrievalCompleted, w.e4);
    }
  }

  // ----- what happens around the controller -----

  /** A level whose Jobs changed, and what the status says of it. */
  lemma JobsChanged(pol: Policy, w: World, d: Depth, lv: Level, w': World)
    requires Inv(pol, w) && w' == WithLevel(w, d, lv)
    requires lv.spawns == LevelOf(w, d).spawns && lv.ingests == LevelOf(w, d).ingests
    requires LevelInv(lv, MarkerOf(w, d), w.now, Ledgered(pol, d), Ledgered(pol, d) && pol.prompt)
    ensures Inv(pol, w')
  {
    match d
    case E2 =>
    case E3 =>
    case E4 => RetrievalStays(w.status, w.e4, lv);
  }

  /** The levels whose timestamp is that of their last ingest. */
  predicate Ledgered(pol: Policy, d: Depth) {
    match d case E2 => true case E3 => pol.keepE3 case E4 => pol.stats
  }

  lemma InvOfLevel(pol: Policy, w: World, d: Depth)
    requires Inv(pol, w)
    ensures LevelInv(LevelOf(w, d), MarkerOf(w, d), w.now, Ledgered(pol, d), Ledgered(pol, d) && pol.prompt)
  {
  }

  lemma FinishKeepsInv(pol: Policy, w: World, a: Action, w': World)
    requires Inv(pol, w) && Enabled(w, a) && Obeys(pol, w, a) && a.Finish? && w' == Environment(w, a)
    ensures Inv(pol, w')
  {
    var j' := Finished(a.job, a.ok, a.completion);
    var lv := LevelOf(w, a.depth);
    InvOfLevel(pol, w, a.depth);
    FinishKeepsLevel(lv, MarkerOf(w, a.depth), w.now, Ledgered(pol, a.depth), Ledgered(pol, a.depth) && pol.prompt,
                     a.job, j');
    JobsChanged(pol, w, a.depth, lv.(jobs := lv.jobs - {a.job} + {j'}), w');
  }

  lemma CollectKeepsInv(pol: Policy, w: World, a: Action, w': World)
    requires Inv(pol, w) && Enabled(w, a) && Obeys(pol, w, a) && a.Collect? && w' == Environment(w, a)
    ensures Inv(pol, w')
  {
    var lv := LevelOf(w, a.depth);
    InvOfLevel(pol, w, a.depth);
    CollectKeepsLevel(lv, MarkerOf(w, a.depth), w.now, Ledgered(pol, a.depth), Ledgered(pol, a.depth) && pol.prompt,
                      a.job);
    JobsChanged(pol, w, a.depth, lv.(jobs := lv.jobs - {a.job}), w');
  }

  /** Time passing, and edits that touch neither the Jobs nor the status. */
  lemma EditKeepsInv(pol: Policy, w: World, w': World)
    requires Inv(pol, w) && w.now <= w'.now && (pol.keepE3 ==> w'.spec.sampledInterval.Some?)
    requires w'.status == w.status && w'.e2 == w.e2 && w'.e3 == w.e3 && w'.e4 == w.e4
    ensures Inv(pol, w')
  {
    LevelInvLater(w.e2, w.status.verifiedValidationAt, w.now, w'.now, true, pol.prompt);
    LevelInvLater(w.e3, w.status.verifiedSampledAt, w.now, w'.now, pol.keepE3, pol.keepE3 && pol.prompt);
    LevelInvLater(w.e4, FullRetrievalAt(w.status), w.now, w'.now, pol.stats, pol.stats && pol.prompt);
  }

  // ----- every step, every run -----

  lemma EffectKeepsInv(pol: Policy, w: World, a: Action, w': World)
    requires Inv(pol, w) && Enabled(w, a) && Obeys(pol, w, a) && StepEffect(w, a, w')
    ensures Inv(pol, w')
  {
    if a.Run? {
      if a.creds == Resolved {
        ResolvedKeepsInv(pol, w, a.io, w');
      } else {
        FailedKeepsInv(pol, w, w');
      }
    } else if a.Finish? {
      FinishKeepsInv(pol, w, a, w');
    } else if a.Collect? {
      CollectKeepsInv(pol, w, a, w');
    } else {
      EditKeepsInv(pol, w, w');
    }
  }

  lemma StepKeepsInv(pol: Policy, w: World, a: Action)
    requires Inv(pol, w) && Enabled(w, a) && Obeys(pol, w, a)
    ensures Inv(pol, Step(w, a))
  {
    StepTakesEffect(w, a);
    EffectKeepsInv(pol, w, a, Step(w, a));
  }

  lemma {:induction false} RunKeepsInv(pol: Policy, w: World, acts: seq<Action>)
    requires Inv(pol, w) && ValidRun(pol, w, acts)
    ensures Inv(pol, EndOf(w, acts))
    decreases |acts|
  {
    if acts != [] {
      StepKeepsInv(pol, w, acts[0]);
      RunKeepsInv(pol, Step(w, acts[0]), acts[1..]);
    }
  }

  lemma ReachableInv(pol: Policy, w: World, acts: seq<Action>)
    requires Starts(pol, w) && ValidRun(pol, w, acts)
    ensures Inv(pol, EndOf(w, acts))
  {
    RunKeepsInv(pol, w, acts);
  }
}
