/**
 Which finished Jobs reach the status: a result is taken at the first recorded look at its level, or never.
 */
module Results {
  import opened Types
  import opened ConditionSet
  import opened Jobs
  import opened Reconcile
  import opened Runs
  import opened LevelInvariants
  import opened Invariants
  import opened Guarantees

  // ----- one look at a list of Jobs -----

  /** No other finished Job completed as late. */
  predicate StrictlyLatest(jobs: set<Job>, j: Job) {
    j in jobs && j.Done() && forall k :: k in jobs && k.Done() && k != j ==> k.CompletedAt() < j.CompletedAt()
  }

  /**
   The sort leaves ties open. Whichever way they fall, a listed Job is taken exactly if it completed after the
   marker and strictly last; it can be taken exactly if it completed after the marker and no other did later.
   */
  lemma TakenExactly(jobs: set<Job>, marker: Option<Time>, j: Job)
    ensures (forall pick :: ValidPick(jobs, pick) ==> Unrecorded(pick, marker) == Some(j)) <==>
            StrictlyLatest(jobs, j) && !Passed(marker, j)
    ensures (exists pick :: ValidPick(jobs, pick) && Unrecorded(pick, marker) == Some(j)) <==>
            IsLatest(jobs, j) && !Passed(marker, j)
  {
    PickExists(jobs);
    var some :| ValidPick(jobs, some);
    if forall pick :: ValidPick(jobs, pick) ==> Unrecorded(pick, marker) == Some(j) {
      assert Unrecorded(some, marker) == Some(j);
      forall k | k in jobs && k.Done() && k != j ensures k.CompletedAt() < j.CompletedAt() {
        if k.CompletedAt() >= j.CompletedAt() {
          assert ValidPick(jobs, Some(k));
        }
      }
    }
    if IsLatest(jobs, j) && !Passed(marker, j) {
      assert ValidPick(jobs, Some(j));
    }
  }

  /** Where all but the newest are behind the marker, the newest is taken exactly if it is not. */
  lemma NewestTakenExactly(lv: Level, marker: Option<Time>, want: Option<Cause>, io: LevelIO, j: Job, now: Time)
    requires JobsInv(lv, now) && CadenceInv(lv, marker) && io.listOk && ValidPick(lv.jobs, io.pick)
    requires j in lv.jobs && j.Done() && j.id == |lv.spawns| - 1
    ensures Process(lv, marker, want, io).completed == if Passed(marker, j) then None else Some(j)
  {
    forall k | k in lv.jobs && k != j ensures Passed(marker, k) {
      assert JobFits(lv, k) && k.id != j.id;
    }
    assert j.CompletedAt() <= io.pick.value.CompletedAt();
  }

  // ----- every run -----

  function ConditionOf(d: Depth): CondType {
    match d case E2 => MetadataValid case E3 => SampledIntegrityValid case E4 => FullRetrievalCompleted
  }

  function FailureOf(d: Depth): Reason {
    match d case E2 => MetadataValidationFailed case E3 => SampledIntegrityFailed case E4 => FullRetrievalFailed
  }

  /** A result taken from a Job with its counts becomes the level's condition in the same write. */
  lemma TakenDecides(w: World, io: ReconcileIO, w': World, d: Depth, j: Job)
    requires Effect(w, io, w') && io.patchOk && Reads(w, io, d) && (d == E4 ==> io.e4.log.Some?)
    requires OutOf(MakePlan(w, io), d).completed == Some(j)
    ensures Find(w'.status.conditions, ConditionOf(d)) == Some(Verdict(j, FailureOf(d)))
  {
    assert ConditionOf(d) in LEAF_TYPES;
  }

  /** The newest Job's result is on record after the reconcile, and decides the condition. */
  predicate TookResult(w: World, io: ReconcileIO, w': World, d: Depth, j: Job) {
    && LevelOf(w', d).ingests == LevelOf(w, d).ingests + [IngestOf(j, IOOf(io, d).log)]
    && Find(w'.status.conditions, ConditionOf(d)) == Some(Verdict(j, FailureOf(d)))
  }

  lemma EffectTakesNewest(w: World, io: ReconcileIO, w': World, d: Depth, j: Job)
    requires JobsInv(LevelOf(w, d), w.now) && CadenceInv(LevelOf(w, d), MarkerOf(w, d))
    requires d == E4 && MakePlan(w, io).o4.completed.Some? ==> io.e4.log.Some?
    requires LevelAnswers(LevelOf(w, d), IOOf(io, d)) && Effect(w, io, w') && io.patchOk && Reads(w, io, d)
    requires j in LevelOf(w, d).jobs && j.Done() && j.id == |LevelOf(w, d).spawns| - 1
    ensures if Passed(MarkerOf(w, d), j) then LevelOf(w', d).ingests == LevelOf(w, d).ingests
            else TookResult(w, io, w', d, j)
  {
    var lv, lio := LevelOf(w, d), IOOf(io, d);
    var out := OutOf(MakePlan(w, io), d);
    assert out == Process(lv, MarkerOf(w, d), WantedAt(w, d, lio.at), lio) by {
      PlanOfLevel(w, io, d);
    }
    NewestTakenExactly(lv, MarkerOf(w, d), WantedAt(w, d, lio.at), lio, j, w.now);
    assert LevelOf(w', d) == Recorded(out) by {
      EffectOnLevel(w, io, w', d);
    }
    if !Passed(MarkerOf(w, d), j) {
      TakenDecides(w, io, w', d, j);
    }
  }

  /**
   On every run with prompt bookkeeping: when a reconcile looks at a level whose newest Job has finished, that
   Job's result is taken exactly if it completed after the timestamp on record. Otherwise nothing is taken.
   */
  lemma NewestResultSeenExactly(pol: Policy, w0: World, acts: seq<Action>, io: ReconcileIO, d: Depth, j: Job)
    requires Starts(pol, w0) && ValidRun(pol, w0, acts) && Paced(pol, d)
    requires Enabled(EndOf(w0, acts), Run(Resolved, io)) && Obeys(pol, EndOf(w0, acts), Run(Resolved, io))
    requires Reads(EndOf(w0, acts), io, d)
    requires var lv := LevelOf(EndOf(w0, acts), d); j in lv.jobs && j.Done() && j.id == |lv.spawns| - 1
    ensures var w := EndOf(w0, acts); var w' := ReconcileResolved(w, io);
            if Passed(MarkerOf(w, d), j) then LevelOf(w', d).ingests == LevelOf(w, d).ingests
            else TookResult(w, io, w', d, j)
  {
    var w := EndOf(w0, acts);
    ReachableInv(pol, w0, acts);
    InvOfLevel(pol, w, d);
    ResolvedEffect(w, io);
    EffectTakesNewest(w, io, ReconcileResolved(w, io), d, j);
  }

  // ----- a result that was passed over -----

  /** Whatever is listed under the id has finished and is behind the marker. */
  ghost predicate Gone(w: World, d: Depth, id: nat) {
    && MarkerOf(w, d).Some? && id < |LevelOf(w, d).spawns|
    && forall j :: j in LevelOf(w, d).jobs && j.id == id ==> j.Done() && Passed(MarkerOf(w, d), j)
  }

  predicate NotTakenSince(s: seq<Ingest>, s': seq<Ingest>, id: nat) {
    s <= s' && forall i :: |s| <= i < |s'| ==> s'[i].id != id
  }

  lemma ProcessKeepsGone(lv: Level, marker: Option<Time>, want: Option<Cause>, io: LevelIO, id: nat)
    requires io.listOk ==> ValidPick(lv.jobs, io.pick)
    requires id < |lv.spawns| && forall j :: j in lv.jobs && j.id == id ==> j.Done() && Passed(marker, j)
    ensures var out := Process(lv, marker, want, io);
            && id < |out.after.spawns| && out.after.ingests == lv.ingests
            && (forall j :: j in out.after.jobs && j.id == id ==> j.Done() && Passed(marker, j))
            && (out.completed.Some? ==> out.completed.value.id != id)
  {
  }

  lemma EffectKeepsGone(w: World, a: Action, w': World, d: Depth, id: nat)
    requires Enabled(w, a) && StepEffect(w, a, w') && Gone(w, d, id) && NoEarlier(MarkerOf(w, d), MarkerOf(w', d))
    ensures Gone(w', d, id) && NotTakenSince(LevelOf(w, d).ingests, LevelOf(w', d).ingests, id)
  {
    if a.Run? && a.creds == Resolved {
      RunKeepsGone(w, a.io, w', d, id);
    } else if a.Finish? && a.depth == d {
      assert a.job.id != id;
    }
  }

  lemma RunKeepsGone(w: World, io: ReconcileIO, w': World, d: Depth, id: nat)
    requires LevelAnswers(LevelOf(w, d), IOOf(io, d)) && Effect(w, io, w')
    requires Gone(w, d, id) && NoEarlier(MarkerOf(w, d), MarkerOf(w', d))
    ensures Gone(w', d, id) && NotTakenSince(LevelOf(w, d).ingests, LevelOf(w', d).ingests, id)
  {
    var lv, lio := LevelOf(w, d), IOOf(io, d);
    var out := OutOf(MakePlan(w, io), d);
    assert out == Skipped(lv) || out == Process(lv, MarkerOf(w, d), WantedAt(w, d, lio.at), lio) by {
      PlanOfLevel(w, io, d);
    }
    assert LevelOf(w', d) == if io.patchOk then Recorded(out) else out.after by {
      EffectOnLevel(w, io, w', d);
    }
    ProcessKeepsGone(lv, MarkerOf(w, d), WantedAt(w, d, lio.at), lio, id);
  }

  lemma {:induction false} GoneForGood(pol: Policy, w: World, acts: seq<Action>, d: Depth, id: nat)
    requires Inv(pol, w) && ValidRun(pol, w, acts) && Gone(w, d, id) && (d == E3 ==> pol.keepE3)
    ensures NotTakenSince(LevelOf(w, d).ingests, LevelOf(EndOf(w, acts), d).ingests, id)
    decreases |acts|
  {
    if acts != [] {
      var w1 := Step(w, acts[0]);
      StepTakesEffect(w, acts[0]);
      StepMarkers(pol, w, acts[0]);
      EffectKeepsGone(w, acts[0], w1, d, id);
      StepKeepsInv(pol, w, acts[0]);
      GoneForGood(pol, w1, acts[1..], d, id);
    }
  }

  /** On every run: a finished Job that completed no later than the timestamp on record is never ingested again. */
  lemma BehindTheMarkerIsNeverTaken(pol: Policy, w0: World, acts: seq<Action>, more: seq<Action>, d: Depth, j: Job)
    requires Starts(pol, w0) && ValidRun(pol, w0, acts) && ValidRun(pol, EndOf(w0, acts), more)
    requires d == E3 ==> pol.keepE3
    requires var w := EndOf(w0, acts); j in LevelOf(w, d).jobs && j.Done() && Passed(MarkerOf(w, d), j)
    ensures var w := EndOf(w0, acts);
            NotTakenSince(LevelOf(w, d).ingests, LevelOf(EndOf(w, more), d).ingests, j.id)
  {
    var w := EndOf(w0, acts);
    ReachableInv(pol, w0, acts);
    InvOfLevel(pol, w, d);
    assert JobFits(LevelOf(w, d), j);
    GoneForGood(pol, w, more, d, j.id);
  }

  /** After a recorded look at a level, every finished Job it saw is behind the marker. */
  lemma LookPassesAll(w: World, io: ReconcileIO, w': World, d: Depth, j: Job)
    requires JobsInv(LevelOf(w, d), w.now) && LedgerInv(LevelOf(w, d), MarkerOf(w, d))
    requires LedgerInv(LevelOf(w', d), MarkerOf(w', d)) && Effect(w, io, w')
    requires LevelAnswers(LevelOf(w, d), IOOf(io, d)) && io.patchOk && Reads(w, io, d)
    requires j in LevelOf(w, d).jobs && j.Done()
    ensures Gone(w', d, j.id)
    ensures var s, s' := LevelOf(w, d).ingests, LevelOf(w', d).ingests;
            s' == s + [IngestOf(j, IOOf(io, d).log)] || NotTakenSince(s, s', j.id)
  {
    var lv, lio := LevelOf(w, d), IOOf(io, d);
    var out := Process(lv, MarkerOf(w, d), WantedAt(w, d, lio.at), lio);
    assert LevelOf(w', d) == Recorded(out) by {
      PlanOfLevel(w, io, d);
      EffectOnLevel(w, io, w', d);
    }
    assert JobFits(lv, j);
    assert Passed(MarkerOf(w', d), j) by {
      LookMovesMarker(lv, MarkerOf(w, d), LevelOf(w', d), MarkerOf(w', d), WantedAt(w, d, lio.at), lio, j);
    }
    LookRecords(lv, MarkerOf(w, d), LevelOf(w', d), WantedAt(w, d, lio.at), lio, j);
  }

  lemma LookMovesMarker(lv: Level, marker: Option<Time>, lv': Level, marker': Option<Time>, want: Option<Cause>,
                        io: LevelIO, j: Job)
    requires LedgerInv(lv, marker) && LedgerInv(lv', marker') && io.listOk && ValidPick(lv.jobs, io.pick)
    requires j in lv.jobs && j.Done() && lv' == Recorded(Process(lv, marker, want, io))
    ensures Passed(marker', j)
  {
    var completed := Process(lv, marker, want, io).completed;
    assert j.CompletedAt() <= io.pick.value.CompletedAt();
    if completed.Some? {
      assert lv'.ingests[|lv.ingests|] == IngestOf(completed.value, io.log);
      assert marker' == Some(completed.value.CompletedAt());
    } else {
      assert lv'.ingests == lv.ingests;
    }
  }

  /** A look records the Job or some other one, or nothing; and it lists no other Job under its id. */
  lemma LookRecords(lv: Level, marker: Option<Time>, lv': Level, want: Option<Cause>, io: LevelIO, j: Job)
    requires io.listOk && ValidPick(lv.jobs, io.pick) && j in lv.jobs && j.id < |lv.spawns|
    requires forall k :: k in lv.jobs && k.id == j.id ==> k == j
    requires lv' == Recorded(Process(lv, marker, want, io))
    ensures j.id < |lv'.spawns| && forall k :: k in lv'.jobs && k.id == j.id ==> k == j
    ensures lv'.ingests == lv.ingests + [IngestOf(j, io.log)] || NotTakenSince(lv.ingests, lv'.ingests, j.id)
  {
  }

  lemma StillNotTaken(s: seq<Ingest>, s1: seq<Ingest>, s2: seq<Ingest>, id: nat)
    requires NotTakenSince(s1, s2, id)
    ensures NotTakenSince(s, s1, id) ==> NotTakenSince(s, s2, id)
  {
  }

  lemma SeenOrGone(pol: Policy, w: World, io: ReconcileIO, w1: World, more: seq<Action>, d: Depth, j: Job)
    requires Inv(pol, w) && Inv(pol, w1) && Effect(w, io, w1) && Ledgered(pol, d) && io.patchOk
    requires LevelAnswers(LevelOf(w, d), IOOf(io, d)) && Reads(w, io, d) && ValidRun(pol, w1, more)
    requires j in LevelOf(w, d).jobs && j.Done()
    ensures || LevelOf(w1, d).ingests == LevelOf(w, d).ingests + [IngestOf(j, IOOf(io, d).log)]
            || NotTakenSince(LevelOf(w, d).ingests, LevelOf(EndOf(w1, more), d).ingests, j.id)
  {
    var s, s1, s2 := LevelOf(w, d).ingests, LevelOf(w1, d).ingests, LevelOf(EndOf(w1, more), d).ingests;
    assert Gone(w1, d, j.id) && (s1 == s + [IngestOf(j, IOOf(io, d).log)] || NotTakenSince(s, s1, j.id)) by {
      InvOfLevel(pol, w, d);
      InvOfLevel(pol, w1, d);
      LookPassesAll(w, io, w1, d, j);
    }
    assert NotTakenSince(s1, s2, j.id) by {
      GoneForGood(pol, w1, more, d, j.id);
    }
    StillNotTaken(s, s1, s2, j.id);
  }

  /**
   On every run, prompt or not: a finished Job is ingested by the first recorded reconcile that looks at its level
   while it is listed, or by none ever after.
   */
  lemma SeenNowOrNever(pol: Policy, w0: World, acts: seq<Action>, io: ReconcileIO, more: seq<Action>, d: Depth, j: Job)
    requires Starts(pol, w0) && ValidRun(pol, w0, acts) && Ledgered(pol, d) && io.patchOk
    requires Enabled(EndOf(w0, acts), Run(Resolved, io)) && Obeys(pol, EndOf(w0, acts), Run(Resolved, io))
    requires Reads(EndOf(w0, acts), io, d)
    requires j in LevelOf(EndOf(w0, acts), d).jobs && j.Done()
    requires ValidRun(pol, ReconcileResolved(EndOf(w0, acts), io), more)
    ensures var w := EndOf(w0, acts); var w1 := ReconcileResolved(w, io);
            || LevelOf(w1, d).ingests == LevelOf(w, d).ingests + [IngestOf(j, IOOf(io, d).log)]
            || NotTakenSince(LevelOf(w, d).ingests, LevelOf(EndOf(w1, more), d).ingests, j.id)
  {
    var w := EndOf(w0, acts);
    var w1 := ReconcileResolved(w, io);
    ReachableInv(pol, w0, acts);
    ResolvedEffect(w, io);
    ResolvedKeepsInv(pol, w, io, w1);
    SeenOrGone(pol, w, io, w1, more, d, j);
  }

  // ----- what E2's timestamp stands for -----

  /** When the most recent run that passed completed. */
  function LastSuccess(s: seq<Ingest>): Option<Time> {
    if s == [] then None
    else if s[|s| - 1].ok then Some(s[|s| - 1].at)
    else LastSuccess(s[..|s| - 1])
  }

  lemma {:induction false} LastSuccessIsEarlier(s: seq<Ingest>, t: Time)
    requires forall i :: 0 <= i < |s| ==> s[i].at < t
    ensures LastSuccess(s).Some? ==> LastSuccess(s).value < t
  {
    if s != [] && !s[|s| - 1].ok {
      LastSuccessIsEarlier(s[..|s| - 1], t);
    }
  }

  predicate ShowsTrue(cs: Conditions, t: CondType) { t in cs && cs[t].status == IsTrue }

  lemma SuccessExactly(st: Status, lv: Level)
    requires E2Status(st, lv) && LedgerInv(lv, st.verifiedValidationAt)
    ensures st.verifiedValidationAt == LastSuccess(lv.ingests) <==>
            st.verifiedValidationAt.None? || ShowsTrue(st.conditions, MetadataValid)
  {
    var n := |lv.ingests|;
    if n > 0 && !lv.ingests[n - 1].ok {
      LastSuccessIsEarlier(lv.ingests[..n - 1], lv.ingests[n - 1].at);
    }
  }

  /**
   On every run: E2's timestamp is the time of the last run ingested, passed or not. It is that of the most recent
   run that passed exactly if there is none yet or MetadataValid on record is True.
   */
  lemma TimestampIsLastSuccessExactly(pol: Policy, w: World, acts: seq<Action>)
    requires Starts(pol, w) && ValidRun(pol, w, acts)
    ensures var st, s := EndOf(w, acts).status, EndOf(w, acts).e2.ingests;
            && st.verifiedValidationAt == (if s == [] then None else Some(s[|s| - 1].at))
            && (st.verifiedValidationAt == LastSuccess(s) <==>
                  st.verifiedValidationAt.None? || ShowsTrue(st.conditions, MetadataValid))
  {
    ReachableInv(pol, w, acts);
    SuccessExactly(EndOf(w, acts).status, EndOf(w, acts).e2);
  }
}
