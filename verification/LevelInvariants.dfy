/**
 What every step keeps about one level, whichever of the three it is.
 */
module LevelInvariants {
  import opened Types
  import opened Jobs

  // ----- Jobs against the spawn history -----

  predicate JobFits(lv: Level, j: Job) {
    && j.id < |lv.spawns|
    && j.created == Stored(lv.spawns[j.id].at)
    && (j.manual <==> lv.spawns[j.id].cause.Forced?)
    && (j.completion.Some? ==> j.created <= j.completion.value)
    && (!j.Done() ==> j.id == |lv.spawns| - 1)
  }

  /** Only the newest Job can be in flight, and no two listed Jobs share an id. */
  ghost predicate JobsInv(lv: Level, now: Time) {
    && (forall j :: j in lv.jobs ==> JobFits(lv, j))
    && (forall j, k :: j in lv.jobs && k in lv.jobs && j.id == k.id ==> j == k)
    && (forall i :: 0 <= i < |lv.spawns| ==> lv.spawns[i].at <= now)
    && (forall i, k :: 0 <= i < k < |lv.spawns| ==> lv.spawns[i].at <= lv.spawns[k].at)
  }

  lemma AtMostOneInFlight(lv: Level, now: Time, j: Job, k: Job)
    requires JobsInv(lv, now)
    requires j in lv.jobs && k in lv.jobs && !j.Done() && !k.Done()
    ensures j == k
  {
  }

  lemma ProcessKeepsJobs(lv: Level, marker: Option<Time>, want: Option<Cause>, io: LevelIO, now: Time, end: Time)
    requires JobsInv(lv, now) && now <= io.at <= end
    ensures JobsInv(Process(lv, marker, want, io).after, end)
  {
    var out := Process(lv, marker, want, io).after;
    if out != lv {
      assert out == Submit(lv, want.value, io.at);
      forall j | j in out.jobs ensures JobFits(out, j) {
        assert j in lv.jobs ==> JobFits(lv, j);
      }
    }
  }

  lemma FinishKeepsJobs(lv: Level, now: Time, j: Job, j': Job)
    requires JobsInv(lv, now) && j in lv.jobs && JobFits(lv, j') && j'.id == j.id
    ensures JobsInv(lv.(jobs := lv.jobs - {j} + {j'}), now)
  {
    var out := lv.(jobs := lv.jobs - {j} + {j'});
    forall k | k in out.jobs ensures JobFits(out, k) {
      assert k == j' || k in lv.jobs;
    }
  }

  // ----- the ledger: each Job is ingested at most once -----

  predicate Increasing(s: seq<Ingest>) { forall i, k :: 0 <= i < k < |s| ==> s[i].at < s[k].at }

  predicate DistinctIds(s: seq<Ingest>) { forall i, k :: 0 <= i < k < |s| ==> s[i].id != s[k].id }

  /** The marker is the completion time of the last ingest, and ingested Jobs never change. */
  ghost predicate LedgerInv(lv: Level, marker: Option<Time>) {
    && (lv.ingests == [] <==> marker.None?)
    && (lv.ingests != [] ==> marker == Some(lv.ingests[|lv.ingests| - 1].at))
    && Increasing(lv.ingests)
    && DistinctIds(lv.ingests)
    && (forall i, j :: 0 <= i < |lv.ingests| && j in lv.jobs && lv.ingests[i].id == j.id ==>
          j.Done() && j.CompletedAt() == lv.ingests[i].at)
    && (forall i :: 0 <= i < |lv.ingests| ==> lv.ingests[i].id < |lv.spawns|)
  }

  lemma SubmitKeepsLedger(lv: Level, marker: Option<Time>, cause: Cause, at: Time)
    requires LedgerInv(lv, marker)
    ensures LedgerInv(Submit(lv, cause, at), marker)
  {
    var out := Submit(lv, cause, at);
    forall i, j | 0 <= i < |out.ingests| && j in out.jobs && out.ingests[i].id == j.id
      ensures j.Done() && j.CompletedAt() == out.ingests[i].at
    {
      assert j.id < |lv.spawns|;
      assert j in lv.jobs;
    }
  }

  lemma RecordKeepsLedger(lv: Level, marker: Option<Time>, j: Job, counts: Option<Stats>, now: Time)
    requires JobsInv(lv, now) && LedgerInv(lv, marker)
    requires j in lv.jobs && j.Done() && (marker.None? || marker.value < j.CompletedAt())
    ensures LedgerInv(Record(lv, Some(j), counts), Some(j.CompletedAt()))
  {
    var n := |lv.ingests|;
    var out := Record(lv, Some(j), counts);
    assert JobFits(lv, j);
    forall i | 0 <= i < n ensures lv.ingests[i].at < j.CompletedAt() && lv.ingests[i].id != j.id {
      assert i < n - 1 ==> lv.ingests[i].at < lv.ingests[n - 1].at;
    }
    forall i, k | 0 <= i < |out.ingests| && k in out.jobs && out.ingests[i].id == k.id
      ensures k.Done() && k.CompletedAt() == out.ingests[i].at
    {
      if i == n {
        assert k == j;
      }
    }
  }

  lemma ProcessKeepsLedger(lv: Level, marker: Option<Time>, want: Option<Cause>, io: LevelIO, now: Time)
    requires JobsInv(lv, now) && LedgerInv(lv, marker)
    requires io.listOk ==> ValidPick(lv.jobs, io.pick)
    ensures var out := Process(lv, marker, want, io);
            LedgerInv(Recorded(out), Advance(marker, out.completed)) && LedgerInv(out.after, marker)
  {
    var out := Process(lv, marker, want, io);
    var marker' := Advance(marker, out.completed);
    var taken := Record(lv, out.completed, out.counts);
    assert LedgerInv(taken, marker') by {
      if out.completed.Some? {
        RecordKeepsLedger(lv, marker, out.completed.value, out.counts, now);
      }
    }
    if out.after == lv {
      assert Recorded(out) == taken;
    } else {
      assert out.after == Submit(lv, want.value, io.at) && Recorded(out) == Submit(taken, want.value, io.at);
      SubmitKeepsLedger(lv, marker, want.value, io.at);
      SubmitKeepsLedger(taken, marker', want.value, io.at);
    }
  }

  // ----- cadence: how soon a Job can follow the one two before it -----

  /** The reason given for a spawn holds of the marker it was decided on. */
  predicate Justified(cause: Cause, marker: Option<Time>, at: Time) {
    match cause
    case Scheduled(interval) => marker.None? || at >= marker.value + interval
    case Forced(ts) => marker.None? || marker.value <= ts
  }

  predicate Spaced(s: seq<Spawn>, k: nat)
    requires 2 <= k < |s|
  {
    match s[k].cause
    case Scheduled(interval) => s[k].at >= Stored(s[k - 2].at) + interval
    case Forced(ts) => Stored(s[k - 2].at) <= ts
  }

  predicate Covers(marker: Option<Time>, s: Spawn) { marker.Some? && Stored(s.at) <= marker.value }

  predicate Listed(lv: Level, id: nat) { exists j :: j in lv.jobs && j.id == id }

  /** The status records a result that completed no earlier. */
  predicate Passed(marker: Option<Time>, j: Job) { marker.Some? && j.CompletedAt() <= marker.value }

  /**
   All but the newest Job were created and, where still listed, completed no later than the marker; the
   newest is still listed unless it is behind the marker too.
   */
  ghost predicate CadenceInv(lv: Level, marker: Option<Time>) {
    && (forall j :: j in lv.jobs && j.id < |lv.spawns| - 1 ==> Passed(marker, j))
    && (forall k :: 0 <= k < |lv.spawns| - 1 ==> Covers(marker, lv.spawns[k]))
    && (lv.spawns != [] ==>
          var last := |lv.spawns| - 1;
          Listed(lv, last) || Covers(marker, lv.spawns[last]))
    && (forall k :: 2 <= k < |lv.spawns| ==> Spaced(lv.spawns, k))
  }

  /** Later markers cover more. */
  lemma AdvanceKeepsCadence(lv: Level, marker: Option<Time>, marker': Option<Time>)
    requires CadenceInv(lv, marker)
    requires marker.Some? ==> marker'.Some? && marker.value <= marker'.value
    ensures CadenceInv(lv, marker')
  {
  }

  lemma SubmitKeepsCadence(lv: Level, marker: Option<Time>, marker': Option<Time>, cause: Cause, at: Time)
    requires CadenceInv(lv, marker) && Justified(cause, marker, at)
    requires forall k :: 0 <= k < |lv.spawns| ==> Covers(marker', lv.spawns[k])
    requires forall j :: j in lv.jobs ==> Passed(marker', j)
    ensures CadenceInv(Submit(lv, cause, at), marker')
  {
    var n := |lv.spawns|;
    var out := Submit(lv, cause, at);
    assert Listed(out, n) by {
      assert Job(n, Stored(at), InFlight, None, cause.Forced?) in out.jobs;
    }
    forall k | 2 <= k < |out.spawns| ensures Spaced(out.spawns, k) {
      if k < n {
        assert Spaced(lv.spawns, k);
      } else {
        assert Covers(marker, lv.spawns[n - 2]);
      }
    }
  }

  /** When a level is idle, the latest finished Job moves the marker past every Job so far. */
  lemma IdleLevelIsCovered(lv: Level, marker: Option<Time>, pick: Option<Job>, now: Time)
    requires JobsInv(lv, now) && CadenceInv(lv, marker) && !Busy(lv.jobs) && ValidPick(lv.jobs, pick)
    ensures forall k :: 0 <= k < |lv.spawns| ==> Covers(Advance(marker, Unrecorded(pick, marker)), lv.spawns[k])
    ensures forall j :: j in lv.jobs ==> Passed(Advance(marker, Unrecorded(pick, marker)), j)
  {
    var n := |lv.spawns|;
    var marker' := Advance(marker, Unrecorded(pick, marker));
    forall j | j in lv.jobs ensures Passed(marker', j) {
      assert j.Done();
    }
    if n > 0 && Listed(lv, n - 1) {
      var j :| j in lv.jobs && j.id == n - 1;
      assert JobFits(lv, j) && j.Done();
      assert j.CompletedAt() <= pick.value.CompletedAt();
      assert Covers(marker', lv.spawns[n - 1]);
    }
  }

  lemma ProcessKeepsCadence(lv: Level, marker: Option<Time>, want: Option<Cause>, io: LevelIO, now: Time)
    requires JobsInv(lv, now) && CadenceInv(lv, marker)
    requires io.listOk ==> ValidPick(lv.jobs, io.pick)
    requires want.Some? ==> Justified(want.value, marker, io.at)
    ensures var out := Process(lv, marker, want, io);
            CadenceInv(out.after, Advance(marker, out.completed))
  {
    var out := Process(lv, marker, want, io);
    var marker' := Advance(marker, out.completed);
    if out.after == lv {
      AdvanceKeepsCadence(lv, marker, marker');
    } else {
      IdleLevelIsCovered(lv, marker, io.pick, now);
      SubmitKeepsCadence(lv, marker, marker', want.value, io.at);
    }
  }

  /** Finishing a Job, or collecting one the marker covers, keeps the cadence facts. */
  lemma ReplaceKeepsCadence(lv: Level, marker: Option<Time>, now: Time, j: Job, put: set<Job>)
    requires JobsInv(lv, now) && CadenceInv(lv, marker) && j in lv.jobs
    requires (exists j' :: j' in put && j'.id == j.id) || Passed(marker, j)
    requires forall j' :: j' in put ==> j'.id == |lv.spawns| - 1
    ensures CadenceInv(lv.(jobs := lv.jobs - {j} + put), marker)
  {
    var out := lv.(jobs := lv.jobs - {j} + put);
    assert JobFits(lv, j);
    if lv.spawns != [] && Listed(lv, |lv.spawns| - 1) {
      var k :| k in lv.jobs && k.id == |lv.spawns| - 1;
      if k != j {
        assert k in out.jobs;
      } else if j' :| j' in put && j'.id == j.id {
        assert j' in out.jobs;
      } else {
        assert Covers(marker, lv.spawns[j.id]);
      }
    }
  }

  // ----- the three together -----

  ghost predicate LevelInv(lv: Level, marker: Option<Time>, now: Time, ledger: bool, cadence: bool) {
    && JobsInv(lv, now)
    && (ledger ==> LedgerInv(lv, marker))
    && (cadence ==> CadenceInv(lv, marker))
  }

  /** Processing a level and recording its result keeps the facts at the advanced marker. */
  lemma ProcessKeepsLevel(lv: Level, marker: Option<Time>, want: Option<Cause>, io: LevelIO, now: Time, end: Time,
                          ledger: bool, cadence: bool)
    requires LevelInv(lv, marker, now, ledger, cadence) && now <= io.at <= end
    requires io.listOk ==> ValidPick(lv.jobs, io.pick)
    requires want.Some? ==> Justified(want.value, marker, io.at)
    ensures var out := Process(lv, marker, want, io);
            && LevelInv(Recorded(out), Advance(marker, out.completed), end, ledger, cadence)
            && LevelInv(out.after, marker, end, ledger, false)
  {
    var out := Process(lv, marker, want, io);
    ProcessKeepsJobs(lv, marker, want, io, now, end);
    JobsInvIgnoresIngests(out.after, Recorded(out), end);
    if ledger {
      ProcessKeepsLedger(lv, marker, want, io, now);
    }
    if cadence {
      ProcessKeepsCadence(lv, marker, want, io, now);
      CadenceIgnoresIngests(out.after, Recorded(out), Advance(marker, out.completed));
    }
  }

  lemma JobsInvIgnoresIngests(lv: Level, lv': Level, now: Time)
    requires JobsInv(lv, now) && lv'.jobs == lv.jobs && lv'.spawns == lv.spawns
    ensures JobsInv(lv', now)
  {
    forall j | j in lv'.jobs ensures JobFits(lv', j) {
      assert JobFits(lv, j);
    }
  }

  lemma CadenceIgnoresIngests(lv: Level, lv': Level, marker: Option<Time>)
    requires CadenceInv(lv, marker) && lv'.jobs == lv.jobs && lv'.spawns == lv.spawns
    ensures CadenceInv(lv', marker)
  {
    assert forall id :: Listed(lv, id) <==> Listed(lv', id);
  }

  /** Time passing changes nothing. */
  lemma LevelInvLater(lv: Level, marker: Option<Time>, now: Time, end: Time, ledger: bool, cadence: bool)
    requires LevelInv(lv, marker, now, ledger, cadence) && now <= end
    ensures LevelInv(lv, marker, end, ledger, cadence)
  {
    forall j | j in lv.jobs ensures JobFits(lv, j) {
    }
  }

  lemma FinishKeepsLevel(lv: Level, marker: Option<Time>, now: Time, ledger: bool, cadence: bool, j: Job, j': Job)
    requires LevelInv(lv, marker, now, ledger, cadence)
    requires j in lv.jobs && !j.Done() && j'.Done()
    requires j' == j.(phase := j'.phase, completion := j'.completion)
    requires j'.completion.Some? ==> j.created <= j'.completion.value
    ensures LevelInv(lv.(jobs := lv.jobs - {j} + {j'}), marker, now, ledger, cadence)
  {
    assert JobFits(lv, j);
    FinishKeepsJobs(lv, now, j, j');
    if ledger {
      FinishKeepsLedger(lv, marker, j, j');
    }
    if cadence {
      ReplaceKeepsCadence(lv, marker, now, j, {j'});
    }
  }

  lemma FinishKeepsLedger(lv: Level, marker: Option<Time>, j: Job, j': Job)
    requires LedgerInv(lv, marker) && j in lv.jobs && !j.Done() && j'.id == j.id
    ensures LedgerInv(lv.(jobs := lv.jobs - {j} + {j'}), marker)
  {
    var out := lv.(jobs := lv.jobs - {j} + {j'});
    forall i, k | 0 <= i < |out.ingests| && k in out.jobs && out.ingests[i].id == k.id
      ensures k.Done() && k.CompletedAt() == out.ingests[i].at
    {
      assert lv.ingests[i].id != j.id;
      assert k in lv.jobs;
    }
  }

  lemma CollectKeepsLevel(lv: Level, marker: Option<Time>, now: Time, ledger: bool, cadence: bool, j: Job)
    requires LevelInv(lv, marker, now, ledger, cadence)
    requires j in lv.jobs && (cadence ==> Passed(marker, j))
    ensures LevelInv(lv.(jobs := lv.jobs - {j}), marker, now, ledger, cadence)
  {
    var out := lv.(jobs := lv.jobs - {j});
    forall k | k in out.jobs ensures JobFits(out, k) {
      assert JobFits(lv, k);
    }
    if cadence {
      ReplaceKeepsCadence(lv, marker, now, j, {});
      assert lv.jobs - {j} + {} == lv.jobs - {j};
    }
  }
}
