/**
 The Jobs of one validation level, and what one reconcile does with them: list, take the latest
 finished one, maybe create the next.
 */
module Jobs {
  import opened Types

  /** Why a Job was created: its interval had elapsed, or an operator's timestamp asked for it. */
  datatype Cause = Scheduled(interval: Time) | Forced(ts: Time)

  datatype Spawn = Spawn(at: Time, cause: Cause)

  /** A finished Job whose result reached the status, with the counts its log gave at that look, if any. */
  datatype Ingest = Ingest(id: nat, at: Time, ok: bool, counts: Option<Stats>)

  /**
   `jobs` is what the API server lists; `spawns` and `ingests` are the level's history, a Job's id
   being its position in `spawns`.
   */
  datatype Level = Level(jobs: set<Job>, spawns: seq<Spawn>, ingests: seq<Ingest>)

  const EMPTY_LEVEL := Level({}, [], [])

  /** AlreadyExists is reported as success although no Job is created. */
  datatype CreateOutcome = Created | AlreadyExists | CreateFailed

  /**
   What the API server answers while one level is processed; `pick` resolves ties of the sort, and `log` is what
   this look finds in the picked Job's log, which is read anew each time and may fail to be.
   */
  datatype LevelIO = LevelIO(at: Time, listOk: bool, pick: Option<Job>, log: Option<Stats>, create: CreateOutcome)

  datatype LevelOut = LevelOut(
    active: bool,
    completed: Option<Job>,
    counts: Option<Stats>,
    submitted: bool,
    after: Level)

  predicate Busy(jobs: set<Job>) { exists j :: j in jobs && !j.Done() }

  /** A finished Job no other finished Job completed after. */
  predicate IsLatest(jobs: set<Job>, j: Job) {
    j in jobs && j.Done() && forall k :: k in jobs && k.Done() ==> k.CompletedAt() <= j.CompletedAt()
  }

  predicate ValidPick(jobs: set<Job>, pick: Option<Job>) {
    if pick.Some? then IsLatest(jobs, pick.value) else forall j :: j in jobs ==> !j.Done()
  }

  /** Whatever Jobs are listed, some answer to "which finished last" fits them. */
  lemma {:induction false} PickExists(jobs: set<Job>)
    ensures exists pick :: ValidPick(jobs, pick)
  {
    if j :| j in jobs && j.Done() {
      PickExists(jobs - {j});
      var rest :| ValidPick(jobs - {j}, rest);
      var pick := if rest.Some? && j.CompletedAt() <= rest.value.CompletedAt() then rest else Some(j);
      assert forall k :: k in jobs ==> k == j || k in jobs - {j};
      assert ValidPick(jobs, pick);
    } else {
      assert ValidPick(jobs, None);
    }
  }

  predicate After(marker: Option<Time>, t: Time) { marker.Some? && t < marker.value }

  /** The picked Job, unless the status already records one that completed no earlier. */
  function Unrecorded(pick: Option<Job>, marker: Option<Time>): Option<Job> {
    if pick.Some? && (marker.None? || marker.value < pick.value.CompletedAt()) then pick else None
  }

  predicate Due(marker: Option<Time>, interval: Time, now: Time) {
    marker.None? || now - marker.value >= interval
  }

  /** Force wins over schedule where both ask for a Job. */
  function Wanted(marker: Option<Time>, interval: Option<Time>, force: Option<Time>, now: Time): Option<Cause> {
    if force.Some? then Some(Forced(force.value))
    else if interval.Some? && Due(marker, interval.value, now) then Some(Scheduled(interval.value))
    else None
  }

  function Submit(lv: Level, cause: Cause, at: Time): Level {
    lv.(jobs := lv.jobs + {Job(|lv.spawns|, Stored(at), InFlight, None, cause.Forced?)},
        spawns := lv.spawns + [Spawn(at, cause)])
  }

  /** One level of one reconcile. The spawn decision reads the marker as it was before the ingest. */
  function Process(lv: Level, marker: Option<Time>, want: Option<Cause>, io: LevelIO): LevelOut {
    if !io.listOk then Skipped(lv)
    else
      var completed := Unrecorded(io.pick, marker);
      var counts := if completed.Some? then io.log else None;
      if Busy(lv.jobs) then LevelOut(true, completed, counts, false, lv)
      else if want.None? || io.create == CreateFailed then LevelOut(false, completed, counts, false, lv)
      else LevelOut(true, completed, counts, true,
                    if io.create == Created then Submit(lv, want.value, io.at) else lv)
  }

  function Skipped(lv: Level): LevelOut { LevelOut(false, None, None, false, lv) }

  function IngestOf(j: Job, counts: Option<Stats>): Ingest {
    Ingest(j.id, j.CompletedAt(), j.phase == Succeeded, counts)
  }

  function Record(lv: Level, completed: Option<Job>, counts: Option<Stats>): Level {
    if completed.None? then lv else lv.(ingests := lv.ingests + [IngestOf(completed.value, counts)])
  }

  /** The level once its result is on record. */
  function Recorded(out: LevelOut): Level { Record(out.after, out.completed, out.counts) }

  function Advance(marker: Option<Time>, completed: Option<Job>): Option<Time> {
    if completed.Some? then Some(completed.value.CompletedAt()) else marker
  }

  // ----- the loops over a Job list -----

  datatype JobCondKind = Complete | FailedCond | OtherCond
  datatype JobCond = JobCond(kind: JobCondKind, holds: bool)

  predicate Claims(conds: seq<JobCond>, kind: JobCondKind) { JobCond(kind, true) in conds }

  /** The phase a Job's conditions stand for; completion is looked at first. */
  function PhaseOf(conds: seq<JobCond>): Phase {
    if Claims(conds, Complete) then Succeeded else if Claims(conds, FailedCond) then Failed else InFlight
  }

  /** In flight is exactly neither complete nor failed, whatever else the Job reports. */
  method JobInFlight(conds: seq<JobCond>) returns (r: bool)
    ensures r <==> PhaseOf(conds) == InFlight
  {
    for i := 0 to |conds|
      invariant !Claims(conds[..i], Complete) && !Claims(conds[..i], FailedCond)
    {
      if !conds[i].holds {
        continue;
      }
      if conds[i].kind == Complete || conds[i].kind == FailedCond {
        assert conds[i] == JobCond(conds[i].kind, true);
        return false;
      }
    }
    assert conds[..|conds|] == conds;
    return true;
  }

  /** Some condition of the kind holds: a Job that succeeded, or one that failed. */
  method JobReports(conds: seq<JobCond>, kind: JobCondKind) returns (r: bool)
    ensures r <==> Claims(conds, kind)
    ensures kind == Complete ==> (r <==> PhaseOf(conds) == Succeeded)
  {
    for i := 0 to |conds|
      invariant !Claims(conds[..i], kind)
    {
      if conds[i].kind == kind && conds[i].holds {
        assert conds[i] == JobCond(kind, true);
        return true;
      }
    }
    assert conds[..|conds|] == conds;
    return false;
  }

  ghost predicate Lists(listing: seq<Job>, jobs: set<Job>) {
    forall j :: j in listing <==> j in jobs
  }

  method FirstActiveJob(listing: seq<Job>) returns (r: Option<Job>)
    ensures forall jobs :: Lists(listing, jobs) ==> (r.Some? <==> Busy(jobs))
    ensures r.Some? ==> exists i :: 0 <= i < |listing| && listing[i] == r.value && !r.value.Done()
                                   && forall k :: 0 <= k < i ==> listing[k].Done()
  {
    for i := 0 to |listing|
      invariant forall k :: 0 <= k < i ==> listing[k].Done()
    {
      if !listing[i].Done() {
        assert listing[i] in listing;
        return Some(listing[i]);
      }
    }
    return None;
  }

  predicate NewestFirst(s: seq<Job>) {
    forall i, k :: 0 <= i < k < |s| ==> s[k].CompletedAt() <= s[i].CompletedAt()
  }

  /** Filter the finished Jobs, sort them newest first, take the head. */
  method PickLatestCompletedJob(listing: seq<Job>) returns (r: Option<Job>)
    ensures forall jobs :: Lists(listing, jobs) ==> ValidPick(jobs, r)
  {
    var done: seq<Job> := [];
    for i := 0 to |listing|
      invariant forall j :: j in done <==> j in listing[..i] && j.Done()
    {
      assert listing[..i + 1] == listing[..i] + [listing[i]];
      if listing[i].Done() {
        done := done + [listing[i]];
      }
    }
    assert listing[..|listing|] == listing;
    if done == [] {
      return None;
    }
    var sorted := SortNewestFirst(done);
    assert sorted != [] by {
      assert done[0] in multiset(done);
      assert multiset(sorted) != multiset([]);
    }
    forall j ensures j in sorted <==> j in done {
      assert j in multiset(sorted) <==> j in multiset(done);
    }
    assert sorted[0] in sorted;
    return Some(sorted[0]);
  }

  function InsertNewest(j: Job, s: seq<Job>): seq<Job> {
    if s == [] || s[0].CompletedAt() < j.CompletedAt() then [j] + s else [s[0]] + InsertNewest(j, s[1..])
  }

  lemma {:induction false} InsertKeepsMembers(j: Job, s: seq<Job>)
    ensures multiset(InsertNewest(j, s)) == multiset(s) + multiset{j}
  {
    if s != [] && s[0].CompletedAt() >= j.CompletedAt() {
      assert s == [s[0]] + s[1..];
      InsertKeepsMembers(j, s[1..]);
    }
  }

  predicate NoneAfter(s: seq<Job>, t: Time) { forall k :: 0 <= k < |s| ==> s[k].CompletedAt() <= t }

  lemma PrependKeepsOrder(j: Job, s: seq<Job>)
    requires NewestFirst(s) && NoneAfter(s, j.CompletedAt())
    ensures NewestFirst([j] + s)
  {
  }

  lemma {:induction false} InsertKeepsOrder(j: Job, s: seq<Job>, t: Time)
    requires NewestFirst(s) && NoneAfter(s, t) && j.CompletedAt() <= t
    ensures NewestFirst(InsertNewest(j, s)) && NoneAfter(InsertNewest(j, s), t)
    decreases |s|
  {
    if s == [] || s[0].CompletedAt() < j.CompletedAt() {
      assert NoneAfter(s, j.CompletedAt());
      PrependKeepsOrder(j, s);
    } else {
      assert NoneAfter(s[1..], s[0].CompletedAt());
      InsertKeepsOrder(j, s[1..], s[0].CompletedAt());
      PrependKeepsOrder(s[0], InsertNewest(j, s[1..]));
    }
  }

  method SortNewestFirst(s: seq<Job>) returns (r: seq<Job>)
    ensures NewestFirst(r) && multiset(r) == multiset(s)
  {
    r := [];
    for i := 0 to |s|
      invariant NewestFirst(r) && multiset(r) == multiset(s[..i])
    {
      ghost var at := s[i].CompletedAt();
      ghost var t := if r != [] && at < r[0].CompletedAt() then r[0].CompletedAt() else at;
      InsertKeepsOrder(s[i], r, t);
      InsertKeepsMembers(s[i], r);
      assert s[..i + 1] == s[..i] + [s[i]];
      r := InsertNewest(s[i], r);
    }
    assert s[..|s|] == s;
  }
}
