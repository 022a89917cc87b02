/** One claim-execute-finish turn of a worker on the tables, and what it comes to.

    What the executed plan does is an input: each turn takes a `Tick` with the clock readings and whether
    the execution succeeded. */
module CommandTurn {
  import opened Options
  import opened CommandRows

  /** One iteration: the clock at the loop head, at the claim, at each heartbeat, at the finish and after the
      turn, and whether the execution succeeded. */
  datatype Tick = Tick(checkAt: Time, claimAt: Time, beats: seq<Time>, finishAt: Time, afterAt: Time, ok: bool)

  /** The first activity the claim left running. */
  function FirstRunnable(acts: seq<ActivityRow>): (r: Option<nat>)
    ensures r.None? <==> forall k | 0 <= k < |acts| :: acts[k].status != ActRunning
    ensures r.Some? ==> r.value < |acts| && acts[r.value].status == ActRunning
                        && forall k | 0 <= k < r.value :: acts[k].status != ActRunning
  {
    if acts == [] then None
    else if acts[0].status == ActRunning then Some(0)
    else
      var rest := FirstRunnable(acts[1..]);
      assert forall k | 1 <= k < |acts| :: acts[k] == acts[1..][k - 1];
      if rest.None? then None else Some(rest.value + 1)
  }

  /** The two finish calls that end a round. */
  function Report(db: Db, id: CommandId, k: nat, tick: Tick): (r: Db)
    requires WellFormed(db)
    ensures WellFormed(r)
  {
    FinishCommandDb(FinishActivityDb(db, id, k, if tick.ok then ActCompleted else ActFailed, tick.finishAt),
                    id, if tick.ok then Completed else Failed)
  }

  /** The heartbeats sent while the plan is executed. */
  function Beaten(db: Db, id: CommandId, worker: WorkerId, leaseMs: int, beats: seq<Time>): (r: Db)
    requires WellFormed(db)
    ensures WellFormed(r)
    ensures r.commands.Keys == db.commands.Keys
    ensures id in db.commands ==> |r.activities[id]| == |db.activities[id]|
  {
    if beats == [] then db
    else ExtendDb(Beaten(db, id, worker, leaseMs, beats[..|beats| - 1]), id, worker, beats[|beats| - 1] + leaseMs)
  }

  /** What a worker does with a command it has just claimed. */
  function Work(claimed: Db, id: CommandId, worker: WorkerId, leaseMs: int, tick: Tick): (r: Db)
    requires WellFormed(claimed) && id in claimed.commands
    ensures WellFormed(r)
  {
    var k := FirstRunnable(claimed.activities[id]);
    if k.None? then FinishCommandDb(claimed, id, Failed)
    else Report(Beaten(claimed, id, worker, leaseMs, tick.beats), id, k.value, tick)
  }

  /** The tables after the claim that begins a turn. */
  function ClaimAt(db: Db, id: CommandId, worker: WorkerId, leaseMs: int, tick: Tick): (r: Db)
    requires WellFormed(db) && id in db.commands
    ensures WellFormed(r) && id in r.commands
  {
    ClaimDb(db, id, worker, tick.claimAt, tick.claimAt + leaseMs)
  }

  predicate HasOpen(acts: seq<ActivityRow>) {
    exists k :: 0 <= k < |acts| && Open(acts[k].status)
  }

  /** A claimed command without a runnable activity is failed, whatever an execution would have done. */
  predicate Succeeds(db: Db, id: CommandId, tick: Tick)
    requires WellFormed(db) && id in db.commands
  {
    tick.ok && HasOpen(db.activities[id])
  }

  lemma RunnableAfterClaim(db: Db, id: CommandId, worker: WorkerId, now: Time, until: Time)
    requires WellFormed(db) && id in db.commands
    ensures FirstRunnable(ClaimDb(db, id, worker, now, until).activities[id]).Some?
       <==> HasOpen(db.activities[id])
  {
    var acts, claimed := db.activities[id], ClaimedActivities(db.activities[id], worker, now, until);
    forall k | 0 <= k < |acts| ensures claimed[k].status == ActRunning <==> Open(acts[k].status) {
    }
  }

  /** The tables once the command has been claimed, run and finished. */
  function AfterTurn(db: Db, id: CommandId, worker: WorkerId, leaseMs: int, tick: Tick): (r: Db)
    requires WellFormed(db) && id in db.commands
    ensures WellFormed(r)
  {
    Work(ClaimAt(db, id, worker, leaseMs, tick), id, worker, leaseMs, tick)
  }

  lemma {:induction false} BeatsKeepStatuses(
      db: Db, id: CommandId, worker: WorkerId, leaseMs: int, beats: seq<Time>, k: nat)
    requires WellFormed(db) && id in db.commands && k < |db.activities[id]|
    ensures Beaten(db, id, worker, leaseMs, beats).activities[id][k].status == db.activities[id][k].status
  {
    if beats != [] {
      BeatsKeepStatuses(db, id, worker, leaseMs, beats[..|beats| - 1], k);
    }
  }

  /** The statuses that running a claimed command leaves: those of the command and of its first running activity
      say how it went, those of the other activities stay. */
  ghost predicate RanClaimed(claimed: Db, after: Db, id: CommandId, ok: bool, executed: bool)
    requires WellFormed(claimed) && id in claimed.commands
  {
    && WellFormed(after) && id in after.commands
    && after.commands[id].status == (if ok then Completed else Failed) && after.commands[id].leaseUntil.None?
    && |after.activities[id]| == |claimed.activities[id]|
    && forall k | 0 <= k < |claimed.activities[id]| ::
         after.activities[id][k].status
         == if !FirstRunning(claimed.activities[id], k) then claimed.activities[id][k].status
            else if executed then ActCompleted else ActFailed
  }

  predicate FirstRunning(acts: seq<ActivityRow>, k: int) {
    0 <= k < |acts| && acts[k].status == ActRunning && forall j | 0 <= j < k :: acts[j].status != ActRunning
  }

  lemma WorkRanClaimed(claimed: Db, id: CommandId, worker: WorkerId, leaseMs: int, tick: Tick)
    requires WellFormed(claimed) && id in claimed.commands
    ensures var ok := tick.ok && exists k :: FirstRunning(claimed.activities[id], k);
      RanClaimed(claimed, Work(claimed, id, worker, leaseMs, tick), id, ok, tick.ok)
  {
    var k := FirstRunnable(claimed.activities[id]);
    if k.Some? {
      assert FirstRunning(claimed.activities[id], k.value);
      forall j | 0 <= j < |claimed.activities[id]|
        ensures Beaten(claimed, id, worker, leaseMs, tick.beats).activities[id][j].status
             == claimed.activities[id][j].status
      {
        BeatsKeepStatuses(claimed, id, worker, leaseMs, tick.beats, j);
      }
    }
  }

  // ---------- what a turn comes to ----------

  /** The first activity that is queued or running. */
  predicate FirstOpen(acts: seq<ActivityRow>, k: int) {
    && 0 <= k < |acts| && acts[k].status in {ActQueued, ActRunning}
    && forall j | 0 <= j < k :: acts[j].status !in {ActQueued, ActRunning}
  }

  /** The clock at the last heartbeat, or at the claim if none was sent. */
  function LastBeat(claimAt: Time, beats: seq<Time>): Time {
    if beats == [] then claimAt else beats[|beats| - 1]
  }

  /** What a turn makes of one activity: the first open one gets the outcome of the execution, the other open
      ones are left running under the worker's lease, the rest as they were. */
  predicate ActivityReported(
      was: ActivityRow, now: ActivityRow, first: bool, worker: WorkerId, leaseMs: int, tick: Tick)
  {
    if first then
      && now.status == (if tick.ok then ActCompleted else ActFailed)
      && now.finishedAt == Some(tick.finishAt) && now.leaseOwner.None? && now.leaseUntil.None?
      && now.attempts == was.attempts + 1
      && now.startedAt == Some(if was.startedAt.Some? then was.startedAt.value else tick.claimAt)
    else if was.status in {ActQueued, ActRunning} then
      && now.status == ActRunning && now.finishedAt == was.finishedAt
      && now.leaseOwner == Some(worker) && now.leaseUntil == Some(LastBeat(tick.claimAt, tick.beats) + leaseMs)
      && now.attempts == was.attempts + 1
      && now.startedAt == Some(if was.startedAt.Some? then was.startedAt.value else tick.claimAt)
    else now == was
  }

  /** The command is completed if the turn succeeded and failed otherwise, without a lease; its activities
      report the execution; the turn succeeded if the execution did and there was an activity to run; nothing
      else has changed. */
  ghost predicate Reported(
      before: Db, after: Db, id: CommandId, ok: bool, worker: WorkerId, leaseMs: int, tick: Tick)
    requires WellFormed(before) && id in before.commands
  {
    && WellFormed(after) && after.commands.Keys == before.commands.Keys && after.policyLog == before.policyLog
    && (forall other | other in before.commands && other != id ::
          after.commands[other] == before.commands[other] && after.activities[other] == before.activities[other])
    && RowReported(id, before.commands[id], after.commands[id], ok)
    && (ok <==> tick.ok && exists k :: FirstOpen(before.activities[id], k))
    && ActivitiesReported(before.activities[id], after.activities[id], worker, leaseMs, tick)
  }

  predicate RowReported(id: CommandId, was: CommandRow, now: CommandRow, ok: bool) {
    && now.status == (if ok then Completed else Failed) && now.cursor == Cursor(id, now.status)
    && now.leaseOwner.None? && now.leaseUntil.None?
    && now.traceId == was.traceId && now.requestedAt == was.requestedAt
    && now.approvalClass == was.approvalClass && now.verdict == was.verdict
  }

  ghost predicate ActivitiesReported(
      was: seq<ActivityRow>, now: seq<ActivityRow>, worker: WorkerId, leaseMs: int, tick: Tick)
  {
    && |now| == |was|
    && forall k | 0 <= k < |was| :: ActivityReported(was[k], now[k], FirstOpen(was, k), worker, leaseMs, tick)
  }

  /** A heartbeat after a claim leaves what a claim with the later lease would have left. */
  lemma BeatExtends(db: Db, held: Db, id: CommandId, worker: WorkerId, now: Time, until: Time, next: Time)
    requires WellFormed(db) && id in db.commands && held == ClaimDb(db, id, worker, now, until)
    ensures WellFormed(held) && ExtendDb(held, id, worker, next) == ClaimDb(db, id, worker, now, next)
  {
    var acts := ClaimedActivities(db.activities[id], worker, now, until);
    assert ExtendedActivities(acts, worker, next) == ClaimedActivities(db.activities[id], worker, now, next);
  }

  lemma {:induction false} BeatsExtend(
      db: Db, claimed: Db, id: CommandId, worker: WorkerId, leaseMs: int, now: Time, beats: seq<Time>)
    requires WellFormed(db) && id in db.commands && claimed == ClaimDb(db, id, worker, now, now + leaseMs)
    ensures WellFormed(claimed)
    ensures Beaten(claimed, id, worker, leaseMs, beats)
         == ClaimDb(db, id, worker, now, LastBeat(now, beats) + leaseMs)
  {
    if beats != [] {
      var init, last := beats[..|beats| - 1], beats[|beats| - 1] + leaseMs;
      BeatsExtend(db, claimed, id, worker, leaseMs, now, init);
      BeatExtends(db, Beaten(claimed, id, worker, leaseMs, init), id, worker, now, LastBeat(now, init) + leaseMs, last);
    }
  }

  lemma BeatenClaim(db: Db, claimed: Db, id: CommandId, worker: WorkerId, leaseMs: int, tick: Tick) returns (now: Db)
    requires WellFormed(db) && id in db.commands && claimed == ClaimAt(db, id, worker, leaseMs, tick)
    ensures now == Beaten(claimed, id, worker, leaseMs, tick.beats) && WellFormed(now)
    ensures now == ClaimDb(db, id, worker, tick.claimAt, LastBeat(tick.claimAt, tick.beats) + leaseMs)
  {
    BeatsExtend(db, claimed, id, worker, leaseMs, tick.claimAt, tick.beats);
    now := Beaten(claimed, id, worker, leaseMs, tick.beats);
  }

  lemma OneFirstOpen(acts: seq<ActivityRow>, j: int, k: int)
    requires FirstOpen(acts, j) && FirstOpen(acts, k)
    ensures j == k
  {
  }

  lemma FinishReports(acts: seq<ActivityRow>, k: nat, worker: WorkerId, leaseMs: int, tick: Tick)
    requires FirstOpen(acts, k)
    ensures var now := ClaimedActivities(acts, worker, tick.claimAt, LastBeat(tick.claimAt, tick.beats) + leaseMs);
      var done := FinishedActivity(now[k], if tick.ok then ActCompleted else ActFailed, tick.finishAt);
      ActivitiesReported(acts, now[k := done], worker, leaseMs, tick)
  {
    forall j | 0 <= j < |acts| ensures FirstOpen(acts, j) <==> j == k {
      if FirstOpen(acts, j) {
        OneFirstOpen(acts, j, k);
      }
    }
  }

  lemma ReportReports(
      db: Db, now: Db, after: Db, id: CommandId, k: nat, worker: WorkerId, leaseMs: int, tick: Tick)
    requires WellFormed(db) && id in db.commands && FirstOpen(db.activities[id], k) && WellFormed(now)
    requires now == ClaimDb(db, id, worker, tick.claimAt, LastBeat(tick.claimAt, tick.beats) + leaseMs)
    requires after == Report(now, id, k, tick)
    ensures Reported(db, after, id, tick.ok, worker, leaseMs, tick)
  {
    FinishReports(db.activities[id], k, worker, leaseMs, tick);
  }

  lemma NothingOpenReports(acts: seq<ActivityRow>, worker: WorkerId, leaseMs: int, tick: Tick)
    requires !HasOpen(acts)
    ensures ClaimedActivities(acts, worker, tick.claimAt, tick.claimAt + leaseMs) == acts
    ensures ActivitiesReported(acts, acts, worker, leaseMs, tick) && forall k :: !FirstOpen(acts, k)
  {
    assert forall k | 0 <= k < |acts| :: !Open(acts[k].status);
  }

  lemma NothingToRunReports(db: Db, id: CommandId, worker: WorkerId, leaseMs: int, tick: Tick)
    requires WellFormed(db) && id in db.commands && !HasOpen(db.activities[id])
    ensures var now := ClaimAt(db, id, worker, leaseMs, tick);
      Reported(db, FinishCommandDb(now, id, Failed), id, false, worker, leaseMs, tick)
  {
    NothingOpenReports(db.activities[id], worker, leaseMs, tick);
  }

  /** The first running activity after a claim is the first that was open before it. */
  lemma FirstRunnableWasOpen(acts: seq<ActivityRow>, worker: WorkerId, now: Time, until: Time)
    ensures var k := FirstRunnable(ClaimedActivities(acts, worker, now, until));
      if k.Some? then FirstOpen(acts, k.value) && HasOpen(acts) else !HasOpen(acts)
  {
    var k := FirstRunnable(ClaimedActivities(acts, worker, now, until));
    if k.Some? {
      assert Open(acts[k.value].status);
    }
  }

  /** A turn reports the execution of what it claimed. */
  lemma TurnReports(db: Db, id: CommandId, worker: WorkerId, leaseMs: int, tick: Tick)
    requires WellFormed(db) && id in db.commands
    ensures Reported(db, AfterTurn(db, id, worker, leaseMs, tick), id, Succeeds(db, id, tick), worker, leaseMs, tick)
  {
    WorkReports(db, ClaimAt(db, id, worker, leaseMs, tick), id, Succeeds(db, id, tick), worker, leaseMs, tick);
  }

  lemma WorkReports(db: Db, claimed: Db, id: CommandId, ok: bool, worker: WorkerId, leaseMs: int, tick: Tick)
    requires WellFormed(db) && id in db.commands && claimed == ClaimAt(db, id, worker, leaseMs, tick)
    requires ok == Succeeds(db, id, tick)
    ensures Reported(db, Work(claimed, id, worker, leaseMs, tick), id, ok, worker, leaseMs, tick)
  {
    FirstRunnableWasOpen(db.activities[id], worker, tick.claimAt, tick.claimAt + leaseMs);
    var k, after := FirstRunnable(claimed.activities[id]), Work(claimed, id, worker, leaseMs, tick);
    if k.Some? {
      var now := BeatenClaim(db, claimed, id, worker, leaseMs, tick);
      ReportReports(db, now, after, id, k.value, worker, leaseMs, tick);
      assert ok == tick.ok;
    } else {
      NothingToRunReports(db, id, worker, leaseMs, tick);
      assert !ok;
    }
  }
}
