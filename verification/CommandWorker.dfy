/** The worker: one claim-execute-finish turn on the store, and the loop around it. */
module CommandWorker {
  import opened Options
  import opened CommandRows
  import opened CommandTurn
  import opened CommandStoreModel

  datatype RunResult = Idle | Ran(id: CommandId, ok: bool)

  datatype LoopStatus = LoopCompleted | LoopFailed | IdleTimeout | RuntimeExceeded

  datatype LoopReport = LoopReport(
    status: LoopStatus, iterations: nat, completed: nat, failed: nat, idle: nat, recent: seq<RunResult>)

  datatype LoopOptions = LoopOptions(
    worker: WorkerId, leaseMs: int, filter: ClaimFilter, maxRuntimeMs: int, maxCommands: Option<nat>,
    idleExitMs: Option<int>, continueOnFailure: bool)

  const RECENT_LIMIT: nat := 50

  method ReportOutcome(store: CommandStore, id: CommandId, k: nat, tick: Tick)
    requires store.Valid()
    modifies store
    ensures store.Valid() && store.Contents() == Report(old(store.Contents()), id, k, tick)
  {
    var activityOutcome := store.FinishActivity(id, k, if tick.ok then ActCompleted else ActFailed, tick.finishAt);
    var commandOutcome := store.FinishCommand(id, if tick.ok then Completed else Failed);
  }

  /** What the heartbeat timer calls. */
  method SendHeartbeat(store: CommandStore, id: CommandId, worker: WorkerId, leaseMs: int, at: Time)
    requires store.Valid()
    modifies store
    ensures store.Valid() && store.Contents() == ExtendDb(old(store.Contents()), id, worker, at + leaseMs)
  {
    store.ExtendLease(id, worker, at, leaseMs);
  }

  method SendHeartbeats(store: CommandStore, id: CommandId, worker: WorkerId, leaseMs: int, beats: seq<Time>)
    requires store.Valid()
    modifies store
    ensures store.Valid() && store.Contents() == Beaten(old(store.Contents()), id, worker, leaseMs, beats)
  {
    ghost var before, now := store.Contents(), store.Contents();
    for i := 0 to |beats|
      invariant store.Valid() && store.Contents() == now && WellFormed(before)
      invariant now == Beaten(before, id, worker, leaseMs, beats[..i])
    {
      now := OneMoreBeat(before, id, worker, leaseMs, beats, i, now);
      SendHeartbeat(store, id, worker, leaseMs, beats[i]);
    }
    assert beats[..|beats|] == beats;
  }

  lemma OneMoreBeat(
      db: Db, id: CommandId, worker: WorkerId, leaseMs: int, beats: seq<Time>, i: nat, now: Db)
      returns (next: Db)
    requires WellFormed(db) && i < |beats| && now == Beaten(db, id, worker, leaseMs, beats[..i])
    ensures WellFormed(now) && next == ExtendDb(now, id, worker, beats[i] + leaseMs)
    ensures next == Beaten(db, id, worker, leaseMs, beats[..i + 1])
  {
    assert beats[..i + 1][..i] == beats[..i];
    next := ExtendDb(now, id, worker, beats[i] + leaseMs);
  }

  /** Runs the command that was just claimed. */
  method RunClaimed(store: CommandStore, id: CommandId, worker: WorkerId, leaseMs: int, tick: Tick) returns (ok: bool)
    requires store.Valid() && id in store.activities
    modifies store
    ensures store.Valid()
    ensures store.Contents() == Work(old(store.Contents()), id, worker, leaseMs, tick)
    ensures ok == (tick.ok && FirstRunnable(old(store.Contents()).activities[id]).Some?)
    ensures RanClaimed(old(store.Contents()), store.Contents(), id, ok, tick.ok)
  {
    ghost var claimed := store.Contents();
    WorkRanClaimed(claimed, id, worker, leaseMs, tick);
    assert (exists j :: FirstRunning(claimed.activities[id], j)) <==> FirstRunnable(claimed.activities[id]).Some? by {
      if FirstRunnable(claimed.activities[id]).Some? {
        assert FirstRunning(claimed.activities[id], FirstRunnable(claimed.activities[id]).value);
      }
    }
    var k := FirstRunnable(store.activities[id]);
    if k.None? {
      var outcome := store.FinishCommand(id, Failed);
      return false;
    }
    SendHeartbeats(store, id, worker, leaseMs, tick.beats);
    ReportOutcome(store, id, k.value, tick);
    ok := tick.ok;
  }

  /** One turn of a worker: the earliest eligible command is claimed, run and finished, or there is none. */
  ghost predicate Once(before: Db, after: Db, options: LoopOptions, tick: Tick, result: RunResult)
    requires WellFormed(before)
  {
    match result
    case Idle => after == before && forall id :: !Eligible(before, tick.claimAt, options.filter, id)
    case Ran(id, ok) =>
      && Picks(before, tick.claimAt, options.filter, id)
      && after == AfterTurn(before, id, options.worker, options.leaseMs, tick)
      && ok == Succeeds(before, id, tick)
  }

  lemma OnceIdle(before: Db, options: LoopOptions, tick: Tick)
    requires WellFormed(before) && forall id :: !Eligible(before, tick.claimAt, options.filter, id)
    ensures Once(before, before, options, tick, Idle)
  {
  }

  lemma OnceRan(before: Db, claimed: Db, after: Db, options: LoopOptions, tick: Tick, id: CommandId, ok: bool)
    requires WellFormed(before) && Picks(before, tick.claimAt, options.filter, id)
    requires claimed == ClaimAt(before, id, options.worker, options.leaseMs, tick)
    requires after == Work(claimed, id, options.worker, options.leaseMs, tick)
    requires ok == (tick.ok && FirstRunnable(claimed.activities[id]).Some?)
    ensures Once(before, after, options, tick, Ran(id, ok))
    ensures Reported(before, after, id, ok, options.worker, options.leaseMs, tick)
  {
    RunnableAfterClaim(before, id, options.worker, tick.claimAt, tick.claimAt + options.leaseMs);
    TurnReports(before, id, options.worker, options.leaseMs, tick);
  }

  method RunCommandWorkerOnce(store: CommandStore, options: LoopOptions, tick: Tick) returns (result: RunResult)
    requires store.Valid()
    modifies store
    ensures store.Valid()
    ensures WellFormed(old(store.Contents())) && Once(old(store.Contents()), store.Contents(), options, tick, result)
    ensures result.Ran? ==>
      result.id in old(store.Contents()).commands
      && Reported(old(store.Contents()), store.Contents(), result.id, result.ok, options.worker, options.leaseMs, tick)
  {
    var claimed := store.ClaimNext(options.worker, tick.claimAt, options.leaseMs, options.filter);
    ghost var before, after := old(store.Contents()), store.Contents();
    if claimed.None? {
      OnceIdle(before, options, tick);
      return Idle;
    }
    var ok := RunClaimed(store, claimed.value, options.worker, options.leaseMs, tick);
    OnceRan(before, after, store.Contents(), options, tick, claimed.value, ok);
    result := Ran(claimed.value, ok);
  }

  // ---------- a whole loop, replayed ----------

  /** `log` is what the worker did tick by tick, and `Replay` the tables it left. */
  ghost predicate Faithful(db: Db, options: LoopOptions, ticks: seq<Tick>, log: seq<RunResult>)
    requires WellFormed(db)
    decreases |log|, 0
  {
    && |log| <= |ticks|
    && (log != [] ==>
          var n := |log| - 1;
          && Faithful(db, options, ticks, log[..n])
          && var before := Replay(db, options, ticks, log[..n]);
             match log[n]
             case Idle => forall id :: !Eligible(before, ticks[n].claimAt, options.filter, id)
             case Ran(id, ok) =>
               Picks(before, ticks[n].claimAt, options.filter, id) && ok == Succeeds(before, id, ticks[n]))
  }

  ghost function Replay(db: Db, options: LoopOptions, ticks: seq<Tick>, log: seq<RunResult>): (r: Db)
    requires WellFormed(db) && Faithful(db, options, ticks, log)
    ensures WellFormed(r)
    decreases |log|, 1
  {
    if log == [] then db else
      var n := |log| - 1;
      var before := Replay(db, options, ticks, log[..n]);
      if log[n].Idle? then before else AfterTurn(before, log[n].id, options.worker, options.leaseMs, ticks[n])
  }

  function CountOf(log: seq<RunResult>, r: RunResult -> bool): nat {
    if log == [] then 0 else CountOf(log[..|log| - 1], r) + (if r(log[|log| - 1]) then 1 else 0)
  }

  predicate IsIdle(r: RunResult) {
    r.Idle?
  }

  predicate IsCompleted(r: RunResult) {
    r.Ran? && r.ok
  }

  predicate IsFailed(r: RunResult) {
    r.Ran? && !r.ok
  }

  function OneMoreRecent(recent: seq<RunResult>, r: RunResult): seq<RunResult> {
    if |recent + [r]| > RECENT_LIMIT then (recent + [r])[1..] else recent + [r]
  }

  /** One more result in the counters; the list of recent results drops its oldest past the limit. */
  function Count(report: LoopReport, r: RunResult): LoopReport {
    report.(iterations := report.iterations + 1,
            completed := report.completed + (if IsCompleted(r) then 1 else 0),
            failed := report.failed + (if IsFailed(r) then 1 else 0),
            idle := report.idle + (if IsIdle(r) then 1 else 0),
            recent := OneMoreRecent(report.recent, r))
  }

  /** The last fifty results. */
  predicate LastFifty(log: seq<RunResult>, recent: seq<RunResult>) {
    recent == if |log| <= 50 then log else log[|log| - 50..]
  }

  /** The counters and the bounded list agree with everything the loop did. */
  ghost predicate Tallied(log: seq<RunResult>, report: LoopReport) {
    && report.iterations == |log|
    && report.idle == CountOf(log, IsIdle)
    && report.completed == CountOf(log, IsCompleted)
    && report.failed == CountOf(log, IsFailed)
    && LastFifty(log, report.recent)
  }

  lemma RecentOne(log: seq<RunResult>, recent: seq<RunResult>, r: RunResult)
    requires LastFifty(log, recent)
    ensures LastFifty(log + [r], OneMoreRecent(recent, r))
  {
  }

  lemma TallyOne(log: seq<RunResult>, report: LoopReport, r: RunResult)
    requires Tallied(log, report)
    ensures Tallied(log + [r], Count(report, r))
  {
    RecentOne(log, report.recent, r);
    assert (log + [r])[..|log|] == log;
  }

  lemma FaithfulOne(db: Db, options: LoopOptions, ticks: seq<Tick>, log: seq<RunResult>, r: RunResult, after: Db)
    requires WellFormed(db) && Faithful(db, options, ticks, log) && |log| < |ticks|
    requires Once(Replay(db, options, ticks, log), after, options, ticks[|log|], r)
    ensures Faithful(db, options, ticks, log + [r]) && Replay(db, options, ticks, log + [r]) == after
  {
    var longer := log + [r];
    assert longer[..|log|] == log && longer[|log|] == r;
    assert Faithful(db, options, ticks, longer);
  }

  method RunTick(
      store: CommandStore, options: LoopOptions, ghost ticks: seq<Tick>, ghost start: Db, ghost log: seq<RunResult>,
      tick: Tick)
    returns (result: RunResult)
    requires store.Valid() && WellFormed(start)
    requires |log| < |ticks| && tick == ticks[|log|]
    requires Faithful(start, options, ticks, log) && store.Contents() == Replay(start, options, ticks, log)
    modifies store
    ensures store.Valid()
    ensures Faithful(start, options, ticks, log + [result])
    ensures store.Contents() == Replay(start, options, ticks, log + [result])
  {
    result := RunCommandWorkerOnce(store, options, tick);
    FaithfulOne(start, options, ticks, log, result, store.Contents());
  }

  // ---------- what the loop reports ----------

  /** The last turn of a faithful log. */
  lemma LastTurn(db: Db, options: LoopOptions, ticks: seq<Tick>, log: seq<RunResult>, before: Db, after: Db)
    requires WellFormed(db) && log != [] && Faithful(db, options, ticks, log)
    requires Faithful(db, options, ticks, log[..|log| - 1])
    requires before == Replay(db, options, ticks, log[..|log| - 1]) && after == Replay(db, options, ticks, log)
    ensures WellFormed(before) && WellFormed(after) && |log| <= |ticks|
    ensures Once(before, after, options, ticks[|log| - 1], log[|log| - 1])
  {
  }

  lemma {:induction false} PrefixFaithful(db: Db, options: LoopOptions, ticks: seq<Tick>, log: seq<RunResult>, i: nat)
    requires WellFormed(db) && Faithful(db, options, ticks, log) && i <= |log|
    ensures Faithful(db, options, ticks, log[..i])
    decreases |log|
  {
    if i < |log| {
      PrefixFaithful(db, options, ticks, log[..|log| - 1], i);
      assert log[..|log| - 1][..i] == log[..i];
    } else {
      assert log[..i] == log;
    }
  }

  /** Each turn of a loop reports the execution of what it claimed. */
  lemma {:induction false} EveryTurnReports(
      db: Db, options: LoopOptions, ticks: seq<Tick>, log: seq<RunResult>, i: nat)
    requires WellFormed(db) && Faithful(db, options, ticks, log) && i < |log| && log[i].Ran?
    ensures Faithful(db, options, ticks, log[..i]) && Faithful(db, options, ticks, log[..i + 1])
    ensures var before, after := Replay(db, options, ticks, log[..i]), Replay(db, options, ticks, log[..i + 1]);
      && log[i].id in before.commands
      && Reported(before, after, log[i].id, log[i].ok, options.worker, options.leaseMs, ticks[i])
  {
    PrefixFaithful(db, options, ticks, log, i);
    PrefixFaithful(db, options, ticks, log, i + 1);
    assert log[..i + 1][..i] == log[..i];
    TurnReports(Replay(db, options, ticks, log[..i]), log[i].id, options.worker, options.leaseMs, ticks[i]);
  }

  /** The commands of a log are where it says. */
  predicate AllReported(commands: map<CommandId, CommandRow>, log: seq<RunResult>) {
    forall i | 0 <= i < |log| && log[i].Ran? ::
      log[i].id in commands && commands[log[i].id].status == if log[i].ok then Completed else Failed
  }

  lemma ReportedMore(before: Db, after: Db, log: seq<RunResult>, options: LoopOptions, tick: Tick, r: RunResult)
    requires WellFormed(before) && AllReported(before.commands, log) && r.Ran?
    requires Picks(before, tick.claimAt, options.filter, r.id)
    requires Reported(before, after, r.id, r.ok, options.worker, options.leaseMs, tick)
    ensures AllReported(after.commands, log + [r])
  {
  }

  lemma OnceReports(before: Db, after: Db, log: seq<RunResult>, options: LoopOptions, tick: Tick, r: RunResult)
    requires WellFormed(before) && AllReported(before.commands, log) && Once(before, after, options, tick, r)
    ensures AllReported(after.commands, log + [r])
  {
    if r.Ran? {
      TurnReports(before, r.id, options.worker, options.leaseMs, tick);
      ReportedMore(before, after, log, options, tick, r);
    }
  }

  /** A finished command is not claimed again, so at the end of a loop every command of its log still has the
      status its turn gave it. */
  lemma {:induction false} FinalReports(db: Db, options: LoopOptions, ticks: seq<Tick>, log: seq<RunResult>)
    requires WellFormed(db) && Faithful(db, options, ticks, log)
    ensures AllReported(Replay(db, options, ticks, log).commands, log)
    decreases |log|
  {
    if log != [] {
      var n := |log| - 1;
      FinalReports(db, options, ticks, log[..n]);
      assert log == log[..n] + [log[n]];
      var before, after := Replay(db, options, ticks, log[..n]), Replay(db, options, ticks, log);
      LastTurn(db, options, ticks, log, before, after);
      OnceReports(before, after, log[..n], options, ticks[n], log[n]);
    }
  }

  // ---------- why the loop ends ----------

  predicate BudgetSpent(options: LoopOptions, start: Time, at: Time) {
    at - start >= options.maxRuntimeMs
  }

  /** The last result made the loop give up. */
  predicate GaveUp(options: LoopOptions, log: seq<RunResult>) {
    log != [] && IsFailed(log[|log| - 1]) && !options.continueOnFailure
  }

  /** When the loop last had work, or started. */
  function LastWork(start: Time, ticks: seq<Tick>, log: seq<RunResult>): Time
    requires |log| <= |ticks|
  {
    if log == [] then start
    else if log[|log| - 1].Ran? then ticks[|log| - 1].afterAt
    else LastWork(start, ticks, log[..|log| - 1])
  }

  /** The last result was idle, and there had been no work for too long. */
  predicate IdledOut(options: LoopOptions, start: Time, ticks: seq<Tick>, log: seq<RunResult>)
    requires |log| <= |ticks|
  {
    && log != [] && IsIdle(log[|log| - 1]) && options.idleExitMs.Some?
    && ticks[|log| - 1].afterAt - LastWork(start, ticks, log) >= options.idleExitMs.value
  }

  /** A loop that ended within its budget: it failed exactly when a failed command stopped it, an idle timeout
      means that there was no work for so long, and anything else that it ran as many commands as allowed. */
  ghost predicate EndedEarly(
      report: LoopReport, options: LoopOptions, start: Time, ticks: seq<Tick>, log: seq<RunResult>)
    requires |log| <= |ticks|
  {
    && (report.status == LoopFailed <==> !options.continueOnFailure && log != [] && FailedRun(log[|log| - 1]))
    && (report.status == IdleTimeout ==>
          && log != [] && log[|log| - 1] == Idle && options.idleExitMs.Some?
          && ticks[|log| - 1].afterAt - LastWork(start, ticks, log) >= options.idleExitMs.value)
    && (report.status == LoopCompleted ==>
          options.maxCommands.Some? && report.completed + report.failed >= options.maxCommands.value)
    && report.status != RuntimeExceeded
  }

  /** A turn that claimed a command and failed it. */
  predicate FailedRun(r: RunResult) {
    match r
    case Idle => false
    case Ran(_, ok) => !ok
  }

  predicate LimitReached(options: LoopOptions, log: seq<RunResult>) {
    options.maxCommands.Some? && CountOf(log, IsCompleted) + CountOf(log, IsFailed) >= options.maxCommands.value
  }

  predicate HasReason(options: LoopOptions, start: Time, ticks: seq<Tick>, log: seq<RunResult>)
    requires |log| <= |ticks|
  {
    GaveUp(options, log) || IdledOut(options, start, ticks, log) || LimitReached(options, log)
  }

  /** Every iteration began within the budget and with no reason to stop. */
  predicate WentOn(options: LoopOptions, start: Time, ticks: seq<Tick>, log: seq<RunResult>)
    requires |log| <= |ticks|
  {
    log == [] ||
    var n := |log| - 1;
    && WentOn(options, start, ticks, log[..n])
    && !BudgetSpent(options, start, ticks[n].checkAt) && !HasReason(options, start, ticks, log[..n])
  }

  /** Why the loop ended where it did, and the status that says so; a spent budget overrides the rest. */
  predicate Explained(
      status: LoopStatus, options: LoopOptions, start: Time, ticks: seq<Tick>, log: seq<RunResult>, endAt: Time)
    requires |log| < |ticks|
  {
    && (HasReason(options, start, ticks, log) || BudgetSpent(options, start, ticks[|log|].checkAt))
    && status ==
         if BudgetSpent(options, start, endAt) then (if CountOf(log, IsFailed) > 0 then LoopFailed else RuntimeExceeded)
         else if GaveUp(options, log) then LoopFailed
         else if IdledOut(options, start, ticks, log) then IdleTimeout
         else LoopCompleted
  }

  /** What the loop knows of its end while it goes on or once it has stopped. */
  predicate Ending(
      stop: bool, status: LoopStatus, lastWorkAt: Time, options: LoopOptions, start: Time, ticks: seq<Tick>,
      log: seq<RunResult>)
    requires |log| <= |ticks|
  {
    && WentOn(options, start, ticks, log)
    && lastWorkAt == LastWork(start, ticks, log)
    && (status == if GaveUp(options, log) then LoopFailed
                  else if IdledOut(options, start, ticks, log) then IdleTimeout
                  else LoopCompleted)
    && (stop ==> HasReason(options, start, ticks, log))
    && (!stop ==> !GaveUp(options, log) && !IdledOut(options, start, ticks, log))
  }

  /** The status after one more result, and whether the loop stops there. */
  lemma {:induction false} EndingNext(
      lastWorkAt: Time, options: LoopOptions, start: Time, ticks: seq<Tick>, log: seq<RunResult>, r: RunResult)
    requires |log| < |ticks| && Ending(false, LoopCompleted, lastWorkAt, options, start, ticks, log)
    requires !BudgetSpent(options, start, ticks[|log|].checkAt) && !LimitReached(options, log)
    ensures var tick := ticks[|log|];
      var idled := r.Idle? && options.idleExitMs.Some? && tick.afterAt - lastWorkAt >= options.idleExitMs.value;
      var gaveUp := IsFailed(r) && !options.continueOnFailure;
      Ending(idled || gaveUp, if idled then IdleTimeout else if gaveUp then LoopFailed else LoopCompleted,
             if r.Ran? then tick.afterAt else lastWorkAt, options, start, ticks, log + [r])
  {
    assert (log + [r])[..|log|] == log;
  }

  /** The clock readings of a loop: at its head they pass the budget at last, and the reading after a loop of
      `i` turns, `ends[i]`, is no earlier than the one at the head of the next. */
  predicate ClockRunsOut(options: LoopOptions, start: Time, ticks: seq<Tick>, ends: seq<Time>) {
    && ticks != [] && BudgetSpent(options, start, ticks[|ticks| - 1].checkAt)
    && |ends| == |ticks| && forall i | 0 <= i < |ticks| :: ticks[i].checkAt <= ends[i]
  }

  lemma ExplainedEnd(
      report: LoopReport, options: LoopOptions, start: Time, ticks: seq<Tick>, log: seq<RunResult>, endAt: Time)
    requires |log| < |ticks| && Tallied(log, report) && ticks[|log|].checkAt <= endAt
    requires Explained(report.status, options, start, ticks, log, endAt)
    ensures endAt - start < options.maxRuntimeMs ==> EndedEarly(report, options, start, ticks, log)
    ensures endAt - start >= options.maxRuntimeMs ==>
      report.status == if report.failed > 0 then LoopFailed else RuntimeExceeded
  {
  }

  lemma NotTheLast(options: LoopOptions, start: Time, ticks: seq<Tick>, i: nat)
    requires i < |ticks| && BudgetSpent(options, start, ticks[|ticks| - 1].checkAt)
    requires !BudgetSpent(options, start, ticks[i].checkAt)
    ensures i + 1 < |ticks|
  {
  }

  method RunCommandWorkerLoop(store: CommandStore, options: LoopOptions, start: Time, ticks: seq<Tick>, ends: seq<Time>)
    returns (report: LoopReport, ghost log: seq<RunResult>)
    requires store.Valid() && ClockRunsOut(options, start, ticks, ends)
    modifies store
    ensures store.Valid()
    ensures Faithful(old(store.Contents()), options, ticks, log)
    ensures store.Contents() == Replay(old(store.Contents()), options, ticks, log)
    ensures Tallied(log, report)
    ensures |log| < |ticks| && WentOn(options, start, ticks, log)
    ensures Explained(report.status, options, start, ticks, log, ends[|log|])
    ensures AllReported(store.commands, log)
    ensures ends[|log|] - start >= options.maxRuntimeMs ==>
      report.status == if report.failed > 0 then LoopFailed else RuntimeExceeded
    ensures ends[|log|] - start < options.maxRuntimeMs ==>
      EndedEarly(report, options, start, ticks, log)
  {
    ghost var before := store.Contents();
    report, log := LoopReport(LoopCompleted, 0, 0, 0, 0, []), [];
    var stop, status, lastWorkAt := false, LoopCompleted, start;
    while !stop && ticks[report.iterations].checkAt - start < options.maxRuntimeMs
      invariant store.Valid()
      invariant Tallied(log, report) && |log| < |ticks|
      invariant Faithful(before, options, ticks, log)
      invariant store.Contents() == Replay(before, options, ticks, log)
      invariant Ending(stop, status, lastWorkAt, options, start, ticks, log)
      decreases !stop, |ticks| - report.iterations
    {
      NotTheLast(options, start, ticks, |log|);
      if options.maxCommands.Some? && report.completed + report.failed >= options.maxCommands.value {
        stop := true;
      } else {
        var tick := ticks[report.iterations];
        var result := RunTick(store, options, ticks, before, log, tick);
        TallyOne(log, report, result);
        EndingNext(lastWorkAt, options, start, ticks, log, result);
        log, report := log + [result], Count(report, result);
        if result.Idle? {
          if options.idleExitMs.Some? && tick.afterAt - lastWorkAt >= options.idleExitMs.value {
            status, stop := IdleTimeout, true;
          }
        } else {
          lastWorkAt := tick.afterAt;
          if IsFailed(result) && !options.continueOnFailure {
            status, stop := LoopFailed, true;
          }
        }
      }
    }
    if ends[report.iterations] - start >= options.maxRuntimeMs {
      status := if report.failed > 0 then LoopFailed else RuntimeExceeded;
    }
    report := report.(status := status);
    assert Explained(status, options, start, ticks, log, ends[|log|]);
    ExplainedEnd(report, options, start, ticks, log, ends[|log|]);
    FinalReports(before, options, ticks, log);
  }
}
