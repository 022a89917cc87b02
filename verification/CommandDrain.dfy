/** What an undisturbed worker loop drains: the eligible commands, each once, in request order. */
module CommandDrain {
  import opened CommandRows
  import opened CommandTurn
  import opened CommandWorker

  /** No recorded lease of an open command expires between `start` and `horizon`. */
  predicate Settled(db: Db, start: Time, horizon: Time) {
    forall id | id in db.commands && db.commands[id].leaseUntil.Some? ::
      db.commands[id].leaseUntil.value <= start || horizon < db.commands[id].leaseUntil.value
  }

  function EligibleSet(db: Db, now: Time, filter: ClaimFilter): set<CommandId> {
    set id | id in db.commands && Eligible(db, now, filter, id)
  }

  lemma SettledEligibility(db: Db, start: Time, horizon: Time, now: Time, filter: ClaimFilter, id: CommandId)
    requires Settled(db, start, horizon) && start <= now <= horizon
    ensures Eligible(db, now, filter, id) <==> Eligible(db, start, filter, id)
  {
  }

  /** One command becomes terminal without a lease, keeps its request time, and the others stay. */
  predicate ClosesOne(before: Db, after: Db, id: CommandId) {
    && after.commands.Keys == before.commands.Keys && id in before.commands
    && Terminal(after.commands[id].status) && after.commands[id].leaseUntil.None?
    && after.commands[id].requestedAt == before.commands[id].requestedAt
    && forall other | other in before.commands && other != id :: after.commands[other] == before.commands[other]
  }

  lemma FinishCloses(db: Db, id: CommandId, status: CommandStatus)
    requires WellFormed(db) && id in db.commands && Terminal(status)
    ensures ClosesOne(db, FinishCommandDb(db, id, status), id)
  {
  }

  lemma ReportCloses(db: Db, id: CommandId, k: nat, tick: Tick)
    requires WellFormed(db) && id in db.commands
    ensures ClosesOne(db, Report(db, id, k, tick), id)
  {
  }

  lemma WorkCloses(claimed: Db, id: CommandId, worker: WorkerId, leaseMs: int, tick: Tick)
    requires WellFormed(claimed) && id in claimed.commands
    ensures ClosesOne(claimed, Work(claimed, id, worker, leaseMs, tick), id)
  {
    var k := FirstRunnable(claimed.activities[id]);
    if k.None? {
      FinishCloses(claimed, id, Failed);
    } else {
      BeatenRow(claimed, id, worker, leaseMs, tick.beats);
      ReportCloses(Beaten(claimed, id, worker, leaseMs, tick.beats), id, k.value, tick);
    }
  }

  lemma RoundRow(db: Db, id: CommandId, worker: WorkerId, leaseMs: int, tick: Tick)
    requires WellFormed(db) && id in db.commands
    ensures ClosesOne(db, Work(ClaimAt(db, id, worker, leaseMs, tick), id, worker, leaseMs, tick), id)
  {
    WorkCloses(ClaimAt(db, id, worker, leaseMs, tick), id, worker, leaseMs, tick);
  }

  /** Heartbeats touch the leases of their own command only. */
  lemma {:induction false} BeatenRow(db: Db, id: CommandId, worker: WorkerId, leaseMs: int, beats: seq<Time>)
    requires WellFormed(db) && id in db.commands
    ensures var r := Beaten(db, id, worker, leaseMs, beats);
      && r.commands[id].requestedAt == db.commands[id].requestedAt
      && forall other | other in db.commands && other != id :: r.commands[other] == db.commands[other]
  {
    if beats != [] {
      BeatenRow(db, id, worker, leaseMs, beats[..|beats| - 1]);
    }
  }

  lemma ClosingShrinks(db: Db, after: Db, filter: ClaimFilter, id: CommandId, start: Time, horizon: Time)
    requires ClosesOne(db, after, id) && Settled(db, start, horizon)
    ensures Settled(after, start, horizon)
    ensures EligibleSet(after, start, filter) == EligibleSet(db, start, filter) - {id}
  {
  }

  /** A round takes exactly the claimed command out of the eligible set, and no eligible one was requested
      earlier. */
  lemma RoundShrinks(db: Db, options: LoopOptions, id: CommandId, tick: Tick, start: Time, horizon: Time)
    requires WellFormed(db) && Settled(db, start, horizon) && start <= tick.claimAt <= horizon
    requires Picks(db, tick.claimAt, options.filter, id)
    ensures var after := AfterTurn(db, id, options.worker, options.leaseMs, tick);
      && Settled(after, start, horizon)
      && EligibleSet(after, start, options.filter) == EligibleSet(db, start, options.filter) - {id}
    ensures id in EligibleSet(db, start, options.filter)
    ensures forall other | other in EligibleSet(db, start, options.filter) ::
      db.commands[id].requestedAt <= db.commands[other].requestedAt
  {
    RoundRow(db, id, options.worker, options.leaseMs, tick);
    ClosingShrinks(db, AfterTurn(db, id, options.worker, options.leaseMs, tick), options.filter, id, start, horizon);
    PickedIsEarliest(db, options.filter, id, tick.claimAt, start, horizon);
  }

  lemma PickedIsEarliest(db: Db, filter: ClaimFilter, id: CommandId, at: Time, start: Time, horizon: Time)
    requires Settled(db, start, horizon) && start <= at <= horizon && Picks(db, at, filter, id)
    ensures id in EligibleSet(db, start, filter)
    ensures forall other | other in EligibleSet(db, start, filter) ::
      db.commands[id].requestedAt <= db.commands[other].requestedAt
  {
    forall other ensures Eligible(db, at, filter, other) <==> Eligible(db, start, filter, other) {
      SettledEligibility(db, start, horizon, at, filter, other);
    }
  }

  ghost predicate InTime(ticks: seq<Tick>, start: Time, horizon: Time) {
    forall i | 0 <= i < |ticks| :: start <= ticks[i].claimAt <= horizon
  }

  /** The commands a log claimed, in claim order. */
  function Claimed(log: seq<RunResult>): seq<CommandId> {
    if log == [] then []
    else Claimed(log[..|log| - 1]) + (if log[|log| - 1].Ran? then [log[|log| - 1].id] else [])
  }

  predicate InRequestOrder(commands: map<CommandId, CommandRow>, ids: seq<CommandId>) {
    && (forall i | 0 <= i < |ids| :: ids[i] in commands)
    && forall i, j | 0 <= i < j < |ids| ::
        ids[i] != ids[j] && commands[ids[i]].requestedAt <= commands[ids[j]].requestedAt
  }

  /** The books of a drain: of the commands in `all`, those in `ids` were claimed in that order during
      `rounds` rounds and those in `left` still wait. */
  ghost predicate Books(
      commands: map<CommandId, CommandRow>, all: set<CommandId>, left: set<CommandId>, ids: seq<CommandId>,
      rounds: nat) {
    && all <= commands.Keys
    && InRequestOrder(commands, ids)
    && (forall id | id in ids :: id in all)
    && left == all - (set id | id in ids)
    && |left| == (if rounds >= |all| then 0 else |all| - rounds)
    && (forall id, other | id in ids && other in left :: commands[id].requestedAt <= commands[other].requestedAt)
  }

  /** The state of a drain: which commands were claimed, in which order, and what is left eligible. */
  ghost predicate Drained(db: Db, after: Db, log: seq<RunResult>, filter: ClaimFilter, start: Time, horizon: Time) {
    && Settled(after, start, horizon)
    && after.commands.Keys == db.commands.Keys
    && (forall id | id in db.commands :: after.commands[id].requestedAt == db.commands[id].requestedAt)
    && Books(db.commands, EligibleSet(db, start, filter), EligibleSet(after, start, filter), Claimed(log), |log|)
  }

  lemma IdleDrains(db: Db, before: Db, log: seq<RunResult>, filter: ClaimFilter, start: Time, horizon: Time)
    requires Drained(db, before, log, filter, start, horizon)
    requires EligibleSet(before, start, filter) == {}
    ensures Drained(db, before, log + [Idle], filter, start, horizon)
  {
    assert (log + [Idle])[..|log|] == log;
  }

  lemma ClaimInOrder(commands: map<CommandId, CommandRow>, ids: seq<CommandId>, id: CommandId)
    requires InRequestOrder(commands, ids) && id in commands && id !in ids
    requires forall earlier | earlier in ids :: commands[earlier].requestedAt <= commands[id].requestedAt
    ensures InRequestOrder(commands, ids + [id])
  {
  }

  lemma OneMoreClaimed(log: seq<RunResult>, id: CommandId, ok: bool)
    ensures Claimed(log + [Ran(id, ok)]) == Claimed(log) + [id]
  {
    assert (log + [Ran(id, ok)])[..|log|] == log;
  }

  lemma OneMoreMember(ids: seq<CommandId>, id: CommandId)
    ensures (set x | x in ids + [id]) == (set x | x in ids) + {id}
    ensures forall x :: x in ids + [id] <==> x in ids || x == id
  {
  }

  lemma OneFewer(all: set<CommandId>, id: CommandId)
    requires id in all
    ensures |all - {id}| == |all| - 1
  {
  }

  lemma BooksOneMore(
      commands: map<CommandId, CommandRow>, all: set<CommandId>, left: set<CommandId>, ids: seq<CommandId>,
      rounds: nat, id: CommandId)
    requires Books(commands, all, left, ids, rounds) && id in left
    requires forall other | other in left :: commands[id].requestedAt <= commands[other].requestedAt
    ensures Books(commands, all, left - {id}, ids + [id], rounds + 1)
  {
    ClaimInOrder(commands, ids, id);
    OneMoreMember(ids, id);
    OneFewer(left, id);
  }

  lemma RanDrains(
      db: Db, before: Db, after: Db, log: seq<RunResult>, id: CommandId, ok: bool, filter: ClaimFilter, start: Time,
      horizon: Time)
    requires Drained(db, before, log, filter, start, horizon)
    requires id in EligibleSet(before, start, filter)
    requires forall other | other in EligibleSet(before, start, filter) ::
         db.commands[id].requestedAt <= db.commands[other].requestedAt
    requires EligibleSet(after, start, filter) == EligibleSet(before, start, filter) - {id}
    requires Settled(after, start, horizon) && after.commands.Keys == before.commands.Keys
    requires forall other | other in before.commands ::
         after.commands[other].requestedAt == before.commands[other].requestedAt
    ensures Drained(db, after, log + [Ran(id, ok)], filter, start, horizon)
  {
    OneMoreClaimed(log, id, ok);
    var all, left := EligibleSet(db, start, filter), EligibleSet(before, start, filter);
    BooksOneMore(db.commands, all, left, Claimed(log), |log|, id);
  }

  lemma RanRound(
      db: Db, before: Db, options: LoopOptions, log: seq<RunResult>, r: RunResult, tick: Tick, start: Time,
      horizon: Time)
    requires WellFormed(before) && start <= tick.claimAt <= horizon
    requires Drained(db, before, log, options.filter, start, horizon)
    requires r.Ran? && Picks(before, tick.claimAt, options.filter, r.id)
    ensures var after := AfterTurn(before, r.id, options.worker, options.leaseMs, tick);
      Drained(db, after, log + [r], options.filter, start, horizon)
  {
    RoundShrinks(before, options, r.id, tick, start, horizon);
    RoundRow(before, r.id, options.worker, options.leaseMs, tick);
    var after := AfterTurn(before, r.id, options.worker, options.leaseMs, tick);
    RanDrains(db, before, after, log, r.id, r.ok, options.filter, start, horizon);
  }

  lemma InitLast(log: seq<RunResult>)
    requires log != []
    ensures log == log[..|log| - 1] + [log[|log| - 1]]
  {
  }

  lemma {:induction false} LoopKeepsDraining(
      db: Db, options: LoopOptions, ticks: seq<Tick>, log: seq<RunResult>, start: Time, horizon: Time)
    requires WellFormed(db) && Settled(db, start, horizon) && InTime(ticks, start, horizon)
    requires Faithful(db, options, ticks, log)
    ensures Drained(db, Replay(db, options, ticks, log), log, options.filter, start, horizon)
    decreases |log|
  {
    if log != [] {
      var n := |log| - 1;
      LoopKeepsDraining(db, options, ticks, log[..n], start, horizon);
      var before, after := Replay(db, options, ticks, log[..n]), Replay(db, options, ticks, log);
      LastTurn(db, options, ticks, log, before, after);
      InitLast(log);
      OnceDrains(db, before, after, options, log[..n], log[n], ticks[n], start, horizon);
    }
  }

  lemma OnceDrains(
      db: Db, before: Db, after: Db, options: LoopOptions, log: seq<RunResult>, r: RunResult, tick: Tick, start: Time,
      horizon: Time)
    requires WellFormed(before) && start <= tick.claimAt <= horizon && Once(before, after, options, tick, r)
    requires Drained(db, before, log, options.filter, start, horizon)
    ensures Drained(db, after, log + [r], options.filter, start, horizon)
  {
    if r.Idle? {
      forall id ensures !Eligible(before, start, options.filter, id) {
        SettledEligibility(before, start, horizon, tick.claimAt, options.filter, id);
      }
      IdleDrains(db, before, log, options.filter, start, horizon);
    } else {
      RanRound(db, before, options, log, r, tick, start, horizon);
    }
  }

  /** With nobody else at work and no lease expiring meanwhile, the loop claims eligible commands only,
      each once and earliest request first, and after as many rounds as there were eligible commands
      nothing is eligible any more. */
  lemma LoopDrains(
      db: Db, options: LoopOptions, ticks: seq<Tick>, log: seq<RunResult>, start: Time, horizon: Time, now: Time)
    requires WellFormed(db) && Settled(db, start, horizon) && InTime(ticks, start, horizon) && start <= now <= horizon
    requires Faithful(db, options, ticks, log)
    requires |log| >= |EligibleSet(db, start, options.filter)|
    ensures EligibleSet(Replay(db, options, ticks, log), now, options.filter) == {}
    ensures InRequestOrder(db.commands, Claimed(log))
    ensures (set id | id in Claimed(log)) == EligibleSet(db, start, options.filter)
  {
    LoopKeepsDraining(db, options, ticks, log, start, horizon);
    var after := Replay(db, options, ticks, log);
    forall id ensures !Eligible(after, now, options.filter, id) {
      SettledEligibility(after, start, horizon, now, options.filter, id);
      assert id !in EligibleSet(after, start, options.filter);
    }
  }
}
