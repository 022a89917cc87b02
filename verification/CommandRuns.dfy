/** Runs of the command queue: any number of workers and operators call the store in any order.

    `submit`, `claimNext`, `extendLease`, `finishActivity` and `finishCommand` are single steps (a
    transaction or one statement each).  `cancel` and `resume` read first and write later, so each is
    offered both as one step and as its separate steps, between which other callers may run.
    A worker that crashes simply makes no further step. */
module CommandRuns {
  import opened Options
  import opened CommandRows

  type CallId = nat

  /** History of one granted claim: when it was made, the lease end last recorded for it, when a finish
      cleared that lease, and the activity statuses the claim found. */
  datatype ClaimRecord = ClaimRecord(
    worker: WorkerId, at: Time, until: Time, released: Option<Time>, before: seq<ActivityStatus>)

  /** Where the recorded lease of a claim stops being in force. */
  function End(c: ClaimRecord): Time {
    if c.released.Some? && c.released.value < c.until then c.released.value else c.until
  }

  datatype Stage = ToUpdate | ToMark

  /** A `cancel` or `resume` call that has read its command and still has statements to run. */
  datatype Call =
    | CancelCall(id: CommandId, stage: Stage)
    | ResumeCall(id: CommandId, verdict: Verdict, stage: Stage)

  datatype State = State(
    db: Db, claims: map<CommandId, seq<ClaimRecord>>, calls: map<CallId, Call>, clock: Time)

  datatype Event =
    | Submit(sub: Submission)
    | ClaimNext(worker: WorkerId, leaseMs: int, filter: ClaimFilter, picked: Option<CommandId>)
    | ExtendLease(id: CommandId, worker: WorkerId, leaseMs: int)
    | FinishActivity(id: CommandId, k: nat, outcome: ActivityStatus)
    | FinishCommand(id: CommandId, status: CommandStatus)
    | Cancel(id: CommandId)
    | Resume(id: CommandId, verdict: Verdict)
    | Retry(id: CommandId, copy: Submission)
    | Requeue(id: CommandId, copy: Submission)
    | CancelRead(call: CallId, id: CommandId)
    | CancelUpdate(call: CallId)
    | CancelMark(call: CallId)
    | ResumeRead(call: CallId, id: CommandId, verdict: Verdict)
    | ResumeUpdate(call: CallId)
    | ResumeMark(call: CallId)

  datatype Timed = At(now: Time, event: Event)

  predicate Coherent(s: State) {
    WellFormed(s.db) && s.claims.Keys == s.db.commands.Keys
  }

  const INITIAL: State := State(Db(map[], map[], []), map[], map[], 0)

  // ---------- history ----------

  function Statuses(acts: seq<ActivityRow>): (r: seq<ActivityStatus>)
    ensures |r| == |acts| && forall k | 0 <= k < |acts| :: r[k] == acts[k].status
  {
    seq(|acts|, k requires 0 <= k < |acts| => acts[k].status)
  }

  function AfterClaim(
      claims: seq<ClaimRecord>, worker: WorkerId, now: Time, until: Time, acts: seq<ActivityRow>)
      : seq<ClaimRecord>
  {
    claims + [ClaimRecord(worker, now, until, None, Statuses(acts))]
  }

  function AfterExtend(claims: seq<ClaimRecord>, row: CommandRow, worker: WorkerId, until: Time): seq<ClaimRecord> {
    if RowHeldBy(row, worker) && claims != [] then claims[|claims| - 1 := claims[|claims| - 1].(until := until)]
    else claims
  }

  function AfterFinish(claims: seq<ClaimRecord>, row: CommandRow, now: Time): seq<ClaimRecord> {
    if row.leaseUntil.Some? && claims != [] then claims[|claims| - 1 := claims[|claims| - 1].(released := Some(now))]
    else claims
  }

  /** The claims that found activity `k` queued or running. */
  function ClaimsWhileOpen(claims: seq<ClaimRecord>, k: nat): nat {
    if claims == [] then 0 else
      var last := claims[|claims| - 1];
      ClaimsWhileOpen(claims[..|claims| - 1], k) + (if k < |last.before| && Open(last.before[k]) then 1 else 0)
  }

  // ---------- steps ----------

  predicate Legal(s: State, t: Timed)
    requires Coherent(s)
  {
    && s.clock <= t.now
    && match t.event
       case ClaimNext(worker, leaseMs, filter, picked) =>
         if picked.Some? then Picks(s.db, t.now, filter, picked.value)
         else forall id | id in s.db.commands :: !Eligible(s.db, t.now, filter, id)
       case FinishActivity(id, k, outcome) =>
         // a worker reports on a command it once claimed
         outcome in {ActCompleted, ActFailed, ActCanceled} && (id in s.claims ==> s.claims[id] != [])
       case FinishCommand(id, status) => status in {Completed, Failed}
       case CancelRead(call, id) =>
         call !in s.calls && id in s.db.commands && !Terminal(s.db.commands[id].status)
       case CancelUpdate(call) => call in s.calls && s.calls[call].CancelCall? && s.calls[call].stage == ToUpdate
       case CancelMark(call) => call in s.calls && s.calls[call].CancelCall? && s.calls[call].stage == ToMark
       case ResumeRead(call, id, verdict) =>
         call !in s.calls && id in s.db.commands && s.db.commands[id].status == BlockedApproval
       case ResumeUpdate(call) => call in s.calls && s.calls[call].ResumeCall? && s.calls[call].stage == ToUpdate
       case ResumeMark(call) => call in s.calls && s.calls[call].ResumeCall? && s.calls[call].stage == ToMark
       case _ => true
  }

  function Inserted(s: State, db: Db, sub: Submission): (r: State)
    requires Coherent(s) && WellFormed(db)
    requires s.db.commands.Keys == db.commands.Keys
    ensures Coherent(r)
  {
    s.(db := SubmitDb(db, sub), claims := if Insertable(db, sub) then s.claims[sub.id := []] else s.claims)
  }

  function Step(s: State, t: Timed): (r: State)
    requires Coherent(s) && Legal(s, t)
    ensures Coherent(r) && s.db.commands.Keys <= r.db.commands.Keys && r.clock == t.now
  {
    var now, db := t.now, s.db;
    var next := match t.event
      case Submit(sub) => Inserted(s, db, sub)
      case ClaimNext(worker, leaseMs, filter, picked) =>
        if picked.None? then s else
          var id, until := picked.value, now + leaseMs;
          s.(db := ClaimDb(db, id, worker, now, until),
             claims := s.claims[id := AfterClaim(s.claims[id], worker, now, until, db.activities[id])])
      case ExtendLease(id, worker, leaseMs) =>
        if id !in db.commands then s else
          s.(db := ExtendDb(db, id, worker, now + leaseMs),
             claims := s.claims[id := AfterExtend(s.claims[id], db.commands[id], worker, now + leaseMs)])
      case FinishActivity(id, k, outcome) => s.(db := FinishActivityDb(db, id, k, outcome, now))
      case FinishCommand(id, status) =>
        if id !in db.commands then s else
          s.(db := FinishCommandDb(db, id, status),
              claims := s.claims[id := AfterFinish(s.claims[id], db.commands[id], now)])
      case Cancel(id) => s.(db := CancelDb(db, id))
      case Resume(id, verdict) => s.(db := ResumeDb(db, id, verdict))
      case Retry(id, copy) => if Retryable(db, id) then Inserted(s, db, copy) else s
      case Requeue(id, copy) => if Requeueable(db, id) then Inserted(s, CancelDb(db, id), copy) else s
      case CancelRead(call, id) => s.(calls := s.calls[call := CancelCall(id, ToUpdate)])
      case CancelUpdate(call) =>
        s.(db := UpdateStateDb(db, s.calls[call].id, Canceled, None),
           calls := s.calls[call := CancelCall(s.calls[call].id, ToMark)])
      case CancelMark(call) =>
        s.(db := MarkDb(db, s.calls[call].id, ActCanceled), calls := s.calls - {call})
      case ResumeRead(call, id, verdict) =>
        s.(db := LogDb(db, id, verdict), calls := s.calls[call := ResumeCall(id, verdict, ToUpdate)])
      case ResumeUpdate(call) =>
        var id, verdict := s.calls[call].id, s.calls[call].verdict;
        s.(db := UpdateStateDb(db, id, StatusAfterResume(verdict), Some(verdict)),
           calls := if verdict == Allow then s.calls[call := ResumeCall(id, verdict, ToMark)] else s.calls - {call})
      case ResumeMark(call) =>
        s.(db := MarkDb(db, s.calls[call].id, ActQueued), calls := s.calls - {call});
    next.(clock := now)
  }

  /** Events in which `cancel` and `resume` are one step. */
  predicate Atomic(e: Event) {
    !(e.CancelRead? || e.CancelUpdate? || e.CancelMark? || e.ResumeRead? || e.ResumeUpdate? || e.ResumeMark?)
  }

  // ---------- runs ----------

  ghost predicate LegalRun(s: State, run: seq<Timed>)
    requires Coherent(s)
    decreases |run|, 0
  {
    run == [] || (LegalRun(s, run[..|run| - 1]) && Legal(Exec(s, run[..|run| - 1]), run[|run| - 1]))
  }

  ghost function Exec(s: State, run: seq<Timed>): (r: State)
    requires Coherent(s) && LegalRun(s, run)
    ensures Coherent(r) && s.db.commands.Keys <= r.db.commands.Keys
    decreases |run|, 1
  {
    if run == [] then s else Step(Exec(s, run[..|run| - 1]), run[|run| - 1])
  }

  ghost predicate AtomicRun(run: seq<Timed>) {
    forall i | 0 <= i < |run| :: Atomic(run[i].event)
  }

  // ---------- the invariant of one command ----------

  datatype Entry = Entry(row: CommandRow, acts: seq<ActivityRow>, claims: seq<ClaimRecord>)

  function EntryOf(s: State, id: CommandId): Entry
    requires Coherent(s) && id in s.db.commands
  {
    Entry(s.db.commands[id], s.db.activities[id], s.claims[id])
  }

  /** The claims of a command follow each other: each starts when the ones before have ended. */
  predicate Disjoint(claims: seq<ClaimRecord>) {
    forall i, j | 0 <= i < j < |claims| :: End(claims[i]) <= claims[j].at
  }

  predicate LeaseMatchesHistory(e: Entry, clock: Time) {
    && (e.row.leaseOwner.Some? <==> e.row.leaseUntil.Some?)
    && (e.row.leaseUntil.Some? ==>
          && e.claims != []
          && var last := e.claims[|e.claims| - 1];
             last.released.None? && last.until == e.row.leaseUntil.value && last.worker == e.row.leaseOwner.value)
    && (e.row.leaseUntil.None? && e.claims != [] ==>
          var last := e.claims[|e.claims| - 1]; last.released.Some? && last.released.value <= clock)
    && (forall c | c in e.claims :: c.at <= clock)
  }

  predicate RunningIsLeased(e: Entry) {
    e.row.status == Running ==>
      && e.row.leaseUntil.Some?
      && forall act | act in e.acts && act.status == ActRunning ::
           act.leaseOwner == e.row.leaseOwner && act.leaseUntil == e.row.leaseUntil
  }

  predicate AttemptsAreClaims(e: Entry) {
    forall k | 0 <= k < |e.acts| :: e.acts[k].attempts == ClaimsWhileOpen(e.claims, k)
  }

  /** Whoever may run, or ever ran, was allowed under its own trace. */
  predicate Gated(id: CommandId, e: Entry, log: seq<Evaluation>) {
    e.row.status in {Queued, Running} || e.claims != [] ==> Decided(log, id, e.row.traceId, Allow)
  }

  predicate EntryInv(id: CommandId, e: Entry, log: seq<Evaluation>, clock: Time) {
    && e.row.cursor == Cursor(id, e.row.status)
    && Disjoint(e.claims)
    && LeaseMatchesHistory(e, clock)
    && RunningIsLeased(e)
    && AttemptsAreClaims(e)
    && Gated(id, e, log)
  }

  predicate CallInv(s: State, call: Call)
    requires Coherent(s)
  {
    && call.id in s.db.commands
    && (call.ResumeCall?
        ==> Evaluation(call.id, s.db.commands[call.id].traceId, call.verdict, ByResume) in s.db.policyLog)
    && (call.ResumeCall? && call.stage == ToMark ==> call.verdict == Allow)
  }

  predicate OwnTraces(db: Db) {
    forall a, b | a in db.commands && b in db.commands && a != b :: db.commands[a].traceId != db.commands[b].traceId
  }

  ghost predicate Inv(s: State) {
    && Coherent(s)
    && (forall id | id in s.db.commands :: EntryInv(id, EntryOf(s, id), s.db.policyLog, s.clock))
    && (forall call | call in s.calls :: CallInv(s, s.calls[call]))
    && OwnTraces(s.db)
  }

  // ---------- what each statement keeps, command by command ----------

  lemma EntryInvLater(id: CommandId, e: Entry, log: seq<Evaluation>, clock: Time, log': seq<Evaluation>, clock': Time)
    requires EntryInv(id, e, log, clock) && log <= log' && clock <= clock'
    ensures EntryInv(id, e, log', clock')
  {
  }

  lemma CountAfterClaim(claims: seq<ClaimRecord>, c: ClaimRecord, k: nat)
    ensures ClaimsWhileOpen(claims + [c], k)
         == ClaimsWhileOpen(claims, k) + (if k < |c.before| && Open(c.before[k]) then 1 else 0)
  {
    assert (claims + [c])[..|claims|] == claims;
  }

  lemma CountAfterTouch(claims: seq<ClaimRecord>, c: ClaimRecord, k: nat)
    requires claims != [] && c.before == claims[|claims| - 1].before
    ensures ClaimsWhileOpen(claims[|claims| - 1 := c], k) == ClaimsWhileOpen(claims, k)
  {
    assert claims[|claims| - 1 := c][..|claims| - 1] == claims[..|claims| - 1];
  }

  /** When a command is claimable, every earlier claim has ended. */
  lemma ClaimsHaveEnded(e: Entry, clock: Time, now: Time)
    requires Disjoint(e.claims) && LeaseMatchesHistory(e, clock) && clock <= now && Claimable(e.row, now)
    requires RunningIsLeased(e)
    ensures forall i | 0 <= i < |e.claims| :: End(e.claims[i]) <= now
  {
    var n := |e.claims|;
    forall i | 0 <= i < n ensures End(e.claims[i]) <= now {
      if i < n - 1 {
        assert End(e.claims[i]) <= e.claims[n - 1].at;
        assert e.claims[n - 1] in e.claims;
      }
    }
  }

  function ClaimedEntry(id: CommandId, e: Entry, worker: WorkerId, now: Time, until: Time): Entry {
    Entry(ClaimedRow(id, e.row, worker, until),
          ClaimedActivities(e.acts, worker, now, until),
          AfterClaim(e.claims, worker, now, until, e.acts))
  }

  lemma ClaimKeeps(id: CommandId, e: Entry, log: seq<Evaluation>, clock: Time, worker: WorkerId, now: Time, until: Time)
    requires EntryInv(id, e, log, clock) && clock <= now && Claimable(e.row, now)
    ensures EntryInv(id, ClaimedEntry(id, e, worker, now, until), log, now)
  {
    var r := ClaimedEntry(id, e, worker, now, until);
    var n := |e.claims|;
    ClaimsHaveEnded(e, clock, now);
    forall k | 0 <= k < |r.acts| ensures r.acts[k].attempts == ClaimsWhileOpen(r.claims, k) {
      CountAfterClaim(e.claims, r.claims[n], k);
    }
  }

  function ExtendedEntry(id: CommandId, e: Entry, worker: WorkerId, until: Time): Entry {
    Entry(ExtendedRow(id, e.row, worker, until),
          ExtendedActivities(e.acts, worker, until),
          AfterExtend(e.claims, e.row, worker, until))
  }

  lemma ExtendKeeps(
      id: CommandId, e: Entry, log: seq<Evaluation>, clock: Time, worker: WorkerId, now: Time, until: Time)
    requires EntryInv(id, e, log, clock) && clock <= now
    ensures EntryInv(id, ExtendedEntry(id, e, worker, until), log, now)
  {
    var r := ExtendedEntry(id, e, worker, until);
    forall k | 0 <= k < |r.acts| ensures r.acts[k].attempts == ClaimsWhileOpen(r.claims, k) {
      if RowHeldBy(e.row, worker) {
        CountAfterTouch(e.claims, r.claims[|e.claims| - 1], k);
      }
    }
    forall act | act in r.acts && r.row.status == Running && act.status == ActRunning
      ensures act.leaseOwner == r.row.leaseOwner && act.leaseUntil == r.row.leaseUntil
    {
      var k :| 0 <= k < |r.acts| && r.acts[k] == act;
      assert e.acts[k] in e.acts;
    }
  }

  function ReportedEntry(e: Entry, k: nat, status: ActivityStatus, now: Time): Entry {
    if k < |e.acts| then e.(acts := e.acts[k := FinishedActivity(e.acts[k], status, now)]) else e
  }

  lemma FinishActivityKeeps(
      id: CommandId, e: Entry, log: seq<Evaluation>, clock: Time, k: nat, status: ActivityStatus, now: Time)
    requires EntryInv(id, e, log, clock) && clock <= now && status != ActRunning
    ensures EntryInv(id, ReportedEntry(e, k, status, now), log, now)
  {
    var acts := ReportedEntry(e, k, status, now).acts;
    forall act | act in acts && act.status == ActRunning ensures act in e.acts {
      var j :| 0 <= j < |acts| && acts[j] == act;
    }
  }

  function FinishedEntry(id: CommandId, e: Entry, status: CommandStatus, now: Time): Entry {
    Entry(FinishedRow(id, e.row, status), e.acts, AfterFinish(e.claims, e.row, now))
  }

  lemma FinishCommandKeeps(id: CommandId, e: Entry, log: seq<Evaluation>, clock: Time, status: CommandStatus, now: Time)
    requires EntryInv(id, e, log, clock) && clock <= now && status in {Completed, Failed}
    ensures EntryInv(id, FinishedEntry(id, e, status, now), log, now)
  {
    var r := FinishedEntry(id, e, status, now);
    forall k | 0 <= k < |r.acts| ensures r.acts[k].attempts == ClaimsWhileOpen(r.claims, k) {
      if r.claims != e.claims {
        CountAfterTouch(e.claims, r.claims[|e.claims| - 1], k);
      }
    }
  }

  lemma UpdateStateKeeps(id: CommandId, e: Entry, log: seq<Evaluation>, clock: Time, row: CommandRow)
    requires EntryInv(id, e, log, clock)
    requires row.leaseOwner == e.row.leaseOwner && row.leaseUntil == e.row.leaseUntil && row.traceId == e.row.traceId
    requires row.cursor == Cursor(id, row.status) && row.status != Running
    requires row.status == Queued ==> Decided(log, id, row.traceId, Allow)
    ensures EntryInv(id, e.(row := row), log, clock)
  {
  }

  lemma MarkKeeps(id: CommandId, e: Entry, log: seq<Evaluation>, clock: Time, status: ActivityStatus)
    requires EntryInv(id, e, log, clock) && status != ActRunning
    ensures EntryInv(id, e.(acts := MarkedActivities(e.acts, status)), log, clock)
  {
    var acts := MarkedActivities(e.acts, status);
    assert forall act | act in acts :: act.status != ActRunning;
  }

  lemma NewEntryInv(sub: Submission, log: seq<Evaluation>, clock: Time)
    requires Evaluation(sub.id, sub.traceId, sub.verdict, ByInsert) in log
    ensures EntryInv(sub.id, Entry(NewRow(sub), NewActivities(sub), []), log, clock)
  {
  }

  // ---------- what each step keeps ----------

  /** The state in which one command's entry, the pending calls and the clock are replaced. */
  function Replace(s: State, id: CommandId, e: Entry, calls: map<CallId, Call>, now: Time): (r: State)
    requires Coherent(s) && id in s.db.commands
    ensures Coherent(r)
  {
    State(Put(s.db, id, e.row, e.acts), s.claims[id := e.claims], calls, now)
  }

  /** No pending call is new, and each still names the command and the verdict it read. */
  predicate CallsGoOn(calls: map<CallId, Call>, calls': map<CallId, Call>) {
    forall call | call in calls' ::
      && call in calls
      && calls'[call].id == calls[call].id
      && (calls'[call].ResumeCall? ==>
            && calls[call].ResumeCall? && calls'[call].verdict == calls[call].verdict
            && (calls'[call].stage == ToMark ==> calls[call].stage == ToMark || calls[call].verdict == Allow))
  }

  lemma ReplacedEntry(s: State, id: CommandId, e: Entry, calls: map<CallId, Call>, now: Time, other: CommandId)
    requires Coherent(s) && id in s.db.commands && s.clock <= now && other in s.db.commands
    requires EntryInv(id, e, s.db.policyLog, now)
    requires EntryInv(other, EntryOf(s, other), s.db.policyLog, s.clock)
    ensures var s' := Replace(s, id, e, calls, now);
      other in s'.db.commands && EntryInv(other, EntryOf(s', other), s'.db.policyLog, now)
  {
    var s' := Replace(s, id, e, calls, now);
    EntryInvLater(other, EntryOf(s, other), s.db.policyLog, s.clock, s.db.policyLog, now);
    assert EntryOf(s', other) == if other == id then e else EntryOf(s, other);
  }

  lemma ReplacedCall(s: State, id: CommandId, e: Entry, calls: map<CallId, Call>, now: Time, call: CallId)
    requires Coherent(s) && id in s.db.commands && e.row.traceId == s.db.commands[id].traceId
    requires CallsGoOn(s.calls, calls) && call in calls && CallInv(s, s.calls[call])
    ensures CallInv(Replace(s, id, e, calls, now), calls[call])
  {
  }

  lemma ReplaceKeeps(s: State, id: CommandId, e: Entry, calls: map<CallId, Call>, now: Time)
    requires Inv(s) && id in s.db.commands && s.clock <= now
    requires EntryInv(id, e, s.db.policyLog, now) && e.row.traceId == s.db.commands[id].traceId
    requires CallsGoOn(s.calls, calls)
    ensures Inv(Replace(s, id, e, calls, now))
  {
    var s' := Replace(s, id, e, calls, now);
    forall other | other in s'.db.commands ensures EntryInv(other, EntryOf(s', other), s'.db.policyLog, now) {
      ReplacedEntry(s, id, e, calls, now, other);
    }
    forall call | call in calls ensures CallInv(s', calls[call]) {
      ReplacedCall(s, id, e, calls, now, call);
    }
    assert OwnTraces(s'.db);
  }

  lemma LogKeeps(s: State, id: CommandId, verdict: Verdict)
    requires Inv(s) && id in s.db.commands
    ensures Inv(s.(db := LogDb(s.db, id, verdict)))
  {
    var s' := s.(db := LogDb(s.db, id, verdict));
    forall other | other in s'.db.commands ensures EntryInv(other, EntryOf(s', other), s'.db.policyLog, s.clock) {
      assert EntryOf(s', other) == EntryOf(s, other);
      EntryInvLater(other, EntryOf(s, other), s.db.policyLog, s.clock, s'.db.policyLog, s.clock);
    }
    forall call | call in s.calls ensures CallInv(s', s.calls[call]) {
      assert CallInv(s, s.calls[call]);
    }
  }

  lemma TickKeeps(s: State, now: Time)
    requires Inv(s) && s.clock <= now
    ensures Inv(s.(clock := now))
  {
    var s' := s.(clock := now);
    forall other | other in s.db.commands ensures EntryInv(other, EntryOf(s', other), s.db.policyLog, now) {
      EntryInvLater(other, EntryOf(s, other), s.db.policyLog, s.clock, s.db.policyLog, now);
    }
    forall call | call in s.calls ensures CallInv(s', s.calls[call]) {
      assert CallInv(s, s.calls[call]);
    }
  }

  lemma InsertedEntry(s: State, sub: Submission, now: Time, other: CommandId)
    requires Coherent(s) && s.clock <= now && other in SubmitDb(s.db, sub).commands
    requires other in s.db.commands ==> EntryInv(other, EntryOf(s, other), s.db.policyLog, s.clock)
    ensures var s' := Inserted(s, s.db, sub).(clock := now); EntryInv(other, EntryOf(s', other), s'.db.policyLog, now)
  {
    var s' := Inserted(s, s.db, sub).(clock := now);
    var log := s'.db.policyLog;
    if other in s.db.commands {
      EntryInvLater(other, EntryOf(s, other), s.db.policyLog, s.clock, log, now);
      assert EntryOf(s', other) == EntryOf(s, other);
    } else {
      assert log[|s.db.policyLog|] == Evaluation(sub.id, sub.traceId, sub.verdict, ByInsert);
      NewEntryInv(sub, log, now);
    }
  }

  lemma InsertKeeps(s: State, sub: Submission, now: Time)
    requires Inv(s) && s.clock <= now
    ensures Inv(Inserted(s, s.db, sub).(clock := now))
  {
    var s' := Inserted(s, s.db, sub).(clock := now);
    forall other | other in s'.db.commands ensures EntryInv(other, EntryOf(s', other), s'.db.policyLog, now) {
      InsertedEntry(s, sub, now, other);
    }
    forall call | call in s'.calls ensures CallInv(s', s'.calls[call]) {
      InsertedCall(s, sub, now, call);
    }
    InsertedTraces(s.db, sub);
  }

  lemma InsertedCall(s: State, sub: Submission, now: Time, call: CallId)
    requires Coherent(s) && call in s.calls && CallInv(s, s.calls[call])
    ensures CallInv(Inserted(s, s.db, sub).(clock := now), s.calls[call])
  {
  }

  lemma InsertedTraces(db: Db, sub: Submission)
    requires WellFormed(db) && OwnTraces(db)
    ensures OwnTraces(SubmitDb(db, sub))
  {
  }

  function RestatusedEntry(id: CommandId, e: Entry, status: CommandStatus, verdict: Option<Verdict>): Entry {
    var row := WithStatus(id, e.row, status);
    e.(row := if verdict.None? then row else row.(verdict := verdict.value))
  }

  function MarkedEntry(e: Entry, status: ActivityStatus): Entry {
    e.(acts := MarkedActivities(e.acts, status))
  }

  function ResumedEntry(id: CommandId, e: Entry, verdict: Verdict): Entry {
    var updated := RestatusedEntry(id, e, StatusAfterResume(verdict), Some(verdict));
    if verdict == Allow then MarkedEntry(updated, ActQueued) else updated
  }

  lemma CancelShape(s: State, id: CommandId, now: Time)
    requires Coherent(s) && id in s.db.commands && !Terminal(s.db.commands[id].status)
    ensures s.(db := CancelDb(s.db, id), clock := now)
         == Replace(s, id, MarkedEntry(RestatusedEntry(id, EntryOf(s, id), Canceled, None), ActCanceled), s.calls, now)
  {
    assert s.claims[id := s.claims[id]] == s.claims;
    var a := CancelDb(s.db, id);
    var acts := MarkedActivities(s.db.activities[id], ActCanceled);
    var b := Put(s.db, id, WithStatus(id, s.db.commands[id], Canceled), acts);
    assert a.commands == b.commands && a.activities == b.activities;
  }

  lemma CancelKeeps(s: State, id: CommandId, now: Time)
    requires Inv(s) && s.clock <= now
    ensures Inv(s.(db := CancelDb(s.db, id), clock := now))
  {
    if id in s.db.commands && !Terminal(s.db.commands[id].status) {
      var e, log := EntryOf(s, id), s.db.policyLog;
      EntryInvLater(id, e, log, s.clock, log, now);
      var e1 := RestatusedEntry(id, e, Canceled, None);
      UpdateStateKeeps(id, e, log, now, e1.row);
      MarkKeeps(id, e1, log, now, ActCanceled);
      ReplaceKeeps(s, id, MarkedEntry(e1, ActCanceled), s.calls, now);
      CancelShape(s, id, now);
    } else {
      TickKeeps(s, now);
    }
  }

  lemma ResumeShape(s: State, id: CommandId, verdict: Verdict, now: Time)
    requires Coherent(s) && id in s.db.commands && s.db.commands[id].status == BlockedApproval
    ensures s.(db := ResumeDb(s.db, id, verdict), clock := now)
         == Replace(s.(db := LogDb(s.db, id, verdict)), id, ResumedEntry(id, EntryOf(s, id), verdict), s.calls, now)
  {
    assert s.claims[id := s.claims[id]] == s.claims;
    var e := ResumedEntry(id, EntryOf(s, id), verdict);
    var a := ResumeDb(s.db, id, verdict);
    var b := Put(LogDb(s.db, id, verdict), id, e.row, e.acts);
    assert a.commands == b.commands && a.activities == b.activities;
  }

  lemma ResumeKeeps(s: State, id: CommandId, verdict: Verdict, now: Time)
    requires Inv(s) && s.clock <= now && id in s.db.commands && s.db.commands[id].status == BlockedApproval
    ensures Inv(s.(db := ResumeDb(s.db, id, verdict), clock := now))
  {
    LogKeeps(s, id, verdict);
    var s1 := s.(db := LogDb(s.db, id, verdict));
    var e, log := EntryOf(s1, id), s1.db.policyLog;
    assert log[|s.db.policyLog|] == Evaluation(id, e.row.traceId, verdict, ByResume);
    EntryInvLater(id, e, log, s.clock, log, now);
    var e1 := RestatusedEntry(id, e, StatusAfterResume(verdict), Some(verdict));
    UpdateStateKeeps(id, e, log, now, e1.row);
    if verdict == Allow {
      MarkKeeps(id, e1, log, now, ActQueued);
    }
    ReplaceKeeps(s1, id, ResumedEntry(id, e, verdict), s.calls, now);
    ResumeShape(s, id, verdict, now);
  }

  /** What a worker's step, or a write of a pending call, makes of the entry it concerns. */
  function TouchedEntry(s: State, t: Timed, id: CommandId): Entry
    requires Coherent(s) && Legal(s, t) && id in s.db.commands
  {
    var e := EntryOf(s, id);
    match t.event
    case ClaimNext(worker, leaseMs, _, _) => ClaimedEntry(id, e, worker, t.now, t.now + leaseMs)
    case ExtendLease(_, worker, leaseMs) => ExtendedEntry(id, e, worker, t.now + leaseMs)
    case FinishActivity(_, k, outcome) =>
      ReportedEntry(e, k, outcome, t.now)
    case FinishCommand(_, status) => FinishedEntry(id, e, status, t.now)
    case CancelUpdate(_) => RestatusedEntry(id, e, Canceled, None)
    case CancelMark(_) => MarkedEntry(e, ActCanceled)
    case ResumeUpdate(call) =>
      RestatusedEntry(id, e, StatusAfterResume(s.calls[call].verdict), Some(s.calls[call].verdict))
    case ResumeMark(_) => MarkedEntry(e, ActQueued)
    case _ => e
  }

  predicate Touches(s: State, t: Timed, id: CommandId)
    requires Coherent(s) && Legal(s, t)
  {
    match t.event
    case ClaimNext(_, _, _, picked) => picked == Some(id)
    case ExtendLease(i, _, _) => i == id
    case FinishActivity(i, _, _) => i == id
    case FinishCommand(i, _) => i == id
    case CancelUpdate(call) => s.calls[call].id == id
    case CancelMark(call) => s.calls[call].id == id
    case ResumeUpdate(call) => s.calls[call].id == id
    case ResumeMark(call) => s.calls[call].id == id
    case _ => false
  }

  lemma TouchShape(s: State, t: Timed, id: CommandId)
    requires Coherent(s) && Legal(s, t) && id in s.db.commands && Touches(s, t, id)
    ensures Step(s, t) == Replace(s, id, TouchedEntry(s, t, id), Step(s, t).calls, t.now)
    ensures CallsGoOn(s.calls, Step(s, t).calls)
  {
    assert s.claims[id := s.claims[id]] == s.claims;
    assert s.db.activities[id := s.db.activities[id]] == s.db.activities;
    assert s.db.commands[id := s.db.commands[id]] == s.db.commands;
  }

  lemma ClaimNextEntryInv(s: State, t: Timed, id: CommandId)
    requires Coherent(s) && Legal(s, t) && id in s.db.commands && Touches(s, t, id) && t.event.ClaimNext?
    requires EntryInv(id, EntryOf(s, id), s.db.policyLog, s.clock)
    ensures EntryInv(id, TouchedEntry(s, t, id), s.db.policyLog, t.now)
  {
    ClaimKeeps(id, EntryOf(s, id), s.db.policyLog, s.clock, t.event.worker, t.now, t.now + t.event.leaseMs);
  }

  lemma ExtendLeaseEntryInv(s: State, t: Timed, id: CommandId)
    requires Coherent(s) && Legal(s, t) && id in s.db.commands && Touches(s, t, id) && t.event.ExtendLease?
    requires EntryInv(id, EntryOf(s, id), s.db.policyLog, s.clock)
    ensures EntryInv(id, TouchedEntry(s, t, id), s.db.policyLog, t.now)
  {
    ExtendKeeps(id, EntryOf(s, id), s.db.policyLog, s.clock, t.event.worker, t.now, t.now + t.event.leaseMs);
  }

  lemma FinishActivityEntryInv(s: State, t: Timed, id: CommandId)
    requires Coherent(s) && Legal(s, t) && id in s.db.commands && Touches(s, t, id) && t.event.FinishActivity?
    requires EntryInv(id, EntryOf(s, id), s.db.policyLog, s.clock)
    ensures EntryInv(id, TouchedEntry(s, t, id), s.db.policyLog, t.now)
  {
    FinishActivityKeeps(id, EntryOf(s, id), s.db.policyLog, s.clock, t.event.k, t.event.outcome, t.now);
  }

  lemma FinishCommandEntryInv(s: State, t: Timed, id: CommandId)
    requires Coherent(s) && Legal(s, t) && id in s.db.commands && Touches(s, t, id) && t.event.FinishCommand?
    requires EntryInv(id, EntryOf(s, id), s.db.policyLog, s.clock)
    ensures EntryInv(id, TouchedEntry(s, t, id), s.db.policyLog, t.now)
  {
    FinishCommandKeeps(id, EntryOf(s, id), s.db.policyLog, s.clock, t.event.status, t.now);
  }

  lemma CallEntryInv(s: State, t: Timed, id: CommandId)
    requires Coherent(s) && Legal(s, t) && id in s.db.commands && Touches(s, t, id)
    requires t.event.CancelUpdate? || t.event.CancelMark? || t.event.ResumeUpdate? || t.event.ResumeMark?
    requires EntryInv(id, EntryOf(s, id), s.db.policyLog, s.clock) && CallInv(s, s.calls[t.event.call])
    ensures EntryInv(id, TouchedEntry(s, t, id), s.db.policyLog, t.now)
  {
    var e, log := EntryOf(s, id), s.db.policyLog;
    EntryInvLater(id, e, log, s.clock, log, t.now);
    if t.event.CancelMark? {
      MarkKeeps(id, e, log, t.now, ActCanceled);
    } else if t.event.ResumeMark? {
      MarkKeeps(id, e, log, t.now, ActQueued);
    } else {
      UpdateStateKeeps(id, e, log, t.now, TouchedEntry(s, t, id).row);
    }
  }

  lemma TouchedEntryInv(s: State, t: Timed, id: CommandId)
    requires Inv(s) && Legal(s, t) && id in s.db.commands && Touches(s, t, id)
    ensures EntryInv(id, TouchedEntry(s, t, id), s.db.policyLog, t.now)
  {
    match t.event
    case ClaimNext(_, _, _, _) => ClaimNextEntryInv(s, t, id);
    case ExtendLease(_, _, _) => ExtendLeaseEntryInv(s, t, id);
    case FinishActivity(_, _, _) => FinishActivityEntryInv(s, t, id);
    case FinishCommand(_, _) => FinishCommandEntryInv(s, t, id);
    case _ => CallEntryInv(s, t, id);
  }

  lemma TouchKeepsTrace(s: State, t: Timed, id: CommandId)
    requires Coherent(s) && Legal(s, t) && id in s.db.commands && Touches(s, t, id)
    ensures TouchedEntry(s, t, id).row.traceId == s.db.commands[id].traceId
  {
  }

  lemma TouchKeeps(s: State, t: Timed, id: CommandId)
    requires Inv(s) && Legal(s, t) && id in s.db.commands && Touches(s, t, id)
    ensures Inv(Step(s, t))
  {
    TouchShape(s, t, id);
    TouchedEntryInv(s, t, id);
    TouchKeepsTrace(s, t, id);
    ReplaceKeeps(s, id, TouchedEntry(s, t, id), Step(s, t).calls, t.now);
  }

  lemma CallReadKeeps(s: State, t: Timed)
    requires Inv(s) && Legal(s, t) && (t.event.CancelRead? || t.event.ResumeRead?)
    ensures Inv(Step(s, t))
  {
    TickKeeps(s, t.now);
    var s1 := s.(clock := t.now);
    if t.event.ResumeRead? {
      LogKeeps(s1, t.event.id, t.event.verdict);
      s1 := s1.(db := LogDb(s.db, t.event.id, t.event.verdict));
      assert s1.db.policyLog[|s.db.policyLog|] 
        == Evaluation(t.event.id, s.db.commands[t.event.id].traceId, t.event.verdict, ByResume);
    }
    var s' := Step(s, t);
    assert s' == s1.(calls := s'.calls);
    forall id | id in s'.db.commands ensures EntryInv(id, EntryOf(s', id), s'.db.policyLog, s'.clock) {
      assert EntryOf(s', id) == EntryOf(s1, id);
    }
    forall call | call in s'.calls ensures CallInv(s', s'.calls[call]) {
      if call != t.event.call {
        assert CallInv(s1, s.calls[call]);
      }
    }
  }

  /** What an operator's call makes of the state. */
  function AfterOperator(s: State, t: Timed): State
    requires Coherent(s)
  {
    match t.event
    case Submit(sub) => Inserted(s, s.db, sub).(clock := t.now)
    case Cancel(id) => s.(db := CancelDb(s.db, id), clock := t.now)
    case Resume(id, verdict) => s.(db := ResumeDb(s.db, id, verdict), clock := t.now)
    case Retry(id, copy) =>
      if Retryable(s.db, id) then Inserted(s, s.db, copy).(clock := t.now) else s.(clock := t.now)
    case Requeue(id, copy) =>
      if Requeueable(s.db, id)
      then Inserted(s.(db := CancelDb(s.db, id), clock := t.now), CancelDb(s.db, id), copy).(clock := t.now)
      else s.(clock := t.now)
    case _ => s
  }

  predicate ByOperator(e: Event) {
    e.Submit? || e.Cancel? || e.Resume? || e.Retry? || e.Requeue?
  }

  lemma OperatorShape(s: State, t: Timed)
    requires Coherent(s) && Legal(s, t) && ByOperator(t.event)
    ensures Step(s, t) == AfterOperator(s, t)
  {
  }

  lemma RequeueKeeps(s: State, id: CommandId, copy: Submission, now: Time)
    requires Inv(s) && s.clock <= now
    ensures Inv(Inserted(s.(db := CancelDb(s.db, id), clock := now), CancelDb(s.db, id), copy).(clock := now))
  {
    CancelKeeps(s, id, now);
    InsertKeeps(s.(db := CancelDb(s.db, id), clock := now), copy, now);
  }

  lemma ResumeOrTickKeeps(s: State, id: CommandId, verdict: Verdict, now: Time)
    requires Inv(s) && s.clock <= now
    ensures Inv(s.(db := ResumeDb(s.db, id, verdict), clock := now))
  {
    if id in s.db.commands && s.db.commands[id].status == BlockedApproval {
      ResumeKeeps(s, id, verdict, now);
    } else {
      TickKeeps(s, now);
    }
  }

  lemma OperatorKeeps(s: State, t: Timed)
    requires Inv(s) && Legal(s, t) && ByOperator(t.event)
    ensures Inv(Step(s, t))
  {
    OperatorShape(s, t);
    TickKeeps(s, t.now);
    match t.event
    case Submit(sub) => InsertKeeps(s, sub, t.now);
    case Cancel(id) => CancelKeeps(s, id, t.now);
    case Resume(id, verdict) => ResumeOrTickKeeps(s, id, verdict, t.now);
    case Retry(id, copy) => InsertKeeps(s, copy, t.now);
    case Requeue(id, copy) => RequeueKeeps(s, id, copy, t.now);
  }

  lemma StepKeepsInv(s: State, t: Timed)
    requires Inv(s) && Legal(s, t)
    ensures Inv(Step(s, t))
  {
    match t.event
    case ClaimNext(_, _, _, picked) =>
      if picked.Some? {
        TouchKeeps(s, t, picked.value);
      } else {
        TickKeeps(s, t.now);
      }
    case ExtendLease(id, _, _) => TouchOrTickKeeps(s, t, id);
    case FinishActivity(id, _, _) => TouchOrTickKeeps(s, t, id);
    case FinishCommand(id, _) => TouchOrTickKeeps(s, t, id);
    case CancelRead(_, _) => CallReadKeeps(s, t);
    case ResumeRead(_, _, _) => CallReadKeeps(s, t);
    case CancelUpdate(call) => TouchCallKeeps(s, t, call);
    case CancelMark(call) => TouchCallKeeps(s, t, call);
    case ResumeUpdate(call) => TouchCallKeeps(s, t, call);
    case ResumeMark(call) => TouchCallKeeps(s, t, call);
    case _ => OperatorKeeps(s, t);
  }

  lemma TouchOrTickKeeps(s: State, t: Timed, id: CommandId)
    requires Inv(s) && Legal(s, t) && Touches(s, t, id)
    requires t.event.ExtendLease? || t.event.FinishActivity? || t.event.FinishCommand?
    ensures Inv(Step(s, t))
  {
    if id in s.db.commands {
      TouchKeeps(s, t, id);
    } else {
      TickKeeps(s, t.now);
    }
  }

  lemma TouchCallKeeps(s: State, t: Timed, call: CallId)
    requires Inv(s) && Legal(s, t) && call in s.calls && Touches(s, t, s.calls[call].id)
    ensures Inv(Step(s, t))
  {
    assert CallInv(s, s.calls[call]);
    TouchKeeps(s, t, s.calls[call].id);
  }

  // ---------- a step, seen from one command ----------

  /** The entry of an existing command after any step. */
  function EntryAfter(s: State, t: Timed, id: CommandId): Entry
    requires Coherent(s) && Legal(s, t) && id in s.db.commands
  {
    var e := EntryOf(s, id);
    if Touches(s, t, id) then TouchedEntry(s, t, id)
    else if (t.event.Cancel? && t.event.id == id && !Terminal(e.row.status))
         || (t.event.Requeue? && t.event.id == id && Requeueable(s.db, id))
      then MarkedEntry(RestatusedEntry(id, e, Canceled, None), ActCanceled)
    else if t.event.Resume? && t.event.id == id && e.row.status == BlockedApproval
      then ResumedEntry(id, e, t.event.verdict)
    else e
  }

  /** The submission a step tries to insert, if any. */
  function Offered(s: State, t: Timed): Option<Submission>
    requires Coherent(s) && Legal(s, t)
  {
    match t.event
    case Submit(sub) => Some(sub)
    case Retry(id, copy) => if Retryable(s.db, id) then Some(copy) else None
    case Requeue(id, copy) => if Requeueable(s.db, id) then Some(copy) else None
    case _ => None
  }

  lemma TouchedStep(s: State, t: Timed, id: CommandId)
    requires Coherent(s) && Legal(s, t) && id in s.db.commands && !Offered(s, t).Some?
    ensures EntryOf(Step(s, t), id) == EntryAfter(s, t, id)
  {
    if Touches(s, t, id) {
      TouchShape(s, t, id);
    }
  }

  lemma CancelKeepsTraces(db: Db, id: CommandId)
    requires WellFormed(db)
    ensures CancelDb(db, id).commands.Keys == db.commands.Keys
    ensures forall other | other in db.commands ::
         CancelDb(db, id).commands[other].traceId == db.commands[other].traceId
  {
  }

  lemma OfferedStep(s: State, t: Timed, id: CommandId)
    requires Coherent(s) && Legal(s, t) && id in s.db.commands && Offered(s, t).Some?
    ensures EntryOf(Step(s, t), id) == EntryAfter(s, t, id)
  {
    if t.event.Requeue? {
      CancelKeepsTraces(s.db, t.event.id);
    }
  }

  lemma StepEntry(s: State, t: Timed, id: CommandId)
    requires Coherent(s) && Legal(s, t) && id in s.db.commands
    ensures EntryOf(Step(s, t), id) == EntryAfter(s, t, id)
  {
    if Offered(s, t).Some? {
      OfferedStep(s, t, id);
    } else {
      TouchedStep(s, t, id);
    }
  }

  /** A command appears only as the accepted submission of the step. */
  lemma StepInserts(s: State, t: Timed, id: CommandId)
    requires Coherent(s) && Legal(s, t) && id !in s.db.commands
    ensures id in Step(s, t).db.commands <==>
              Offered(s, t).Some? && Offered(s, t).value.id == id && Insertable(s.db, Offered(s, t).value)
    ensures id in Step(s, t).db.commands ==>
              EntryOf(Step(s, t), id) == Entry(NewRow(Offered(s, t).value), NewActivities(Offered(s, t).value), [])
  {
    if t.event.Requeue? {
      CancelKeepsTraces(s.db, t.event.id);
    }
  }

  /** The invariant holds after every run, however the steps of the callers interleave. */
  lemma {:induction false} RunKeepsInv(s: State, run: seq<Timed>)
    requires Inv(s) && LegalRun(s, run)
    ensures Inv(Exec(s, run))
    decreases |run|
  {
    if run != [] {
      RunKeepsInv(s, run[..|run| - 1]);
      StepKeepsInv(Exec(s, run[..|run| - 1]), run[|run| - 1]);
    }
  }
}
