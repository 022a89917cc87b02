/** The two tables of the command store and its prepared SQL statements, one function a statement.

    Identifiers are opaque to the store, so they are numbers here; ISO timestamps compare like the
    milliseconds they print, so they are integers.  JSON columns that no statement reads are left out. */
module CommandRows {
  import opened Options

  type CommandId = nat
  type TraceId = nat
  type WorkerId = nat
  type Time = int

  datatype CommandStatus = Queued | Running | BlockedApproval | BlockedPolicy | Completed | Failed | Canceled
  datatype ActivityStatus = ActQueued | ActRunning | ActBlocked | ActCompleted | ActFailed | ActCanceled
  datatype Verdict = Allow | RequiresApproval | Deny

  /** `<commandId>:<status>`, the text of `resume_cursor`. */
  datatype Cursor = Cursor(id: CommandId, status: CommandStatus)

  datatype CommandRow = CommandRow(
    traceId: TraceId,
    status: CommandStatus,
    requestedAt: Time,
    approvalClass: Option<nat>,
    verdict: Verdict,
    cursor: Cursor,
    leaseOwner: Option<WorkerId>,
    leaseUntil: Option<Time>)

  datatype ActivityRow = ActivityRow(
    status: ActivityStatus,
    attempts: nat,
    leaseOwner: Option<WorkerId>,
    leaseUntil: Option<Time>,
    startedAt: Option<Time>,
    finishedAt: Option<Time>)

  /** The call that asked for a verdict, and for a submission whether its row was inserted. */
  datatype Cause = ByInsert | ByRefusedInsert | ByResume

  /** A `policy.evaluated` event: the verdict and the command and trace it was asked for.  `cause` is
      history that no statement reads. */
  datatype Evaluation = Evaluation(commandId: CommandId, traceId: TraceId, verdict: Verdict, cause: Cause)

  /** The verdict was given to the submission that inserted the command, or to a resume of it. */
  predicate Decided(log: seq<Evaluation>, id: CommandId, traceId: TraceId, verdict: Verdict) {
    Evaluation(id, traceId, verdict, ByInsert) in log || Evaluation(id, traceId, verdict, ByResume) in log
  }

  /** What one call of `submit` decides before it writes: fresh ids, the route's class, the verdict. */
  datatype Submission = Submission(
    id: CommandId, traceId: TraceId, requestedAt: Time, approvalClass: nat, activityCount: nat, verdict: Verdict)

  datatype Db = Db(
    commands: map<CommandId, CommandRow>,
    activities: map<CommandId, seq<ActivityRow>>,
    policyLog: seq<Evaluation>)

  predicate Terminal(status: CommandStatus) {
    status in {Completed, Failed, Canceled}
  }

  /** The activities that `claimActivitiesStmt` touches. */
  predicate Open(status: ActivityStatus) {
    status == ActQueued || status == ActRunning
  }

  function InitialStatus(verdict: Verdict): CommandStatus {
    match verdict
    case Allow => Queued
    case RequiresApproval => BlockedApproval
    case Deny => BlockedPolicy
  }

  function ActivityStatusFor(status: CommandStatus): ActivityStatus {
    match status
    case BlockedApproval => ActBlocked
    case BlockedPolicy => ActBlocked
    case Canceled => ActCanceled
    case Failed => ActFailed
    case Completed => ActCompleted
    case Queued => ActQueued
    case Running => ActQueued
  }

  // ---------- selectClaimableStmt ----------

  predicate Claimable(row: CommandRow, now: Time) {
    || (row.status == Queued && (row.leaseUntil.None? || row.leaseUntil.value <= now))
    || (row.status == Running && row.leaseUntil.Some? && row.leaseUntil.value <= now)
  }

  /** The optional arguments of `claimNext` that narrow the choice. */
  datatype ClaimFilter = ClaimFilter(commandId: Option<CommandId>, maxApprovalClass: Option<nat>)

  predicate Admits(filter: ClaimFilter, id: CommandId, row: CommandRow) {
    && (filter.commandId.None? || filter.commandId.value == id)
    && (filter.maxApprovalClass.None?
        || (if row.approvalClass.None? then 1 else row.approvalClass.value) <= filter.maxApprovalClass.value)
  }

  predicate Eligible(db: Db, now: Time, filter: ClaimFilter, id: CommandId) {
    id in db.commands && Claimable(db.commands[id], now) && Admits(filter, id, db.commands[id])
  }

  /** `ORDER BY requested_at ASC LIMIT 1`: an eligible command no other eligible one was requested before. */
  predicate Picks(db: Db, now: Time, filter: ClaimFilter, id: CommandId) {
    && Eligible(db, now, filter, id)
    && forall other | other in db.commands && Eligible(db, now, filter, other) ::
         db.commands[id].requestedAt <= db.commands[other].requestedAt
  }

  // ---------- row updates ----------

  function WithStatus(id: CommandId, row: CommandRow, status: CommandStatus): CommandRow {
    row.(status := status, cursor := Cursor(id, status))
  }

  function ClaimedRow(id: CommandId, row: CommandRow, worker: WorkerId, until: Time): CommandRow {
    WithStatus(id, row, Running).(leaseOwner := Some(worker), leaseUntil := Some(until))
  }

  function ClaimedActivity(act: ActivityRow, worker: WorkerId, now: Time, until: Time): ActivityRow {
    if !Open(act.status) then act else
      act.(status := ActRunning, leaseOwner := Some(worker), leaseUntil := Some(until),
           startedAt := if act.startedAt.None? then Some(now) else act.startedAt,
           attempts := act.attempts + 1)
  }

  predicate RowHeldBy(row: CommandRow, worker: WorkerId) {
    row.status == Running && row.leaseOwner == Some(worker)
  }

  predicate ActivityHeldBy(act: ActivityRow, worker: WorkerId) {
    act.status == ActRunning && act.leaseOwner == Some(worker)
  }

  function ExtendedRow(id: CommandId, row: CommandRow, worker: WorkerId, until: Time): CommandRow {
    if RowHeldBy(row, worker) then row.(leaseUntil := Some(until), cursor := Cursor(id, Running)) else row
  }

  function ExtendedActivity(act: ActivityRow, worker: WorkerId, until: Time): ActivityRow {
    if ActivityHeldBy(act, worker) then act.(leaseUntil := Some(until)) else act
  }

  function FinishedRow(id: CommandId, row: CommandRow, status: CommandStatus): CommandRow {
    WithStatus(id, row, status).(leaseOwner := None, leaseUntil := None)
  }

  function FinishedActivity(act: ActivityRow, status: ActivityStatus, now: Time): ActivityRow {
    act.(status := status, finishedAt := Some(now), leaseOwner := None, leaseUntil := None)
  }

  function MarkedActivity(act: ActivityRow, status: ActivityStatus): ActivityRow {
    if act.status in {ActQueued, ActBlocked, ActRunning} then act.(status := status) else act
  }

  // An `UPDATE command_activities ... WHERE command_id = ?` keeps the rows and their order.

  function ClaimedActivities(acts: seq<ActivityRow>, worker: WorkerId, now: Time, until: Time): (r: seq<ActivityRow>)
    ensures |r| == |acts| && forall k | 0 <= k < |acts| :: r[k] == ClaimedActivity(acts[k], worker, now, until)
  {
    seq(|acts|, k requires 0 <= k < |acts| => ClaimedActivity(acts[k], worker, now, until))
  }

  function ExtendedActivities(acts: seq<ActivityRow>, worker: WorkerId, until: Time): (r: seq<ActivityRow>)
    ensures |r| == |acts| && forall k | 0 <= k < |acts| :: r[k] == ExtendedActivity(acts[k], worker, until)
  {
    seq(|acts|, k requires 0 <= k < |acts| => ExtendedActivity(acts[k], worker, until))
  }

  function MarkedActivities(acts: seq<ActivityRow>, status: ActivityStatus): (r: seq<ActivityRow>)
    ensures |r| == |acts| && forall k | 0 <= k < |acts| :: r[k] == MarkedActivity(acts[k], status)
  {
    seq(|acts|, k requires 0 <= k < |acts| => MarkedActivity(acts[k], status))
  }

  // ---------- whole-database effects ----------

  predicate WellFormed(db: Db) {
    db.activities.Keys == db.commands.Keys
  }

  function Put(db: Db, id: CommandId, row: CommandRow, acts: seq<ActivityRow>): (r: Db)
    requires WellFormed(db)
    ensures WellFormed(r)
  {
    db.(commands := db.commands[id := row], activities := db.activities[id := acts])
  }

  /** `command_id` is the primary key and `trace_id` is unique; an insert that breaks either is refused. */
  predicate Insertable(db: Db, sub: Submission) {
    sub.id !in db.commands && forall id | id in db.commands :: db.commands[id].traceId != sub.traceId
  }

  function NewRow(sub: Submission): CommandRow {
    var status := InitialStatus(sub.verdict);
    CommandRow(sub.traceId, status, sub.requestedAt, Some(sub.approvalClass), sub.verdict,
               Cursor(sub.id, status), None, None)
  }

  function NewActivities(sub: Submission): seq<ActivityRow> {
    seq(sub.activityCount, k => ActivityRow(ActivityStatusFor(InitialStatus(sub.verdict)), 0, None, None, None, None))
  }

  /** The verdict is logged before the insert is tried, so it stays even when the insert is refused. */
  function SubmitDb(db: Db, sub: Submission): (r: Db)
    requires WellFormed(db)
    ensures WellFormed(r)
  {
    var cause := if Insertable(db, sub) then ByInsert else ByRefusedInsert;
    var logged := db.(policyLog := db.policyLog + [Evaluation(sub.id, sub.traceId, sub.verdict, cause)]);
    if Insertable(db, sub) then Put(logged, sub.id, NewRow(sub), NewActivities(sub)) else logged
  }

  function ClaimDb(db: Db, id: CommandId, worker: WorkerId, now: Time, until: Time): (r: Db)
    requires WellFormed(db) && id in db.commands
    ensures WellFormed(r)
  {
    Put(db, id, ClaimedRow(id, db.commands[id], worker, until),
        ClaimedActivities(db.activities[id], worker, now, until))
  }

  function ExtendDb(db: Db, id: CommandId, worker: WorkerId, until: Time): (r: Db)
    requires WellFormed(db)
    ensures WellFormed(r)
  {
    if id !in db.commands then db else
      Put(db, id, ExtendedRow(id, db.commands[id], worker, until),
          ExtendedActivities(db.activities[id], worker, until))
  }

  function FinishActivityDb(db: Db, id: CommandId, k: nat, status: ActivityStatus, now: Time): (r: Db)
    requires WellFormed(db)
    ensures WellFormed(r)
  {
    if id !in db.commands || k >= |db.activities[id]| then db else
      Put(db, id, db.commands[id], db.activities[id][k := FinishedActivity(db.activities[id][k], status, now)])
  }

  function FinishCommandDb(db: Db, id: CommandId, status: CommandStatus): (r: Db)
    requires WellFormed(db)
    ensures WellFormed(r)
  {
    if id !in db.commands then db else
      Put(db, id, FinishedRow(id, db.commands[id], status), db.activities[id])
  }

  /** `updateStateStmt`: a null policy keeps the recorded one. */
  function UpdateStateDb(db: Db, id: CommandId, status: CommandStatus, verdict: Option<Verdict>): (r: Db)
    requires WellFormed(db)
    ensures WellFormed(r)
  {
    if id !in db.commands then db else
      var row := WithStatus(id, db.commands[id], status);
      Put(db, id, if verdict.None? then row else row.(verdict := verdict.value), db.activities[id])
  }

  function MarkDb(db: Db, id: CommandId, status: ActivityStatus): (r: Db)
    requires WellFormed(db)
    ensures WellFormed(r)
  {
    if id !in db.commands then db else
      Put(db, id, db.commands[id], MarkedActivities(db.activities[id], status))
  }

  /** `cancel` without interference: a terminal command is returned as it is. */
  function CancelDb(db: Db, id: CommandId): (r: Db)
    requires WellFormed(db)
    ensures WellFormed(r)
  {
    if id !in db.commands || Terminal(db.commands[id].status) then db else
      MarkDb(UpdateStateDb(db, id, Canceled, None), id, ActCanceled)
  }

  function StatusAfterResume(verdict: Verdict): CommandStatus {
    if verdict == Allow then Queued else BlockedApproval
  }

  function LogDb(db: Db, id: CommandId, verdict: Verdict): (r: Db)
    requires WellFormed(db) && id in db.commands
    ensures WellFormed(r)
  {
    db.(policyLog := db.policyLog + [Evaluation(id, db.commands[id].traceId, verdict, ByResume)])
  }

  /** `resume` without interference: only a command waiting for approval is judged again. */
  function ResumeDb(db: Db, id: CommandId, verdict: Verdict): (r: Db)
    requires WellFormed(db)
    ensures WellFormed(r)
  {
    if id !in db.commands || db.commands[id].status != BlockedApproval then db else
      var updated := UpdateStateDb(LogDb(db, id, verdict), id, StatusAfterResume(verdict), Some(verdict));
      if verdict == Allow then MarkDb(updated, id, ActQueued) else updated
  }

  predicate Retryable(db: Db, id: CommandId) {
    id in db.commands && db.commands[id].status in {Failed, Canceled}
  }

  function RetryDb(db: Db, id: CommandId, copy: Submission): (r: Db)
    requires WellFormed(db)
    ensures WellFormed(r)
  {
    if Retryable(db, id) then SubmitDb(db, copy) else db
  }

  predicate Requeueable(db: Db, id: CommandId) {
    id in db.commands && db.commands[id].status in {Queued, Running, BlockedApproval}
  }

  function RequeueDb(db: Db, id: CommandId, copy: Submission): (r: Db)
    requires WellFormed(db)
    ensures WellFormed(r)
  {
    if Requeueable(db, id) then SubmitDb(CancelDb(db, id), copy) else db
  }
}
