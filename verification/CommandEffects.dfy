/** What each statement of the command store does, said column by column of the rows it reads and writes. */
module CommandEffects {
  import opened Options
  import opened CommandRows

  /** Every other command and its activities are as they were. */
  ghost predicate OthersKept(before: Db, after: Db, id: CommandId)
    requires WellFormed(before)
  {
    && WellFormed(after)
    && forall other | other in before.commands && other != id ::
         && other in after.commands && after.commands[other] == before.commands[other]
         && after.activities[other] == before.activities[other]
  }

  /** The rows of all commands are as they were. */
  ghost predicate RowsKept(before: Db, after: Db) {
    after.commands == before.commands && after.activities == before.activities
  }

  // ---------- submit ----------

  /** An allowed submission is queued, one that needs approval waits for it, a denied one is blocked; their
      activities are queued or blocked with it, and nobody holds a lease. */
  predicate Submitted(row: CommandRow, acts: seq<ActivityRow>, sub: Submission) {
    && row.status == (match sub.verdict
                      case Allow => Queued
                      case RequiresApproval => BlockedApproval
                      case Deny => BlockedPolicy)
    && row.traceId == sub.traceId && row.requestedAt == sub.requestedAt && row.verdict == sub.verdict
    && row.approvalClass == Some(sub.approvalClass) && row.cursor == Cursor(sub.id, row.status)
    && row.leaseOwner.None? && row.leaseUntil.None?
    && |acts| == sub.activityCount
    && forall act | act in acts ::
         && act.status == (match sub.verdict case Allow => ActQueued case _ => ActBlocked)
         && act.attempts == 0 && act.leaseOwner.None? && act.leaseUntil.None?
         && act.startedAt.None? && act.finishedAt.None?
  }

  predicate Taken(db: Db, sub: Submission) {
    sub.id in db.commands || exists id :: id in db.commands && db.commands[id].traceId == sub.traceId
  }

  /** The verdict is logged; a submission whose id or trace is taken leaves the tables alone. */
  ghost predicate SubmitEffect(before: Db, after: Db, sub: Submission)
    requires WellFormed(before)
  {
    if Taken(before, sub) then
      && RowsKept(before, after)
      && after.policyLog == before.policyLog + [Evaluation(sub.id, sub.traceId, sub.verdict, ByRefusedInsert)]
    else
      && OthersKept(before, after, sub.id) && after.commands.Keys == before.commands.Keys + {sub.id}
      && Submitted(after.commands[sub.id], after.activities[sub.id], sub)
      && after.policyLog == before.policyLog + [Evaluation(sub.id, sub.traceId, sub.verdict, ByInsert)]
  }

  lemma SubmitSays(db: Db, sub: Submission)
    requires WellFormed(db)
    ensures SubmitEffect(db, SubmitDb(db, sub), sub)
  {
  }

  // ---------- claimNext ----------

  /** Open to a claim: queued without a lease in force, or running with one that has run out; and within the
      filter, a command without an approval class counting as class one. */
  predicate OpenTo(row: CommandRow, id: CommandId, now: Time, filter: ClaimFilter) {
    && (match row.leaseUntil
        case None => row.status == Queued
        case Some(until) => row.status in {Queued, Running} && until <= now)
    && (match filter.commandId case None => true case Some(wanted) => id == wanted)
    && (match filter.maxApprovalClass
        case None => true
        case Some(most) => (match row.approvalClass case None => 1 case Some(class_) => class_) <= most)
  }

  lemma EligibleAreOpen(db: Db, now: Time, filter: ClaimFilter)
    ensures forall id | id in db.commands :: Eligible(db, now, filter, id) <==> OpenTo(db.commands[id], id, now, filter)
  {
  }

  /** No other open command was requested before. */
  ghost predicate EarliestOpen(db: Db, id: CommandId, now: Time, filter: ClaimFilter) {
    && id in db.commands && OpenTo(db.commands[id], id, now, filter)
    && forall other | other in db.commands && OpenTo(db.commands[other], other, now, filter) ::
         db.commands[id].requestedAt <= db.commands[other].requestedAt
  }

  predicate ActivityClaimed(was: ActivityRow, now: ActivityRow, worker: WorkerId, at: Time, until: Time) {
    if was.status in {ActQueued, ActRunning} then
      && now.status == ActRunning && now.attempts == was.attempts + 1 && now.finishedAt == was.finishedAt
      && now.leaseOwner == Some(worker) && now.leaseUntil == Some(until)
      && now.startedAt == (match was.startedAt case None => Some(at) case Some(_) => was.startedAt)
    else now == was
  }

  /** The command runs under the worker's lease, and so does each of its queued or running activities, with one
      more attempt. */
  ghost predicate ClaimEffect(before: Db, after: Db, id: CommandId, worker: WorkerId, at: Time, until: Time)
    requires WellFormed(before) && id in before.commands
  {
    && OthersKept(before, after, id) && after.commands.Keys == before.commands.Keys
    && after.policyLog == before.policyLog
    && after.commands[id] == before.commands[id].(status := Running, cursor := Cursor(id, Running),
                                                  leaseOwner := Some(worker), leaseUntil := Some(until))
    && |after.activities[id]| == |before.activities[id]|
    && forall k | 0 <= k < |before.activities[id]| ::
         ActivityClaimed(before.activities[id][k], after.activities[id][k], worker, at, until)
  }

  lemma ClaimSays(db: Db, id: CommandId, worker: WorkerId, at: Time, until: Time)
    requires WellFormed(db) && id in db.commands
    ensures ClaimEffect(db, ClaimDb(db, id, worker, at, until), id, worker, at, until)
  {
  }

  // ---------- extendLease and the finish calls ----------

  predicate RowExtended(id: CommandId, was: CommandRow, now: CommandRow, worker: WorkerId, until: Time) {
    if was.status == Running && was.leaseOwner == Some(worker)
    then now == was.(leaseUntil := Some(until), cursor := Cursor(id, Running))
    else now == was
  }

  predicate ActivityExtended(was: ActivityRow, now: ActivityRow, worker: WorkerId, until: Time) {
    if was.status == ActRunning && was.leaseOwner == Some(worker) then now == was.(leaseUntil := Some(until))
    else now == was
  }

  /** Of the command and its activities, what is running for this worker gets the new lease end. */
  ghost predicate ExtendEffect(before: Db, after: Db, id: CommandId, worker: WorkerId, until: Time)
    requires WellFormed(before)
  {
    && OthersKept(before, after, id) && after.commands.Keys == before.commands.Keys
    && after.policyLog == before.policyLog
    && (id in before.commands ==>
          && RowExtended(id, before.commands[id], after.commands[id], worker, until)
          && |after.activities[id]| == |before.activities[id]|
          && forall k | 0 <= k < |before.activities[id]| ::
               ActivityExtended(before.activities[id][k], after.activities[id][k], worker, until))
  }

  lemma ExtendSays(db: Db, id: CommandId, worker: WorkerId, until: Time)
    requires WellFormed(db)
    ensures ExtendEffect(db, ExtendDb(db, id, worker, until), id, worker, until)
  {
  }

  /** The activity has the reported status and finish time and no lease; everything else is as it was. */
  ghost predicate FinishActivityEffect(
      before: Db, after: Db, id: CommandId, k: nat, status: ActivityStatus, at: Time)
    requires WellFormed(before)
  {
    && after.commands == before.commands && after.policyLog == before.policyLog && OthersKept(before, after, id)
    && (id in before.commands ==>
          && |after.activities[id]| == |before.activities[id]|
          && forall j | 0 <= j < |before.activities[id]| ::
               var was, now := before.activities[id][j], after.activities[id][j];
               if j != k then now == was
               else now.status == status && now.finishedAt == Some(at) && now.leaseOwner.None? && now.leaseUntil.None?
                    && now.attempts == was.attempts && now.startedAt == was.startedAt)
  }

  lemma FinishActivitySays(db: Db, id: CommandId, k: nat, status: ActivityStatus, at: Time)
    requires WellFormed(db)
    ensures FinishActivityEffect(db, FinishActivityDb(db, id, k, status, at), id, k, status, at)
  {
  }

  /** The command has the reported status and no lease; its activities are as they were. */
  ghost predicate FinishCommandEffect(before: Db, after: Db, id: CommandId, status: CommandStatus)
    requires WellFormed(before)
  {
    && OthersKept(before, after, id) && after.activities == before.activities && after.policyLog == before.policyLog
    && (id in before.commands ==>
          id in after.commands
          && after.commands[id] == before.commands[id].(status := status, cursor := Cursor(id, status),
                                                        leaseOwner := None, leaseUntil := None))
  }

  lemma FinishCommandSays(db: Db, id: CommandId, status: CommandStatus)
    requires WellFormed(db)
    ensures FinishCommandEffect(db, FinishCommandDb(db, id, status), id, status)
  {
    if id in db.commands {
      assert db.activities[id := db.activities[id]] == db.activities;
    }
  }

  // ---------- cancel and resume ----------

  /** Of the activities, those queued, blocked or running have the status; no other column changes. */
  predicate ActivitiesMarked(was: seq<ActivityRow>, now: seq<ActivityRow>, status: ActivityStatus) {
    && |now| == |was|
    && forall k | 0 <= k < |was| ::
         now[k] == if was[k].status in {ActQueued, ActBlocked, ActRunning} then was[k].(status := status) else was[k]
  }

  /** A command that is not completed, failed or canceled is canceled with its open activities; its lease columns
      stay. */
  ghost predicate CancelEffect(before: Db, after: Db, id: CommandId)
    requires WellFormed(before)
  {
    if id !in before.commands || before.commands[id].status in {Completed, Failed, Canceled} then after == before
    else
      && OthersKept(before, after, id) && after.commands.Keys == before.commands.Keys
      && after.policyLog == before.policyLog
      && after.commands[id] == before.commands[id].(status := Canceled, cursor := Cursor(id, Canceled))
      && ActivitiesMarked(before.activities[id], after.activities[id], ActCanceled)
  }

  lemma CancelSays(db: Db, id: CommandId)
    requires WellFormed(db)
    ensures CancelEffect(db, CancelDb(db, id), id)
  {
  }

  /** Only a command that waits for approval is judged again, and the verdict logged: an allow queues it with its
      activities, any other verdict leaves it waiting. */
  ghost predicate ResumeEffect(before: Db, after: Db, id: CommandId, verdict: Verdict)
    requires WellFormed(before)
  {
    if id !in before.commands || before.commands[id].status != BlockedApproval then after == before
    else
      && OthersKept(before, after, id) && after.commands.Keys == before.commands.Keys
      && after.policyLog == before.policyLog + [Evaluation(id, before.commands[id].traceId, verdict, ByResume)]
      && match verdict
         case Allow =>
           && after.commands[id]
                == before.commands[id].(status := Queued, cursor := Cursor(id, Queued), verdict := verdict)
           && ActivitiesMarked(before.activities[id], after.activities[id], ActQueued)
         case _ =>
           && after.commands[id]
                == before.commands[id].(cursor := Cursor(id, BlockedApproval), verdict := verdict)
           && after.activities[id] == before.activities[id]
  }

  lemma ResumeSays(db: Db, id: CommandId, verdict: Verdict)
    requires WellFormed(db)
    ensures ResumeEffect(db, ResumeDb(db, id, verdict), id, verdict)
  {
  }

  // ---------- retry and requeue ----------

  /** A failed or canceled command is submitted again as the copy; any other is not. */
  ghost predicate RetryEffect(before: Db, after: Db, id: CommandId, copy: Submission)
    requires WellFormed(before)
  {
    if id in before.commands && before.commands[id].status in {Failed, Canceled} then SubmitEffect(before, after, copy)
    else after == before
  }

  lemma RetrySays(db: Db, id: CommandId, copy: Submission)
    requires WellFormed(db)
    ensures RetryEffect(db, RetryDb(db, id, copy), id, copy)
  {
    SubmitSays(db, copy);
  }

  /** A queued, running or waiting command is canceled and submitted again as the copy; any other is not. */
  ghost predicate RequeueEffect(before: Db, after: Db, id: CommandId, copy: Submission)
    requires WellFormed(before)
  {
    if id in before.commands && before.commands[id].status in {Queued, Running, BlockedApproval} then
      exists canceled ::
        WellFormed(canceled) && CancelEffect(before, canceled, id) && SubmitEffect(canceled, after, copy)
    else after == before
  }

  lemma RequeueSays(db: Db, id: CommandId, copy: Submission)
    requires WellFormed(db)
    ensures RequeueEffect(db, RequeueDb(db, id, copy), id, copy)
  {
    CancelSays(db, id);
    SubmitSays(CancelDb(db, id), copy);
  }

  // ---------- a submission that needs approval ----------

  /** A submission that needs approval waits, and an allowing resume of it queues it with all its activities. */
  lemma ApprovalQueues(db: Db, sub: Submission)
    requires WellFormed(db) && !Taken(db, sub) && sub.verdict == RequiresApproval
    ensures var waiting := SubmitDb(db, sub);
      sub.id in waiting.commands && waiting.commands[sub.id].status == BlockedApproval
    ensures var resumed := ResumeDb(SubmitDb(db, sub), sub.id, Allow);
      && sub.id in resumed.commands && resumed.commands[sub.id].status == Queued
      && |resumed.activities[sub.id]| == sub.activityCount
      && forall act | act in resumed.activities[sub.id] :: act.status == ActQueued && act.leaseOwner.None?
  {
    SubmitSays(db, sub);
    var waiting := SubmitDb(db, sub);
    ResumeSays(waiting, sub.id, Allow);
    forall k | 0 <= k < |waiting.activities[sub.id]|
      ensures waiting.activities[sub.id][k].status == ActBlocked && waiting.activities[sub.id][k].leaseOwner.None?
    {
      assert waiting.activities[sub.id][k] in waiting.activities[sub.id];
    }
  }
}
