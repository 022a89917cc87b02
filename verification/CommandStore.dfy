/** `CommandStore`: its two tables are fields that the methods update in place.
    Every method is specified by the statement functions of `CommandRows`; what those keep over
    arbitrary runs is proved in `CommandRuns` and `CommandTheorems`. */
module CommandStoreModel {
  import opened Options
  import opened CommandRows
  import opened CommandEffects

  datatype Refusal = UnknownCommand | TraceMismatch | WrongStatus | InsertRefused | UnknownActivity
  datatype Outcome = Done | Refused(why: Refusal)

  /** The earliest requested of a non-empty set of commands exists. */
  lemma EarliestExists(commands: map<CommandId, CommandRow>, ids: set<CommandId>)
    requires ids != {} && ids <= commands.Keys
    ensures exists id ::
         id in ids && forall other | other in ids :: commands[id].requestedAt <= commands[other].requestedAt
    decreases |ids|
  {
    var id :| id in ids;
    var rest := ids - {id};
    assert ids == rest + {id};
    if rest == {} {
      assert ids == {id};
    } else {
      EarliestExists(commands, rest);
      var best :| best in rest && forall other | other in rest ::
          commands[best].requestedAt <= commands[other].requestedAt;
      var winner := if commands[id].requestedAt <= commands[best].requestedAt then id else best;
      assert winner in ids && forall other | other in ids ::
          commands[winner].requestedAt <= commands[other].requestedAt;
    }
  }

  class CommandStore {
    var commands: map<CommandId, CommandRow>
    var activities: map<CommandId, seq<ActivityRow>>
    var policyLog: seq<Evaluation>

    ghost function Contents(): Db
      reads this
    {
      Db(commands, activities, policyLog)
    }

    ghost predicate Valid()
      reads this
    {
      WellFormed(Contents())
    }

    constructor ()
      ensures Valid() && Contents() == Db(map[], map[], [])
    {
      commands, activities, policyLog := map[], map[], [];
    }

    /** A dry run explains without logging or inserting. */
    method Submit(sub: Submission, dryRun: bool) returns (outcome: Outcome)
      requires Valid()
      modifies this
      ensures Valid()
      ensures Contents() == if dryRun then old(Contents()) else SubmitDb(old(Contents()), sub)
      ensures outcome == if dryRun || old(Insertable(Contents(), sub)) then Done else Refused(InsertRefused)
      ensures !dryRun ==> SubmitEffect(old(Contents()), Contents(), sub)
      ensures !dryRun ==> (outcome.Done? <==> !Taken(old(Contents()), sub))
    {
      SubmitSays(Contents(), sub);
      if dryRun {
        return Done;
      }
      if sub.id in commands || exists id | id in commands :: commands[id].traceId == sub.traceId {
        policyLog := policyLog + [Evaluation(sub.id, sub.traceId, sub.verdict, ByRefusedInsert)];
        return Refused(InsertRefused);
      }
      policyLog := policyLog + [Evaluation(sub.id, sub.traceId, sub.verdict, ByInsert)];
      commands := commands[sub.id := NewRow(sub)];
      activities := activities[sub.id := NewActivities(sub)];
      outcome := Done;
    }

    method ClaimNext(worker: WorkerId, now: Time, leaseMs: int, filter: ClaimFilter)
        returns (claimed: Option<CommandId>)
      requires Valid()
      modifies this
      ensures Valid()
      ensures claimed.None? ==>
                Contents() == old(Contents()) && forall id :: !Eligible(old(Contents()), now, filter, id)
      ensures claimed.Some? ==>
                && Picks(old(Contents()), now, filter, claimed.value)
                && Contents() == ClaimDb(old(Contents()), claimed.value, worker, now, now + leaseMs)
      ensures claimed.None? ==> forall id | id in old(commands) :: !OpenTo(old(commands)[id], id, now, filter)
      ensures claimed.Some? ==>
                && EarliestOpen(old(Contents()), claimed.value, now, filter)
                && ClaimEffect(old(Contents()), Contents(), claimed.value, worker, now, now + leaseMs)
    {
      ghost var before := Contents();
      EligibleAreOpen(before, now, filter);
      var candidates := set id | id in commands && Claimable(commands[id], now) && Admits(filter, id, commands[id]);
      assert forall id :: id in candidates <==> Eligible(Contents(), now, filter, id);
      if candidates == {} {
        return None;
      }
      EarliestExists(commands, candidates);
      var id :| id in candidates && forall other | other in candidates ::
          commands[id].requestedAt <= commands[other].requestedAt;
      var until := now + leaseMs;
      ClaimSays(before, id, worker, now, until);
      commands := commands[id := ClaimedRow(id, commands[id], worker, until)];
      activities := activities[id := ClaimedActivities(activities[id], worker, now, until)];
      claimed := Some(id);
    }

    method ExtendLease(id: CommandId, worker: WorkerId, now: Time, leaseMs: int)
      requires Valid()
      modifies this
      ensures Valid() && Contents() == ExtendDb(old(Contents()), id, worker, now + leaseMs)
      ensures ExtendEffect(old(Contents()), Contents(), id, worker, now + leaseMs)
    {
      ExtendSays(Contents(), id, worker, now + leaseMs);
      var until := now + leaseMs;
      if id in commands {
        commands := commands[id := ExtendedRow(id, commands[id], worker, until)];
        activities := activities[id := ExtendedActivities(activities[id], worker, until)];
      }
    }

    method FinishActivity(id: CommandId, k: nat, status: ActivityStatus, now: Time) returns (outcome: Outcome)
      requires Valid() && status in {ActCompleted, ActFailed, ActCanceled}
      modifies this
      ensures Valid() && Contents() == FinishActivityDb(old(Contents()), id, k, status, now)
      ensures outcome.Done? <==> old(id in activities && k < |activities[id]|)
      ensures FinishActivityEffect(old(Contents()), Contents(), id, k, status, now)
    {
      FinishActivitySays(Contents(), id, k, status, now);
      if id !in activities || k >= |activities[id]| {
        return Refused(UnknownActivity);
      }
      var acts := activities[id];
      activities := activities[id := acts[k := FinishedActivity(acts[k], status, now)]];
      outcome := Done;
      assert commands == old(commands)[id := old(commands)[id]];
    }

    method FinishCommand(id: CommandId, status: CommandStatus) returns (outcome: Outcome)
      requires Valid() && status in {Completed, Failed}
      modifies this
      ensures Valid() && Contents() == FinishCommandDb(old(Contents()), id, status)
      ensures outcome.Done? <==> old(id in commands)
      ensures FinishCommandEffect(old(Contents()), Contents(), id, status)
    {
      FinishCommandSays(Contents(), id, status);
      if id !in commands {
        return Refused(UnknownCommand);
      }
      commands := commands[id := FinishedRow(id, commands[id], status)];
      outcome := Done;
      assert activities == activities[id := activities[id]];
    }

    method UpdateState(id: CommandId, status: CommandStatus, verdict: Option<Verdict>)
      requires Valid()
      modifies this
      ensures Valid() && Contents() == UpdateStateDb(old(Contents()), id, status, verdict)
      ensures activities == old(activities) && policyLog == old(policyLog)
      ensures id !in old(commands) ==> commands == old(commands)
      ensures id in old(commands) ==>
        commands == old(commands)[id := old(commands)[id].(
          status := status, cursor := Cursor(id, status),
          verdict := match verdict case Some(v) => v case None => old(commands)[id].verdict)]
    {
      if id in commands {
        var row := WithStatus(id, commands[id], status);
        commands := commands[id := if verdict.None? then row else row.(verdict := verdict.value)];
        assert activities == activities[id := activities[id]];
      }
    }

    method MarkActivities(id: CommandId, status: ActivityStatus)
      requires Valid()
      modifies this
      ensures Valid() && Contents() == MarkDb(old(Contents()), id, status)
      ensures commands == old(commands) && policyLog == old(policyLog)
      ensures OthersKept(old(Contents()), Contents(), id)
      ensures id in old(activities) ==> ActivitiesMarked(old(activities)[id], activities[id], status)
    {
      if id in activities {
        activities := activities[id := MarkedActivities(activities[id], status)];
        assert commands == commands[id := commands[id]];
      }
    }

    method Cancel(id: CommandId) returns (outcome: Outcome)
      requires Valid()
      modifies this
      ensures Valid() && Contents() == CancelDb(old(Contents()), id)
      ensures outcome.Done? <==> old(id in commands)
      ensures CancelEffect(old(Contents()), Contents(), id)
    {
      CancelSays(Contents(), id);
      if id !in commands {
        return Refused(UnknownCommand);
      }
      if !Terminal(commands[id].status) {
        UpdateState(id, Canceled, None);
        MarkActivities(id, ActCanceled);
      }
      outcome := Done;
    }

    /** `verdict` is what the policy evaluator answers if it is asked. */
    method Resume(id: CommandId, approvalTrace: Option<TraceId>, verdict: Verdict) returns (outcome: Outcome)
      requires Valid()
      modifies this
      ensures Valid()
      ensures outcome == old(
        if id !in commands then Refused(UnknownCommand)
        else if commands[id].status == BlockedApproval && approvalTrace.Some?
            && approvalTrace.value != commands[id].traceId
          then Refused(TraceMismatch)
        else Done)
      ensures Contents() == if outcome.Done? then ResumeDb(old(Contents()), id, verdict) else old(Contents())
      ensures outcome.Done? ==> ResumeEffect(old(Contents()), Contents(), id, verdict)
    {
      ResumeSays(Contents(), id, verdict);
      if id !in commands {
        return Refused(UnknownCommand);
      }
      if commands[id].status != BlockedApproval {
        return Done;
      }
      if approvalTrace.Some? && approvalTrace.value != commands[id].traceId {
        return Refused(TraceMismatch);
      }
      policyLog := policyLog + [Evaluation(id, commands[id].traceId, verdict, ByResume)];
      UpdateState(id, StatusAfterResume(verdict), Some(verdict));
      if verdict == Allow {
        MarkActivities(id, ActQueued);
      }
      outcome := Done;
    }

    method Retry(id: CommandId, copy: Submission) returns (outcome: Outcome)
      requires Valid()
      modifies this
      ensures Valid() && Contents() == RetryDb(old(Contents()), id, copy)
      ensures outcome.Done? <==> old(Retryable(Contents(), id) && Insertable(Contents(), copy))
      ensures RetryEffect(old(Contents()), Contents(), id, copy)
    {
      RetrySays(Contents(), id, copy);
      if id !in commands {
        return Refused(UnknownCommand);
      }
      if commands[id].status !in {Failed, Canceled} {
        return Refused(WrongStatus);
      }
      outcome := Submit(copy, false);
    }

    method Requeue(id: CommandId, copy: Submission) returns (outcome: Outcome)
      requires Valid()
      modifies this
      ensures Valid() && Contents() == RequeueDb(old(Contents()), id, copy)
      ensures outcome.Done? <==> old(Requeueable(Contents(), id) && Insertable(CancelDb(Contents(), id), copy))
      ensures RequeueEffect(old(Contents()), Contents(), id, copy)
    {
      RequeueSays(Contents(), id, copy);
      if id !in commands {
        return Refused(UnknownCommand);
      }
      if commands[id].status !in {Queued, Running, BlockedApproval} {
        return Refused(WrongStatus);
      }
      outcome := Cancel(id);
      outcome := Submit(copy, false);
    }
  }
}
