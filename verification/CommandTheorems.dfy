/** What holds of the command queue over whole runs, however its callers interleave. */
module CommandTheorems {
  import opened Options
  import opened CommandRows
  import opened CommandRuns

  lemma InitialInv()
    ensures Inv(INITIAL)
  {
  }

  lemma Reached(run: seq<Timed>)
    requires LegalRun(INITIAL, run)
    ensures Inv(Exec(INITIAL, run))
  {
    InitialInv();
    RunKeepsInv(INITIAL, run);
  }

  lemma ReachedEntry(run: seq<Timed>, id: CommandId)
    requires LegalRun(INITIAL, run) && id in Exec(INITIAL, run).db.commands
    ensures var s := Exec(INITIAL, run); EntryInv(id, EntryOf(s, id), s.db.policyLog, s.clock)
  {
    Reached(run);
  }

  // ---------- leases ----------

  /** The recorded lease of a claim is in force at `t`. */
  predicate InForce(c: ClaimRecord, t: Time) {
    c.at <= t < End(c)
  }

  /** No instant lies in the recorded leases of two claims of one command. */
  lemma {:induction false} LeasesNeverOverlap(run: seq<Timed>, id: CommandId, i: nat, j: nat, t: Time)
    requires LegalRun(INITIAL, run) && id in Exec(INITIAL, run).claims
    requires i < j < |Exec(INITIAL, run).claims[id]|
    ensures !(InForce(Exec(INITIAL, run).claims[id][i], t) && InForce(Exec(INITIAL, run).claims[id][j], t))
  {
    ReachedEntry(run, id);
  }

  /** The lease columns show the last claim, and nothing once a finish has cleared them. */
  lemma {:induction false} LeaseColumnsShowTheLastClaim(run: seq<Timed>, id: CommandId)
    requires LegalRun(INITIAL, run) && id in Exec(INITIAL, run).db.commands
    ensures var s := Exec(INITIAL, run);
      var row, claims := s.db.commands[id], s.claims[id];
      if claims != [] && claims[|claims| - 1].released.None?
      then row.leaseUntil == Some(claims[|claims| - 1].until) && row.leaseOwner == Some(claims[|claims| - 1].worker)
      else row.leaseUntil == None && row.leaseOwner == None
  {
    ReachedEntry(run, id);
  }

  /** A heartbeat of a worker that is not the recorded owner of a running command changes nothing. */
  lemma {:induction false} StaleHeartbeatIsIdle(
      run: seq<Timed>, id: CommandId, worker: WorkerId, now: Time, leaseMs: int)
    requires LegalRun(INITIAL, run) && Exec(INITIAL, run).clock <= now
    requires id in Exec(INITIAL, run).db.commands
    requires var row := Exec(INITIAL, run).db.commands[id]; row.status == Running && row.leaseOwner != Some(worker)
    ensures var s := Exec(INITIAL, run); Step(s, At(now, ExtendLease(id, worker, leaseMs))) == s.(clock := now)
  {
    ReachedEntry(run, id);
    StaleStep(Exec(INITIAL, run), id, worker, now, leaseMs);
  }

  lemma StaleStep(s: State, id: CommandId, worker: WorkerId, now: Time, leaseMs: int)
    requires Coherent(s) && s.clock <= now && id in s.db.commands
    requires RunningIsLeased(EntryOf(s, id)) && s.db.commands[id].status == Running
         && s.db.commands[id].leaseOwner != Some(worker)
    ensures Step(s, At(now, ExtendLease(id, worker, leaseMs))) == s.(clock := now)
  {
    StaleEntry(id, EntryOf(s, id), worker, now + leaseMs);
    TouchShape(s, At(now, ExtendLease(id, worker, leaseMs)), id);
    UnchangedReplace(s, id, now);
  }

  lemma StaleEntry(id: CommandId, e: Entry, worker: WorkerId, until: Time)
    requires RunningIsLeased(e) && e.row.status == Running && e.row.leaseOwner != Some(worker)
    ensures ExtendedEntry(id, e, worker, until) == e
  {
    forall k | 0 <= k < |e.acts| ensures ExtendedActivity(e.acts[k], worker, until) == e.acts[k] {
      assert e.acts[k] in e.acts;
    }
    assert ExtendedActivities(e.acts, worker, until) == e.acts;
  }

  lemma UnchangedReplace(s: State, id: CommandId, now: Time)
    requires Coherent(s) && id in s.db.commands
    ensures Replace(s, id, EntryOf(s, id), s.calls, now) == s.(clock := now)
  {
    assert s.db.commands[id := s.db.commands[id]] == s.db.commands;
    assert s.db.activities[id := s.db.activities[id]] == s.db.activities;
    assert s.claims[id := s.claims[id]] == s.claims;
  }

  /** Exactly when no heartbeat of a worker has any effect on the tables: it is recorded neither on the
      running command nor on a running activity of it.  The second half matters once the command has
      been finished while an activity was still running. */
  lemma HeartbeatIsIdleExactlyWhen(db: Db, id: CommandId, worker: WorkerId)
    requires WellFormed(db) && id in db.commands && db.commands[id].cursor == Cursor(id, db.commands[id].status)
    ensures (forall until :: ExtendDb(db, id, worker, until) == db)
       <==> !RowHeldBy(db.commands[id], worker) && forall act | act in db.activities[id] :: !ActivityHeldBy(act, worker)
  {
    var row, acts := db.commands[id], db.activities[id];
    if !RowHeldBy(row, worker) && forall act | act in acts :: !ActivityHeldBy(act, worker) {
      forall until ensures ExtendDb(db, id, worker, until) == db {
        assert ExtendedActivities(acts, worker, until) == acts;
        assert db.commands[id := row] == db.commands && db.activities[id := acts] == db.activities;
      }
    } else if RowHeldBy(row, worker) {
      var until := if row.leaseUntil.Some? then row.leaseUntil.value + 1 else 0;
      assert ExtendDb(db, id, worker, until).commands[id] != row;
    } else {
      var k :| 0 <= k < |acts| && ActivityHeldBy(acts[k], worker);
      var until := if acts[k].leaseUntil.Some? then acts[k].leaseUntil.value + 1 else 0;
      assert ExtendDb(db, id, worker, until).activities[id][k] != acts[k];
    }
  }

  // ---------- the approval gate ----------

  /** A command that is or ever was running was allowed, under its own identity and trace, when it was
      inserted or when it was resumed. */
  lemma {:induction false} OnlyAllowedCommandsRun(run: seq<Timed>, id: CommandId)
    requires LegalRun(INITIAL, run) && id in Exec(INITIAL, run).db.commands
    requires var s := Exec(INITIAL, run); s.db.commands[id].status == Running || s.claims[id] != []
    ensures var s := Exec(INITIAL, run); Decided(s.db.policyLog, id, s.db.commands[id].traceId, Allow)
  {
    ReachedEntry(run, id);
  }

  /** What a step adds to the log: the verdict on an offered submission, with the fate of its row, or the
      verdict a resume was given. */
  function NewEvaluations(s: State, t: Timed): seq<Evaluation>
    requires Coherent(s) && Legal(s, t)
  {
    if Offered(s, t).Some? then
      var sub := Offered(s, t).value;
      [Evaluation(sub.id, sub.traceId, sub.verdict, if Insertable(s.db, sub) then ByInsert else ByRefusedInsert)]
    else if (t.event.Resume? && t.event.id in s.db.commands && s.db.commands[t.event.id].status == BlockedApproval)
         || t.event.ResumeRead?
      then [Evaluation(t.event.id, s.db.commands[t.event.id].traceId, t.event.verdict, ByResume)]
    else []
  }

  lemma OfferLogs(s: State, t: Timed)
    requires Coherent(s) && Legal(s, t) && Offered(s, t).Some?
    ensures Step(s, t).db.policyLog == s.db.policyLog + NewEvaluations(s, t)
  {
    if t.event.Requeue? {
      CancelKeepsTraces(s.db, t.event.id);
    }
  }

  lemma StepLogs(s: State, t: Timed)
    requires Coherent(s) && Legal(s, t)
    ensures Step(s, t).db.policyLog == s.db.policyLog + NewEvaluations(s, t)
  {
    if Offered(s, t).Some? {
      OfferLogs(s, t);
    }
  }

  /** The step after `i` steps was the submission or resume that got the verdict. */
  ghost predicate JudgedAt(run: seq<Timed>, i: nat, ev: Evaluation) {
    i < |run| && LegalRun(INITIAL, run[..i]) && Legal(Exec(INITIAL, run[..i]), run[i])
    && ev in NewEvaluations(Exec(INITIAL, run[..i]), run[i])
  }

  lemma JudgedLater(run: seq<Timed>, i: nat, ev: Evaluation)
    requires run != [] && JudgedAt(run[..|run| - 1], i, ev)
    ensures JudgedAt(run, i, ev)
  {
    assert run[..|run| - 1][..i] == run[..i];
  }

  /** Every logged evaluation was given to a submit or a resume of that very command; one that decided on
      an insert was given to the submission that was inserted. */
  lemma {:induction false} EvaluationsComeFromSubmitOrResume(run: seq<Timed>, ev: Evaluation)
    requires LegalRun(INITIAL, run) && ev in Exec(INITIAL, run).db.policyLog
    ensures exists i :: JudgedAt(run, i, ev)
    decreases |run|
  {
    if run != [] {
      var n := |run| - 1;
      StepLogs(Exec(INITIAL, run[..n]), run[n]);
      if ev in Exec(INITIAL, run[..n]).db.policyLog {
        EvaluationsComeFromSubmitOrResume(run[..n], ev);
        var i :| JudgedAt(run[..n], i, ev);
        JudgedLater(run, i, ev);
      } else {
        assert JudgedAt(run, n, ev);
      }
    }
  }

  // ---------- terminal and denied commands ----------

  /** A `resume` that read the command as waiting for approval and has not written yet. */
  ghost predicate PendingResume(s: State, id: CommandId) {
    exists call :: call in s.calls && s.calls[call].ResumeCall? && s.calls[call].id == id
        && s.calls[call].stage == ToUpdate
  }

  ghost predicate Shut(s: State, id: CommandId)
    requires Coherent(s)
  {
    id in s.db.commands && (Terminal(s.db.commands[id].status) || s.db.commands[id].status == BlockedPolicy)
        && !PendingResume(s, id)
  }

  /** Only the write of a pending resume makes a closed command anything but closed. */
  lemma ClosedEntry(s: State, t: Timed, id: CommandId)
    requires Coherent(s) && Legal(s, t) && Shut(s, id)
    ensures EntryAfter(s, t, id).row.status in {s.db.commands[id].status, Canceled, Completed, Failed}
    ensures |EntryAfter(s, t, id).claims| == |s.claims[id]|
  {
    if t.event.ResumeUpdate? {
      assert t.event.call in s.calls;
    }
  }

  lemma NoNewPendingResume(s: State, t: Timed, id: CommandId)
    requires Coherent(s) && Legal(s, t) && Shut(s, id)
    ensures !PendingResume(Step(s, t), id)
  {
    var s' := Step(s, t);
    forall call | call in s'.calls && s'.calls[call].ResumeCall? && s'.calls[call].stage == ToUpdate
      ensures s'.calls[call].id != id
    {
      if !(t.event.ResumeRead? && t.event.call == call) {
        assert call in s.calls && s.calls[call] == s'.calls[call];
      }
    }
  }

  lemma StaysShutOnce(s: State, t: Timed, id: CommandId)
    requires Coherent(s) && Legal(s, t) && Shut(s, id)
    ensures Shut(Step(s, t), id)
    ensures Terminal(s.db.commands[id].status) ==> Terminal(Step(s, t).db.commands[id].status)
    ensures |Step(s, t).claims[id]| == |s.claims[id]|
  {
    ClosedEntry(s, t, id);
    NoNewPendingResume(s, t, id);
    StepEntry(s, t, id);
  }

  lemma {:induction false} StaysShut(s: State, run: seq<Timed>, id: CommandId)
    requires Coherent(s) && LegalRun(s, run) && Shut(s, id)
    ensures Shut(Exec(s, run), id)
    ensures Terminal(s.db.commands[id].status) ==> Terminal(Exec(s, run).db.commands[id].status)
    ensures |Exec(s, run).claims[id]| == |s.claims[id]|
    decreases |run|
  {
    if run != [] {
      StaysShut(s, run[..|run| - 1], id);
      StaysShutOnce(Exec(s, run[..|run| - 1]), run[|run| - 1], id);
    }
  }

  lemma ResumeWrites(s: State, call: CallId, now: Time)
    requires Coherent(s) && s.clock <= now && call in s.calls && s.calls[call].id in s.db.commands
    requires s.calls[call].ResumeCall? && s.calls[call].stage == ToUpdate
    ensures Legal(s, At(now, ResumeUpdate(call)))
    ensures var id := s.calls[call].id;
      EntryOf(Step(s, At(now, ResumeUpdate(call))), id)
      == RestatusedEntry(id, EntryOf(s, id), StatusAfterResume(s.calls[call].verdict), Some(s.calls[call].verdict))
  {
    StepEntry(s, At(now, ResumeUpdate(call)), s.calls[call].id);
  }

  lemma ResumeReopens(s: State, call: CallId)
    requires Coherent(s) && call in s.calls && s.calls[call].id in s.db.commands
    requires s.calls[call].ResumeCall? && s.calls[call].stage == ToUpdate
    ensures exists run :: LegalRun(s, run) && !Terminal(Exec(s, run).db.commands[s.calls[call].id].status)
  {
    ResumeWrites(s, call, s.clock);
    Extend(s, [], At(s.clock, ResumeUpdate(call)));
  }

  /** A terminal command is terminal in every continuation exactly when no resume that read it as
      blocked is still waiting to write. */
  lemma {:induction false} TerminalIsFinalExactlyWhen(s: State, id: CommandId)
    requires Inv(s) && id in s.db.commands && Terminal(s.db.commands[id].status)
    ensures (forall run | LegalRun(s, run) :: Terminal(Exec(s, run).db.commands[id].status)) <==> !PendingResume(s, id)
  {
    if PendingResume(s, id) {
      var call :| call in s.calls && s.calls[call].ResumeCall? && s.calls[call].id == id
          && s.calls[call].stage == ToUpdate;
      assert CallInv(s, s.calls[call]);
      ResumeReopens(s, call);
    } else {
      forall run | LegalRun(s, run) ensures Terminal(Exec(s, run).db.commands[id].status) {
        StaysShut(s, run, id);
      }
    }
  }

  /** A command that was submitted and denied is never claimed and never queued or running. */
  lemma {:induction false} DeniedNeverRuns(s: State, now: Time, sub: Submission, run: seq<Timed>)
    requires Inv(s) && s.clock <= now && sub.verdict == Deny && Insertable(s.db, sub)
    requires LegalRun(Step(s, At(now, Submit(sub))), run)
    ensures var s' := Exec(Step(s, At(now, Submit(sub))), run);
      && sub.id in s'.db.commands
      && s'.claims[sub.id] == []
      && s'.db.commands[sub.id].status !in {Queued, Running, BlockedApproval}
  {
    var t := At(now, Submit(sub));
    var s1 := Step(s, t);
    StepInserts(s, t, sub.id);
    forall call | call in s1.calls ensures s1.calls[call].id != sub.id {
      assert CallInv(s, s.calls[call]);
    }
    assert EntryOf(s1, sub.id).claims == [];
    StaysShut(s1, run, sub.id);
  }

  /** A retry or requeue leaves the source closed, every other command as it was, and the copy in the
      status that its own verdict earns. */
  lemma CopiesPassTheGateAfresh(s: State, t: Timed, other: CommandId)
    requires Inv(s) && Legal(s, t)
    requires (t.event.Retry? && Retryable(s.db, t.event.id)) || (t.event.Requeue? && Requeueable(s.db, t.event.id))
    requires Insertable(s.db, t.event.copy)
    ensures t.event.copy.id in Step(s, t).db.commands
    ensures EntryOf(Step(s, t), t.event.copy.id).row.status == InitialStatus(t.event.copy.verdict)
    ensures EntryOf(Step(s, t), t.event.copy.id).claims == []
    ensures Terminal(EntryOf(Step(s, t), t.event.id).row.status)
    ensures other in s.db.commands && other != t.event.id ==> EntryOf(Step(s, t), other) == EntryOf(s, other)
  {
    StepInserts(s, t, t.event.copy.id);
    StepEntry(s, t, t.event.id);
    if other in s.db.commands {
      StepEntry(s, t, other);
    }
  }

  // ---------- the two tables ----------

  predicate NothingLeased(e: Entry, status: ActivityStatus) {
    && e.claims == []
    && e.row.leaseOwner.None? && e.row.leaseUntil.None?
    && forall act | act in e.acts :: act.status == status && act.leaseOwner.None? && act.leaseUntil.None?
  }

  /** Granted intervals, as last recorded, follow each other even without counting early releases. */
  predicate GrantsFollow(claims: seq<ClaimRecord>) {
    forall i, j | 0 <= i < j < |claims| :: claims[i].until <= claims[j].at
  }

  predicate EntryAgrees(e: Entry) {
    && (e.row.status == Queued ==> NothingLeased(e, ActQueued))
    && (e.row.status in {BlockedApproval, BlockedPolicy} ==> NothingLeased(e, ActBlocked))
    && (!Terminal(e.row.status) ==> forall c | c in e.claims :: c.released.None?)
    && GrantsFollow(e.claims)
  }

  ghost predicate TablesAgree(s: State) {
    && Inv(s)
    && s.calls == map[]
    && forall id | id in s.db.commands :: EntryAgrees(EntryOf(s, id))
  }

  lemma ClaimAgrees(id: CommandId, e: Entry, clock: Time, worker: WorkerId, now: Time, until: Time)
    requires LeaseMatchesHistory(e, clock) && EntryAgrees(e) && clock <= now && Claimable(e.row, now)
    ensures EntryAgrees(ClaimedEntry(id, e, worker, now, until))
  {
    var n := |e.claims|;
    forall i | 0 <= i < n ensures e.claims[i].until <= now {
      assert e.claims[i] in e.claims && e.claims[n - 1] in e.claims;
      if i < n - 1 {
        assert e.claims[i].until <= e.claims[n - 1].at;
      }
    }
  }

  lemma ExtendAgrees(id: CommandId, e: Entry, worker: WorkerId, until: Time)
    requires EntryAgrees(e)
    ensures EntryAgrees(ExtendedEntry(id, e, worker, until))
  {
    var r := ExtendedEntry(id, e, worker, until);
    if RowHeldBy(e.row, worker) && e.claims != [] {
      var n := |e.claims|;
      forall c | c in r.claims ensures c.released.None? {
        assert e.claims[n - 1] in e.claims;
        if c !in e.claims {
          assert c == r.claims[n - 1];
        }
      }
    }
    forall act | act in r.acts && !Terminal(e.row.status) && e.row.status != Running ensures act in e.acts {
      var k :| 0 <= k < |r.acts| && r.acts[k] == act;
      assert e.acts[k] in e.acts;
    }
  }

  lemma ReportAgrees(e: Entry, k: nat, status: ActivityStatus, now: Time)
    requires EntryAgrees(e) && e.claims != []
    ensures EntryAgrees(ReportedEntry(e, k, status, now))
  {
  }

  lemma FinishAgrees(id: CommandId, e: Entry, status: CommandStatus, now: Time)
    requires EntryAgrees(e) && Terminal(status)
    ensures EntryAgrees(FinishedEntry(id, e, status, now))
  {
  }

  lemma CancelAgrees(id: CommandId, e: Entry)
    requires EntryAgrees(e)
    ensures EntryAgrees(MarkedEntry(RestatusedEntry(id, e, Canceled, None), ActCanceled))
  {
  }

  lemma ResumeAgrees(id: CommandId, e: Entry, verdict: Verdict)
    requires EntryAgrees(e) && e.row.status == BlockedApproval
    ensures EntryAgrees(ResumedEntry(id, e, verdict))
  {
    var acts := MarkedActivities(e.acts, ActQueued);
    forall act | act in acts ensures act.status == ActQueued && act.leaseOwner.None? && act.leaseUntil.None? {
      var k :| 0 <= k < |acts| && acts[k] == act;
      assert e.acts[k] in e.acts;
    }
  }

  lemma EntryAgreesAfter(s: State, t: Timed, id: CommandId)
    requires Coherent(s) && Legal(s, t) && Atomic(t.event) && id in s.db.commands
    requires EntryAgrees(EntryOf(s, id)) && LeaseMatchesHistory(EntryOf(s, id), s.clock)
    ensures EntryAgrees(EntryAfter(s, t, id))
  {
    var e := EntryOf(s, id);
    match t.event
    case ClaimNext(worker, leaseMs, _, picked) =>
      if picked == Some(id) {
        ClaimAgrees(id, e, s.clock, worker, t.now, t.now + leaseMs);
      }
    case ExtendLease(_, worker, leaseMs) => ExtendAgrees(id, e, worker, t.now + leaseMs);
    case FinishActivity(i, k, outcome) =>
      if i == id {
        ReportAgrees(e, k, outcome, t.now);
      }
    case FinishCommand(_, status) => FinishAgrees(id, e, status, t.now);
    case Cancel(_) => CancelAgrees(id, e);
    case Requeue(_, _) => CancelAgrees(id, e);
    case Resume(_, verdict) =>
      if e.row.status == BlockedApproval {
        ResumeAgrees(id, e, verdict);
      }
    case Submit(_) =>
    case Retry(_, _) =>
  }

  lemma AgreesAt(s: State, t: Timed, id: CommandId)
    requires TablesAgree(s) && Legal(s, t) && Atomic(t.event) && id in Step(s, t).db.commands
    ensures EntryAgrees(EntryOf(Step(s, t), id))
  {
    if id in s.db.commands {
      assert EntryInv(id, EntryOf(s, id), s.db.policyLog, s.clock);
      EntryAgreesAfter(s, t, id);
      StepEntry(s, t, id);
    } else {
      StepInserts(s, t, id);
    }
  }

  lemma AtomicStepAgrees(s: State, t: Timed)
    requires TablesAgree(s) && Legal(s, t) && Atomic(t.event)
    ensures TablesAgree(Step(s, t))
  {
    StepKeepsInv(s, t);
    var s' := Step(s, t);
    forall id | id in s'.db.commands ensures EntryAgrees(EntryOf(s', id)) {
      AgreesAt(s, t, id);
    }
    assert s'.calls == s.calls;
  }

  /** While `cancel` and `resume` run undisturbed, the two tables agree in every reachable state. */
  lemma {:induction false} TablesAgreeInAtomicRuns(run: seq<Timed>)
    requires LegalRun(INITIAL, run) && AtomicRun(run)
    ensures TablesAgree(Exec(INITIAL, run))
    decreases |run|
  {
    if run == [] {
      InitialInv();
    } else {
      assert AtomicRun(run[..|run| - 1]);
      TablesAgreeInAtomicRuns(run[..|run| - 1]);
      AtomicStepAgrees(Exec(INITIAL, run[..|run| - 1]), run[|run| - 1]);
    }
  }

  /** In every run: the cursor names the status, a running command has a lease and its running
      activities share it, and an activity's attempts are the claims that found it open. */
  lemma {:induction false} RowsAgreeInEveryRun(run: seq<Timed>, id: CommandId)
    requires LegalRun(INITIAL, run) && id in Exec(INITIAL, run).db.commands
    ensures var e := EntryOf(Exec(INITIAL, run), id);
      && e.row.cursor == Cursor(id, e.row.status)
      && RunningIsLeased(e)
      && AttemptsAreClaims(e)
  {
    ReachedEntry(run, id);
  }

  lemma RaceReads(s: State, id: CommandId, call: CallId)
    requires Coherent(s) && id in s.db.commands && s.db.commands[id].status == BlockedApproval && call !in s.calls
    ensures var t := At(s.clock, ResumeRead(call, id, Allow));
      && Legal(s, t)
      && EntryOf(Step(s, t), id) == EntryOf(s, id)
      && Step(s, t).calls == s.calls[call := ResumeCall(id, Allow, ToUpdate)]
  {
    StepEntry(s, At(s.clock, ResumeRead(call, id, Allow)), id);
  }

  lemma RaceCancels(s: State, id: CommandId)
    requires Coherent(s) && id in s.db.commands && s.db.commands[id].status == BlockedApproval
    requires forall act | act in s.db.activities[id] :: act.status == ActBlocked
    ensures var t := At(s.clock, Cancel(id));
      && Legal(s, t)
      && Step(s, t).calls == s.calls
      && |EntryOf(Step(s, t), id).acts| == |s.db.activities[id]|
      && forall act | act in EntryOf(Step(s, t), id).acts :: act.status == ActCanceled
  {
    StepEntry(s, At(s.clock, Cancel(id)), id);
    var acts := MarkedActivities(s.db.activities[id], ActCanceled);
    forall act | act in acts ensures act.status == ActCanceled {
      var k :| 0 <= k < |acts| && acts[k] == act;
      assert s.db.activities[id][k] in s.db.activities[id];
    }
  }

  ghost predicate Reaches(s: State, s': State) {
    Coherent(s) && exists run :: LegalRun(s, run) && Exec(s, run) == s'
  }

  lemma ReachesStep(s: State, s': State, t: Timed)
    requires Reaches(s, s') && Coherent(s') && Legal(s', t)
    ensures Reaches(s, Step(s', t))
  {
    var run :| LegalRun(s, run) && Exec(s, run) == s';
    Extend(s, run, t);
  }

  /** Queued, with `count` activities and every one of them canceled. */
  predicate QueuedButCanceled(s: State, id: CommandId, count: nat)
    requires Coherent(s)
  {
    && id in s.db.commands
    && s.db.commands[id].status == Queued
    && |s.db.activities[id]| == count
    && forall act | act in s.db.activities[id] :: act.status == ActCanceled
  }

  /** Undisturbed operators are needed: wherever a command waits for approval, a cancel between the two
      halves of a resume leaves it queued with all its activities canceled.  `CommandTables` says exactly
      when the tables can come apart, and covers commands without activities. */
  lemma ResumeRaceBreaksTables(s: State, id: CommandId)
    requires TablesAgree(s) && id in s.db.commands && s.db.commands[id].status == BlockedApproval
    ensures exists s' :: Reaches(s, s') && Coherent(s') && QueuedButCanceled(s', id, |s.db.activities[id]|)
  {
    assert EntryAgrees(EntryOf(s, id));
    assert LegalRun(s, []) && Exec(s, []) == s;
    RaceReads(s, id, 0);
    var s1 := Step(s, At(s.clock, ResumeRead(0, id, Allow)));
    RaceCancels(s1, id);
    var s2 := Step(s1, At(s1.clock, Cancel(id)));
    ResumeWrites(s2, 0, s2.clock);
    ReachesStep(s, s, At(s.clock, ResumeRead(0, id, Allow)));
    ReachesStep(s, s1, At(s1.clock, Cancel(id)));
    ReachesStep(s, s2, At(s2.clock, ResumeUpdate(0)));
    assert EntryOf(Step(s2, At(s2.clock, ResumeUpdate(0))), id).acts == EntryOf(s2, id).acts;
  }

  lemma Extend(s: State, run: seq<Timed>, t: Timed)
    requires Coherent(s) && LegalRun(s, run) && Legal(Exec(s, run), t)
    ensures LegalRun(s, run + [t]) && Exec(s, run + [t]) == Step(Exec(s, run), t)
  {
    assert (run + [t])[..|run|] == run;
  }

  // ---------- nothing is stranded ----------

  function Max(a: Time, b: Time): Time {
    if a < b then b else a
  }

  /** Whatever crashed, an open command can be claimed now or as soon as its recorded lease expires. */
  lemma {:induction false} NothingIsStranded(run: seq<Timed>, id: CommandId, worker: WorkerId, leaseMs: int, now: Time)
    requires LegalRun(INITIAL, run) && id in Exec(INITIAL, run).db.commands
    requires Exec(INITIAL, run).db.commands[id].status in {Queued, Running}
    requires var s := Exec(INITIAL, run);
      var until := s.db.commands[id].leaseUntil;
      now >= if until.Some? then Max(s.clock, until.value) else s.clock
    ensures var s := Exec(INITIAL, run);
      var claim := At(now, ClaimNext(worker, leaseMs, ClaimFilter(Some(id), None), Some(id)));
      && Legal(s, claim)
      && Step(s, claim).db.commands[id].leaseOwner == Some(worker)
  {
    ReachedEntry(run, id);
    ClaimIsGranted(Exec(INITIAL, run), id, worker, leaseMs, now);
  }

  lemma ClaimIsGranted(s: State, id: CommandId, worker: WorkerId, leaseMs: int, now: Time)
    requires Coherent(s) && s.clock <= now && id in s.db.commands && Claimable(s.db.commands[id], now)
    ensures var claim := At(now, ClaimNext(worker, leaseMs, ClaimFilter(Some(id), None), Some(id)));
      Legal(s, claim) && Step(s, claim).db.commands[id].leaseOwner == Some(worker)
  {
    StepEntry(s, At(now, ClaimNext(worker, leaseMs, ClaimFilter(Some(id), None), Some(id))), id);
  }
}
