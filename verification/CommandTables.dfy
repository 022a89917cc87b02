/** When the two tables of the command queue can come apart: exactly which states let some run leave a
    queued command with a lease, a claim or an activity that is not queued. */
module CommandTables {
  import opened Options
  import opened CommandRows
  import opened CommandRuns
  import opened CommandTheorems

  /** A queued command has only queued activities and no lease, and was never claimed. */
  predicate QueuedOk(s: State, id: CommandId)
    requires Coherent(s)
  {
    id in s.db.commands && s.db.commands[id].status == Queued ==> NothingLeased(EntryOf(s, id), ActQueued)
  }

  /** The resumes that read the command as waiting and have yet to write its status. */
  ghost function Writers(s: State, id: CommandId): set<CallId> {
    set call | call in s.calls && s.calls[call].ResumeCall? && s.calls[call].id == id && s.calls[call].stage == ToUpdate
  }

  predicate CancelOn(s: State, call: CallId, id: CommandId) {
    call in s.calls && s.calls[call].CancelCall? && s.calls[call].id == id
  }

  ghost predicate CancelPending(s: State, id: CommandId) {
    exists call :: CancelOn(s, call, id)
  }

  ghost predicate CancelMarking(s: State, id: CommandId) {
    exists call :: CancelOn(s, call, id) && s.calls[call].stage == ToMark
  }

  /** With no resume about to write: nobody can resume the command, and if it is queued, it is so in both
      tables and no cancel is about to mark its activities.  With one about to write: it is the only one,
      it was allowed, the command is closed, what it would queue is in order, and no cancel can mark it. */
  ghost predicate StaysTogether(s: State, id: CommandId)
    requires Coherent(s) && id in s.db.commands
  {
    var e := EntryOf(s, id);
    if Writers(s, id) == {} then
      && e.row.status != BlockedApproval
      && (e.row.status == Queued ==> NothingLeased(e, ActQueued) && (e.acts == [] || !CancelMarking(s, id)))
    else
      && (exists call :: Writers(s, id) == {call} && s.calls[call].verdict == Allow)
      && e.row.status !in {Queued, Running, BlockedApproval}
      && NothingLeased(e, ActQueued)
      && (e.acts == [] || (Terminal(e.row.status) && !CancelPending(s, id)))
  }

  // ---------- it stays so ----------

  lemma WritersAfter(s: State, t: Timed, id: CommandId)
    requires Coherent(s) && Legal(s, t) && id in s.db.commands && s.db.commands[id].status != BlockedApproval
    ensures Writers(Step(s, t), id)
         == if t.event.ResumeUpdate? then Writers(s, id) - {t.event.call} else Writers(s, id)
    ensures forall call | call in Writers(Step(s, t), id) :: Step(s, t).calls[call] == s.calls[call]
  {
    var s' := Step(s, t);
    forall call ensures call in Writers(s', id) <==>
      call in Writers(s, id) && !(t.event.ResumeUpdate? && t.event.call == call)
    {
      if call in s.calls && call in s'.calls && s'.calls[call] != s.calls[call] {
        assert s'.calls[call].stage == ToMark;
      }
    }
  }

  lemma CancelsAfter(s: State, t: Timed, id: CommandId, call: CallId)
    requires Coherent(s) && Legal(s, t) && id in s.db.commands && CancelOn(Step(s, t), call, id)
    ensures CancelOn(s, call, id) || (t.event.CancelRead? && t.event.id == id && !Terminal(s.db.commands[id].status))
    ensures Step(s, t).calls[call].stage == ToMark ==>
      (CancelOn(s, call, id) && s.calls[call].stage == ToMark) || (t.event.CancelUpdate? && t.event.call == call)
  {
  }

  predicate Writes(s: State, t: Timed, id: CommandId)
    requires Coherent(s) && Legal(s, t)
  {
    t.event.ResumeUpdate? && s.calls[t.event.call].id == id
  }

  predicate CancelMarks(s: State, t: Timed, id: CommandId)
    requires Coherent(s) && Legal(s, t)
  {
    t.event.CancelMark? && s.calls[t.event.call].id == id
  }

  lemma WriterIsOne(s: State, t: Timed, id: CommandId)
    requires Coherent(s) && Legal(s, t) && Writes(s, t, id)
    ensures t.event.call in Writers(s, id)
  {
  }

  /** Nothing but the write of a resume queues a command that does not wait for approval. */
  lemma StatusAfter(s: State, t: Timed, id: CommandId)
    requires Coherent(s) && Legal(s, t) && id in s.db.commands
    requires s.db.commands[id].status != BlockedApproval && !Writes(s, t, id)
    ensures var was, now := s.db.commands[id].status, EntryAfter(s, t, id).row.status;
      && now != BlockedApproval
      && (now == Queued ==> was == Queued)
      && (was !in {Queued, Running} ==> now !in {Queued, Running})
      && (Terminal(was) ==> Terminal(now))
  {
  }

  /** A queue entry in order stays so while the command is neither claimed nor marked canceled. */
  lemma OrderAfter(s: State, t: Timed, id: CommandId)
    requires Coherent(s) && Legal(s, t) && id in s.db.commands
    requires s.db.commands[id].status != BlockedApproval && NothingLeased(EntryOf(s, id), ActQueued)
    requires EntryOf(s, id).acts != [] ==>
      !CancelMarks(s, t, id) && (Terminal(s.db.commands[id].status) || EntryAfter(s, t, id).row.status != Canceled)
    requires EntryAfter(s, t, id).row.status != Running
    ensures NothingLeased(EntryAfter(s, t, id), ActQueued)
  {
  }

  lemma SameActivityCount(s: State, t: Timed, id: CommandId)
    requires Coherent(s) && Legal(s, t) && id in s.db.commands
    ensures |EntryAfter(s, t, id).acts| == |s.db.activities[id]|
  {
  }

  lemma StaysWithoutWriters(s: State, t: Timed, id: CommandId)
    requires Coherent(s) && Legal(s, t) && id in s.db.commands && StaysTogether(s, id) && Writers(s, id) == {}
    ensures StaysTogether(Step(s, t), id)
  {
    var s' := Step(s, t);
    WritersAfter(s, t, id);
    if Writes(s, t, id) {
      WriterIsOne(s, t, id);
    }
    StatusAfter(s, t, id);
    StepEntry(s, t, id);
    if EntryAfter(s, t, id).row.status == Queued {
      if CancelMarks(s, t, id) {
        assert CancelOn(s, t.event.call, id);
      }
      OrderAfter(s, t, id);
      SameActivityCount(s, t, id);
      if CancelMarking(s', id) {
        var call :| CancelOn(s', call, id) && s'.calls[call].stage == ToMark;
        CancelsAfter(s, t, id, call);
      }
    }
  }

  lemma WriteQueues(s: State, t: Timed, id: CommandId)
    requires Coherent(s) && Legal(s, t) && id in s.db.commands && Writes(s, t, id)
    requires s.calls[t.event.call].verdict == Allow
    ensures var e := EntryOf(s, id);
      EntryAfter(s, t, id)
          == Entry(e.row.(status := Queued, cursor := Cursor(id, Queued), verdict := Allow), e.acts, e.claims)
  {
  }

  lemma StaysThroughTheWrite(s: State, t: Timed, id: CommandId)
    requires Coherent(s) && Legal(s, t) && id in s.db.commands && StaysTogether(s, id) && Writes(s, t, id)
    ensures StaysTogether(Step(s, t), id)
  {
    var s' := Step(s, t);
    WriterIsOne(s, t, id);
    WritersAfter(s, t, id);
    WriteQueues(s, t, id);
    StepEntry(s, t, id);
    if CancelMarking(s', id) {
      var call :| CancelOn(s', call, id) && s'.calls[call].stage == ToMark;
      CancelsAfter(s, t, id, call);
    }
  }

  lemma StaysWithAWriter(s: State, t: Timed, id: CommandId)
    requires Coherent(s) && Legal(s, t) && id in s.db.commands && StaysTogether(s, id)
    requires Writers(s, id) != {} && !Writes(s, t, id)
    ensures StaysTogether(Step(s, t), id)
  {
    var s' := Step(s, t);
    WritersAfter(s, t, id);
    StatusAfter(s, t, id);
    StepEntry(s, t, id);
    if CancelMarks(s, t, id) {
      assert CancelOn(s, t.event.call, id);
    }
    OrderAfter(s, t, id);
    SameActivityCount(s, t, id);
    if CancelPending(s', id) {
      var call :| CancelOn(s', call, id);
      CancelsAfter(s, t, id, call);
    }
  }

  lemma {:induction false} StaysInRuns(s: State, run: seq<Timed>, id: CommandId)
    requires Coherent(s) && LegalRun(s, run) && id in s.db.commands && StaysTogether(s, id)
    ensures StaysTogether(Exec(s, run), id)
    decreases |run|
  {
    if run != [] {
      var before, t := run[..|run| - 1], run[|run| - 1];
      StaysInRuns(s, before, id);
      if Writers(Exec(s, before), id) == {} {
        StaysWithoutWriters(Exec(s, before), t, id);
      } else if Writes(Exec(s, before), t, id) {
        StaysThroughTheWrite(Exec(s, before), t, id);
      } else {
        StaysWithAWriter(Exec(s, before), t, id);
      }
    }
  }

  // ---------- otherwise it can break ----------

  /** Some continuation ends with the command queued but not in order. */
  ghost predicate CanComeApart(s: State, id: CommandId)
    requires Coherent(s)
  {
    exists run :: LegalRun(s, run) && !QueuedOk(Exec(s, run), id)
  }

  /** `s` is reached from `s0`, and the command exists. */
  ghost predicate From(s0: State, s: State, id: CommandId) {
    Coherent(s) && Reaches(s0, s) && id in s.db.commands
  }

  lemma BrokenNow(s0: State, s: State, id: CommandId)
    requires From(s0, s, id) && !QueuedOk(s, id)
    ensures CanComeApart(s0, id)
  {
  }

  lemma OneStep(s0: State, s: State, t: Timed, id: CommandId)
    requires From(s0, s, id) && Legal(s, t)
    ensures From(s0, Step(s, t), id) && EntryOf(Step(s, t), id) == EntryAfter(s, t, id)
  {
    ReachesStep(s0, s, t);
    StepEntry(s, t, id);
  }

  /** An allowed resume is about to write the status of the command. */
  predicate Armed(s: State, call: CallId, id: CommandId) {
    call in s.calls && s.calls[call] == ResumeCall(id, Allow, ToUpdate)
  }

  lemma WriteBreaks(s0: State, s: State, call: CallId, id: CommandId)
    requires From(s0, s, id) && Armed(s, call, id) && !NothingLeased(EntryOf(s, id), ActQueued)
    ensures CanComeApart(s0, id)
  {
    var t := At(s.clock, ResumeUpdate(call));
    OneStep(s0, s, t, id);
    WriteQueues(s, t, id);
    BrokenNow(s0, Step(s, t), id);
  }

  /** A claim after one allowed resume, then the write of another. */
  lemma ClaimThenWriteBreaks(s0: State, s: State, call: CallId, id: CommandId)
    requires From(s0, s, id) && Armed(s, call, id) && s.db.commands[id].status == Queued
    ensures CanComeApart(s0, id)
  {
    if !QueuedOk(s, id) {
      BrokenNow(s0, s, id);
    } else {
      var t := At(s.clock, ClaimNext(0, 0, ClaimFilter(Some(id), None), Some(id)));
      OneStep(s0, s, t, id);
      WriteBreaks(s0, Step(s, t), call, id);
    }
  }

  lemma TwoWritesBreak(s0: State, s: State, a: CallId, b: CallId, id: CommandId)
    requires From(s0, s, id) && Armed(s, a, id) && Armed(s, b, id) && a != b
    ensures CanComeApart(s0, id)
  {
    var t := At(s.clock, ResumeUpdate(a));
    OneStep(s0, s, t, id);
    WriteQueues(s, t, id);
    ClaimThenWriteBreaks(s0, Step(s, t), b, id);
  }

  lemma FreshCall(calls: set<CallId>) returns (call: CallId)
    ensures forall other | other in calls :: other < call
    decreases |calls|
  {
    if calls == {} {
      call := 0;
    } else {
      var one :| one in calls;
      var rest := FreshCall(calls - {one});
      call := if one < rest then rest else one + 1;
      assert forall other | other in calls :: other == one || other in calls - {one};
    }
  }

  lemma ReadArms(s0: State, s: State, call: CallId, id: CommandId)
    requires From(s0, s, id) && s.db.commands[id].status == BlockedApproval && call !in s.calls
    ensures var t := At(s.clock, ResumeRead(call, id, Allow));
      && Legal(s, t) && From(s0, Step(s, t), id)
      && Step(s, t).calls == s.calls[call := ResumeCall(id, Allow, ToUpdate)]
      && EntryOf(Step(s, t), id) == EntryOf(s, id)
  {
    OneStep(s0, s, At(s.clock, ResumeRead(call, id, Allow)), id);
  }

  lemma SecondReadBreaks(s0: State, s: State, a: CallId, b: CallId, id: CommandId)
    requires From(s0, s, id) && EntryOf(s, id).row.status == BlockedApproval
    requires Armed(s, a, id) && b !in s.calls
    ensures CanComeApart(s0, id)
  {
    ReadArms(s0, s, b, id);
    TwoWritesBreak(s0, Step(s, At(s.clock, ResumeRead(b, id, Allow))), a, b, id);
  }

  /** While a command waits, two operators may both read it as waiting. */
  lemma WaitingBreaks(s0: State, s: State, id: CommandId)
    requires From(s0, s, id) && s.db.commands[id].status == BlockedApproval
    ensures CanComeApart(s0, id)
  {
    var a := FreshCall(s.calls.Keys);
    assert a !in s.calls && a + 1 !in s.calls;
    ReadArms(s0, s, a, id);
    SecondReadBreaks(s0, Step(s, At(s.clock, ResumeRead(a, id, Allow))), a, a + 1, id);
  }

  lemma RefusedWriteBreaks(s0: State, s: State, call: CallId, id: CommandId)
    requires From(s0, s, id) && call in Writers(s, id) && s.calls[call].verdict != Allow
    ensures CanComeApart(s0, id)
  {
    var t := At(s.clock, ResumeUpdate(call));
    OneStep(s0, s, t, id);
    WaitingBreaks(s0, Step(s, t), id);
  }

  lemma MarkedIsNotQueued(e: Entry)
    requires e.acts != []
    ensures !NothingLeased(MarkedEntry(e, ActCanceled), ActQueued)
  {
    assert MarkedActivities(e.acts, ActCanceled)[0] in MarkedActivities(e.acts, ActCanceled);
  }

  lemma CancelThenWriteBreaks(s0: State, s: State, call: CallId, id: CommandId)
    requires From(s0, s, id) && Armed(s, call, id) && s.db.activities[id] != [] && !Terminal(s.db.commands[id].status)
    ensures CanComeApart(s0, id)
  {
    var t := At(s.clock, Cancel(id));
    OneStep(s0, s, t, id);
    MarkedIsNotQueued(RestatusedEntry(id, EntryOf(s, id), Canceled, None));
    WriteBreaks(s0, Step(s, t), call, id);
  }

  lemma MarkThenWriteBreaks(s0: State, s: State, call: CallId, cancel: CallId, id: CommandId)
    requires From(s0, s, id) && Armed(s, call, id) && s.db.activities[id] != []
    requires CancelOn(s, cancel, id) && s.calls[cancel].stage == ToMark
    ensures CanComeApart(s0, id)
  {
    var t := At(s.clock, CancelMark(cancel));
    OneStep(s0, s, t, id);
    MarkedIsNotQueued(EntryOf(s, id));
    WriteBreaks(s0, Step(s, t), call, id);
  }

  lemma PendingCancelBreaks(s0: State, s: State, call: CallId, cancel: CallId, id: CommandId)
    requires From(s0, s, id) && Armed(s, call, id) && s.db.activities[id] != [] && CancelOn(s, cancel, id)
    ensures CanComeApart(s0, id)
  {
    if s.calls[cancel].stage == ToMark {
      MarkThenWriteBreaks(s0, s, call, cancel, id);
    } else {
      var t := At(s.clock, CancelUpdate(cancel));
      OneStep(s0, s, t, id);
      SameActivityCount(s, t, id);
      MarkThenWriteBreaks(s0, Step(s, t), call, cancel, id);
    }
  }

  lemma MarkBreaks(s0: State, s: State, cancel: CallId, id: CommandId)
    requires From(s0, s, id) && s.db.commands[id].status == Queued && s.db.activities[id] != []
    requires CancelOn(s, cancel, id) && s.calls[cancel].stage == ToMark
    ensures CanComeApart(s0, id)
  {
    var t := At(s.clock, CancelMark(cancel));
    OneStep(s0, s, t, id);
    MarkedIsNotQueued(EntryOf(s, id));
    BrokenNow(s0, Step(s, t), id);
  }

  lemma BreaksWithoutWriters(s: State, id: CommandId)
    requires From(s, s, id) && !StaysTogether(s, id) && Writers(s, id) == {}
    ensures CanComeApart(s, id)
  {
    var e := EntryOf(s, id);
    if e.row.status == BlockedApproval {
      WaitingBreaks(s, s, id);
    } else if !NothingLeased(e, ActQueued) {
      BrokenNow(s, s, id);
    } else {
      var cancel :| CancelOn(s, cancel, id) && s.calls[cancel].stage == ToMark;
      MarkBreaks(s, s, cancel, id);
    }
  }

  lemma BreaksWithOneWriter(s: State, call: CallId, id: CommandId)
    requires From(s, s, id) && !StaysTogether(s, id) && Writers(s, id) == {call} && Armed(s, call, id)
    requires RunningIsLeased(EntryOf(s, id)) && LeaseMatchesHistory(EntryOf(s, id), s.clock)
    ensures CanComeApart(s, id)
  {
    var e := EntryOf(s, id);
    if e.row.status == BlockedApproval {
      WaitingBreaks(s, s, id);
    } else if e.row.status == Queued {
      ClaimThenWriteBreaks(s, s, call, id);
    } else if !NothingLeased(e, ActQueued) {
      WriteBreaks(s, s, call, id);
    } else if !Terminal(e.row.status) {
      CancelThenWriteBreaks(s, s, call, id);
    } else {
      var cancel :| CancelOn(s, cancel, id);
      PendingCancelBreaks(s, s, call, cancel, id);
    }
  }

  lemma BreaksWithWriters(s: State, id: CommandId)
    requires From(s, s, id) && !StaysTogether(s, id) && Writers(s, id) != {}
    requires RunningIsLeased(EntryOf(s, id)) && LeaseMatchesHistory(EntryOf(s, id), s.clock)
    ensures CanComeApart(s, id)
  {
    var a :| a in Writers(s, id);
    if exists call :: call in Writers(s, id) && s.calls[call].verdict != Allow {
      var call :| call in Writers(s, id) && s.calls[call].verdict != Allow;
      RefusedWriteBreaks(s, s, call, id);
    } else if Writers(s, id) == {a} {
      BreaksWithOneWriter(s, a, id);
    } else {
      var b :| b in Writers(s, id) && b != a;
      TwoWritesBreak(s, s, a, b, id);
    }
  }

  lemma BreaksOtherwise(s: State, id: CommandId)
    requires Inv(s) && id in s.db.commands && !StaysTogether(s, id)
    ensures CanComeApart(s, id)
  {
    assert LegalRun(s, []) && Exec(s, []) == s;
    assert EntryInv(id, EntryOf(s, id), s.db.policyLog, s.clock);
    if Writers(s, id) == {} {
      BreaksWithoutWriters(s, id);
    } else {
      BreaksWithWriters(s, id);
    }
  }

  lemma KeptTogether(s: State, id: CommandId)
    requires Coherent(s) && id in s.db.commands && StaysTogether(s, id)
    ensures !CanComeApart(s, id)
  {
    forall run | LegalRun(s, run) ensures QueuedOk(Exec(s, run), id) {
      StaysInRuns(s, run, id);
      TogetherIsOk(Exec(s, run), id);
    }
  }

  /** From a reachable state, some continuation leaves the command queued in one table only, leased or
      claimed exactly when the state does not hold the command together; this can be read off its row, its
      activities and the operator calls under way. */
  lemma {:induction false} ComesApartExactlyWhen(s: State, id: CommandId)
    requires Inv(s) && id in s.db.commands
    ensures CanComeApart(s, id) <==> !StaysTogether(s, id)
  {
    if StaysTogether(s, id) {
      KeptTogether(s, id);
    } else {
      BreaksOtherwise(s, id);
    }
  }

  lemma TogetherIsOk(s: State, id: CommandId)
    requires Coherent(s) && id in s.db.commands && StaysTogether(s, id)
    ensures QueuedOk(s, id)
  {
  }

  /** With no operator call under way and the tables in agreement, exactly the commands that wait for
      approval can come apart, whether or not they have activities. */
  lemma {:induction false} OnlyWaitingCommandsComeApart(s: State, id: CommandId)
    requires TablesAgree(s) && id in s.db.commands
    ensures CanComeApart(s, id) <==> s.db.commands[id].status == BlockedApproval
  {
    assert EntryAgrees(EntryOf(s, id));
    assert Writers(s, id) == {} && !CancelMarking(s, id);
    ComesApartExactlyWhen(s, id);
  }
}
