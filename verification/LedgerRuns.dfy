/** Runs of the ledger: appends by anyone, and archives that select, write their sidecar and delete in
    separate steps, any of which may crash. */
module LedgerRuns {
  import opened Options
  import opened Ledger

  type ArchiveId = nat

  /** A sidecar file that was written and synced; `committed` is history: its delete went through. */
  datatype Sidecar = Sidecar(beforeTs: Time, rows: seq<Row>, committed: bool)

  datatype Stage = Selected | Counted | Written(file: nat)

  /** `floor` is history: how many sidecars there were when the archive selected its rows. */
  datatype Archive = Archive(sel: Selection, stage: Stage, floor: nat)

  datatype State = State(
    tables: Tables, sidecars: seq<Sidecar>, archives: map<ArchiveId, Archive>, appended: seq<Row>, clock: Time)

  datatype Event =
    | Ensure(session: SessionId, row: SessionRow)
    | Append(session: SessionId, eventId: nat, payload: string)
    | SelectRows(archive: ArchiveId, beforeTs: Time)
    | SelectSessions(archive: ArchiveId, sessions: seq<SessionId>)
    | WriteSidecar(archive: ArchiveId)
    | Commit(archive: ArchiveId)
    | Crash(archive: ArchiveId)

  datatype Timed = At(now: Time, event: Event)

  const EMPTY: State := State(Tables(map[], []), [], map[], [], 0)

  predicate Covered(events: seq<Row>, rows: seq<Row>, session: SessionId) {
    CountOf(rows, session) > 0 && CountOf(events, session) == CountOf(rows, session)
  }

  predicate Legal(s: State, t: Timed) {
    && s.clock <= t.now
    && match t.event
       case SelectRows(a, _) => a !in s.archives
       case SelectSessions(a, sessions) =>
         && a in s.archives && s.archives[a].stage.Selected?
         && forall id | id in sessions :: Covered(s.tables.events, s.archives[a].sel.rows, id)
       case WriteSidecar(a) => a in s.archives && s.archives[a].stage.Counted?
       case Commit(a) =>
         a in s.archives && s.archives[a].stage.Written? && s.archives[a].stage.file < |s.sidecars|
       case Crash(a) => a in s.archives
       case _ => true
  }

  function Step(s: State, t: Timed): State
    requires Legal(s, t)
  {
    var next := match t.event
      case Ensure(session, row) => s.(tables := EnsureIn(s.tables, session, row))
      case Append(session, eventId, payload) =>
        s.(tables := AppendTo(s.tables, session, eventId, t.now, payload),
           appended := if Appendable(s.tables, session, eventId)
                       then s.appended + [NewRow(s.tables, session, eventId, t.now, payload)] else s.appended)
      case SelectRows(a, beforeTs) =>
        var rows := Sorted(Before(s.tables.events, beforeTs));
        if rows == [] then s
        else s.(archives := s.archives[a := Archive(Selection(beforeTs, rows, []), Selected, |s.sidecars|)])
      case SelectSessions(a, sessions) =>
        var counted := s.archives[a].(sel := s.archives[a].sel.(sessions := sessions), stage := Counted);
        s.(archives := s.archives[a := counted])
      case WriteSidecar(a) =>
        s.(sidecars := s.sidecars + [Sidecar(s.archives[a].sel.beforeTs, s.archives[a].sel.rows, false)],
           archives := s.archives[a := s.archives[a].(stage := Written(|s.sidecars|))])
      case Commit(a) =>
        var file := s.archives[a].stage.file;
        s.(tables := DeleteFrom(s.tables, s.archives[a].sel),
           sidecars := if Deletable(s.tables, s.archives[a].sel)
                       then s.sidecars[file := s.sidecars[file].(committed := true)] else s.sidecars,
           archives := s.archives - {a})
      case Crash(a) => s.(archives := s.archives - {a});
    next.(clock := t.now)
  }

  /** The cutoff of an archive is not in the future. */
  predicate PastCutoff(t: Timed) {
    t.event.SelectRows? ==> t.event.beforeTs <= t.now
  }

  /** An archive starts only when no other is under way. */
  predicate Alone(s: State, t: Timed) {
    t.event.SelectRows? ==> s.archives == map[]
  }

  ghost predicate LegalRun(run: seq<Timed>)
    decreases |run|, 0
  {
    run == [] || (LegalRun(run[..|run| - 1]) && Legal(Exec(run[..|run| - 1]), run[|run| - 1]))
  }

  ghost function Exec(run: seq<Timed>): State
    requires LegalRun(run)
    decreases |run|, 1
  {
    if run == [] then EMPTY else Step(Exec(run[..|run| - 1]), run[|run| - 1])
  }

  ghost predicate PastCutoffs(run: seq<Timed>) {
    forall i | 0 <= i < |run| :: PastCutoff(run[i])
  }

  ghost predicate OneArchiveAtATime(run: seq<Timed>)
    requires LegalRun(run)
    decreases |run|
  {
    run == [] || (OneArchiveAtATime(run[..|run| - 1]) && Alone(Exec(run[..|run| - 1]), run[|run| - 1]))
  }

  // ---------- facts about the queries ----------

  lemma {:induction false} OfSessionConcat(a: seq<Row>, b: seq<Row>, session: SessionId)
    ensures OfSession(a + b, session) == OfSession(a, session) + OfSession(b, session)
    decreases |b|
  {
    if b == [] {
      assert a + b == a;
    } else {
      assert (a + b)[..|a + b| - 1] == a + b[..|b| - 1];
      OfSessionConcat(a, b[..|b| - 1], session);
    }
  }

  predicate InTimeOrder(rows: seq<Row>) {
    forall i, j | 0 <= i < j < |rows| :: rows[i].ts <= rows[j].ts
  }

  lemma Regroup(a: seq<Row>, b: seq<Row>, c: seq<Row>)
    ensures (a + b) + c == a + (b + c)
  {
  }

  lemma {:induction false} AllBefore(rows: seq<Row>, ts: Time)
    requires forall e | e in rows :: e.ts < ts
    ensures Before(rows, ts) == rows && NotBefore(rows, ts) == []
  {
    if rows != [] {
      var init, last := rows[..|rows| - 1], rows[|rows| - 1];
      assert last in rows;
      AllBefore(init, ts);
      assert Before(rows, ts) == init + [last];
      InitLast(rows);
    }
  }

  /** Rows in time order split at a cutoff into an earlier and a later part. */
  lemma {:induction false} SplitAt(rows: seq<Row>, ts: Time)
    requires InTimeOrder(rows)
    ensures rows == Before(rows, ts) + NotBefore(rows, ts)
  {
    if rows != [] {
      var init, last := rows[..|rows| - 1], rows[|rows| - 1];
      if last.ts < ts {
        AllBefore(rows, ts);
      } else {
        SplitAt(init, ts);
        Regroup(Before(init, ts), NotBefore(init, ts), [last]);
        assert Before(rows, ts) == Before(init, ts) && NotBefore(rows, ts) == NotBefore(init, ts) + [last];
        InitLast(rows);
      }
    }
  }

  predicate Contiguous(rows: seq<Row>) {
    forall i | 0 <= i < |rows| :: rows[i].offset == rows[0].offset + i
  }

  /** The next offset continues a contiguous range, or starts again at zero when nothing is live. */
  lemma NextOffsetContinues(rows: seq<Row>, session: SessionId)
    requires Contiguous(OfSession(rows, session))
    ensures var mine := OfSession(rows, session);
      NextOffset(rows, session) == if mine == [] then 0 else mine[|mine| - 1].offset + 1
  {
    var mine, n := OfSession(rows, session), NextOffset(rows, session);
    if n > 0 {
      var e :| e in rows && e.session == session && e.offset + 1 == n;
      assert e in mine;
    }
    if mine != [] {
      assert mine[|mine| - 1] in rows;
    }
  }

  lemma OtherSessionsCommute(rows: seq<Row>, a: Row, b: Row, session: SessionId)
    requires a.session != b.session
    ensures OfSession(rows + [b], session) + OfSession([a], session) == OfSession(rows + [a] + [b], session)
  {
    assert (rows + [a] + [b])[..|rows| + 1] == rows + [a];
    assert (rows + [a])[..|rows|] == rows;
    assert (rows + [b])[..|rows|] == rows;
    assert [a][..0] == [];
  }

  lemma {:induction false} InsertOfSession(rows: seq<Row>, e: Row, session: SessionId)
    requires forall r | r in rows && r.session == e.session :: ArchiveOrder(r, e)
    ensures OfSession(InsertRow(rows, e), session) == OfSession(rows + [e], session)
  {
    if rows == [] || ArchiveOrder(rows[|rows| - 1], e) {
    } else {
      var init, last := rows[..|rows| - 1], rows[|rows| - 1];
      assert last in rows && last.session != e.session;
      InsertOfSession(init, e, session);
      OfSessionConcat(InsertRow(init, e), [last], session);
      InitLast(rows);
      OtherSessionsCommute(init, last, e, session);
    }
  }

  lemma TimesInOrder(rows: seq<Row>, r: Row)
    requires rows != [] && r in rows && InTimeOrder(rows)
    ensures r.ts <= rows[|rows| - 1].ts
  {
  }

  lemma EarlierInOrder(rows: seq<Row>, r: Row)
    requires rows != [] && r in rows[..|rows| - 1] && r.session == rows[|rows| - 1].session
    requires InTimeOrder(rows) && Contiguous(OfSession(rows, r.session))
    ensures ArchiveOrder(r, rows[|rows| - 1])
  {
    var mine, last := OfSession(rows[..|rows| - 1], r.session), rows[|rows| - 1];
    assert r in mine;
    var i :| 0 <= i < |mine| && mine[i] == r;
    assert OfSession(rows, r.session) == mine + [last];
    assert (mine + [last])[i] == r && (mine + [last])[|mine|] == last;
    assert last in rows && r in rows;
    TimesInOrder(rows, r);
  }

  /** Sorting by time and offset leaves the rows of one session in the order they were appended. */
  lemma {:induction false} SortedKeepsSessionOrder(rows: seq<Row>, session: SessionId)
    requires InTimeOrder(rows) && forall id :: Contiguous(OfSession(rows, id))
    ensures OfSession(Sorted(rows), session) == OfSession(rows, session)
    decreases |rows|
  {
    if rows != [] {
      var init, last := rows[..|rows| - 1], rows[|rows| - 1];
      assert rows == init + [last];
      forall id ensures Contiguous(OfSession(init, id)) {
        OfSessionConcat(init, [last], id);
        assert forall i | 0 <= i < |OfSession(init, id)| :: OfSession(init, id)[i] == OfSession(rows, id)[i];
      }
      SortedKeepsSessionOrder(init, session);
      SortedSorts(init);
      forall r | r in Sorted(init) && r.session == last.session ensures ArchiveOrder(r, last) {
        EarlierInOrder(rows, r);
      }
      InsertOfSession(Sorted(init), last, session);
      OfSessionConcat(Sorted(init), [last], session);
      OfSessionConcat(init, [last], session);
    }
  }

  lemma SuffixContiguous(a: seq<Row>, b: seq<Row>)
    requires Contiguous(a + b)
    ensures Contiguous(a) && Contiguous(b)
  {
    assert forall i | 0 <= i < |a| :: (a + b)[i] == a[i];
    assert forall i | 0 <= i < |b| :: (a + b)[|a| + i] == b[i];
  }

  lemma SplitContiguous(rows: seq<Row>, ts: Time, session: SessionId)
    requires InTimeOrder(rows) && Contiguous(OfSession(rows, session))
    ensures OfSession(Before(rows, ts), session) + OfSession(NotBefore(rows, ts), session) == OfSession(rows, session)
    ensures Contiguous(OfSession(Before(rows, ts), session)) && Contiguous(OfSession(NotBefore(rows, ts), session))
  {
    SplitAt(rows, ts);
    OfSessionConcat(Before(rows, ts), NotBefore(rows, ts), session);
    SuffixContiguous(OfSession(Before(rows, ts), session), OfSession(NotBefore(rows, ts), session));
  }

  lemma SuffixInOrder(a: seq<Row>, b: seq<Row>)
    requires InTimeOrder(a + b)
    ensures InTimeOrder(a) && InTimeOrder(b)
  {
    assert forall i | 0 <= i < |a| :: (a + b)[i] == a[i];
    assert forall i | 0 <= i < |b| :: (a + b)[|a| + i] == b[i];
  }

  lemma KeptInOrder(rows: seq<Row>, ts: Time)
    requires InTimeOrder(rows)
    ensures InTimeOrder(Before(rows, ts)) && InTimeOrder(NotBefore(rows, ts))
  {
    SplitAt(rows, ts);
    SuffixInOrder(Before(rows, ts), NotBefore(rows, ts));
  }

  // ---------- what every run keeps ----------

  /** Live or in a finished sidecar. */
  predicate Safe(s: State, e: Row) {
    e in s.tables.events || exists k :: 0 <= k < |s.sidecars| && e in s.sidecars[k].rows
  }

  ghost predicate TablesInv(s: State) {
    && InTimeOrder(s.tables.events)
    && (forall e | e in s.tables.events :: e.ts <= s.clock && e.session in s.tables.sessions && e in s.appended)
    && (forall id :: Contiguous(OfSession(s.tables.events, id)))
  }

  /** A pending archive has seen every live event it is going to delete. */
  predicate ArchiveInv(s: State, a: Archive) {
    && a.sel.beforeTs <= s.clock
    && (forall e | e in s.tables.events && e.ts < a.sel.beforeTs :: e in a.sel.rows)
    && (forall e | e in a.sel.rows :: e.ts < a.sel.beforeTs)
    && (a.stage.Written? ==> a.stage.file < |s.sidecars| && s.sidecars[a.stage.file].rows == a.sel.rows)
  }

  ghost predicate Inv(s: State) {
    && TablesInv(s)
    && (forall a | a in s.archives :: ArchiveInv(s, s.archives[a]))
    && (forall e | e in s.appended :: Safe(s, e))
  }

  lemma ContiguousSnoc(rows: seq<Row>, row: Row)
    requires Contiguous(rows) && row.offset == if rows == [] then 0 else rows[|rows| - 1].offset + 1
    ensures Contiguous(rows + [row])
  {
  }

  lemma AppendKeepsTables(s: State, t: Timed)
    requires TablesInv(s) && Legal(s, t) && t.event.Append? && Appendable(s.tables, t.event.session, t.event.eventId)
    ensures TablesInv(Step(s, t))
  {
    var row := NewRow(s.tables, t.event.session, t.event.eventId, t.now, t.event.payload);
    var events := s.tables.events;
    forall i | 0 <= i < |events| ensures events[i].ts <= row.ts {
      assert events[i] in events;
    }
    forall id ensures Contiguous(OfSession(events + [row], id)) {
      NextRowContinues(events, row, id);
    }
  }

  lemma NextRowContinues(events: seq<Row>, row: Row, id: SessionId)
    requires Contiguous(OfSession(events, id)) && Contiguous(OfSession(events, row.session))
    requires row.offset == NextOffset(events, row.session)
    ensures Contiguous(OfSession(events + [row], id))
  {
    OneMoreOfSession(events, row, id);
    NextOffsetContinues(events, row.session);
    if id == row.session {
      ContiguousSnoc(OfSession(events, id), row);
    }
  }

  lemma CommitKeepsTables(s: State, t: Timed)
    requires TablesInv(s) && Legal(s, t) && t.event.Commit? && Deletable(s.tables, s.archives[t.event.archive].sel)
    ensures TablesInv(Step(s, t))
  {
    var events, cutoff := s.tables.events, s.archives[t.event.archive].sel.beforeTs;
    var kept := NotBefore(events, cutoff);
    KeptInOrder(events, cutoff);
    forall id ensures Contiguous(OfSession(kept, id)) {
      SplitContiguous(events, cutoff, id);
    }
  }

  lemma StepKeepsTables(s: State, t: Timed)
    requires TablesInv(s) && Legal(s, t)
    ensures TablesInv(Step(s, t))
  {
    if t.event.Append? && Appendable(s.tables, t.event.session, t.event.eventId) {
      AppendKeepsTables(s, t);
    } else if t.event.Commit? && Deletable(s.tables, s.archives[t.event.archive].sel) {
      CommitKeepsTables(s, t);
    } else {
      assert Step(s, t).tables.events == s.tables.events;
    }
  }

  lemma {:induction false} RunKeepsTables(run: seq<Timed>)
    requires LegalRun(run)
    ensures TablesInv(Exec(run))
    decreases |run|
  {
    if run != [] {
      RunKeepsTables(run[..|run| - 1]);
      StepKeepsTables(Exec(run[..|run| - 1]), run[|run| - 1]);
    }
  }

  /** A delete goes through for exactly the events its own sidecar holds. */
  lemma CommitRemovesItsSidecar(s: State, t: Timed, e: Row)
    requires Inv(s) && Legal(s, t) && t.event.Commit? && Deletable(s.tables, s.archives[t.event.archive].sel)
    requires e in s.tables.events
    ensures e !in Step(s, t).tables.events <==> e in Step(s, t).sidecars[s.archives[t.event.archive].stage.file].rows
  {
    assert ArchiveInv(s, s.archives[t.event.archive]);
  }

  lemma SafeLater(s: State, s': State, e: Row)
    requires Safe(s, e)
    requires |s.sidecars| <= |s'.sidecars|
    requires forall k | 0 <= k < |s.sidecars| :: s'.sidecars[k].rows == s.sidecars[k].rows
    requires e in s.tables.events
         ==> e in s'.tables.events || exists k :: 0 <= k < |s'.sidecars| && e in s'.sidecars[k].rows
    ensures Safe(s', e)
  {
    if e !in s.tables.events {
      var k :| 0 <= k < |s.sidecars| && e in s.sidecars[k].rows;
      assert e in s'.sidecars[k].rows;
    }
  }

  lemma StepKeepsSafe(s: State, t: Timed, e: Row)
    requires Inv(s) && Legal(s, t) && e in s.appended
    ensures Safe(Step(s, t), e)
  {
    var s' := Step(s, t);
    if t.event.Commit? && Deletable(s.tables, s.archives[t.event.archive].sel) && e in s.tables.events {
      CommitRemovesItsSidecar(s, t, e);
    }
    SafeLater(s, s', e);
  }

  lemma StepKeepsArchives(s: State, t: Timed, a: ArchiveId)
    requires Inv(s) && Legal(s, t) && PastCutoff(t) && a in Step(s, t).archives
    ensures ArchiveInv(Step(s, t), Step(s, t).archives[a])
  {
    if t.event.SelectRows? && a == t.event.archive {
      SortedSorts(Before(s.tables.events, t.event.beforeTs));
    } else {
      assert a in s.archives && ArchiveInv(s, s.archives[a]);
    }
  }

  lemma StepKeepsInv(s: State, t: Timed)
    requires Inv(s) && Legal(s, t) && PastCutoff(t)
    ensures Inv(Step(s, t))
  {
    var s' := Step(s, t);
    StepKeepsTables(s, t);
    forall a | a in s'.archives ensures ArchiveInv(s', s'.archives[a]) {
      StepKeepsArchives(s, t, a);
    }
    forall e | e in s'.appended ensures Safe(s', e) {
      if e in s.appended {
        StepKeepsSafe(s, t, e);
      }
    }
  }

  lemma {:induction false} RunKeepsInv(run: seq<Timed>)
    requires LegalRun(run) && PastCutoffs(run)
    ensures Inv(Exec(run))
    decreases |run|
  {
    if run != [] {
      assert PastCutoffs(run[..|run| - 1]);
      RunKeepsInv(run[..|run| - 1]);
      StepKeepsInv(Exec(run[..|run| - 1]), run[|run| - 1]);
    }
  }

  /** With cutoffs in the past, every row ever appended is live or in a finished sidecar. */
  lemma {:induction false} RowsAreKept(run: seq<Timed>, e: Row)
    requires LegalRun(run) && PastCutoffs(run) && e in Exec(run).appended
    ensures Safe(Exec(run), e)
  {
    RunKeepsInv(run);
  }

  /** No live event is ever without its session row, and a session's live offsets are one range. */
  lemma {:induction false} LiveEventsKeepSessionAndOffsets(run: seq<Timed>, session: SessionId)
    requires LegalRun(run)
    ensures var t := Exec(run).tables;
      && (forall e | e in t.events :: e.session in t.sessions)
      && Contiguous(OfSession(t.events, session))
  {
    RunKeepsTables(run);
  }

  /** The session's last-event column is the time of its last live event. */
  predicate ShowsLast(t: Tables, session: SessionId) {
    var last := LastOf(OfSession(t.events, session));
    last.Some? ==> session in t.sessions && t.sessions[session].lastEventAt == Some(last.value.ts)
  }

  function LastOf(rows: seq<Row>): Option<Row> {
    if rows == [] then None else Some(rows[|rows| - 1])
  }

  lemma AppendShowsLast(t: Tables, to: SessionId, eventId: nat, now: Time, payload: string, session: SessionId)
    requires ShowsLast(t, session)
    ensures ShowsLast(AppendTo(t, to, eventId, now, payload), session)
  {
    OneMoreOfSession(t.events, NewRow(t, to, eventId, now, payload), session);
  }

  /** The last event of a session that a delete keeps is the last of all. */
  lemma LastIsKept(rows: seq<Row>, ts: Time, session: SessionId)
    requires InTimeOrder(rows) && Contiguous(OfSession(rows, session))
    ensures var last := LastOf(OfSession(NotBefore(rows, ts), session));
      last.Some? ==>
        last == LastOf(OfSession(rows, session)) && last.value in NotBefore(rows, ts) && last.value.session == session
  {
    var kept := OfSession(NotBefore(rows, ts), session);
    SplitContiguous(rows, ts, session);
    LastOfConcat(OfSession(Before(rows, ts), session), kept);
    assert kept != [] ==> kept[|kept| - 1] in kept;
  }

  lemma LastOfConcat(a: seq<Row>, b: seq<Row>)
    ensures b != [] ==> LastOf(a + b) == LastOf(b)
  {
  }

  lemma KeptSession(t: Tables, sel: Selection, e: Row)
    requires Deletable(t, sel) && e.session in t.sessions && e in NotBefore(t.events, sel.beforeTs)
    ensures e.session in DeleteFrom(t, sel).sessions
    ensures DeleteFrom(t, sel).sessions[e.session] == t.sessions[e.session]
  {
  }

  lemma DeleteShowsLast(t: Tables, sel: Selection, session: SessionId)
    requires InTimeOrder(t.events) && Contiguous(OfSession(t.events, session)) && ShowsLast(t, session)
    requires Deletable(t, sel)
    ensures ShowsLast(DeleteFrom(t, sel), session)
  {
    var last := LastOf(OfSession(NotBefore(t.events, sel.beforeTs), session));
    LastIsKept(t.events, sel.beforeTs, session);
    if last.Some? {
      KeptSession(t, sel, last.value);
    }
  }

  lemma EnsureShowsLast(t: Tables, id: SessionId, row: SessionRow, session: SessionId)
    requires ShowsLast(t, session)
    ensures ShowsLast(EnsureIn(t, id, row), session)
  {
  }

  lemma StepShowsLast(s: State, t: Timed, session: SessionId)
    requires TablesInv(s) && Legal(s, t) && ShowsLast(s.tables, session)
    ensures ShowsLast(Step(s, t).tables, session)
  {
    match t.event
    case Append(to, eventId, payload) => AppendShowsLast(s.tables, to, eventId, t.now, payload, session);
    case Commit(a) =>
      if Deletable(s.tables, s.archives[a].sel) {
        DeleteShowsLast(s.tables, s.archives[a].sel, session);
      }
    case Ensure(id, row) => EnsureShowsLast(s.tables, id, row, session);
    case _ =>
  }

  lemma OneMoreOfSession(rows: seq<Row>, row: Row, session: SessionId)
    ensures OfSession(rows + [row], session)
         == OfSession(rows, session) + (if row.session == session then [row] else [])
  {
    assert (rows + [row])[..|rows|] == rows;
  }

  /** In every run the last-event column of a session with live events is the time of the last of them. */
  lemma {:induction false} LastEventColumnShowsLast(run: seq<Timed>, session: SessionId)
    requires LegalRun(run)
    ensures ShowsLast(Exec(run).tables, session)
    decreases |run|
  {
    if run != [] {
      RunKeepsTables(run[..|run| - 1]);
      LastEventColumnShowsLast(run[..|run| - 1], session);
      StepShowsLast(Exec(run[..|run| - 1]), run[|run| - 1], session);
    }
  }

  lemma AppendedThenDeleted(t: Tables, after: Tables, sel: Selection, row: Row)
    requires row !in t.events && after.events == t.events + [row]
    ensures row in DeleteFrom(after, sel).events <==> sel.beforeTs <= row.ts || !Deletable(t, sel)
  {
    assert (t.events + [row])[..|t.events|] == t.events;
    assert row in t.events + [row];
    assert row.ts < sel.beforeTs ==> NotBefore(after.events, sel.beforeTs) == NotBefore(t.events, sel.beforeTs);
  }

  lemma CommitDeletes(s: State, a: ArchiveId, now: Time)
    requires Legal(s, At(now, Commit(a)))
    ensures Step(s, At(now, Commit(a))).tables == DeleteFrom(s.tables, s.archives[a].sel)
  {
  }

  lemma AppendAppends(s: State, append: Timed)
    requires append.event.Append? && Legal(s, append)
         && Appendable(s.tables, append.event.session, append.event.eventId)
    ensures AppendedRow(s, append) !in s.tables.events
    ensures var s1 := Step(s, append);
      && s1.tables.events == s.tables.events + [AppendedRow(s, append)]
      && s1.archives == s.archives && s1.sidecars == s.sidecars && s1.clock == append.now
  {
  }

  /** Whether an append between select and delete is live after the delete was tried. */
  lemma AppendDuringArchive(s: State, a: ArchiveId, append: Timed)
    requires TablesInv(s) && a in s.archives && s.archives[a].stage.Written? && s.archives[a].stage.file < |s.sidecars|
    requires append.event.Append? && Legal(s, append)
         && Appendable(s.tables, append.event.session, append.event.eventId)
    ensures AppendedRow(s, append) in Step(Step(s, append), At(append.now, Commit(a))).tables.events
      <==> s.archives[a].sel.beforeTs <= append.now || !Deletable(s.tables, s.archives[a].sel)
  {
    AppendAppends(s, append);
    AppendedThenDeleted(s.tables, Step(s, append).tables, s.archives[a].sel, AppendedRow(s, append));
    CommitDeletes(Step(s, append), a, append.now);
  }

  function AppendedRow(s: State, append: Timed): Row
    requires append.event.Append?
  {
    NewRow(s.tables, append.event.session, append.event.eventId, append.now, append.event.payload)
  }

  ghost predicate SafeAgainstAppends(s: State, a: ArchiveId)
    requires a in s.archives && s.archives[a].stage.Written? && s.archives[a].stage.file < |s.sidecars|
  {
    forall append: Timed | append.event.Append? && Legal(s, append)
      && Appendable(s.tables, append.event.session, append.event.eventId) ::
      AppendedRow(s, append) in Step(Step(s, append), At(append.now, Commit(a))).tables.events
  }

  /** A written archive is safe against every append that may come before its delete exactly when its cutoff
      is not in the future, or its delete is going to be refused, or there is no session to append to. */
  lemma {:induction false} SafeAgainstAppendsExactlyWhen(s: State, a: ArchiveId)
    requires TablesInv(s) && a in s.archives && s.archives[a].stage.Written? && s.archives[a].stage.file < |s.sidecars|
    ensures SafeAgainstAppends(s, a)
      <==> s.archives[a].sel.beforeTs <= s.clock || !Deletable(s.tables, s.archives[a].sel)
           || s.tables.sessions == map[]
  {
    if s.clock < s.archives[a].sel.beforeTs && Deletable(s.tables, s.archives[a].sel) && s.tables.sessions != map[] {
      var session :| session in s.tables.sessions;
      var newId := FreshEvent(s.tables.events);
      var append := At(s.clock, Append(session, newId, ""));
      AppendDuringArchive(s, a, append);
    } else {
      forall append: Timed | append.event.Append? && Legal(s, append)
        && Appendable(s.tables, append.event.session, append.event.eventId)
        ensures AppendedRow(s, append) in Step(Step(s, append), At(append.now, Commit(a))).tables.events
      {
        AppendDuringArchive(s, a, append);
      }
    }
  }

  lemma FreshEvent(rows: seq<Row>) returns (id: nat)
    ensures forall e | e in rows :: e.eventId < id
  {
    id := 0;
    if rows != [] {
      var rest := FreshEvent(rows[..|rows| - 1]);
      var last := rows[|rows| - 1];
      id := if last.eventId < rest then rest else last.eventId + 1;
      assert rows == rows[..|rows| - 1] + [last];
    }
  }
}
