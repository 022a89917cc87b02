/** Replay of the ledger: when the committed sidecars and the live events give back every append. */
module LedgerReplay {
  import opened Options
  import opened Ledger
  import opened LedgerRuns

  /** The session's events in the committed sidecars, in archive order. */
  function Archived(sidecars: seq<Sidecar>, session: SessionId): seq<Row> {
    if sidecars == [] then [] else
      var last := sidecars[|sidecars| - 1];
      Archived(sidecars[..|sidecars| - 1], session) + Committed(last, session)
  }

  /** What one sidecar adds to the replay. */
  function Committed(sidecar: Sidecar, session: SessionId): seq<Row> {
    if sidecar.committed then OfSession(sidecar.rows, session) else []
  }

  /** Replay is exact: archived, then live events are the session's appends in order. */
  predicate Exact(s: State, session: SessionId) {
    Archived(s.sidecars, session) + OfSession(s.tables.events, session) == OfSession(s.appended, session)
  }

  /** Two committed sidecars hold the same event of the session. */
  predicate Repeats(sidecars: seq<Sidecar>, i: int, j: int, e: Row) {
    0 <= i < j < |sidecars| && sidecars[i].committed && sidecars[j].committed
    && e in sidecars[i].rows && e in sidecars[j].rows
  }

  ghost predicate Shares(s: State, session: SessionId) {
    exists i, j, e :: Repeats(s.sidecars, i, j, e) && e.session == session
  }

  // ---------- what every run with past cutoffs keeps ----------

  predicate InCommitted(s: State, e: Row, k: int) {
    0 <= k < |s.sidecars| && s.sidecars[k].committed && e in s.sidecars[k].rows
  }

  /** Within a session, offsets grow. */
  predicate Grows(rows: seq<Row>) {
    forall i, j | 0 <= i < j < |rows| :: rows[i].offset < rows[j].offset
  }

  ghost predicate SelectionOk(s: State, beforeTs: Time, rows: seq<Row>) {
    && beforeTs <= s.clock
    && (forall e | e in rows :: e.ts < beforeTs && e in s.appended)
    && (forall id :: Grows(OfSession(rows, id)))
  }

  ghost predicate SidecarOk(s: State, sidecar: Sidecar) {
    && SelectionOk(s, sidecar.beforeTs, sidecar.rows)
    && (sidecar.committed ==> forall e | e in s.tables.events :: sidecar.beforeTs <= e.ts)
  }

  /** What the archive did not select had been archived before. */
  ghost predicate Covers(s: State, a: Archive) {
    && a.floor <= |s.sidecars|
    && forall e | e in s.appended && e.ts < a.sel.beforeTs && e !in a.sel.rows ::
         exists k :: k < a.floor && InCommitted(s, e, k)
  }

  predicate FileOk(s: State, a: Archive) {
    a.stage.Written? ==>
      a.floor <= a.stage.file < |s.sidecars|
      && s.sidecars[a.stage.file] == Sidecar(a.sel.beforeTs, a.sel.rows, false)
  }

  ghost predicate ArchiveOk(s: State, a: Archive) {
    SelectionOk(s, a.sel.beforeTs, a.sel.rows) && Covers(s, a) && FileOk(s, a)
  }

  predicate OwnFiles(s: State) {
    forall a, b | a in s.archives && b in s.archives && a != b
      && s.archives[a].stage.Written? && s.archives[b].stage.Written? ::
      s.archives[a].stage.file != s.archives[b].stage.file
  }

  ghost predicate AppendsOk(s: State) {
    && (forall i, j | 0 <= i < j < |s.appended| :: s.appended[i] != s.appended[j])
    && (forall e | e in s.appended :: e in s.tables.events || exists k :: InCommitted(s, e, k))
  }

  ghost predicate Tracked(s: State) {
    && TablesInv(s)
    && AppendsOk(s)
    && (forall k | 0 <= k < |s.sidecars| :: SidecarOk(s, s.sidecars[k]))
    && (forall a | a in s.archives :: ArchiveOk(s, s.archives[a]))
    && OwnFiles(s)
  }

  lemma ContiguousGrows(rows: seq<Row>)
    requires Contiguous(rows)
    ensures Grows(rows)
  {
  }

  /** Rows that were live together, once sorted, grow within each session. */
  lemma {:induction false} SelectedGrows(rows: seq<Row>, cutoff: Time, id: SessionId)
    requires InTimeOrder(rows) && forall session :: Contiguous(OfSession(rows, session))
    ensures Grows(OfSession(Sorted(Before(rows, cutoff)), id))
  {
    KeptInOrder(rows, cutoff);
    forall session ensures Contiguous(OfSession(Before(rows, cutoff), session)) {
      SplitContiguous(rows, cutoff, session);
    }
    SortedKeepsSessionOrder(Before(rows, cutoff), id);
    ContiguousGrows(OfSession(Before(rows, cutoff), id));
  }

  lemma {:induction false} AppendTracks(s: State, t: Timed)
    requires Tracked(s) && Legal(s, t) && t.event.Append? && Appendable(s.tables, t.event.session, t.event.eventId)
    ensures AppendsOk(Step(s, t))
    ensures forall k | 0 <= k < |s.sidecars| :: SidecarOk(Step(s, t), s.sidecars[k])
    ensures forall a | a in s.archives :: ArchiveOk(Step(s, t), s.archives[a])
  {
    var s', row := Step(s, t), AppendedRow(s, t);
    assert s'.appended == s.appended + [row] && s'.tables.events == s.tables.events + [row];
    NewRowIsNew(s, t);
    forall e | e in s'.appended && e !in s'.tables.events ensures exists k :: InCommitted(s', e, k) {
      assert e in s.appended && e !in s.tables.events;
      var k :| InCommitted(s, e, k);
      assert InCommitted(s', e, k);
    }
    forall k | 0 <= k < |s.sidecars| ensures SidecarOk(s', s.sidecars[k]) {
      assert SidecarOk(s, s.sidecars[k]);
    }
    forall a | a in s.archives ensures ArchiveOk(s', s.archives[a]) {
      AppendCovers(s, t, s.archives[a]);
    }
  }

  lemma NewRowIsNew(s: State, t: Timed)
    requires Tracked(s) && Legal(s, t) && t.event.Append? && Appendable(s.tables, t.event.session, t.event.eventId)
    ensures AppendedRow(s, t) !in s.appended
  {
  }

  lemma AppendCovers(s: State, t: Timed, a: Archive)
    requires ArchiveOk(s, a) && Legal(s, t) && t.event.Append? && Appendable(s.tables, t.event.session, t.event.eventId)
    ensures ArchiveOk(Step(s, t), a)
  {
    var s' := Step(s, t);
    forall e | e in s'.appended && e.ts < a.sel.beforeTs && e !in a.sel.rows
      ensures exists k :: k < a.floor && InCommitted(s', e, k)
    {
      assert e in s.appended;
      var k :| k < a.floor && InCommitted(s, e, k);
      assert InCommitted(s', e, k);
    }
  }

  /** Everything that was committed stays committed, with its rows. */
  ghost predicate MarksKept(s: State, s': State) {
    && |s.sidecars| <= |s'.sidecars|
    && forall k | 0 <= k < |s.sidecars| ::
         s'.sidecars[k].beforeTs == s.sidecars[k].beforeTs && s'.sidecars[k].rows == s.sidecars[k].rows
         && (s.sidecars[k].committed ==> s'.sidecars[k].committed)
  }

  lemma StillCommitted(s: State, s': State, e: Row, k: int)
    requires MarksKept(s, s') && InCommitted(s, e, k)
    ensures InCommitted(s', e, k)
  {
  }

  lemma {:induction false} StillCovers(s: State, s': State, a: Archive)
    requires MarksKept(s, s') && s'.appended == s.appended && Covers(s, a)
    ensures Covers(s', a)
  {
    forall e | e in s'.appended && e.ts < a.sel.beforeTs && e !in a.sel.rows
      ensures exists k :: k < a.floor && InCommitted(s', e, k)
    {
      var k :| k < a.floor && InCommitted(s, e, k);
      StillCommitted(s, s', e, k);
    }
  }

  lemma {:induction false} SelectTracks(s: State, t: Timed, a: ArchiveId)
    requires Tracked(s) && Legal(s, t) && PastCutoff(t) && t.event.SelectRows? && a in Step(s, t).archives
    ensures ArchiveOk(Step(s, t), Step(s, t).archives[a])
  {
    var s' := Step(s, t);
    if a in s.archives {
      assert ArchiveOk(s, s.archives[a]);
      StillCovers(s, s', s.archives[a]);
    } else {
      NewArchiveCovers(s, t);
      var rows := Before(s.tables.events, t.event.beforeTs);
      SortedSorts(rows);
      forall id ensures Grows(OfSession(Sorted(rows), id)) {
        SelectedGrows(s.tables.events, t.event.beforeTs, id);
      }
    }
  }

  lemma {:induction false} NewArchiveCovers(s: State, t: Timed)
    requires Tracked(s) && Legal(s, t) && t.event.SelectRows? && t.event.archive in Step(s, t).archives
    ensures Covers(Step(s, t), Step(s, t).archives[t.event.archive])
  {
    var s', events := Step(s, t), s.tables.events;
    SortedSorts(Before(events, t.event.beforeTs));
    forall e | e in s.appended && e.ts < t.event.beforeTs && e !in Sorted(Before(events, t.event.beforeTs))
      ensures exists k :: k < |s.sidecars| && InCommitted(s', e, k)
    {
      var k :| InCommitted(s, e, k);
      assert InCommitted(s', e, k);
    }
  }

  lemma {:induction false} WriteTracks(s: State, t: Timed, a: ArchiveId)
    requires Tracked(s) && Legal(s, t) && t.event.WriteSidecar? && a in Step(s, t).archives
    ensures ArchiveOk(Step(s, t), Step(s, t).archives[a])
  {
    assert ArchiveOk(s, s.archives[a]);
    StillCovers(s, Step(s, t), s.archives[a]);
  }

  lemma {:induction false} OtherArchiveTracks(s: State, t: Timed, a: ArchiveId)
    requires Tracked(s) && Legal(s, t) && a in Step(s, t).archives
    requires t.event.Ensure? || t.event.SelectSessions? || t.event.Crash? || t.event.Append?
    requires Step(s, t).appended == s.appended
    ensures ArchiveOk(Step(s, t), Step(s, t).archives[a])
  {
    assert a in s.archives && ArchiveOk(s, s.archives[a]);
    StillCovers(s, Step(s, t), s.archives[a]);
  }

  lemma {:induction false} CommitTracks(s: State, t: Timed, a: ArchiveId)
    requires Tracked(s) && Legal(s, t) && t.event.Commit? && a in Step(s, t).archives
    ensures ArchiveOk(Step(s, t), Step(s, t).archives[a])
  {
    assert a in s.archives && ArchiveOk(s, s.archives[a]);
    assert ArchiveOk(s, s.archives[t.event.archive]);
    StillCovers(s, Step(s, t), s.archives[a]);
  }

  lemma {:induction false} StepTracksArchives(s: State, t: Timed, a: ArchiveId)
    requires Tracked(s) && Legal(s, t) && PastCutoff(t) && a in Step(s, t).archives
    ensures ArchiveOk(Step(s, t), Step(s, t).archives[a])
  {
    match t.event
    case SelectRows(_, _) => SelectTracks(s, t, a);
    case WriteSidecar(_) => WriteTracks(s, t, a);
    case Commit(_) => CommitTracks(s, t, a);
    case Append(session, eventId, _) =>
      if Appendable(s.tables, session, eventId) {
        AppendTracks(s, t);
      } else {
        OtherArchiveTracks(s, t, a);
      }
    case _ => OtherArchiveTracks(s, t, a);
  }

  lemma {:induction false} CommitTracksSidecars(s: State, t: Timed, k: nat)
    requires Tracked(s) && Legal(s, t) && t.event.Commit? && k < |Step(s, t).sidecars|
    ensures SidecarOk(Step(s, t), Step(s, t).sidecars[k])
  {
    assert ArchiveOk(s, s.archives[t.event.archive]);
    assert SidecarOk(s, s.sidecars[k]);
  }

  lemma {:induction false} StepTracksSidecars(s: State, t: Timed, k: nat)
    requires Tracked(s) && Legal(s, t) && k < |Step(s, t).sidecars|
    ensures SidecarOk(Step(s, t), Step(s, t).sidecars[k])
  {
    if t.event.Commit? {
      CommitTracksSidecars(s, t, k);
    } else if t.event.Append? && Appendable(s.tables, t.event.session, t.event.eventId) {
      AppendTracks(s, t);
    } else if k < |s.sidecars| {
      assert SidecarOk(s, s.sidecars[k]);
    } else {
      assert ArchiveOk(s, s.archives[t.event.archive]);
    }
  }

  /** A live event is in no committed sidecar. */
  lemma {:induction false} LiveNotCommitted(s: State, e: Row)
    requires Tracked(s) && e in s.tables.events
    ensures forall k :: !InCommitted(s, e, k)
  {
    assert forall k | 0 <= k < |s.sidecars| :: SidecarOk(s, s.sidecars[k]);
  }

  /** A pending archive has every live event before its cutoff. */
  lemma {:induction false} LiveIsSelected(s: State, a: Archive, e: Row)
    requires Tracked(s) && ArchiveOk(s, a) && e in s.tables.events && e.ts < a.sel.beforeTs
    ensures e in a.sel.rows
  {
    LiveNotCommitted(s, e);
  }

  lemma {:induction false} CommitTracksAppends(s: State, t: Timed, e: Row)
    requires Tracked(s) && Legal(s, t) && t.event.Commit? && e in s.appended && e !in Step(s, t).tables.events
    ensures exists k :: InCommitted(Step(s, t), e, k)
  {
    var s', a := Step(s, t), s.archives[t.event.archive];
    assert ArchiveOk(s, a);
    if e in s.tables.events {
      LiveIsSelected(s, a, e);
      assert InCommitted(s', e, a.stage.file);
    } else {
      var k :| InCommitted(s, e, k);
      StillCommitted(s, s', e, k);
    }
  }

  lemma {:induction false} StepTracksAppends(s: State, t: Timed)
    requires Tracked(s) && Legal(s, t)
    ensures AppendsOk(Step(s, t))
  {
    var s' := Step(s, t);
    if t.event.Append? && Appendable(s.tables, t.event.session, t.event.eventId) {
      AppendTracks(s, t);
    } else {
      forall e | e in s'.appended && e !in s'.tables.events ensures exists k :: InCommitted(s', e, k) {
        if t.event.Commit? {
          CommitTracksAppends(s, t, e);
        } else {
          var k :| InCommitted(s, e, k);
          StillCommitted(s, s', e, k);
        }
      }
    }
  }

  lemma StepTracksFiles(s: State, t: Timed)
    requires Legal(s, t) && OwnFiles(s) && forall a | a in s.archives :: FileOk(s, s.archives[a])
    ensures OwnFiles(Step(s, t))
  {
  }

  lemma {:induction false} StepTracks(s: State, t: Timed)
    requires Tracked(s) && Legal(s, t) && PastCutoff(t)
    ensures Tracked(Step(s, t))
  {
    var s' := Step(s, t);
    StepKeepsTables(s, t);
    StepTracksAppends(s, t);
    forall k | 0 <= k < |s'.sidecars| ensures SidecarOk(s', s'.sidecars[k]) {
      StepTracksSidecars(s, t, k);
    }
    forall a | a in s'.archives ensures ArchiveOk(s', s'.archives[a]) {
      StepTracksArchives(s, t, a);
    }
    assert forall a | a in s.archives :: ArchiveOk(s, s.archives[a]);
    StepTracksFiles(s, t);
  }

  lemma {:induction false} RunTracks(run: seq<Timed>)
    requires LegalRun(run) && PastCutoffs(run)
    ensures Tracked(Exec(run))
    decreases |run|
  {
    if run != [] {
      assert PastCutoffs(run[..|run| - 1]);
      RunTracks(run[..|run| - 1]);
      StepTracks(Exec(run[..|run| - 1]), run[|run| - 1]);
    }
  }

  // ---------- no shared event: replay is exact ----------

  /** Two lists of growing offsets with the same members are the same list. */
  lemma {:induction false} GrowingSame(a: seq<Row>, b: seq<Row>)
    requires Grows(a) && Grows(b) && forall e :: e in a <==> e in b
    ensures a == b
    decreases |a|
  {
    EmptyTogether(a, b);
    if a != [] {
      SameLast(a, b);
      var n, m := |a| - 1, |b| - 1;
      forall e ensures e in a[..n] <==> e in b[..m] {
        InitMembers(a, e);
        InitMembers(b, e);
      }
      GrowingSame(a[..n], b[..m]);
      InitLast(a);
      InitLast(b);
    }
  }

  lemma EmptyTogether(a: seq<Row>, b: seq<Row>)
    requires forall e :: e in a <==> e in b
    ensures a == [] <==> b == []
  {
    assert a != [] ==> a[0] in a;
    assert b != [] ==> b[0] in b;
  }

  lemma SameLast(a: seq<Row>, b: seq<Row>)
    requires Grows(a) && Grows(b) && a != [] && b != [] && forall e :: e in a <==> e in b
    ensures a[|a| - 1] == b[|b| - 1]
  {
    assert a[|a| - 1] in b && b[|b| - 1] in a;
  }

  lemma InitMembers(a: seq<Row>, e: Row)
    requires Grows(a) && a != []
    ensures e in a[..|a| - 1] <==> e in a && e != a[|a| - 1]
  {
  }

  /** What a committed archive removes of a session it does not share is what its sidecar holds of it. */
  lemma {:induction false} SameRows(s: State, a: Archive, id: SessionId)
    requires Tracked(s) && ArchiveOk(s, a)
    requires forall e | e in OfSession(a.sel.rows, id) :: e in s.tables.events
    ensures OfSession(Before(s.tables.events, a.sel.beforeTs), id) == OfSession(a.sel.rows, id)
  {
    var events, cutoff := s.tables.events, a.sel.beforeTs;
    SplitContiguous(events, cutoff, id);
    ContiguousGrows(OfSession(Before(events, cutoff), id));
    forall e ensures e in OfSession(Before(events, cutoff), id) <==> e in OfSession(a.sel.rows, id) {
      if e in OfSession(Before(events, cutoff), id) {
        LiveIsSelected(s, a, e);
      }
    }
    GrowingSame(OfSession(Before(events, cutoff), id), OfSession(a.sel.rows, id));
  }

  lemma {:induction false} UnsharedAreLive(s: State, t: Timed, id: SessionId, e: Row)
    requires Tracked(s) && Legal(s, t) && t.event.Commit? && Deletable(s.tables, s.archives[t.event.archive].sel)
    requires !Shares(Step(s, t), id) && e in OfSession(s.archives[t.event.archive].sel.rows, id)
    ensures e in s.tables.events
  {
    var s', a := Step(s, t), s.archives[t.event.archive];
    assert ArchiveOk(s, a);
    if e !in s.tables.events {
      var k :| InCommitted(s, e, k);
      var first, second := if k < a.stage.file then k else a.stage.file, if k < a.stage.file then a.stage.file else k;
      assert Repeats(s'.sidecars, first, second, e);
    }
  }

  /** Sidecars written after the file of a committing archive that has events of the session have none. */
  lemma {:induction false} LaterHaveNone(s: State, t: Timed, id: SessionId, x: Row, k: nat, e: Row)
    requires Tracked(s) && Legal(s, t) && t.event.Commit? && Deletable(s.tables, s.archives[t.event.archive].sel)
    requires !Shares(Step(s, t), id)
    requires x in OfSession(s.archives[t.event.archive].sel.rows, id)
    requires s.archives[t.event.archive].stage.file < k < |s.sidecars|
    ensures e !in Committed(s.sidecars[k], id)
  {
    var a := s.archives[t.event.archive];
    assert ArchiveOk(s, a) && SidecarOk(s, s.sidecars[k]);
    UnsharedAreLive(s, t, id, x);
    if e in Committed(s.sidecars[k], id) {
      assert e.ts < s.sidecars[k].beforeTs <= x.ts < a.sel.beforeTs;
      OnlyThere(s, t, id, k, e);
    }
  }

  /** An unshared event of one committed sidecar is in no other, nor in the one being committed. */
  lemma {:induction false} OnlyThere(s: State, t: Timed, id: SessionId, k: nat, e: Row)
    requires Tracked(s) && Legal(s, t) && t.event.Commit? && Deletable(s.tables, s.archives[t.event.archive].sel)
    requires !Shares(Step(s, t), id) && e.session == id && InCommitted(s, e, k)
    requires s.archives[t.event.archive].stage.file < k
    ensures e !in s.archives[t.event.archive].sel.rows
    ensures forall h | h < k :: !InCommitted(s, e, h)
  {
    var s', a := Step(s, t), s.archives[t.event.archive];
    assert ArchiveOk(s, a);
    assert !Repeats(s'.sidecars, a.stage.file, k, e);
    forall h | h < k ensures !InCommitted(s, e, h) {
      assert !Repeats(s'.sidecars, h, k, e);
    }
  }

  function Marked(sidecars: seq<Sidecar>, file: nat): seq<Sidecar>
    requires file < |sidecars|
  {
    sidecars[file := sidecars[file].(committed := true)]
  }

  lemma {:induction false} ArchivedConcat(a: seq<Sidecar>, b: seq<Sidecar>, id: SessionId)
    ensures Archived(a + b, id) == Archived(a, id) + Archived(b, id)
    decreases |b|
  {
    if b == [] {
      assert a + b == a;
    } else {
      var n := |b| - 1;
      assert (a + b)[..|a + b| - 1] == a + b[..n];
      ArchivedConcat(a, b[..n], id);
      Regroup(Archived(a, id), Archived(b[..n], id), Committed(b[n], id));
    }
  }

  lemma {:induction false} ArchivedNone(sidecars: seq<Sidecar>, id: SessionId)
    requires forall k | 0 <= k < |sidecars| :: Committed(sidecars[k], id) == []
    ensures Archived(sidecars, id) == []
  {
    if sidecars != [] {
      ArchivedNone(sidecars[..|sidecars| - 1], id);
    }
  }

  lemma ArchivedOne(sidecar: Sidecar, id: SessionId)
    ensures Archived([sidecar], id) == Committed(sidecar, id)
  {
    assert [sidecar][..0] == [];
    assert Archived([], id) == [];
  }

  lemma {:induction false} ArchivedAround(pre: seq<Sidecar>, sidecar: Sidecar, post: seq<Sidecar>, id: SessionId)
    ensures Archived(pre + [sidecar] + post, id) == Archived(pre, id) + Committed(sidecar, id) + Archived(post, id)
  {
    ArchivedConcat(pre + [sidecar], post, id);
    ArchivedConcat(pre, [sidecar], id);
    ArchivedOne(sidecar, id);
  }

  lemma Around(sidecars: seq<Sidecar>, file: nat)
    requires file < |sidecars|
    ensures sidecars == sidecars[..file] + [sidecars[file]] + sidecars[file + 1..]
    ensures Marked(sidecars, file) == sidecars[..file] + [sidecars[file].(committed := true)] + sidecars[file + 1..]
  {
  }

  /** Marking a sidecar appends its events to the replay when the later ones have none of the session. */
  lemma {:induction false} MarkedAppends(sidecars: seq<Sidecar>, file: nat, id: SessionId)
    requires file < |sidecars| && !sidecars[file].committed
    requires OfSession(sidecars[file].rows, id) != [] ==>
      forall k | file < k < |sidecars| :: Committed(sidecars[k], id) == []
    ensures Archived(Marked(sidecars, file), id) == Archived(sidecars, id) + OfSession(sidecars[file].rows, id)
  {
    var pre, post := sidecars[..file], sidecars[file + 1..];
    Around(sidecars, file);
    ArchivedAround(pre, sidecars[file], post, id);
    ArchivedAround(pre, sidecars[file].(committed := true), post, id);
    if OfSession(sidecars[file].rows, id) != [] {
      ArchivedNone(post, id);
    }
    AtTheEnd(Archived(pre, id), OfSession(sidecars[file].rows, id), Archived(post, id));
  }

  lemma AtTheEnd(pre: seq<Row>, rows: seq<Row>, post: seq<Row>)
    requires rows == [] || post == []
    ensures pre + rows + post == pre + [] + post + rows
  {
  }

  lemma {:induction false} LaterAreEmpty(s: State, t: Timed, id: SessionId)
    requires Tracked(s) && Legal(s, t) && t.event.Commit? && Deletable(s.tables, s.archives[t.event.archive].sel)
    requires !Shares(Step(s, t), id) && OfSession(s.archives[t.event.archive].sel.rows, id) != []
    ensures forall k | s.archives[t.event.archive].stage.file < k < |s.sidecars| :: Committed(s.sidecars[k], id) == []
  {
    var x := OfSession(s.archives[t.event.archive].sel.rows, id)[0];
    forall k | s.archives[t.event.archive].stage.file < k < |s.sidecars| ensures Committed(s.sidecars[k], id) == [] {
      if Committed(s.sidecars[k], id) != [] {
        LaterHaveNone(s, t, id, x, k, Committed(s.sidecars[k], id)[0]);
      }
    }
  }

  lemma {:induction false} CommitKeepsExact(s: State, t: Timed, id: SessionId)
    requires Tracked(s) && Exact(s, id)
    requires Legal(s, t) && t.event.Commit? && Deletable(s.tables, s.archives[t.event.archive].sel)
    requires !Shares(Step(s, t), id)
    ensures Exact(Step(s, t), id)
  {
    var a, events := s.archives[t.event.archive], s.tables.events;
    assert ArchiveOk(s, a);
    forall e | e in OfSession(a.sel.rows, id) ensures e in s.tables.events {
      UnsharedAreLive(s, t, id, e);
    }
    SameRows(s, a, id);
    SplitContiguous(events, a.sel.beforeTs, id);
    if OfSession(a.sel.rows, id) != [] {
      LaterAreEmpty(s, t, id);
    }
    MarkedAppends(s.sidecars, a.stage.file, id);
    assert Step(s, t).sidecars == Marked(s.sidecars, a.stage.file);
    Regroup(Archived(s.sidecars, id), OfSession(a.sel.rows, id), OfSession(NotBefore(events, a.sel.beforeTs), id));
  }

  lemma {:induction false} AppendKeepsExact(s: State, t: Timed, id: SessionId)
    requires Exact(s, id) && Legal(s, t) && t.event.Append?
    ensures Exact(Step(s, t), id)
  {
    if Appendable(s.tables, t.event.session, t.event.eventId) {
      var row := AppendedRow(s, t);
      OfSessionConcat(s.tables.events, [row], id);
      OfSessionConcat(s.appended, [row], id);
      Regroup(Archived(s.sidecars, id), OfSession(s.tables.events, id), OfSession([row], id));
    }
  }

  lemma {:induction false} WriteKeepsExact(s: State, t: Timed, id: SessionId)
    requires Exact(s, id) && Legal(s, t) && t.event.WriteSidecar?
    ensures Exact(Step(s, t), id)
  {
    var sidecar := Sidecar(s.archives[t.event.archive].sel.beforeTs, s.archives[t.event.archive].sel.rows, false);
    assert (s.sidecars + [sidecar])[..|s.sidecars|] == s.sidecars;
  }

  lemma {:induction false} StepKeepsExact(s: State, t: Timed, id: SessionId)
    requires Tracked(s) && Exact(s, id) && Legal(s, t) && !Shares(Step(s, t), id)
    ensures Exact(Step(s, t), id)
  {
    if t.event.Append? {
      AppendKeepsExact(s, t, id);
    } else if t.event.WriteSidecar? {
      WriteKeepsExact(s, t, id);
    } else if t.event.Commit? && Deletable(s.tables, s.archives[t.event.archive].sel) {
      CommitKeepsExact(s, t, id);
    }
  }

  lemma StepKeepsMarks(s: State, t: Timed)
    requires Legal(s, t)
    ensures MarksKept(s, Step(s, t))
  {
  }

  lemma {:induction false} SharingStays(s: State, s': State, id: SessionId)
    requires MarksKept(s, s') && Shares(s, id)
    ensures Shares(s', id)
  {
    var i, j, e :| Repeats(s.sidecars, i, j, e) && e.session == id;
    assert Repeats(s'.sidecars, i, j, e);
  }

  lemma {:induction false} UnsharedIsExact(run: seq<Timed>, id: SessionId)
    requires LegalRun(run) && PastCutoffs(run) && !Shares(Exec(run), id)
    ensures Exact(Exec(run), id)
    decreases |run|
  {
    if run != [] {
      var before, t := run[..|run| - 1], run[|run| - 1];
      assert PastCutoffs(before);
      RunTracks(before);
      StepKeepsMarks(Exec(before), t);
      if Shares(Exec(before), id) {
        SharingStays(Exec(before), Exec(run), id);
      }
      UnsharedIsExact(before, id);
      StepKeepsExact(Exec(before), t, id);
    }
  }

  // ---------- a shared event: replay repeats it ----------

  predicate Distinct(rows: seq<Row>) {
    forall i, j | 0 <= i < j < |rows| :: rows[i] != rows[j]
  }

  lemma {:induction false} OfSessionDistinct(rows: seq<Row>, id: SessionId)
    requires Distinct(rows)
    ensures Distinct(OfSession(rows, id))
  {
    if rows != [] {
      OfSessionDistinct(rows[..|rows| - 1], id);
      assert rows[|rows| - 1] !in rows[..|rows| - 1];
    }
  }

  lemma {:induction false} InArchived(sidecars: seq<Sidecar>, k: nat, e: Row)
    requires k < |sidecars| && sidecars[k].committed && e in sidecars[k].rows
    ensures e in Archived(sidecars, e.session)
  {
    if k < |sidecars| - 1 {
      InArchived(sidecars[..|sidecars| - 1], k, e);
    }
  }

  lemma Twice(a: seq<Row>, b: seq<Row>, c: seq<Row>, e: Row)
    requires e in a && e in b
    ensures !Distinct(a + b + c)
  {
    var i :| 0 <= i < |a| && a[i] == e;
    var j :| 0 <= j < |b| && b[j] == e;
    assert (a + b + c)[i] == (a + b + c)[|a| + j];
  }

  lemma {:induction false} SharedIsTwice(sidecars: seq<Sidecar>, i: int, j: int, e: Row, live: seq<Row>)
    requires Repeats(sidecars, i, j, e)
    ensures !Distinct(Archived(sidecars, e.session) + live)
  {
    var pre, post := sidecars[..j], sidecars[j + 1..];
    Around(sidecars, j);
    ArchivedAround(pre, sidecars[j], post, e.session);
    InArchived(pre, i, e);
    Twice(Archived(pre, e.session), Committed(sidecars[j], e.session), Archived(post, e.session) + live, e);
    Regroup(Archived(pre, e.session) + Committed(sidecars[j], e.session), Archived(post, e.session), live);
  }

  lemma {:induction false} ExactIsUnshared(s: State, id: SessionId)
    requires AppendsOk(s) && Exact(s, id)
    ensures !Shares(s, id)
  {
    OfSessionDistinct(s.appended, id);
    if Shares(s, id) {
      var i, j, e :| Repeats(s.sidecars, i, j, e) && e.session == id;
      SharedIsTwice(s.sidecars, i, j, e, OfSession(s.tables.events, id));
    }
  }

  /** In every run with past cutoffs, however archives overlap, crash or are refused, the rows replay exactly
      when no two committed sidecars share one of the session. */
  lemma {:induction false} ExactWhenUnshared(run: seq<Timed>, id: SessionId)
    requires LegalRun(run) && PastCutoffs(run)
    ensures Exact(Exec(run), id) <==> !Shares(Exec(run), id)
  {
    if Exact(Exec(run), id) {
      RunTracks(run);
      ExactIsUnshared(Exec(run), id);
    } else if !Shares(Exec(run), id) {
      UnsharedIsExact(run, id);
    }
  }

  // ---------- one archive at a time ----------

  /** Nothing is held by two sidecars, and what the one archive under way selected is in none yet. */
  ghost predicate Apart(s: State) {
    && (forall i, j, e :: !Repeats(s.sidecars, i, j, e))
    && (forall a, b | a in s.archives && b in s.archives :: a == b)
    && (forall a, e, k | a in s.archives && e in s.archives[a].sel.rows :: !InCommitted(s, e, k))
  }

  lemma {:induction false} SelectKeepsApart(s: State, t: Timed)
    requires Tracked(s) && Apart(s) && Legal(s, t) && PastCutoff(t) && Alone(s, t) && t.event.SelectRows?
    ensures Apart(Step(s, t))
  {
    var s' := Step(s, t);
    assert s'.sidecars == s.sidecars;
    forall a, e, k | a in s'.archives && e in s'.archives[a].sel.rows ensures !InCommitted(s', e, k) {
      SelectedIsLive(s, t, a, e);
      LiveNotCommitted(s, e);
      assert !InCommitted(s, e, k);
    }
  }

  lemma {:induction false} SelectedIsLive(s: State, t: Timed, a: ArchiveId, e: Row)
    requires Legal(s, t) && t.event.SelectRows? && s.archives == map[]
    requires a in Step(s, t).archives && e in Step(s, t).archives[a].sel.rows
    ensures e in s.tables.events
  {
    SortedSorts(Before(s.tables.events, t.event.beforeTs));
  }

  lemma {:induction false} CommitKeepsApart(s: State, t: Timed)
    requires Tracked(s) && Apart(s) && Legal(s, t) && t.event.Commit?
    ensures Apart(Step(s, t))
  {
    var s', a := Step(s, t), s.archives[t.event.archive];
    assert ArchiveOk(s, a);
    forall i, j, e ensures !Repeats(s'.sidecars, i, j, e) {
      assert !Repeats(s.sidecars, i, j, e);
      if i == a.stage.file {
        assert !(e in a.sel.rows && InCommitted(s, e, j));
      } else if j == a.stage.file {
        assert !(e in a.sel.rows && InCommitted(s, e, i));
      }
    }
  }

  lemma {:induction false} OtherStepKeepsApart(s: State, t: Timed)
    requires Apart(s) && Legal(s, t) && !t.event.SelectRows? && !t.event.Commit?
    ensures Apart(Step(s, t))
  {
    var s' := Step(s, t);
    forall i, j, e ensures !Repeats(s'.sidecars, i, j, e) {
      assert !Repeats(s.sidecars, i, j, e);
    }
    forall a, e, k | a in s'.archives && e in s'.archives[a].sel.rows ensures !InCommitted(s', e, k) {
      assert !InCommitted(s, e, k);
    }
  }

  lemma {:induction false} RunKeepsApart(run: seq<Timed>)
    requires LegalRun(run) && PastCutoffs(run) && OneArchiveAtATime(run)
    ensures Apart(Exec(run))
    decreases |run|
  {
    if run != [] {
      var before, t := run[..|run| - 1], run[|run| - 1];
      assert PastCutoffs(before);
      RunKeepsApart(before);
      RunTracks(before);
      if t.event.SelectRows? {
        SelectKeepsApart(Exec(before), t);
      } else if t.event.Commit? {
        CommitKeepsApart(Exec(before), t);
      } else {
        OtherStepKeepsApart(Exec(before), t);
      }
    }
  }

  lemma ApartIsUnshared(s: State, session: SessionId)
    requires Apart(s)
    ensures !Shares(s, session)
  {
  }

  lemma {:induction false} OneAtATimeIsUnshared(run: seq<Timed>, session: SessionId)
    requires LegalRun(run) && PastCutoffs(run) && OneArchiveAtATime(run)
    ensures !Shares(Exec(run), session)
  {
    RunKeepsApart(run);
    ApartIsUnshared(Exec(run), session);
  }

  // ---------- an overlap that repeats ----------

  ghost predicate Ran(run: seq<Timed>, s: State) {
    LegalRun(run) && PastCutoffs(run) && Exec(run) == s
  }

  lemma Grow(run: seq<Timed>, s: State, t: Timed)
    requires Ran(run, s) && Legal(s, t) && PastCutoff(t)
    ensures Ran(run + [t], Step(s, t))
  {
    assert (run + [t])[..|run|] == run;
  }

  const ONLY := Row(0, 0, 0, 0, "")
  const SESSIONS := map[0 := SessionRow(0, "", Some(0))]

  lemma SortedOne(e: Row)
    ensures Sorted([e]) == [e]
  {
    assert Sorted([e]) == InsertRow(Sorted([e][..0]), e);
  }

  lemma OfSessionOne(e: Row)
    ensures OfSession([e], e.session) == [e]
  {
    assert OfSession([e], e.session) == OfSession([e][..0], e.session) + [e];
  }

  lemma OnlyRow(cutoff: Time)
    requires 0 < cutoff
    ensures Sorted(Before([ONLY], cutoff)) == [ONLY] && NotBefore([ONLY], cutoff) == []
    ensures OfSession([ONLY], 0) == [ONLY]
  {
    AllBefore([ONLY], cutoff);
    SortedOne(ONLY);
    OfSessionOne(ONLY);
  }

  /** One event is appended and two archives with different cutoffs select it before either deletes. */
  lemma {:induction false} BothSelect() returns (run: seq<Timed>)
    ensures Ran(run, State(Tables(SESSIONS, [ONLY]), [],
      map[0 := Archive(Selection(1, [ONLY], []), Selected, 0), 1 := Archive(Selection(2, [ONLY], []), Selected, 0)],
      [ONLY], 2))
  {
    OnlyRow(1);
    OnlyRow(2);
    Grow([], EMPTY, At(0, Ensure(0, SessionRow(0, "", None))));
    var s1 := Step(EMPTY, At(0, Ensure(0, SessionRow(0, "", None))));
    run := [] + [At(0, Ensure(0, SessionRow(0, "", None)))];
    Grow(run, s1, At(0, Append(0, 0, "")));
    var s2 := Step(s1, At(0, Append(0, 0, "")));
    assert s2.tables == Tables(SESSIONS, [ONLY]) && s2.appended == [ONLY];
    run := run + [At(0, Append(0, 0, ""))];
    Grow(run, s2, At(2, SelectRows(0, 1)));
    var s3 := Step(s2, At(2, SelectRows(0, 1)));
    run := run + [At(2, SelectRows(0, 1))];
    Grow(run, s3, At(2, SelectRows(1, 2)));
    run := run + [At(2, SelectRows(1, 2))];
  }

  lemma {:induction false} BothCount() returns (run: seq<Timed>)
    ensures Ran(run, State(Tables(SESSIONS, [ONLY]), [],
      map[0 := Archive(Selection(1, [ONLY], []), Counted, 0), 1 := Archive(Selection(2, [ONLY], []), Counted, 0)],
      [ONLY], 2))
  {
    run := BothSelect();
    var s0 := Exec(run);
    Grow(run, s0, At(2, SelectSessions(0, [])));
    var s1 := Step(s0, At(2, SelectSessions(0, [])));
    run := run + [At(2, SelectSessions(0, []))];
    Grow(run, s1, At(2, SelectSessions(1, [])));
    run := run + [At(2, SelectSessions(1, []))];
  }

  lemma {:induction false} BothWrite() returns (run: seq<Timed>)
    ensures Ran(run, State(Tables(SESSIONS, [ONLY]), [Sidecar(1, [ONLY], false), Sidecar(2, [ONLY], false)],
      map[0 := Archive(Selection(1, [ONLY], []), Written(0), 0), 1 := Archive(Selection(2, [ONLY], []), Written(1), 0)],
      [ONLY], 2))
  {
    run := BothCount();
    var s0 := Exec(run);
    Grow(run, s0, At(2, WriteSidecar(0)));
    var s1 := Step(s0, At(2, WriteSidecar(0)));
    run := run + [At(2, WriteSidecar(0))];
    Grow(run, s1, At(2, WriteSidecar(1)));
    run := run + [At(2, WriteSidecar(1))];
  }

  /** Both delete; the event is then in both committed sidecars. */
  lemma {:induction false} BothCommit() returns (run: seq<Timed>, s: State)
    ensures Ran(run, s)
    ensures s.sidecars == [Sidecar(1, [ONLY], true), Sidecar(2, [ONLY], true)]
  {
    run := BothWrite();
    OnlyRow(1);
    var s0 := Exec(run);
    Grow(run, s0, At(2, Commit(0)));
    var s1 := Step(s0, At(2, Commit(0)));
    assert s1.tables.events == [] && s1.sidecars == [Sidecar(1, [ONLY], true), Sidecar(2, [ONLY], false)];
    run := run + [At(2, Commit(0))];
    Grow(run, s1, At(2, Commit(1)));
    run, s := run + [At(2, Commit(1))], Step(s1, At(2, Commit(1)));
  }

  lemma {:induction false} OverlapShares()
    ensures exists run :: LegalRun(run) && PastCutoffs(run) && Shares(Exec(run), 0)
  {
    var run, s := BothCommit();
    assert Repeats(s.sidecars, 0, 1, ONLY);
  }
}
