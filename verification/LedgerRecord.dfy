/** What the ledger promises about the appends it accepted, as they were asked for: none is lost, and when
    sidecars and live events replay them. */
module LedgerRecord {
  import opened Options
  import opened Ledger
  import opened LedgerRuns
  import opened LedgerReplay

  /** What an append asked to have recorded, and when. */
  datatype Fact = Fact(session: SessionId, eventId: nat, ts: Time, payload: string)

  function FactOf(e: Row): Fact {
    Fact(e.session, e.eventId, e.ts, e.payload)
  }

  function Facts(rows: seq<Row>): (r: seq<Fact>)
    ensures |r| == |rows| && forall i | 0 <= i < |rows| :: r[i] == FactOf(rows[i])
  {
    seq(|rows|, i requires 0 <= i < |rows| => FactOf(rows[i]))
  }

  /** The session exists and no live event has the id. */
  predicate Takes(t: Tables, session: SessionId, eventId: nat) {
    session in t.sessions && forall e | e in t.events :: e.eventId != eventId
  }

  /** What a step asks to append, if that is accepted. */
  function AcceptedIn(tables: Tables, t: Timed): seq<Fact> {
    match t.event
    case Append(session, eventId, payload) =>
      if Takes(tables, session, eventId) then [Fact(session, eventId, t.now, payload)] else []
    case _ => []
  }

  /** The appends of a run that were accepted, in order, as they were asked for. */
  ghost function Accepted(run: seq<Timed>): seq<Fact>
    requires LegalRun(run)
    decreases |run|
  {
    if run == [] then [] else
      var n := |run| - 1;
      Accepted(run[..n]) + AcceptedIn(Exec(run[..n]).tables, run[n])
  }

  function FactsOfSession(facts: seq<Fact>, session: SessionId): seq<Fact> {
    if facts == [] then []
    else
      var last := facts[|facts| - 1];
      FactsOfSession(facts[..|facts| - 1], session) + (if last.session == session then [last] else [])
  }

  lemma FactsConcat(a: seq<Row>, b: seq<Row>)
    ensures Facts(a + b) == Facts(a) + Facts(b)
  {
  }

  lemma {:induction false} SessionFacts(rows: seq<Row>, session: SessionId)
    ensures Facts(OfSession(rows, session)) == FactsOfSession(Facts(rows), session)
  {
    if rows != [] {
      SessionFacts(rows[..|rows| - 1], session);
      assert Facts(rows)[..|rows| - 1] == Facts(rows[..|rows| - 1]);
      FactsConcat(OfSession(rows[..|rows| - 1], session), OfSession([rows[|rows| - 1]], session));
    }
  }

  lemma StepAccepts(s: State, t: Timed)
    requires Legal(s, t)
    ensures Facts(Step(s, t).appended) == Facts(s.appended) + AcceptedIn(s.tables, t)
  {
    if t.event.Append? && Appendable(s.tables, t.event.session, t.event.eventId) {
      FactsConcat(s.appended, [AppendedRow(s, t)]);
    } else {
      assert Facts(s.appended) + [] == Facts(s.appended);
    }
  }

  /** The history of appended rows is what the run asked for. */
  lemma {:induction false} AppendedAreAccepted(run: seq<Timed>)
    requires LegalRun(run)
    ensures Facts(Exec(run).appended) == Accepted(run)
    decreases |run|
  {
    if run != [] {
      AppendedAreAccepted(run[..|run| - 1]);
      StepAccepts(Exec(run[..|run| - 1]), run[|run| - 1]);
    }
  }

  /** With cutoffs in the past, every accepted append is live or in a finished sidecar with its session, id,
      time and payload, whatever crashed and however many archives overlapped. */
  lemma {:induction false} ArchivesLoseNothing(run: seq<Timed>, f: Fact)
    requires LegalRun(run) && PastCutoffs(run) && f in Accepted(run)
    ensures exists e :: FactOf(e) == f && Safe(Exec(run), e)
  {
    AppendedAreAccepted(run);
    var rows := Exec(run).appended;
    var i :| 0 <= i < |rows| && Facts(rows)[i] == f;
    RowsAreKept(run, rows[i]);
  }

  // ---------- replay ----------

  /** What the sidecars of finished archives, in archive order, and then the live events say of a session. */
  function Replayed(s: State, session: SessionId): seq<Row> {
    Archived(s.sidecars, session) + OfSession(s.tables.events, session)
  }

  /** Replay gives back the accepted appends of the session in order. */
  ghost predicate Replays(run: seq<Timed>, session: SessionId)
    requires LegalRun(run)
  {
    Facts(Replayed(Exec(run), session)) == FactsOfSession(Accepted(run), session)
  }

  function Members(rows: seq<Row>): set<Row> {
    set e | e in rows
  }

  lemma {:induction false} AsManyMembers(rows: seq<Row>)
    ensures |Members(rows)| <= |rows|
    ensures |Members(rows)| == |rows| <==> Distinct(rows)
  {
    if rows != [] {
      var init, last := rows[..|rows| - 1], rows[|rows| - 1];
      AsManyMembers(init);
      assert rows == init + [last];
      assert Members(rows) == Members(init) + {last};
      if last in init {
        var i :| 0 <= i < |init| && init[i] == last;
        assert rows[i] == rows[|rows| - 1];
      }
    }
  }

  lemma FewerMembers(a: set<Row>, b: set<Row>)
    requires a <= b
    ensures |a| <= |b|
  {
    assert b == a + (b - a);
  }

  lemma {:induction false} CommittedIsArchived(sidecars: seq<Sidecar>, k: nat, e: Row)
    requires k < |sidecars| && sidecars[k].committed && e in sidecars[k].rows
    ensures e in Archived(sidecars, e.session)
  {
    InArchived(sidecars, k, e);
  }

  lemma {:induction false} AllReplayed(s: State, session: SessionId)
    requires AppendsOk(s)
    ensures Members(OfSession(s.appended, session)) <= Members(Replayed(s, session))
  {
    forall e | e in OfSession(s.appended, session) ensures e in Replayed(s, session) {
      if e !in s.tables.events {
        var k :| InCommitted(s, e, k);
        CommittedIsArchived(s.sidecars, k, e);
      }
    }
  }

  lemma {:induction false} SharingIsLonger(s: State, session: SessionId)
    requires AppendsOk(s) && Shares(s, session)
    ensures |Replayed(s, session)| > |OfSession(s.appended, session)|
  {
    var i, j, e :| Repeats(s.sidecars, i, j, e) && e.session == session;
    SharedIsTwice(s.sidecars, i, j, e, OfSession(s.tables.events, session));
    OfSessionDistinct(s.appended, session);
    AsManyMembers(OfSession(s.appended, session));
    AsManyMembers(Replayed(s, session));
    AllReplayed(s, session);
    FewerMembers(Members(OfSession(s.appended, session)), Members(Replayed(s, session)));
  }

  /** In every run with past cutoffs, however archives overlap, crash or are refused: the committed sidecars
      in order and then the live events are a session's accepted appends in order, each with its id, time and
      payload, exactly when no two committed sidecars share an event of it. */
  lemma {:induction false} ReplayIsExactExactlyWhen(run: seq<Timed>, session: SessionId)
    requires LegalRun(run) && PastCutoffs(run)
    ensures Replays(run, session) <==> !Shares(Exec(run), session)
  {
    var s := Exec(run);
    AppendedAreAccepted(run);
    SessionFacts(s.appended, session);
    if Shares(s, session) {
      RunTracks(run);
      SharingIsLonger(s, session);
    } else {
      ExactWhenUnshared(run, session);
    }
  }

  /** Appends may fall anywhere between the steps of archives that run one at a time, crash or are
      refused: replay gives back what was accepted. */
  lemma {:induction false} SidecarsThenLiveReplayTheSession(run: seq<Timed>, session: SessionId)
    requires LegalRun(run) && PastCutoffs(run) && OneArchiveAtATime(run)
    ensures Replays(run, session)
  {
    OneAtATimeIsUnshared(run, session);
    ReplayIsExactExactlyWhen(run, session);
  }

  /** Overlapping archives with past cutoffs do repeat events. */
  lemma {:induction false} OverlapRepeats()
    ensures exists run :: LegalRun(run) && PastCutoffs(run) && !Replays(run, 0)
  {
    OverlapShares();
    var run :| LegalRun(run) && PastCutoffs(run) && Shares(Exec(run), 0);
    ReplayIsExactExactlyWhen(run, 0);
  }
}
