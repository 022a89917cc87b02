/** The append-only ledger: sessions and events tables, appends with per-session offsets, and the
    statements an archive runs.  An event's kind, actor, trace and payload travel as one value. */
module Ledger {
  import opened Options

  type SessionId = nat
  type Time = int

  datatype Row = Row(eventId: nat, session: SessionId, offset: nat, ts: Time, payload: string)

  datatype SessionRow = SessionRow(startedAt: Time, title: string, lastEventAt: Option<Time>)

  datatype Outcome = Done | Refused

  // ---------- queries ----------

  function OfSession(rows: seq<Row>, session: SessionId): (r: seq<Row>)
    ensures forall e :: e in r <==> e in rows && e.session == session
  {
    if rows == [] then []
    else
      var last := rows[|rows| - 1];
      OfSession(rows[..|rows| - 1], session) + (if last.session == session then [last] else [])
  }

  function Before(rows: seq<Row>, ts: Time): (r: seq<Row>)
    ensures forall e :: e in r <==> e in rows && e.ts < ts
  {
    if rows == [] then []
    else Before(rows[..|rows| - 1], ts) + (if rows[|rows| - 1].ts < ts then [rows[|rows| - 1]] else [])
  }

  function NotBefore(rows: seq<Row>, ts: Time): (r: seq<Row>)
    ensures forall e :: e in r <==> e in rows && ts <= e.ts
  {
    if rows == [] then []
    else NotBefore(rows[..|rows| - 1], ts) + (if ts <= rows[|rows| - 1].ts then [rows[|rows| - 1]] else [])
  }

  function FromOffset(rows: seq<Row>, offset: nat): (r: seq<Row>)
    ensures forall e :: e in r <==> e in rows && offset <= e.offset
  {
    if rows == [] then []
    else FromOffset(rows[..|rows| - 1], offset) + (if offset <= rows[|rows| - 1].offset then [rows[|rows| - 1]] else [])
  }

  predicate Ascending(rows: seq<Row>) {
    forall i, j | 0 <= i < j < |rows| :: rows[i].offset <= rows[j].offset
  }

  lemma InitLast(rows: seq<Row>)
    requires rows != []
    ensures rows[..|rows| - 1] + [rows[|rows| - 1]] == rows
  {
  }

  function InsertByOffset(rows: seq<Row>, e: Row): (r: seq<Row>)
    requires Ascending(rows)
    ensures Ascending(r) && |r| == |rows| + 1
    ensures forall i | 0 <= i < |r| :: r[i] == e || r[i] in rows
  {
    if rows == [] || rows[|rows| - 1].offset <= e.offset then rows + [e]
    else
      var r := InsertByOffset(rows[..|rows| - 1], e);
      assert forall i | 0 <= i < |r| :: r[i].offset <= rows[|rows| - 1].offset;
      r + [rows[|rows| - 1]]
  }

  lemma {:induction false} InsertedContents(rows: seq<Row>, e: Row)
    requires Ascending(rows)
    ensures multiset(InsertByOffset(rows, e)) == multiset(rows) + multiset{e}
  {
    if rows != [] && rows[|rows| - 1].offset > e.offset {
      InsertedContents(rows[..|rows| - 1], e);
      InitLast(rows);
    }
  }

  /** `ORDER BY offset ASC`. */
  function ByOffset(rows: seq<Row>): (r: seq<Row>)
    ensures Ascending(r) && multiset(r) == multiset(rows) && |r| == |rows|
  {
    if rows == [] then []
    else
      InitLast(rows);
      InsertedContents(ByOffset(rows[..|rows| - 1]), rows[|rows| - 1]);
      InsertByOffset(ByOffset(rows[..|rows| - 1]), rows[|rows| - 1])
  }

  predicate Matches(e: Row, session: SessionId, offset: nat) {
    e.session == session && offset <= e.offset
  }

  /** The first `limit` events of the session from an offset on, in offset order: whatever is left out comes
      no earlier, and nothing is left out before the limit is reached. */
  ghost predicate IsPage(rows: seq<Row>, session: SessionId, offset: nat, limit: nat, r: seq<Row>) {
    && Ascending(r) && |r| <= limit && multiset(r) <= multiset(rows)
    && (forall e | e in r :: Matches(e, session, offset))
    && (forall e | e in rows && Matches(e, session, offset) && multiset(r)[e] < multiset(rows)[e] ::
          |r| == limit && forall x | x in r :: x.offset <= e.offset)
  }

  /** `COALESCE(MAX(offset), -1) + 1` over the live events of a session. */
  function NextOffset(rows: seq<Row>, session: SessionId): (n: nat)
    ensures forall e | e in rows && e.session == session :: e.offset < n
    ensures n > 0 ==> exists e :: e in rows && e.session == session && e.offset + 1 == n
  {
    if rows == [] then 0 else
      var rest, last := NextOffset(rows[..|rows| - 1], session), rows[|rows| - 1];
      if last.session == session && rest <= last.offset then last.offset + 1 else rest
  }

  predicate ArchiveOrder(a: Row, b: Row) {
    a.ts < b.ts || (a.ts == b.ts && a.offset <= b.offset)
  }

  function InsertRow(rows: seq<Row>, e: Row): seq<Row> {
    if rows == [] || ArchiveOrder(rows[|rows| - 1], e) then rows + [e]
    else InsertRow(rows[..|rows| - 1], e) + [rows[|rows| - 1]]
  }

  /** `ORDER BY ts ASC, offset ASC`. */
  function Sorted(rows: seq<Row>): seq<Row> {
    if rows == [] then [] else InsertRow(Sorted(rows[..|rows| - 1]), rows[|rows| - 1])
  }

  lemma InsertMembers(rows: seq<Row>, e: Row)
    ensures multiset(InsertRow(rows, e)) == multiset(rows) + multiset{e}
  {
    if rows != [] {
      assert rows == rows[..|rows| - 1] + [rows[|rows| - 1]];
    }
  }

  lemma {:induction false} InsertKeepsOrder(rows: seq<Row>, e: Row)
    requires forall i, j | 0 <= i < j < |rows| :: ArchiveOrder(rows[i], rows[j])
    ensures var r := InsertRow(rows, e); forall i, j | 0 <= i < j < |r| :: ArchiveOrder(r[i], r[j])
  {
    if rows != [] && !ArchiveOrder(rows[|rows| - 1], e) {
      var init, last := rows[..|rows| - 1], rows[|rows| - 1];
      InsertKeepsOrder(init, e);
      InsertMembers(init, e);
      var r := InsertRow(init, e);
      forall i | 0 <= i < |r| ensures ArchiveOrder(r[i], last) {
        assert r[i] in multiset(r);
        assert r[i] in init || r[i] == e;
      }
    }
  }

  /** Sorting keeps the rows and puts them in archive order. */
  lemma {:induction false} SortedSorts(rows: seq<Row>)
    ensures multiset(Sorted(rows)) == multiset(rows)
    ensures forall i, j | 0 <= i < j < |Sorted(rows)| :: ArchiveOrder(Sorted(rows)[i], Sorted(rows)[j])
    ensures forall i, j | 0 <= i < j < |Sorted(rows)| ::
      var a, b := Sorted(rows)[i], Sorted(rows)[j]; a.ts < b.ts || (a.ts == b.ts && a.offset <= b.offset)
    ensures forall e :: e in Sorted(rows) <==> e in rows
  {
    if rows != [] {
      var init, last := rows[..|rows| - 1], rows[|rows| - 1];
      SortedSorts(init);
      InsertMembers(Sorted(init), last);
      InsertKeepsOrder(Sorted(init), last);
      assert rows == init + [last];
    }
    forall e ensures e in Sorted(rows) <==> e in rows {
      assert e in Sorted(rows) <==> e in multiset(Sorted(rows));
    }
  }

  // ---------- the store ----------

  datatype Tables = Tables(sessions: map<SessionId, SessionRow>, events: seq<Row>)

  /** A new session starts without a last event. */
  function EnsureIn(t: Tables, session: SessionId, row: SessionRow): Tables {
    if session in t.sessions then t else t.(sessions := t.sessions[session := row.(lastEventAt := None)])
  }

  /** The event an append writes. */
  function NewRow(t: Tables, session: SessionId, eventId: nat, now: Time, payload: string): Row {
    Row(eventId, session, NextOffset(t.events, session), now, payload)
  }

  predicate Appendable(t: Tables, session: SessionId, eventId: nat) {
    session in t.sessions && forall e | e in t.events :: e.eventId != eventId
  }

  function AppendTo(t: Tables, session: SessionId, eventId: nat, now: Time, payload: string): Tables {
    if Appendable(t, session, eventId)
    then Tables(t.sessions[session := t.sessions[session].(lastEventAt := Some(now))],
                t.events + [NewRow(t, session, eventId, now, payload)])
    else t
  }

  /** What an archive remembers from its selection. */
  datatype Selection = Selection(beforeTs: Time, rows: seq<Row>, sessions: seq<SessionId>)

  /** The delete transaction: a session that still has events makes the foreign key refuse everything. */
  predicate Deletable(t: Tables, sel: Selection) {
    forall e | e in NotBefore(t.events, sel.beforeTs) :: e.session !in sel.sessions
  }

  function DeleteFrom(t: Tables, sel: Selection): Tables {
    if Deletable(t, sel)
    then Tables(t.sessions - (set s | s in sel.sessions), NotBefore(t.events, sel.beforeTs))
    else t
  }

  function CountOf(rows: seq<Row>, session: SessionId): nat {
    |OfSession(rows, session)|
  }

  /** The map holds the count of every session that has any of the rows. */
  ghost predicate Tally(counts: map<SessionId, nat>, rows: seq<Row>) {
    forall s :: (s in counts <==> CountOf(rows, s) > 0) && (s in counts ==> counts[s] == CountOf(rows, s))
  }

  lemma TallyOne(counts: map<SessionId, nat>, rows: seq<Row>, e: Row)
    requires Tally(counts, rows)
    ensures Tally(counts[e.session := (if e.session in counts then counts[e.session] else 0) + 1], rows + [e])
  {
    assert (rows + [e])[..|rows|] == rows;
  }

  lemma {:induction false} MatchingCounts(rows: seq<Row>, session: SessionId, offset: nat, e: Row)
    ensures multiset(FromOffset(OfSession(rows, session), offset))[e]
         == if Matches(e, session, offset) then multiset(rows)[e] else 0
  {
    OfSessionCounts(rows, session, e);
    FromOffsetCounts(OfSession(rows, session), offset, e);
  }

  lemma {:induction false} OfSessionCounts(rows: seq<Row>, session: SessionId, e: Row)
    ensures multiset(OfSession(rows, session))[e] == if e.session == session then multiset(rows)[e] else 0
  {
    if rows != [] {
      OfSessionCounts(rows[..|rows| - 1], session, e);
      assert rows == rows[..|rows| - 1] + [rows[|rows| - 1]];
    }
  }

  lemma {:induction false} FromOffsetCounts(rows: seq<Row>, offset: nat, e: Row)
    ensures multiset(FromOffset(rows, offset))[e] == if offset <= e.offset then multiset(rows)[e] else 0
  {
    if rows != [] {
      FromOffsetCounts(rows[..|rows| - 1], offset, e);
      assert rows == rows[..|rows| - 1] + [rows[|rows| - 1]];
    }
  }

  /** A beginning of rows in offset order leaves out only later ones. */
  lemma {:induction false} LeftOutIsLater(all: seq<Row>, k: nat, e: Row)
    requires Ascending(all) && k <= |all| && multiset(all[..k])[e] < multiset(all)[e]
    ensures k < |all| && forall x | x in all[..k] :: x.offset <= e.offset
  {
    var rest := all[k..];
    assert all == all[..k] + rest;
    assert multiset(all)[e] == multiset(all[..k])[e] + multiset(rest)[e];
    assert e in multiset(rest);
    var j :| 0 <= j < |rest| && rest[j] == e;
    assert rest[j] == all[k + j];
  }

  lemma {:induction false} BeginningIsLess(all: seq<Row>, k: nat)
    requires k <= |all|
    ensures multiset(all[..k]) <= multiset(all)
  {
    assert all == all[..k] + all[k..];
  }

  lemma {:induction false} BeginningIsPage(
      rows: seq<Row>, all: seq<Row>, session: SessionId, offset: nat, limit: nat, k: nat)
    requires Ascending(all) && k == if |all| <= limit then |all| else limit
    requires forall e :: multiset(all)[e] == if Matches(e, session, offset) then multiset(rows)[e] else 0
    ensures IsPage(rows, session, offset, limit, all[..k])
  {
    var r := all[..k];
    BeginningIsLess(all, k);
    forall e | e in r ensures Matches(e, session, offset) {
      assert multiset(r)[e] > 0 && multiset(all)[e] >= multiset(r)[e];
    }
    forall e | e in rows && Matches(e, session, offset) && multiset(r)[e] < multiset(rows)[e]
      ensures |r| == limit && forall x | x in r :: x.offset <= e.offset
    {
      LeftOutIsLater(all, k, e);
    }
    forall e ensures multiset(r)[e] <= multiset(rows)[e] {
      assert multiset(r)[e] <= multiset(all)[e];
    }
  }

  lemma {:induction false} FirstRowsArePage(rows: seq<Row>, session: SessionId, offset: nat, limit: nat)
    ensures var all := ByOffset(FromOffset(OfSession(rows, session), offset));
      IsPage(rows, session, offset, limit, if |all| <= limit then all else all[..limit])
  {
    var all := ByOffset(FromOffset(OfSession(rows, session), offset));
    forall e ensures multiset(all)[e] == if Matches(e, session, offset) then multiset(rows)[e] else 0 {
      MatchingCounts(rows, session, offset, e);
    }
    BeginningIsPage(rows, all, session, offset, limit, if |all| <= limit then |all| else limit);
    assert all[..|all|] == all;
  }

  /** `clean` has exactly those of the sessions all of whose events are among the rows. */
  ghost predicate CoveredAmong(clean: seq<SessionId>, seen: seq<SessionId>, events: seq<Row>, rows: seq<Row>) {
    forall s :: s in clean <==> s in seen && CountOf(events, s) == CountOf(rows, s)
  }

  lemma CoveredOneMore(clean: seq<SessionId>, seen: seq<SessionId>, i: nat, events: seq<Row>, rows: seq<Row>)
    requires i < |seen| && CoveredAmong(clean, seen[..i], events, rows)
    ensures var s := seen[i];
      CoveredAmong(if CountOf(events, s) == CountOf(rows, s) then clean + [s] else clean, seen[..i + 1], events, rows)
  {
    assert seen[..i + 1] == seen[..i] + [seen[i]];
  }

  class LedgerStore {
    var sessions: map<SessionId, SessionRow>
    var events: seq<Row>

    ghost function Contents(): Tables
      reads this
    {
      Tables(sessions, events)
    }

    constructor ()
      ensures Contents() == Tables(map[], [])
    {
      sessions, events := map[], [];
    }

    method EnsureSession(session: SessionId, row: SessionRow)
      modifies this
      ensures Contents() == EnsureIn(old(Contents()), session, row)
      ensures events == old(events) && sessions.Keys == old(sessions).Keys + {session}
      ensures forall id | id in old(sessions) :: sessions[id] == old(sessions)[id]
      ensures session !in old(sessions) ==> sessions[session] == SessionRow(row.startedAt, row.title, None)
    {
      if session !in sessions {
        sessions := sessions[session := row.(lastEventAt := None)];
      }
    }

    /** Refused when the session row is missing or the event id is taken. */
    method AppendEvent(session: SessionId, eventId: nat, now: Time, payload: string)
        returns (outcome: Outcome, written: Option<Row>)
      modifies this
      ensures Contents() == AppendTo(old(Contents()), session, eventId, now, payload)
      ensures outcome.Done? <==> old(Appendable(Contents(), session, eventId))
      ensures written == if outcome.Done? then Some(NewRow(old(Contents()), session, eventId, now, payload)) else None
      ensures outcome.Refused? ==> sessions == old(sessions) && events == old(events)
      ensures outcome.Refused? <==>
        session !in old(sessions) || exists e :: e in old(events) && e.eventId == eventId
      ensures outcome.Done? ==>
        && written.Some? && events == old(events) + [written.value]
        && written.value.session == session && written.value.eventId == eventId
        && written.value.ts == now && written.value.payload == payload
        && written.value.offset == NextOffset(old(events), session)
        && sessions == old(sessions)[session := old(sessions)[session].(lastEventAt := Some(now))]
    {
      if session !in sessions || exists e | e in events :: e.eventId == eventId {
        return Refused, None;
      }
      var offset := NextOffset(events, session);
      var row := Row(eventId, session, offset, now, payload);
      events := events + [row];
      sessions := sessions[session := sessions[session].(lastEventAt := Some(now))];
      return Done, Some(row);
    }

    /** The session's live events from an offset on, the first `limit` of them. */
    method GetEvents(session: SessionId, offset: nat, limit: nat) returns (r: seq<Row>)
      ensures IsPage(events, session, offset, limit, r)
    {
      var rows := ByOffset(FromOffset(OfSession(events, session), offset));
      r := if |rows| <= limit then rows else rows[..limit];
      FirstRowsArePage(events, session, offset, limit);
    }

    /** Counts the selected events of each session, in the order sessions are first met. */
    static method CountPerSession(rows: seq<Row>) returns (counts: map<SessionId, nat>, order: seq<SessionId>)
      ensures Tally(counts, rows)
      ensures forall s :: s in order <==> s in counts
    {
      counts, order := map[], [];
      for i := 0 to |rows|
        invariant Tally(counts, rows[..i])
        invariant forall s :: s in order <==> s in counts
      {
        var s := rows[i].session;
        if s !in counts {
          order := order + [s];
        }
        TallyOne(counts, rows[..i], rows[i]);
        assert rows[..i] + [rows[i]] == rows[..i + 1];
        counts := counts[s := (if s in counts then counts[s] else 0) + 1];
      }
      assert rows[..|rows|] == rows;
    }

    /** Selects what an archive will move, and the sessions all of whose events that covers. */
    method SelectArchive(beforeTs: Time) returns (sel: Selection)
      ensures sel.beforeTs == beforeTs
      ensures sel.rows == Sorted(Before(events, beforeTs))
      ensures forall s :: s in sel.sessions <==> CountOf(sel.rows, s) > 0 && CountOf(events, s) == CountOf(sel.rows, s)
    {
      var rows := Sorted(Before(events, beforeTs));
      var archivedPerSession, seen := CountPerSession(rows);
      var clean: seq<SessionId> := [];
      for i := 0 to |seen|
        invariant CoveredAmong(clean, seen[..i], events, rows)
      {
        assert seen[i] in seen;
        CoveredOneMore(clean, seen, i, events, rows);
        if CountOf(events, seen[i]) == archivedPerSession[seen[i]] {
          clean := clean + [seen[i]];
        }
      }
      assert seen[..|seen|] == seen;
      sel := Selection(beforeTs, rows, clean);
    }

    /** The delete transaction; it runs only after the sidecar is on disk. */
    method CommitArchive(sel: Selection) returns (outcome: Outcome)
      modifies this
      ensures Contents() == DeleteFrom(old(Contents()), sel)
      ensures outcome.Done? <==> old(Deletable(Contents(), sel))
      ensures outcome.Refused? ==> sessions == old(sessions) && events == old(events)
      ensures outcome.Refused? <==>
        exists e :: e in old(events) && sel.beforeTs <= e.ts && e.session in sel.sessions
      ensures outcome.Done? ==>
        && (forall e :: e in events <==> e in old(events) && sel.beforeTs <= e.ts)
        && (forall id :: id in sessions <==> id in old(sessions) && id !in sel.sessions)
        && (forall id | id in sessions :: sessions[id] == old(sessions)[id])
    {
      var kept := NotBefore(events, sel.beforeTs);
      if exists e | e in kept :: e.session in sel.sessions {
        return Refused;
      }
      sessions := sessions - (set s | s in sel.sessions);
      events := kept;
      outcome := Done;
    }
  }
}
