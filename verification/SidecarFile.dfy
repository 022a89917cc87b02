/** The text of an archive sidecar: one line for the header, one per event, one per removed session.
    A line's encoding is a parameter; JSON needs only be injective, non-empty and free of newlines. */
module SidecarFile {
  import opened Options
  import opened Ledger

  datatype Line = Header(beforeTs: Time) | Event(row: Row) | SessionMarker(session: SessionId, about: SessionRow)

  function Join(lines: seq<string>): string {
    if lines == [] then "" else if |lines| == 1 then lines[0] else lines[0] + "\n" + Join(lines[1..])
  }

  function Split(text: string): (lines: seq<string>)
    ensures lines != []
  {
    if text == "" then [""]
    else
      var rest := Split(text[1..]);
      if text[0] == '\n' then [""] + rest else [[text[0]] + rest[0]] + rest[1..]
  }

  function NonEmpty(lines: seq<string>): (r: seq<string>)
    ensures forall i | 0 <= i < |r| :: r[i] != ""
  {
    if lines == [] then [] else (if lines[0] == "" then [] else [lines[0]]) + NonEmpty(lines[1..])
  }

  predicate OneLine(line: string) {
    line != "" && '\n' !in line
  }

  lemma {:induction false} SplitLine(line: string, rest: string)
    requires '\n' !in line
    ensures Split(line + "\n" + rest) == [line] + Split(rest)
  {
    var text := line + "\n" + rest;
    if line == "" {
      assert text[1..] == rest;
    } else {
      assert text[1..] == line[1..] + "\n" + rest;
      SplitLine(line[1..], rest);
      assert [line[0]] + line[1..] == line;
      assert ([line[1..]] + Split(rest))[1..] == Split(rest);
    }
  }

  /** Splitting a file into its non-empty lines undoes joining them. */
  lemma {:induction false} SplitUndoesJoin(lines: seq<string>)
    requires lines != [] && forall i | 0 <= i < |lines| :: OneLine(lines[i])
    ensures NonEmpty(Split(Join(lines) + "\n")) == lines
  {
    assert OneLine(lines[0]);
    if |lines| == 1 {
      SplitLine(lines[0], "");
      assert lines[0] + "\n" + "" == Join(lines) + "\n";
      assert NonEmpty([""]) == [];
      assert [lines[0], ""][1..] == [""];
    } else {
      var rest := Join(lines[1..]) + "\n";
      SplitLine(lines[0], rest);
      assert lines[0] + "\n" + rest == Join(lines) + "\n";
      SplitUndoesJoin(lines[1..]);
      assert ([lines[0]] + Split(rest))[1..] == Split(rest);
    }
  }

  function EventLines(rows: seq<Row>, encode: Line -> string): seq<string> {
    seq(|rows|, i requires 0 <= i < |rows| => encode(Event(rows[i])))
  }

  function MarkerLines(markers: seq<Line>, encode: Line -> string): seq<string> {
    seq(|markers|, i requires 0 <= i < |markers| => encode(markers[i]))
  }

  /** What an archive writes before it deletes anything. */
  function Written(beforeTs: Time, rows: seq<Row>, markers: seq<Line>, encode: Line -> string): string {
    Join([encode(Header(beforeTs))] + EventLines(rows, encode) + MarkerLines(markers, encode)) + "\n"
  }

  /** The events among decoded lines, in file order. */
  function Events(lines: seq<Line>): seq<Row> {
    if lines == [] then []
    else Events(lines[..|lines| - 1]) + (if lines[|lines| - 1].SessionMarker? then [] else [AsRow(lines[|lines| - 1])])
  }

  /** Every line that is not a session marker is taken for an event as it stands. */
  function AsRow(line: Line): Row {
    if line.Event? then line.row else Row(0, 0, 0, 0, "")
  }

  function Decoded(lines: seq<string>, decode: string -> Line): seq<Line> {
    seq(|lines|, i requires 0 <= i < |lines| => decode(lines[i]))
  }

  method ReadArchiveFile(text: string, decode: string -> Line) returns (r: Option<(Line, seq<Row>)>)
    ensures var lines := NonEmpty(Split(text));
      r == if lines == [] then None else Some((decode(lines[0]), Events(Decoded(lines[1..], decode))))
  {
    var lines := NonEmpty(Split(text));
    if lines == [] {
      return None;
    }
    var header := decode(lines[0]);
    var all := Decoded(lines[1..], decode);
    var events: seq<Row> := [];
    for i := 1 to |lines|
      invariant events == Events(all[..i - 1])
    {
      var line := decode(lines[i]);
      assert all[i - 1] == line && all[..i][..i - 1] == all[..i - 1];
      if line.SessionMarker? {
        continue;
      }
      events := events + [AsRow(line)];
    }
    assert all[..|lines| - 1] == all;
    r := Some((header, events));
  }

  lemma {:induction false} EventsConcat(a: seq<Line>, b: seq<Line>)
    ensures Events(a + b) == Events(a) + Events(b)
    decreases |b|
  {
    if b == [] {
      assert a + b == a;
    } else {
      assert (a + b)[..|a + b| - 1] == a + b[..|b| - 1];
      EventsConcat(a, b[..|b| - 1]);
    }
  }

  function AsEvents(rows: seq<Row>): (r: seq<Line>)
    ensures |r| == |rows| && forall i | 0 <= i < |rows| :: r[i] == Event(rows[i])
  {
    seq(|rows|, i requires 0 <= i < |rows| => Event(rows[i]))
  }

  lemma {:induction false} EventsOnly(rows: seq<Row>)
    ensures Events(AsEvents(rows)) == rows
  {
    if rows != [] {
      var n := |rows| - 1;
      EventsOnly(rows[..n]);
      assert AsEvents(rows)[..n] == AsEvents(rows[..n]);
      assert rows[..n] + [rows[n]] == rows;
    }
  }

  lemma {:induction false} MarkersOnly(markers: seq<Line>)
    requires forall i | 0 <= i < |markers| :: markers[i].SessionMarker?
    ensures Events(markers) == []
  {
    if markers != [] {
      MarkersOnly(markers[..|markers| - 1]);
    }
  }

  /** Reading a sidecar back gives its header and exactly the archived events in archive order,
      whatever session markers follow them. */
  lemma SidecarRoundTrip(
      beforeTs: Time, rows: seq<Row>, markers: seq<Line>, encode: Line -> string, decode: string -> Line)
    requires forall line :: decode(encode(line)) == line && OneLine(encode(line))
    requires forall i | 0 <= i < |markers| :: markers[i].SessionMarker?
    ensures var lines := NonEmpty(Split(Written(beforeTs, rows, markers, encode)));
      && lines != []
      && decode(lines[0]) == Header(beforeTs)
      && Events(Decoded(lines[1..], decode)) == rows
  {
    var all := [encode(Header(beforeTs))] + EventLines(rows, encode) + MarkerLines(markers, encode);
    assert forall i | 0 <= i < |all| :: OneLine(all[i]);
    SplitUndoesJoin(all);
    assert all[1..] == EventLines(rows, encode) + MarkerLines(markers, encode);
    LinesDecode(rows, markers, encode, decode);
    EventsConcat(AsEvents(rows), markers);
    EventsOnly(rows);
    MarkersOnly(markers);
  }

  lemma LinesDecode(rows: seq<Row>, markers: seq<Line>, encode: Line -> string, decode: string -> Line)
    requires forall line :: decode(encode(line)) == line
    ensures Decoded(EventLines(rows, encode) + MarkerLines(markers, encode), decode) == AsEvents(rows) + markers
  {
    var lines, n := EventLines(rows, encode) + MarkerLines(markers, encode), |rows|;
    forall i | 0 <= i < |lines| ensures decode(lines[i]) == (AsEvents(rows) + markers)[i] {
      assert lines[i] == if i < n then encode(Event(rows[i])) else encode(markers[i - n]);
    }
  }
}
