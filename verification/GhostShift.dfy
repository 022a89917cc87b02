/** The unattended shift over a queue directory: each file is loaded, judged, moved, run and routed. */
module GhostShift {
  import opened Options
  import opened GhostSafety

  type Name = string

  datatype Dir = Queue | Running | Completed | Failed | Blocked | Rejected

  /** The directories each file is in. */
  type Places = map<Name, set<Dir>>

  datatype Loaded = Invalid | Valid(graph: Graph)

  /** How running a graph ends. */
  datatype Outcome = Throws | Completes | AwaitsApproval | EndsOtherwise

  datatype Status = DidComplete | DidFail | DidBlock | WasUnsafe | WasInvalid

  datatype Record = Record(file: Name, status: Status)

  datatype Counts = Counts(completed: nat, failed: nat, blocked: nat, rejected: nat)

  datatype Summary = Summary(processed: nat, skippedTimeBudget: nat, counts: Counts)

  predicate MayRun(loaded: Loaded) {
    loaded.Valid? && Safe(loaded.graph)
  }

  function Moved(places: Places, name: Name, src: Dir, dest: Dir): Option<Places> {
    if name in places && src in places[name] then Some(places[name := places[name] - {src} + {dest}]) else None
  }

  function StatusOfOutcome(outcome: Outcome): Status {
    match outcome
    case Completes => DidComplete
    case AwaitsApproval => DidBlock
    case _ => DidFail
  }

  /** What is reported for a file, from its content and how running it would end. */
  function StatusFor(loaded: Loaded, outcome: Outcome): Status {
    if loaded.Invalid? then WasInvalid
    else if !Safe(loaded.graph) then WasUnsafe
    else StatusOfOutcome(outcome)
  }

  function Destination(status: Status): Dir {
    match status
    case DidComplete => Completed
    case DidFail => Failed
    case DidBlock => Blocked
    case _ => Rejected
  }

  /** What becomes of a file: how it is reported and where it ends. */
  datatype Fate = Fate(status: Status, dir: Dir)

  /** A file that does not load or is not safe is rejected; a safe one ends by how running it ends, and one whose
      run throws has failed. */
  function FateOf(loaded: Loaded, outcome: Outcome): Fate {
    match loaded
    case Invalid => Fate(WasInvalid, Rejected)
    case Valid(graph) =>
      if !Safe(graph) then Fate(WasUnsafe, Rejected)
      else
        match outcome
        case Completes => Fate(DidComplete, Completed)
        case AwaitsApproval => Fate(DidBlock, Blocked)
        case EndsOtherwise => Fate(DidFail, Failed)
        case Throws => Fate(DidFail, Failed)
  }

  lemma StatusIsFate(loaded: Loaded, outcome: Outcome)
    ensures FateOf(loaded, outcome) == Fate(StatusFor(loaded, outcome), Destination(StatusFor(loaded, outcome)))
  {
  }

  function CountOf(records: seq<Record>, statuses: set<Status>): nat {
    if records == [] then 0
    else CountOf(records[..|records| - 1], statuses) + (if records[|records| - 1].status in statuses then 1 else 0)
  }

  function CountsOf(records: seq<Record>): Counts {
    Counts(CountOf(records, {DidComplete}), CountOf(records, {DidFail}), CountOf(records, {DidBlock}),
           CountOf(records, {WasUnsafe, WasInvalid}))
  }

  method TallyResults(rows: seq<Record>) returns (counts: Counts)
    ensures counts == CountsOf(rows)
    ensures counts.completed == CountOf(rows, {DidComplete}) && counts.failed == CountOf(rows, {DidFail})
    ensures counts.blocked == CountOf(rows, {DidBlock}) && counts.rejected == CountOf(rows, {WasUnsafe, WasInvalid})
    ensures counts.completed + counts.failed + counts.blocked + counts.rejected == |rows|
  {
    var completed, failed, blocked, rejected := 0, 0, 0, 0;
    for i := 0 to |rows|
      invariant Counts(completed, failed, blocked, rejected) == CountsOf(rows[..i])
      invariant completed + failed + blocked + rejected == i
    {
      assert rows[..i + 1][..i] == rows[..i];
      match rows[i].status
      case DidComplete => completed := completed + 1;
      case DidFail => failed := failed + 1;
      case DidBlock => blocked := blocked + 1;
      case _ => rejected := rejected + 1;
    }
    assert rows[..|rows|] == rows;
    counts := Counts(completed, failed, blocked, rejected);
  }

  /** A listed file, with what loading it gives and how running it would end. */
  datatype Item = Item(name: Name, loaded: Loaded, outcome: Outcome)

  function ItemStatus(item: Item): Status {
    StatusFor(item.loaded, item.outcome)
  }

  /** A dry run reports what would run as completed. */
  function RecordFor(item: Item, dryRun: bool): Record {
    Record(item.name, if dryRun then StatusFor(item.loaded, Completes) else ItemStatus(item))
  }

  /** A directory listing: files of the queue and of nowhere else, each once. */
  ghost predicate Listed(items: seq<Item>, places: Places) {
    && (forall i, j | 0 <= i < j < |items| :: items[i].name != items[j].name)
    && forall i | 0 <= i < |items| :: items[i].name in places && places[items[i].name] == {Queue}
  }

  // ---------- the files, one after the other ----------

  function RecordsOf(items: seq<Item>, dryRun: bool): (r: seq<Record>)
    ensures |r| == |items| && forall i | 0 <= i < |items| :: r[i] == RecordFor(items[i], dryRun)
  {
    seq(|items|, i requires 0 <= i < |items| => RecordFor(items[i], dryRun))
  }

  function PlacesAfter(before: Places, items: seq<Item>): Places {
    if items == [] then before
    else
      var last := items[|items| - 1];
      PlacesAfter(before, items[..|items| - 1])[last.name := {Destination(ItemStatus(last))}]
  }

  /** The ledger events of shifts; `GraphRun` is history: the graph is handed to the executor. */
  datatype Logged =
    | ShiftStarted(disabled: bool)
    | GraphRejected(rejected: Name)
    | GraphStarted(started: Name)
    | GraphRun(run: Name)
    | GraphEnded(ended: Name, status: Status)
    | ShiftEnded(summary: Summary)

  /** What one file adds to the log. */
  function LogOf(name: Name, status: Status, dryRun: bool): seq<Logged> {
    if status == WasInvalid || status == WasUnsafe then [GraphRejected(name)]
    else if dryRun then [GraphStarted(name)]
    else [GraphStarted(name), GraphRun(name), GraphEnded(name, status)]
  }

  function LogAll(items: seq<Item>, dryRun: bool): seq<Logged> {
    if items == [] then []
    else
      var last := RecordFor(items[|items| - 1], dryRun);
      LogAll(items[..|items| - 1], dryRun) + LogOf(last.file, last.status, dryRun)
  }

  /** The graphs handed to the executor, oldest first. */
  function Executed(log: seq<Logged>): seq<Name> {
    if log == [] then []
    else Executed(log[..|log| - 1]) + (if log[|log| - 1].GraphRun? then [log[|log| - 1].run] else [])
  }

  lemma {:induction false} ExecutedConcat(a: seq<Logged>, b: seq<Logged>)
    ensures Executed(a + b) == Executed(a) + Executed(b)
    decreases |b|
  {
    if b == [] {
      assert a + b == a;
    } else {
      assert (a + b)[..|a + b| - 1] == a + b[..|b| - 1];
      ExecutedConcat(a, b[..|b| - 1]);
    }
  }

  lemma ExecutedOf(name: Name, status: Status, dryRun: bool)
    ensures Executed(LogOf(name, status, dryRun))
         == if dryRun || status == WasInvalid || status == WasUnsafe then [] else [name]
  {
    var started, run, ended := [GraphStarted(name)], [GraphRun(name)], [GraphEnded(name, status)];
    ExecutedConcat(started, run);
    ExecutedConcat(started + run, ended);
    ExecutedOne(GraphRejected(name));
    ExecutedOne(GraphStarted(name));
    ExecutedOne(GraphRun(name));
    ExecutedOne(GraphEnded(name, status));
    assert started + run + ended == [GraphStarted(name), GraphRun(name), GraphEnded(name, status)];
  }

  lemma ExecutedOne(entry: Logged)
    ensures Executed([entry]) == if entry.GraphRun? then [entry.run] else []
  {
    assert [entry][..0] == [];
  }

  /** The executor gets exactly the runnable files, in order, and nothing in a dry run. */
  lemma {:induction false} ExecutedAreRunnable(items: seq<Item>, dryRun: bool)
    ensures Executed(LogAll(items, dryRun)) == if dryRun then [] else RunnableAmong(items)
  {
    if items != [] {
      var init, last := items[..|items| - 1], items[|items| - 1];
      var record := RecordFor(last, dryRun);
      ExecutedAreRunnable(init, dryRun);
      var before, added := LogAll(init, dryRun), LogOf(record.file, record.status, dryRun);
      assert LogAll(items, dryRun) == before + added;
      ExecutedConcat(before, added);
      ExecutedOf(record.file, record.status, dryRun);
      OnlyRunnableReported(last, dryRun);
    }
  }

  lemma OnlyRunnableReported(item: Item, dryRun: bool)
    ensures MayRun(item.loaded) <==> RecordFor(item, dryRun).status !in {WasInvalid, WasUnsafe}
  {
  }

  /** Names of the runnable files, in order. */
  function RunnableAmong(items: seq<Item>): seq<Name> {
    if items == [] then []
    else
      var last := items[|items| - 1];
      RunnableAmong(items[..|items| - 1]) + (if MayRun(last.loaded) then [last.name] else [])
  }

  /** The listed files are where their status says, everything else is where it was. */
  ghost predicate Routed(before: Places, after: Places, items: seq<Item>) {
    && after.Keys == before.Keys
    && (forall item | item in items ::
          item.name in after && after[item.name] == {FateOf(item.loaded, item.outcome).dir})
    && (forall name | name in before && (forall item | item in items :: item.name != name) ::
          after[name] == before[name])
  }

  lemma {:induction false} FilesAreRouted(before: Places, items: seq<Item>)
    requires Listed(items, before)
    ensures Routed(before, PlacesAfter(before, items), items)
  {
    if items != [] {
      var n := |items| - 1;
      FilesAreRouted(before, items[..n]);
      assert items[n].name in before;
      RoutedOneMore(before, PlacesAfter(before, items[..n]), items[..n], items[n]);
      assert items[..n] + [items[n]] == items;
    }
  }

  lemma RoutedOneMore(before: Places, mid: Places, items: seq<Item>, last: Item)
    requires Routed(before, mid, items) && last.name in before
    requires forall item | item in items :: item.name != last.name
    ensures Routed(before, mid[last.name := {Destination(ItemStatus(last))}], items + [last])
  {
    var after := mid[last.name := {Destination(ItemStatus(last))}];
    StatusIsFate(last.loaded, last.outcome);
    forall name | name in before && (forall item | item in items + [last] :: item.name != name)
      ensures after[name] == before[name]
    {
      assert last in items + [last];
      forall item | item in items ensures item.name != name {
        assert item in items + [last];
      }
    }
  }

  /** The next listed file is still queued; moving it out of the queue gives the next places. */
  lemma NextPlaces(before: Places, items: seq<Item>, k: nat)
    requires Listed(items, before) && k < |items|
    ensures var p, name := PlacesAfter(before, items[..k]), items[k].name;
      && name in p && p[name] == {Queue}
      && p[name := p[name] - {Queue} + {Destination(ItemStatus(items[k]))}] == PlacesAfter(before, items[..k + 1])
  {
    FilesAreRouted(before, items[..k]);
    assert items[..k + 1][..k] == items[..k];
    OutOfQueue(Destination(ItemStatus(items[k])));
  }

  /** The move out of the queue, whatever directory it ends in. */
  lemma OutOfQueue(d: Dir)
    ensures {Queue} - {Queue} + {d} == {d}
  {
  }

  /** The clock was within the budget before each of the first `k` files. */
  predicate OnTime(elapsed: seq<int>, k: nat, maxRuntimeMs: int) {
    k <= |elapsed| && forall i | 0 <= i < k :: elapsed[i] < maxRuntimeMs
  }

  lemma NextOnTime(elapsed: seq<int>, k: nat, maxRuntimeMs: int)
    requires OnTime(elapsed, k, maxRuntimeMs) && k < |elapsed| && elapsed[k] < maxRuntimeMs
    ensures OnTime(elapsed, k + 1, maxRuntimeMs)
  {
  }

  lemma NextRecord(items: seq<Item>, k: nat, dryRun: bool)
    requires k < |items|
    ensures RecordsOf(items[..k + 1], dryRun) == RecordsOf(items[..k], dryRun) + [RecordFor(items[k], dryRun)]
  {
  }

  lemma NextLog(log: seq<Logged>, items: seq<Item>, k: nat, dryRun: bool)
    requires k < |items|
    ensures var record := RecordFor(items[k], dryRun);
      log + LogAll(items[..k + 1], dryRun)
      == log + LogAll(items[..k], dryRun) + LogOf(record.file, record.status, dryRun)
  {
    assert items[..k + 1][..k] == items[..k];
  }

  class GhostQueue {
    var places: Places
    var log: seq<Logged>

    constructor (initial: Places)
      ensures places == initial && log == []
    {
      places, log := initial, [];
    }

    /** Renames a file; fails when it is not there. */
    method MoveFile(name: Name, src: Dir, dest: Dir) returns (ok: bool)
      modifies this`places
      ensures ok <==> Moved(old(places), name, src, dest).Some?
      ensures places == if ok then Moved(old(places), name, src, dest).value else old(places)
    {
      if name !in places || src !in places[name] {
        return false;
      }
      places := places[name := places[name] - {src} + {dest}];
      ok := true;
    }

    /** `None` when a move failed because another shift has taken the file. */
    method ProcessOne(name: Name, loaded: Loaded, outcome: Outcome, dryRun: bool) returns (r: Option<Record>)
      requires name in places && Running !in places[name]
      modifies this
      ensures dryRun ==>
        var status := if Queue in old(places)[name] then StatusFor(loaded, Completes) else WasInvalid;
        places == old(places) && r == Some(Record(name, status)) && log == old(log) + LogOf(name, status, dryRun)
      ensures dryRun && Queue in old(places)[name] ==>
        var fate := FateOf(loaded, Completes);
        && r == Some(Record(name, fate.status))
        && log == old(log) + [if fate.dir == Rejected then GraphRejected(name) else GraphStarted(name)]
      ensures !dryRun && Queue !in old(places)[name] ==> r == None && places == old(places) && log == old(log)
      ensures !dryRun && Queue in old(places)[name] ==>
        var status := StatusFor(loaded, outcome);
        && r == Some(Record(name, status))
        && places == old(places)[name := old(places)[name] - {Queue} + {Destination(status)}]
        && log == old(log) + LogOf(name, status, dryRun)
      ensures !dryRun && Queue in old(places)[name] ==>
        var fate := FateOf(loaded, outcome);
        && r == Some(Record(name, fate.status))
        && places == old(places)[name := old(places)[name] - {Queue} + {fate.dir}]
        && log == old(log) + (if fate.dir == Rejected then [GraphRejected(name)]
                              else [GraphStarted(name), GraphRun(name), GraphEnded(name, fate.status)])
    {
      StatusIsFate(loaded, if dryRun then Completes else outcome);
      if Queue !in places[name] || loaded.Invalid? {
        if !dryRun {
          var ok := MoveFile(name, Queue, Rejected);
          if !ok {
            return None;
          }
        }
        log := log + [GraphRejected(name)];
        return Some(Record(name, WasInvalid));
      }
      var safe, _, _ := AssessGraph(loaded.graph);
      if !safe {
        if !dryRun {
          var _ := MoveFile(name, Queue, Rejected);
        }
        log := log + [GraphRejected(name)];
        return Some(Record(name, WasUnsafe));
      }
      if dryRun {
        log := log + [GraphStarted(name)];
        return Some(Record(name, DidComplete));
      }
      ghost var before := places[name];
      var _ := MoveFile(name, Queue, Running);
      log := log + [GraphStarted(name), GraphRun(name)];
      var status := StatusOfOutcome(outcome);
      var _ := MoveFile(name, Running, Destination(status));
      log := log + [GraphEnded(name, status)];
      assert before - {Queue} + {Running} - {Running} == before - {Queue};
      return Some(Record(name, status));
    }

    /** Takes the listed files one by one while the clock, read before each, is within the budget. */
    method ProcessAll(items: seq<Item>, elapsed: seq<int>, maxRuntimeMs: int, dryRun: bool)
        returns (results: seq<Record>, skipped: nat)
      requires Listed(items, places) && |elapsed| == |items|
      modifies this
      ensures |results| + skipped == |items| && results == RecordsOf(items[..|results|], dryRun)
      ensures OnTime(elapsed, |results|, maxRuntimeMs)
      ensures skipped > 0 ==> elapsed[|results|] >= maxRuntimeMs
      ensures places == if dryRun then old(places) else PlacesAfter(old(places), items[..|results|])
      ensures log == old(log) + LogAll(items[..|results|], dryRun)
    {
      results := [];
      for k := 0 to |items|
        invariant |results| == k && results == RecordsOf(items[..k], dryRun)
        invariant OnTime(elapsed, k, maxRuntimeMs)
        invariant places == if dryRun then old(places) else PlacesAfter(old(places), items[..k])
        invariant log == old(log) + LogAll(items[..k], dryRun)
      {
        if elapsed[k] >= maxRuntimeMs {
          return results, |items| - |results|;
        }
        NextPlaces(old(places), items, k);
        var r := ProcessOne(items[k].name, items[k].loaded, items[k].outcome, dryRun);
        NextOnTime(elapsed, k, maxRuntimeMs);
        NextRecord(items, k, dryRun);
        NextLog(old(log), items, k, dryRun);
        results := results + [r.value];
      }
      skipped := 0;
    }

    /** A whole shift that nothing interferes with. */
    method RunShift(items: seq<Item>, elapsed: seq<int>, maxRuntimeMs: int, dryRun: bool, disabled: bool)
        returns (summary: Summary, results: seq<Record>)
      requires Listed(items, places) && |elapsed| == |items|
      modifies this
      ensures disabled ==> places == old(places) && results == []
      ensures !disabled ==>
        && |results| <= |items| && results == RecordsOf(items[..|results|], dryRun)
        && OnTime(elapsed, |results|, maxRuntimeMs)
        && (|results| < |items| ==> elapsed[|results|] >= maxRuntimeMs)
      ensures dryRun ==> places == old(places)
      ensures !disabled && !dryRun ==>
        forall i | 0 <= i < |results| ::
          results[i] == Record(items[i].name, FateOf(items[i].loaded, items[i].outcome).status)
      ensures !disabled && !dryRun ==> Routed(old(places), places, items[..|results|])
      ensures log == old(log) + [ShiftStarted(disabled)]
                   + (if disabled then [] else LogAll(items[..|results|], dryRun)) + [ShiftEnded(summary)]
      ensures summary.processed == |results| && summary.counts == CountsOf(results)
      ensures summary.processed + summary.skippedTimeBudget == if disabled then 0 else |items|
      ensures summary.counts.completed + summary.counts.failed + summary.counts.blocked + summary.counts.rejected
           == summary.processed
    {
      results := [];
      var skipped := 0;
      log := log + [ShiftStarted(disabled)];
      if !disabled {
        results, skipped := ProcessAll(items, elapsed, maxRuntimeMs, dryRun);
        FilesAreRouted(old(places), items[..|results|]);
      }
      forall i | 0 <= i < |results|
        ensures !dryRun ==> results[i] == Record(items[i].name, FateOf(items[i].loaded, items[i].outcome).status)
      {
        StatusIsFate(items[i].loaded, items[i].outcome);
      }
      var counts := TallyResults(results);
      summary := Summary(|results|, skipped, counts);
      log := log + [ShiftEnded(summary)];
    }
  }
}
