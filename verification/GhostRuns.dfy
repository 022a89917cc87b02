/** Any number of shifts over one queue directory, interleaved step by step, with crashes and new files. */
module GhostRuns {
  import opened Options
  import opened GhostSafety
  import opened GhostShift

  type ShiftId = nat

  /** Where a shift stands with its current file. */
  datatype Stage = Ready | Judged(verdict: Loaded) | Claimed | Executed(outcome: Outcome) | Done(skipped: nat) | Aborted

  datatype Shift = Shift(listing: seq<Name>, results: seq<Record>, stage: Stage, dryRun: bool)

  datatype Execution = Execution(shift: ShiftId, file: Name)

  /** `content` never changes once a file is queued; `executed` is history. */
  datatype State = State(
    places: Places, content: map<Name, Loaded>, shifts: map<ShiftId, Shift>, executed: seq<Execution>)

  datatype Event =
    | Enqueue(name: Name, loaded: Loaded)
    | Start(shift: ShiftId, listing: seq<Name>, dryRun: bool)
    | Load(shift: ShiftId)
    | Act(shift: ShiftId)
    | Run(shift: ShiftId, outcome: Outcome)
    | Route(shift: ShiftId)
    | Stop(shift: ShiftId)
    | Crash(shift: ShiftId)

  const EMPTY: State := State(map[], map[], map[], [])

  predicate Busy(s: Shift) {
    s.stage.Judged? || s.stage.Claimed? || s.stage.Executed?
  }

  predicate HasFile(s: Shift) {
    |s.results| < |s.listing|
  }

  function File(s: Shift): Name
    requires HasFile(s)
  {
    s.listing[|s.results|]
  }

  predicate Distinct(names: seq<Name>) {
    forall i, j | 0 <= i < j < |names| :: names[i] != names[j]
  }

  predicate Legal(s: State, e: Event) {
    match e
    case Enqueue(name, _) => name !in s.content
    case Start(id, listing, _) =>
      id !in s.shifts && Distinct(listing)
      && forall i | 0 <= i < |listing| :: listing[i] in s.places && Queue in s.places[listing[i]]
    case Load(id) => id in s.shifts && s.shifts[id].stage.Ready? && HasFile(s.shifts[id])
    case Act(id) => id in s.shifts && s.shifts[id].stage.Judged? && HasFile(s.shifts[id])
    case Run(id, _) => id in s.shifts && s.shifts[id].stage.Claimed? && HasFile(s.shifts[id])
    case Route(id) => id in s.shifts && s.shifts[id].stage.Executed? && HasFile(s.shifts[id])
    case Stop(id) => id in s.shifts && s.shifts[id].stage.Ready? && |s.shifts[id].results| <= |s.shifts[id].listing|
    case Crash(id) => id in s.shifts && !s.shifts[id].stage.Done? && !s.shifts[id].stage.Aborted?
  }

  function Put(s: State, id: ShiftId, shift: Shift): State {
    s.(shifts := s.shifts[id := shift])
  }

  function Recorded(shift: Shift, status: Status): Shift
    requires HasFile(shift)
  {
    shift.(results := shift.results + [Record(File(shift), status)], stage := Ready)
  }

  /** A move and what the shift becomes when it succeeds; when it fails the whole shift throws. */
  function MoveThen(s: State, id: ShiftId, src: Dir, dest: Dir, next: Shift): State
    requires id in s.shifts && HasFile(s.shifts[id])
  {
    match Moved(s.places, File(s.shifts[id]), src, dest)
    case Some(places) => Put(s, id, next).(places := places)
    case None => Put(s, id, s.shifts[id].(stage := Aborted))
  }

  function ActStep(s: State, id: ShiftId): State
    requires Legal(s, Act(id))
  {
    var shift := s.shifts[id];
    var verdict := shift.stage.verdict;
    if shift.dryRun then Put(s, id, Recorded(shift, StatusFor(verdict, Completes)))
    else if !MayRun(verdict) then MoveThen(s, id, Queue, Rejected, Recorded(shift, StatusFor(verdict, Completes)))
    else MoveThen(s, id, Queue, Running, shift.(stage := Claimed))
  }

  function Step(s: State, e: Event): State
    requires Legal(s, e)
  {
    match e
    case Enqueue(name, loaded) => s.(places := s.places[name := {Queue}], content := s.content[name := loaded])
    case Start(id, listing, dryRun) => Put(s, id, Shift(listing, [], Ready, dryRun))
    case Load(id) =>
      var shift := s.shifts[id];
      var name := File(shift);
      var found := name in s.places && Queue in s.places[name] && name in s.content;
      Put(s, id, shift.(stage := Judged(if found then s.content[name] else Invalid)))
    case Act(id) => ActStep(s, id)
    case Run(id, outcome) =>
      Put(s, id, s.shifts[id].(stage := Executed(outcome))).(
        executed := s.executed + [Execution(id, File(s.shifts[id]))])
    case Route(id) =>
      var status := StatusOfOutcome(s.shifts[id].stage.outcome);
      MoveThen(s, id, Running, Destination(status), Recorded(s.shifts[id], status))
    case Stop(id) => Put(s, id, s.shifts[id].(stage := Done(|s.shifts[id].listing| - |s.shifts[id].results|)))
    case Crash(id) => Put(s, id, s.shifts[id].(stage := Aborted))
  }

  ghost predicate LegalRun(run: seq<Event>)
    decreases |run|, 0
  {
    run == [] || (LegalRun(run[..|run| - 1]) && Legal(Exec(run[..|run| - 1]), run[|run| - 1]))
  }

  ghost function Exec(run: seq<Event>): State
    requires LegalRun(run)
    decreases |run|, 1
  {
    if run == [] then EMPTY else Step(Exec(run[..|run| - 1]), run[|run| - 1])
  }

  // ---------- what every step keeps ----------

  /** The shift has moved the file to `running/` and not yet out of it. */
  predicate Holds(s: State, id: ShiftId, name: Name) {
    id in s.shifts && (s.shifts[id].stage.Claimed? || s.shifts[id].stage.Executed?)
    && HasFile(s.shifts[id]) && File(s.shifts[id]) == name
  }

  predicate InOnePlace(s: State, name: Name) {
    name in s.places && exists d :: s.places[name] == {d}
  }

  predicate PlacesInv(s: State) {
    s.places.Keys == s.content.Keys && forall name | name in s.content :: InOnePlace(s, name)
  }

  predicate ShiftOk(s: State, shift: Shift) {
    && Distinct(shift.listing) && |shift.results| <= |shift.listing|
    && (forall i | 0 <= i < |shift.listing| :: shift.listing[i] in s.content)
    && (forall i | 0 <= i < |shift.results| :: shift.results[i].file == shift.listing[i])
    && (Busy(shift) ==> HasFile(shift))
    && (shift.stage.Judged? && MayRun(shift.stage.verdict) ==> s.content[File(shift)] == shift.stage.verdict)
    && (shift.stage.Done? ==> |shift.results| + shift.stage.skipped == |shift.listing|)
  }

  predicate HoldOk(s: State, id: ShiftId, name: Name) {
    name in s.content && name in s.places && s.places[name] == {Running} && MayRun(s.content[name])
  }

  predicate Ran(s: State, name: Name) {
    exists i :: 0 <= i < |s.executed| && s.executed[i].file == name
  }

  ghost predicate Inv(s: State) {
    && PlacesInv(s)
    && (forall id | id in s.shifts :: ShiftOk(s, s.shifts[id]))
    && (forall id, name | Holds(s, id, name) :: HoldOk(s, id, name))
    && (forall a, b, name | Holds(s, a, name) && Holds(s, b, name) :: a == b)
    && (forall id, name | Holds(s, id, name) && s.shifts[id].stage.Claimed? :: !Ran(s, name))
    && (forall name | Ran(s, name) ::
        name in s.content && name in s.places && MayRun(s.content[name]) && Queue !in s.places[name])
    && (forall i, j | 0 <= i < j < |s.executed| :: s.executed[i].file != s.executed[j].file)
  }

  lemma StepKeepsPlaces(s: State, e: Event)
    requires Inv(s) && Legal(s, e)
    ensures PlacesInv(Step(s, e))
  {
    var s' := Step(s, e);
    assert s'.places.Keys == s'.content.Keys;
    forall name | name in s'.content ensures InOnePlace(s', name) {
      if name in s.content {
        assert InOnePlace(s, name);
        var d :| s.places[name] == {d};
        MoveKeepsOne(s, e, name, d);
      } else {
        assert s'.places[name] == {Queue};
      }
    }
  }

  /** A step moves at most the current file of its own shift, from one directory to one directory. */
  lemma MoveKeepsOne(s: State, e: Event, name: Name, d: Dir)
    requires Legal(s, e) && name in s.places && s.places[name] == {d} && (e.Enqueue? ==> name in s.content)
    ensures name in Step(s, e).places && exists d' :: Step(s, e).places[name] == {d'}
  {
    var s' := Step(s, e);
    if s'.places[name] == s.places[name] {
      assert s'.places[name] == {d};
    } else {
      var src := if e.Act? then Queue else Running;
      var dest :| s'.places[name] == s.places[name] - {src} + {dest};
      assert s'.places[name] == {dest};
    }
  }

  lemma ContentGrows(s: State, e: Event)
    requires Legal(s, e)
    ensures forall name | name in s.content :: name in Step(s, e).content && Step(s, e).content[name] == s.content[name]
  {
  }

  lemma ShiftOkLater(s: State, s': State, shift: Shift)
    requires ShiftOk(s, shift)
    requires forall name | name in s.content :: name in s'.content && s'.content[name] == s.content[name]
    ensures ShiftOk(s', shift)
  {
  }

  lemma RecordedOk(s: State, shift: Shift, status: Status)
    requires ShiftOk(s, shift) && HasFile(shift)
    ensures ShiftOk(s, Recorded(shift, status))
  {
  }

  function ShiftOf(e: Event): Option<ShiftId> {
    if e.Enqueue? then None else Some(e.shift)
  }

  /** A step leaves every shift but its own alone. */
  lemma OthersAlone(s: State, e: Event, id: ShiftId)
    requires Legal(s, e) && ShiftOf(e) != Some(id)
    ensures id in s.shifts <==> id in Step(s, e).shifts
    ensures id in s.shifts ==> Step(s, e).shifts[id] == s.shifts[id]
  {
  }

  lemma MovingShiftOk(s: State, e: Event)
    requires Inv(s) && Legal(s, e) && (e.Act? || e.Route?)
    ensures ShiftOk(s, Step(s, e).shifts[e.shift])
  {
    var shift := s.shifts[e.shift];
    assert ShiftOk(s, shift);
    var status := if e.Act? then StatusFor(shift.stage.verdict, Completes) else StatusOfOutcome(shift.stage.outcome);
    RecordedOk(s, shift, status);
  }

  lemma OtherShiftOk(s: State, e: Event)
    requires Inv(s) && Legal(s, e) && !e.Act? && !e.Route? && !e.Enqueue?
    ensures ShiftOk(s, Step(s, e).shifts[e.shift])
  {
    assert e.shift in s.shifts ==> ShiftOk(s, s.shifts[e.shift]);
  }

  lemma StepKeepsShifts(s: State, e: Event, id: ShiftId)
    requires Inv(s) && Legal(s, e) && id in Step(s, e).shifts
    ensures ShiftOk(Step(s, e), Step(s, e).shifts[id])
  {
    ContentGrows(s, e);
    if ShiftOf(e) != Some(id) {
      OthersAlone(s, e, id);
      assert ShiftOk(s, s.shifts[id]);
    } else if e.Act? || e.Route? {
      MovingShiftOk(s, e);
    } else {
      OtherShiftOk(s, e);
    }
    ShiftOkLater(s, Step(s, e), Step(s, e).shifts[id]);
  }

  // ---------- who holds which file ----------

  /** A claim that appears in a step was made by it, from the queue, on a file judged safe. */
  lemma NewClaim(s: State, e: Event, id: ShiftId, name: Name)
    requires Inv(s) && Legal(s, e) && Holds(Step(s, e), id, name) && !Holds(s, id, name)
    ensures e == Act(id) && Step(s, e).shifts[id].stage.Claimed? && id in s.shifts && HasFile(s.shifts[id])
    ensures name == File(s.shifts[id]) && name in s.places && Queue in s.places[name]
    ensures Step(s, e).places == s.places[name := s.places[name] - {Queue} + {Running}]
    ensures name in s.content && MayRun(s.content[name])
  {
    if ShiftOf(e) != Some(id) {
      OthersAlone(s, e, id);
    } else if e.shift in s.shifts {
      assert ShiftOk(s, s.shifts[id]);
    }
  }

  /** Nobody moves a file that another shift holds. */
  lemma HeldFileStays(s: State, e: Event, id: ShiftId, name: Name)
    requires Inv(s) && Legal(s, e) && Holds(s, id, name) && Holds(Step(s, e), id, name)
    ensures name in Step(s, e).places && Step(s, e).places[name] == {Running}
  {
    assert HoldOk(s, id, name);
    if e.Route? && e.shift != id && HasFile(s.shifts[e.shift]) && File(s.shifts[e.shift]) == name {
      assert Holds(s, e.shift, name);
    }
  }

  lemma StepKeepsHolds(s: State, e: Event, id: ShiftId, name: Name)
    requires Inv(s) && Legal(s, e) && Holds(Step(s, e), id, name)
    ensures HoldOk(Step(s, e), id, name)
  {
    ContentGrows(s, e);
    if Holds(s, id, name) {
      assert HoldOk(s, id, name);
      HeldFileStays(s, e, id, name);
    } else {
      NewClaim(s, e, id, name);
      assert InOnePlace(s, name);
    }
  }

  lemma StepKeepsOneHolder(s: State, e: Event, a: ShiftId, b: ShiftId, name: Name)
    requires Inv(s) && Legal(s, e) && Holds(Step(s, e), a, name) && Holds(Step(s, e), b, name)
    ensures a == b
  {
    assert Holds(s, a, name) ==> HoldOk(s, a, name);
    assert Holds(s, b, name) ==> HoldOk(s, b, name);
    if !Holds(s, a, name) {
      NewClaim(s, e, a, name);
    }
    if !Holds(s, b, name) {
      NewClaim(s, e, b, name);
    }
  }

  lemma NewRun(s: State, e: Event, name: Name)
    requires Inv(s) && Legal(s, e) && Ran(Step(s, e), name) && !Ran(s, name)
    ensures e.Run? && Holds(s, e.shift, name) && Step(s, e).places == s.places
  {
    var s' := Step(s, e);
    assert forall k | 0 <= k < |s.executed| :: s'.executed[k] == s.executed[k];
    assert !e.Run? ==> s'.executed == s.executed;
    var i :| 0 <= i < |s'.executed| && s'.executed[i].file == name;
  }

  /** A file that has been run does not come back to the queue. */
  lemma StepKeepsRan(s: State, e: Event, name: Name)
    requires Inv(s) && Legal(s, e) && Ran(Step(s, e), name)
    ensures var s' := Step(s, e);
      name in s'.content && name in s'.places && MayRun(s'.content[name]) && Queue !in s'.places[name]
  {
    ContentGrows(s, e);
    if Ran(s, name) {
      assert name in s.content;
    } else {
      NewRun(s, e, name);
      assert HoldOk(s, e.shift, name);
    }
  }

  lemma StepKeepsClaimFresh(s: State, e: Event, id: ShiftId, name: Name)
    requires Inv(s) && Legal(s, e) && Holds(Step(s, e), id, name) && Step(s, e).shifts[id].stage.Claimed?
    ensures !Ran(Step(s, e), name)
  {
    if Ran(Step(s, e), name) {
      if Holds(s, id, name) {
        ClaimedBefore(s, e, id, name);
      } else {
        NewClaim(s, e, id, name);
      }
      if !Ran(s, name) {
        NewRun(s, e, name);
      }
    }
  }

  /** A shift that is still `Claimed` after a step was so before it, or has just claimed. */
  lemma ClaimedBefore(s: State, e: Event, id: ShiftId, name: Name)
    requires Inv(s) && Legal(s, e) && Holds(s, id, name) && Holds(Step(s, e), id, name)
         && Step(s, e).shifts[id].stage.Claimed?
    ensures s.shifts[id].stage.Claimed? && !(e.Run? && e.shift == id)
  {
    if ShiftOf(e) != Some(id) {
      OthersAlone(s, e, id);
    }
  }

  lemma StepKeepsRunsApart(s: State, e: Event, i: nat, j: nat)
    requires Inv(s) && Legal(s, e) && i < j < |Step(s, e).executed|
    ensures Step(s, e).executed[i].file != Step(s, e).executed[j].file
  {
    if e.Run? && j == |s.executed| {
      assert Holds(s, e.shift, File(s.shifts[e.shift]));
      assert Ran(s, s.executed[i].file);
    }
  }

  lemma StepKeepsInv(s: State, e: Event)
    requires Inv(s) && Legal(s, e)
    ensures Inv(Step(s, e))
  {
    var s' := Step(s, e);
    StepKeepsPlaces(s, e);
    forall id | id in s'.shifts ensures ShiftOk(s', s'.shifts[id]) {
      StepKeepsShifts(s, e, id);
    }
    forall id, name | Holds(s', id, name) ensures HoldOk(s', id, name) {
      StepKeepsHolds(s, e, id, name);
    }
    forall a, b, name | Holds(s', a, name) && Holds(s', b, name) ensures a == b {
      StepKeepsOneHolder(s, e, a, b, name);
    }
    forall id, name | Holds(s', id, name) && s'.shifts[id].stage.Claimed? ensures !Ran(s', name) {
      StepKeepsClaimFresh(s, e, id, name);
    }
    forall name | Ran(s', name)
      ensures name in s'.content && name in s'.places && MayRun(s'.content[name]) && Queue !in s'.places[name]
    {
      StepKeepsRan(s, e, name);
    }
    forall i, j | 0 <= i < j < |s'.executed| ensures s'.executed[i].file != s'.executed[j].file {
      StepKeepsRunsApart(s, e, i, j);
    }
  }

  lemma {:induction false} RunKeepsInv(run: seq<Event>)
    requires LegalRun(run)
    ensures Inv(Exec(run))
    decreases |run|
  {
    if run != [] {
      RunKeepsInv(run[..|run| - 1]);
      StepKeepsInv(Exec(run[..|run| - 1]), run[|run| - 1]);
    }
  }

  // ---------- over whole runs ----------

  /** Every file ever queued is in exactly one directory at every step. */
  lemma {:induction false} EveryFileInOneDirectory(run: seq<Event>, name: Name)
    requires LegalRun(run)
    ensures name in Exec(run).places <==> name in Exec(run).content
    ensures name in Exec(run).content ==> |Exec(run).places[name]| == 1
  {
    RunKeepsInv(run);
    assert name in Exec(run).content ==> InOnePlace(Exec(run), name);
  }

  /** Only safe graphs are run, each file at most once and so by at most one shift. */
  lemma {:induction false} RunsAreSafeAndUnique(run: seq<Event>)
    requires LegalRun(run)
    ensures var s := Exec(run);
      && (forall i | 0 <= i < |s.executed| :: s.executed[i].file in s.content && MayRun(s.content[s.executed[i].file]))
      && (forall i, j | 0 <= i < j < |s.executed| :: s.executed[i].file != s.executed[j].file)
  {
    RunKeepsInv(run);
    forall i | 0 <= i < |Exec(run).executed|
      ensures Exec(run).executed[i].file in Exec(run).content && MayRun(Exec(run).content[Exec(run).executed[i].file])
    {
      assert Ran(Exec(run), Exec(run).executed[i].file);
    }
  }

  /** Two shifts never have the same file in hand, and routing it always finds it in `running/`. */
  lemma {:induction false} HoldersAreAlone(run: seq<Event>, a: ShiftId, b: ShiftId, name: Name)
    requires LegalRun(run) && Holds(Exec(run), a, name)
    ensures Moved(Exec(run).places, name, Running, Completed).Some?
    ensures Holds(Exec(run), b, name) ==> a == b
  {
    RunKeepsInv(run);
    assert HoldOk(Exec(run), a, name);
  }

  /** A shift that stops reported a prefix of its listing in order; that and what it skipped is all of it. */
  lemma {:induction false} ShiftsAccountForTheirListing(run: seq<Event>, id: ShiftId)
    requires LegalRun(run) && id in Exec(run).shifts
    ensures var shift := Exec(run).shifts[id];
      && |shift.results| <= |shift.listing|
      && (forall i | 0 <= i < |shift.results| :: shift.results[i].file == shift.listing[i])
      && (shift.stage.Done? ==> |shift.results| + shift.stage.skipped == |shift.listing|)
  {
    RunKeepsInv(run);
    assert ShiftOk(Exec(run), Exec(run).shifts[id]);
  }

  /** Where a file with this report is to be found. */
  predicate Filed(status: Status, d: Dir) {
    match status
    case DidComplete => d == Completed
    case DidFail => d == Failed
    case DidBlock => d == Blocked
    case WasUnsafe => d == Rejected
    case WasInvalid => d == Rejected
  }

  predicate InPlaceOf(s: State, record: Record) {
    record.file in s.places && exists d :: s.places[record.file] == {d} && Filed(record.status, d)
  }

  /** What a shift that is no dry run has reported is where the report says. */
  ghost predicate AllFiled(s: State) {
    forall id, i | id in s.shifts && !s.shifts[id].dryRun && 0 <= i < |s.shifts[id].results| ::
      InPlaceOf(s, s.shifts[id].results[i])
  }

  /** A routed file is not moved again: it is neither queued nor held. */
  lemma FiledStays(s: State, e: Event, record: Record)
    requires Inv(s) && Legal(s, e) && InPlaceOf(s, record)
    ensures InPlaceOf(Step(s, e), record)
  {
    var d :| s.places[record.file] == {d} && Filed(record.status, d);
    assert record.file in s.content;
    if e.Route? && HasFile(s.shifts[e.shift]) && File(s.shifts[e.shift]) == record.file {
      assert Holds(s, e.shift, record.file);
    }
    assert Step(s, e).places[record.file] == {d};
  }

  /** The record a step adds, if it adds one, is of the file it has just routed. */
  lemma NewRecordIsFiled(s: State, e: Event, id: ShiftId)
    requires Inv(s) && Legal(s, e) && id in s.shifts && id in Step(s, e).shifts && !s.shifts[id].dryRun
    requires |Step(s, e).shifts[id].results| == |s.shifts[id].results| + 1
    ensures InPlaceOf(Step(s, e), Step(s, e).shifts[id].results[|s.shifts[id].results|])
  {
    var shift := s.shifts[id];
    assert ShiftOf(e) == Some(id);
    var name := File(shift);
    var record := Step(s, e).shifts[id].results[|shift.results|];
    assert name in s.content && InOnePlace(s, name);
    var src := if e.Act? then Queue else Running;
    var dest := Destination(record.status);
    assert s.places[name] == {src};
    assert {src} - {src} + {dest} == {dest};
    assert Step(s, e).places[name] == {dest} && Filed(record.status, dest);
  }

  lemma ResultsGrow(s: State, e: Event, id: ShiftId)
    requires Inv(s) && Legal(s, e) && id in Step(s, e).shifts
    ensures id !in s.shifts ==> Step(s, e).shifts[id].results == []
    ensures id in s.shifts ==>
      var was, now := s.shifts[id], Step(s, e).shifts[id];
      && now.dryRun == was.dryRun
      && (now.results == was.results
          || (|now.results| == |was.results| + 1 && now.results[..|was.results|] == was.results))
  {
    if ShiftOf(e) != Some(id) {
      OthersAlone(s, e, id);
    }
  }

  lemma StepKeepsFiled(s: State, e: Event, id: ShiftId, i: nat)
    requires Inv(s) && Legal(s, e) && AllFiled(s)
    requires id in Step(s, e).shifts && !Step(s, e).shifts[id].dryRun && i < |Step(s, e).shifts[id].results|
    ensures InPlaceOf(Step(s, e), Step(s, e).shifts[id].results[i])
  {
    ResultsGrow(s, e, id);
    if i < |s.shifts[id].results| {
      FiledStays(s, e, s.shifts[id].results[i]);
      assert Step(s, e).shifts[id].results[i] == s.shifts[id].results[i];
    } else {
      NewRecordIsFiled(s, e, id);
    }
  }

  /** In every run, whatever other shifts do and whoever crashes, a file that was reported is in the directory
      its report calls for. */
  lemma {:induction false} ReportedFilesAreFiled(run: seq<Event>)
    requires LegalRun(run)
    ensures AllFiled(Exec(run))
    decreases |run|
  {
    if run != [] {
      var s, e := Exec(run[..|run| - 1]), run[|run| - 1];
      RunKeepsInv(run[..|run| - 1]);
      ReportedFilesAreFiled(run[..|run| - 1]);
      forall id, i | id in Step(s, e).shifts && !Step(s, e).shifts[id].dryRun
        && 0 <= i < |Step(s, e).shifts[id].results|
        ensures InPlaceOf(Step(s, e), Step(s, e).shifts[id].results[i])
      {
        StepKeepsFiled(s, e, id, i);
      }
    }
  }

  // ---------- what a crash leaves behind ----------

  /** In `running/` with no shift working on it. */
  predicate Stranded(s: State, name: Name) {
    name in s.places && s.places[name] == {Running} && forall id | id in s.shifts :: !Holds(s, id, name)
  }

  lemma StrandedStays(s: State, e: Event, name: Name)
    requires Inv(s) && Legal(s, e) && Stranded(s, name)
    ensures Stranded(Step(s, e), name)
  {
    assert name in s.content;
    var s' := Step(s, e);
    forall id | id in s'.shifts ensures !Holds(s', id, name) {
      if Holds(s', id, name) {
        NewClaim(s, e, id, name);
      }
    }
    if e.Route? {
      assert Holds(s, e.shift, File(s.shifts[e.shift]));
    }
  }

  /** A crashed shift's file is never picked up again: only the queue is listed. */
  lemma {:induction false} StrandedForever(run: seq<Event>, n: nat, name: Name)
    requires LegalRun(run) && n <= |run| && LegalRun(run[..n]) && Stranded(Exec(run[..n]), name)
    ensures Stranded(Exec(run), name)
    decreases |run|
  {
    if n == |run| {
      assert run[..n] == run;
    } else {
      var init := run[..|run| - 1];
      assert init[..n] == run[..n];
      StrandedForever(init, n, name);
      RunKeepsInv(init);
      StrandedStays(Exec(init), run[|run| - 1], name);
    }
  }

  /** Crashing strands a file exactly when the shift held it. */
  lemma CrashStrandsExactlyWhen(s: State, id: ShiftId, name: Name)
    requires Inv(s) && Legal(s, Crash(id)) && HasFile(s.shifts[id]) && File(s.shifts[id]) == name
    requires forall other | other in s.shifts && other != id :: !Holds(s, other, name)
    requires name in s.content && !Stranded(s, name)
    ensures Stranded(Step(s, Crash(id)), name) <==> Holds(s, id, name)
  {
    if Holds(s, id, name) {
      assert HoldOk(s, id, name);
    }
  }

  ghost predicate Reached(run: seq<Event>, s: State) {
    LegalRun(run) && Exec(run) == s
  }

  lemma Grow(run: seq<Event>, s: State, e: Event)
    requires Reached(run, s) && Legal(s, e)
    ensures Reached(run + [e], Step(s, e))
  {
    assert (run + [e])[..|run|] == run;
  }

  const FILE := "f"
  const SAFE := Valid(Graph(0, []))

  /** The one file there is, queued, with these shifts at work. */
  function OneFile(shifts: map<ShiftId, Shift>): State {
    State(map[FILE := {Queue}], map[FILE := SAFE], shifts, [])
  }

  lemma {:induction false} FileIsListed() returns (run: seq<Event>)
    ensures Reached(run, OneFile(map[0 := Shift([FILE], [], Ready, false)]))
  {
    Grow([], EMPTY, Enqueue(FILE, SAFE));
    run := [] + [Enqueue(FILE, SAFE)];
    assert Step(EMPTY, Enqueue(FILE, SAFE)) == OneFile(map[]);
    Grow(run, OneFile(map[]), Start(0, [FILE], false));
    run := run + [Start(0, [FILE], false)];
  }

  /** One shift lists the file and judges it safe. */
  lemma {:induction false} FileIsJudged() returns (run: seq<Event>)
    ensures Reached(run, OneFile(map[0 := Shift([FILE], [], Judged(SAFE), false)]))
  {
    run := FileIsListed();
    var s := OneFile(map[0 := Shift([FILE], [], Ready, false)]);
    Grow(run, s, Load(0));
    run := run + [Load(0)];
  }

  /** It claims the file and crashes: the file is stranded. */
  lemma {:induction false} StrandingHappens()
    ensures exists run :: LegalRun(run) && Stranded(Exec(run), FILE)
  {
    var run := FileIsJudged();
    var s := Exec(run);
    Grow(run, s, Act(0));
    var s1 := Step(s, Act(0));
    assert {Queue} - {Queue} + {Running} == {Running};
    Grow(run + [Act(0)], s1, Crash(0));
    assert Stranded(Step(s1, Crash(0)), FILE);
  }
}
