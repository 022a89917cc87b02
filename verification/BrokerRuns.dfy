/** Concurrent `callClass` runs.  Between two awaits a call runs alone, so a step is one call's code from
    one await to the next; the delays of semaphore, bucket and backoff only say when that step happens. */
module BrokerRuns {
  import opened Options
  import opened RateLimit
  import opened AttemptLog
  import opened Broker

  type CallId = nat

  /** What the constructor set up. */
  datatype Setup = Setup(registry: Registry, ready: set<string>, buckets: map<string, Bucket>, startedAt: Time)

  ghost predicate SetupOk(u: Setup) {
    && u.ready == EnabledProviders(u.registry)
    && EachBucketFresh(u.registry, u.buckets, u.startedAt)
    && EachModelHasBucket(u.registry, u.registry.classes.Keys, u.buckets)
  }

  datatype Semaphore = Semaphore(inFlight: int, max: nat)

  /** `Threw` is a call that left its attempt loop by an exception. */
  datatype Phase = Queueing | Polling | Requesting | Finished | Threw

  datatype Call = Call(
    taskClass: string, candidates: seq<Model>, maxAttempts: nat,
    phase: Phase, at: Position, attemptNumber: nat, attempts: seq<Record>, ok: bool)

  /** Between taking and giving back the semaphore. */
  predicate Inside(c: Call) {
    c.phase == Polling || c.phase == Requesting
  }

  /** `ops` and `requests` are history: per model key, what was done to the bucket and when requests started. */
  datatype State = State(
    buckets: map<string, Bucket>, semaphores: map<string, Semaphore>, calls: map<CallId, Call>,
    ops: map<string, seq<BucketOp>>, requests: map<string, seq<Time>>, clock: Time)

  datatype Event =
    | Arrive(id: CallId, taskClass: string, modelOverride: Option<string>, maxAttempts: nat)
    | Enter(id: CallId)
    | Poll(id: CallId)
    | Respond(id: CallId, response: Response)
    | Throw(id: CallId, after: Option<Response>)

  datatype Timed = At(now: Time, event: Event)

  function Start(u: Setup): State {
    State(u.buckets, map[], map[],
          map key | key in u.buckets :: [], map key | key in u.buckets :: [], u.startedAt)
  }

  /** The code from the loop heads to the next token wait, or to the end of the call. */
  function Seek(ready: set<string>, c: Call): (r: Call)
    requires c.at.candidate <= |c.candidates|
    ensures r.taskClass == c.taskClass && r.candidates == c.candidates && r.maxAttempts == c.maxAttempts
    ensures r.phase == Finished || r.phase == Polling
    decreases |c.candidates| - c.at.candidate
  {
    var next := Position(c.at.candidate + 1, 0);
    if c.at.candidate == |c.candidates| then c.(phase := Finished, ok := false)
    else if c.at.perModel >= c.maxAttempts then Seek(ready, c.(at := next))
    else if c.attemptNumber + 1 > c.maxAttempts * |c.candidates| then
      Seek(ready, c.(attemptNumber := c.attemptNumber + 1, at := next))
    else if c.candidates[c.at.candidate].provider !in ready then
      var key := ModelKey(c.candidates[c.at.candidate]);
      var r := Record(key, c.attemptNumber + 1, 0, false, c.at.candidate, c.at.perModel);
      Seek(ready, c.(attemptNumber := c.attemptNumber + 1, attempts := c.attempts + [r], at := next))
    else c.(phase := Polling, attemptNumber := c.attemptNumber + 1)
  }

  function CurrentKey(c: Call): string
    requires c.at.candidate < |c.candidates|
  {
    ModelKey(c.candidates[c.at.candidate])
  }

  /** The record a response makes. */
  function RecordOf(c: Call, response: Response): Record
    requires c.at.candidate < |c.candidates|
  {
    Record(CurrentKey(c), c.attemptNumber, response.status, response.ok, c.at.candidate, c.at.perModel)
  }

  function Answer(ready: set<string>, c: Call, response: Response): (r: Call)
    requires c.at.candidate < |c.candidates|
    ensures r.taskClass == c.taskClass
  {
    var record := RecordOf(c, response);
    var longer := c.(attempts := c.attempts + [record]);
    if response.ok then longer.(phase := Finished, ok := true)
    else Seek(ready, longer.(at := Onward(record, c.maxAttempts)))
  }

  predicate Legal(s: State, t: Timed) {
    && s.clock <= t.now
    && match t.event
       case Arrive(id, _, _, _) => id !in s.calls
       case Enter(id) =>
         && id in s.calls && s.calls[id].phase == Queueing
         && s.calls[id].at.candidate <= |s.calls[id].candidates|
         && s.calls[id].taskClass in s.semaphores
         && s.semaphores[s.calls[id].taskClass].inFlight < s.semaphores[s.calls[id].taskClass].max
       case Poll(id) =>
         id in s.calls && s.calls[id].phase == Polling && s.calls[id].at.candidate < |s.calls[id].candidates|
       case Respond(id, _) =>
         && id in s.calls && s.calls[id].phase == Requesting && s.calls[id].at.candidate < |s.calls[id].candidates|
         && s.calls[id].taskClass in s.semaphores
       case Throw(id, after) =>
         && id in s.calls && s.calls[id].phase == Requesting && s.calls[id].at.candidate < |s.calls[id].candidates|
         && s.calls[id].taskClass in s.semaphores
         && (after.Some? ==> after.value.ok || after.value.status == 429)
  }

  /** `sem.inFlight += 1` on entry to the attempt loop. */
  function Taken(sems: map<string, Semaphore>, taskClass: string): map<string, Semaphore>
    requires taskClass in sems
  {
    sems[taskClass := sems[taskClass].(inFlight := sems[taskClass].inFlight + 1)]
  }

  /** `sem.inFlight -= 1` in the finally block, however the loop was left. */
  function GivenBack(sems: map<string, Semaphore>, taskClass: string): map<string, Semaphore>
    requires taskClass in sems
  {
    sems[taskClass := sems[taskClass].(inFlight := sems[taskClass].inFlight - 1)]
  }

  /** The semaphore after code of a call that is inside its loop: given back if that code left it. */
  function AfterCode(sems: map<string, Semaphore>, c: Call): map<string, Semaphore>
    requires c.taskClass in sems
  {
    if c.phase == Finished || c.phase == Threw then GivenBack(sems, c.taskClass) else sems
  }

  /** The code after a response: a 429 empties the bucket before anything else. */
  function Penalize(s: State, c: Call, response: Response, now: Time): State
    requires c.at.candidate < |c.candidates|
  {
    if !response.ok && response.status == 429 && Tracked(s, CurrentKey(c))
    then OpAt(s, CurrentKey(c), Penalty(now, if response.retryAfterMs.Some? then response.retryAfterMs.value else 1000))
    else s
  }

  /** What an exception leaves of a call: without a response the request itself failed; after one, its record
      was pushed and lifting the body or logging the 429 failed. */
  function Thrown(c: Call, after: Option<Response>): Call
    requires c.at.candidate < |c.candidates|
  {
    c.(phase := Threw, attempts := if after.Some? then c.attempts + [RecordOf(c, after.value)] else c.attempts)
  }

  /** What those updates add up to; only proofs use it. */
  function Recount(sems: map<string, Semaphore>, before: Call, after: Call): map<string, Semaphore>
    requires before.taskClass in sems
  {
    var sem := sems[before.taskClass];
    var delta := (if Inside(after) then 1 else 0) - (if Inside(before) then 1 else 0);
    sems[before.taskClass := sem.(inFlight := sem.inFlight + delta)]
  }

  function OpAt(s: State, key: string, op: BucketOp): State
    requires key in s.buckets && key in s.ops && key in s.requests
  {
    s.(buckets := s.buckets[key := ApplyOp(s.buckets[key], op)],
       ops := s.ops[key := s.ops[key] + [op]],
       requests := if Grants(s.buckets[key], op) then s.requests[key := s.requests[key] + [op.at]] else s.requests)
  }

  predicate Tracked(s: State, key: string) {
    key in s.buckets && key in s.ops && key in s.requests
  }

  function Arrived(u: Setup, taskClass: string, modelOverride: Option<string>, maxAttempts: nat): Call {
    var candidates := Candidates(u.registry, taskClass, modelOverride);
    var phase := if candidates == [] then Finished else Queueing;
    Call(taskClass, candidates, maxAttempts, phase, Position(0, 0), 0, [], false)
  }

  function Step(u: Setup, s: State, t: Timed): State
    requires Legal(s, t)
  {
    var next := match t.event
      case Arrive(id, taskClass, modelOverride, maxAttempts) =>
        var c := Arrived(u, taskClass, modelOverride, maxAttempts);
        var known := c.phase == Finished || taskClass in s.semaphores || taskClass !in u.registry.classes;
        s.(calls := s.calls[id := c],
           semaphores :=
             if known then s.semaphores
             else s.semaphores[taskClass := Semaphore(0, u.registry.classes[taskClass].maxParallel)])
      case Enter(id) =>
        var c := Seek(u.ready, s.calls[id]);
        s.(calls := s.calls[id := c], semaphores := AfterCode(Taken(s.semaphores, c.taskClass), c))
      case Poll(id) =>
        var key := CurrentKey(s.calls[id]);
        if !Tracked(s, key) then s else
          var granted := Grants(s.buckets[key], BucketOp.Poll(t.now));
          OpAt(s, key, BucketOp.Poll(t.now)).(
            calls := if granted then s.calls[id := s.calls[id].(phase := Requesting)] else s.calls)
      case Respond(id, response) =>
        var c := Answer(u.ready, s.calls[id], response);
        Penalize(s, s.calls[id], response, t.now).(calls := s.calls[id := c], semaphores := AfterCode(s.semaphores, c))
      case Throw(id, after) =>
        var c := Thrown(s.calls[id], after);
        var s1 := if after.Some? then Penalize(s, s.calls[id], after.value, t.now) else s;
        s1.(calls := s.calls[id := c], semaphores := AfterCode(s.semaphores, c));
    next.(clock := t.now)
  }

  ghost predicate LegalRun(u: Setup, run: seq<Timed>)
    decreases |run|, 0
  {
    run == [] || (LegalRun(u, run[..|run| - 1]) && Legal(Exec(u, run[..|run| - 1]), run[|run| - 1]))
  }

  ghost function Exec(u: Setup, run: seq<Timed>): State
    requires LegalRun(u, run)
    decreases |run|, 1
  {
    if run == [] then Start(u) else Step(u, Exec(u, run[..|run| - 1]), run[|run| - 1])
  }

  // ---------- invariants ----------

  ghost predicate KeyInv(u: Setup, s: State, key: string) {
    && key in u.buckets && Tracked(s, key)
    && s.buckets[key] == AfterOps(u.buckets[key], s.ops[key])
    && s.requests[key] == GrantTimes(u.buckets[key], s.ops[key])
    && Chronological(s.ops[key])
    && (forall i | 0 <= i < |s.ops[key]| :: s.ops[key][i].at <= s.clock)
  }

  ghost predicate BucketsInv(u: Setup, s: State) {
    && s.buckets.Keys == u.buckets.Keys
    && forall key | key in u.buckets :: KeyInv(u, s, key)
  }

  ghost predicate CallInv(u: Setup, c: Call) {
    && (forall m | m in c.candidates :: m.provider in u.ready && ModelKey(m) in u.buckets)
    && match c.phase
       case Queueing => c.attempts == [] && c.attemptNumber == 0 && c.at == Position(0, 0)
       case Finished =>
         if c.ok then Succeeded(c.attempts, c.candidates, c.maxAttempts)
         else Failed(c.attempts, c.candidates, c.maxAttempts)
       case Threw => Orderly(c.attempts, c.candidates, c.maxAttempts)
       case _ =>
         && InProgress(c.attempts, c.candidates, c.maxAttempts, c.at)
         && c.at.candidate < |c.candidates| && c.at.perModel < c.maxAttempts
         && c.attemptNumber == |c.attempts| + 1
  }

  function InsideIds(calls: map<CallId, Call>, taskClass: string): set<CallId> {
    set id | id in calls && calls[id].taskClass == taskClass && Inside(calls[id])
  }

  ghost predicate SemaphoresInv(u: Setup, s: State) {
    && (forall taskClass | taskClass in s.semaphores ::
          && taskClass in u.registry.classes
          && s.semaphores[taskClass].inFlight == |InsideIds(s.calls, taskClass)|
          && s.semaphores[taskClass].inFlight <= s.semaphores[taskClass].max
          && s.semaphores[taskClass].max == u.registry.classes[taskClass].maxParallel)
    && (forall id | id in s.calls && s.calls[id].phase != Finished :: s.calls[id].taskClass in s.semaphores)
  }

  ghost predicate Inv(u: Setup, s: State) {
    && SetupOk(u)
    && BucketsInv(u, s)
    && (forall id | id in s.calls :: CallInv(u, s.calls[id]))
    && SemaphoresInv(u, s)
  }

  lemma OpKeepsKey(u: Setup, s: State, key: string, op: BucketOp, now: Time)
    requires KeyInv(u, s, key) && s.clock <= now && op.at == now
    ensures KeyInv(u, OpAt(s, key, op).(clock := now), key)
  {
    assert (s.ops[key] + [op])[..|s.ops[key]|] == s.ops[key];
    assert s.requests[key] + [] == s.requests[key];
  }

  lemma OpKeeps(u: Setup, s: State, key: string, op: BucketOp, now: Time)
    requires Inv(u, s) && key in u.buckets && s.clock <= now && op.at == now && Tracked(s, key)
    ensures Inv(u, OpAt(s, key, op).(clock := now))
  {
    var s' := OpAt(s, key, op).(clock := now);
    forall k | k in u.buckets ensures KeyInv(u, s', k) {
      assert KeyInv(u, s, k);
      if k == key {
        OpKeepsKey(u, s, key, op, now);
      }
    }
  }

  lemma TickKeeps(u: Setup, s: State, now: Time)
    requires Inv(u, s) && s.clock <= now
    ensures Inv(u, s.(clock := now))
  {
    forall k | k in u.buckets ensures KeyInv(u, s.(clock := now), k) {
      assert KeyInv(u, s, k);
    }
  }

  lemma {:induction false} SeekFromNothing(ready: set<string>, c: Call)
    requires c.maxAttempts == 0 && c.attempts == [] && c.at.candidate <= |c.candidates| && c.at.perModel == 0
    ensures var r := Seek(ready, c); r.phase == Finished && !r.ok && r.attempts == []
    decreases |c.candidates| - c.at.candidate
  {
    if c.at.candidate < |c.candidates| {
      SeekFromNothing(ready, c.(at := Position(c.at.candidate + 1, 0)));
    }
  }

  /** With every provider ready, the loops go straight to the next attempt or end the call. */
  lemma SeekKeeps(u: Setup, c: Call)
    requires forall m | m in c.candidates :: m.provider in u.ready && ModelKey(m) in u.buckets
    requires InProgress(c.attempts, c.candidates, c.maxAttempts, c.at) && c.attemptNumber == |c.attempts|
    ensures c.at.candidate <= |c.candidates|
    ensures CallInv(u, Seek(u.ready, c))
  {
    if c.maxAttempts == 0 {
      SeekFromNothing(u.ready, c);
    } else if c.at.candidate < |c.candidates| {
      GuardNeverFires(c.attempts, c.candidates, c.maxAttempts, c.at);
    }
  }

  lemma AnswerKeeps(u: Setup, c: Call, response: Response)
    requires CallInv(u, c) && c.phase == Requesting
    ensures CallInv(u, Answer(u.ready, c, response))
  {
    var record := RecordOf(c, response);
    Push(c.attempts, c.candidates, c.maxAttempts, c.at, record);
    if !response.ok {
      SeekKeeps(u, c.(attempts := c.attempts + [record], at := Onward(record, c.maxAttempts)));
    }
  }

  lemma ArrivedInv(u: Setup, taskClass: string, modelOverride: Option<string>, maxAttempts: nat)
    requires SetupOk(u)
    ensures CallInv(u, Arrived(u, taskClass, modelOverride, maxAttempts))
    ensures var c := Arrived(u, taskClass, modelOverride, maxAttempts);
      c.phase == Queueing ==> taskClass in u.registry.classes
  {
    var c := Arrived(u, taskClass, modelOverride, maxAttempts);
    forall m | m in c.candidates ensures m.provider in u.ready && ModelKey(m) in u.buckets {
      assert taskClass in u.registry.classes.Keys;
    }
    if c.candidates != [] {
      assert c.candidates[0] in c.candidates;
    }
  }

  lemma MoveKeepsCount(calls: map<CallId, Call>, id: CallId, c: Call, taskClass: string)
    requires id in calls ==> calls[id].taskClass == c.taskClass
    ensures |InsideIds(calls[id := c], taskClass)| == |InsideIds(calls, taskClass)|
         + (if c.taskClass != taskClass then 0
            else (if Inside(c) then 1 else 0) - (if id in calls && Inside(calls[id]) then 1 else 0))
  {
    var before, after := InsideIds(calls, taskClass), InsideIds(calls[id := c], taskClass);
    if c.taskClass == taskClass && Inside(c) {
      assert after == before + {id};
    } else {
      assert after == before - {id};
    }
  }

  /** One call changes, and its class's semaphore with it. */
  function MoveCall(s: State, id: CallId, c: Call): State
    requires id in s.calls && s.calls[id].taskClass in s.semaphores
  {
    s.(calls := s.calls[id := c], semaphores := Recount(s.semaphores, s.calls[id], c))
  }

  lemma MoveKeepsSemaphores(u: Setup, s: State, id: CallId, c: Call)
    requires SemaphoresInv(u, s) && id in s.calls && s.calls[id].taskClass == c.taskClass && c.taskClass in s.semaphores
    requires Inside(c) && !Inside(s.calls[id]) ==> s.semaphores[c.taskClass].inFlight < s.semaphores[c.taskClass].max
    ensures SemaphoresInv(u, MoveCall(s, id, c))
  {
    forall taskClass | taskClass in s.semaphores
      ensures |InsideIds(s.calls[id := c], taskClass)| == |InsideIds(s.calls, taskClass)|
         + (if c.taskClass != taskClass then 0
            else (if Inside(c) then 1 else 0) - (if Inside(s.calls[id]) then 1 else 0))
    {
      MoveKeepsCount(s.calls, id, c, taskClass);
    }
  }

  lemma MoveKeeps(u: Setup, s: State, id: CallId, c: Call)
    requires Inv(u, s) && id in s.calls && s.calls[id].taskClass == c.taskClass && c.taskClass in s.semaphores
    requires Inside(c) && !Inside(s.calls[id]) ==> s.semaphores[c.taskClass].inFlight < s.semaphores[c.taskClass].max
    requires CallInv(u, c)
    ensures Inv(u, MoveCall(s, id, c))
  {
    MoveKeepsSemaphores(u, s, id, c);
    var s' := MoveCall(s, id, c);
    forall k | k in u.buckets ensures KeyInv(u, s', k) {
      assert KeyInv(u, s, k);
    }
  }

  lemma ArriveKeepsSemaphores(u: Setup, s: State, t: Timed)
    requires SetupOk(u) && SemaphoresInv(u, s) && Legal(s, t) && t.event.Arrive?
    ensures SemaphoresInv(u, Step(u, s, t))
  {
    var id, taskClass := t.event.id, t.event.taskClass;
    var c := Arrived(u, taskClass, t.event.modelOverride, t.event.maxAttempts);
    ArrivedInv(u, taskClass, t.event.modelOverride, t.event.maxAttempts);
    var s' := Step(u, s, t);
    forall name | name in s'.semaphores ensures |InsideIds(s'.calls, name)| == |InsideIds(s.calls, name)| {
      MoveKeepsCount(s.calls, id, c, name);
    }
    if taskClass !in s.semaphores {
      assert InsideIds(s.calls, taskClass) == {};
    }
  }

  lemma ArriveKeeps(u: Setup, s: State, t: Timed)
    requires Inv(u, s) && Legal(s, t) && t.event.Arrive?
    ensures Inv(u, Step(u, s, t))
  {
    ArrivedInv(u, t.event.taskClass, t.event.modelOverride, t.event.maxAttempts);
    ArriveKeepsSemaphores(u, s, t);
    var s' := Step(u, s, t);
    forall k | k in u.buckets ensures KeyInv(u, s', k) {
      assert KeyInv(u, s, k);
    }
  }

  lemma EnterShape(u: Setup, s: State, t: Timed)
    requires Legal(s, t) && t.event.Enter?
    ensures Step(u, s, t) == MoveCall(s, t.event.id, Seek(u.ready, s.calls[t.event.id])).(clock := t.now)
  {
    var c := Seek(u.ready, s.calls[t.event.id]);
    assert AfterCode(Taken(s.semaphores, c.taskClass), c) == Recount(s.semaphores, s.calls[t.event.id], c);
  }

  lemma LeaveShape(s: State, id: CallId, c: Call)
    requires id in s.calls && Inside(s.calls[id]) && c.taskClass == s.calls[id].taskClass && c.taskClass in s.semaphores
    requires c.phase != Queueing
    ensures AfterCode(s.semaphores, c) == Recount(s.semaphores, s.calls[id], c)
  {
  }

  lemma EnterKeeps(u: Setup, s: State, t: Timed)
    requires Inv(u, s) && Legal(s, t) && t.event.Enter?
    ensures Inv(u, Step(u, s, t))
  {
    var c := s.calls[t.event.id];
    assert CallInv(u, c);
    SeekKeeps(u, c);
    MoveKeeps(u, s, t.event.id, Seek(u.ready, c));
    TickKeeps(u, MoveCall(s, t.event.id, Seek(u.ready, c)), t.now);
    EnterShape(u, s, t);
  }

  lemma AtWork(u: Setup, s: State, id: CallId)
    requires Inv(u, s) && id in s.calls && Inside(s.calls[id])
    ensures var c := s.calls[id];
      && c.at.candidate < |c.candidates|
      && c.candidates[c.at.candidate].provider in u.ready
      && CurrentKey(c) in u.buckets && Tracked(s, CurrentKey(c))
      && c.taskClass in s.semaphores
  {
    var c := s.calls[id];
    assert CallInv(u, c);
    assert c.candidates[c.at.candidate] in c.candidates;
    assert KeyInv(u, s, CurrentKey(c));
  }

  lemma PollShape(u: Setup, s: State, t: Timed)
    requires Legal(s, t) && t.event.Poll? && Tracked(s, CurrentKey(s.calls[t.event.id]))
    requires s.calls[t.event.id].taskClass in s.semaphores
    ensures var id, key, op := t.event.id, CurrentKey(s.calls[t.event.id]), BucketOp.Poll(t.now);
      Step(u, s, t) == MoveCall(OpAt(s, key, op).(clock := t.now), id,
                                if Grants(s.buckets[key], op) then s.calls[id].(phase := Requesting) else s.calls[id])
  {
    assert s.calls[t.event.id := s.calls[t.event.id]] == s.calls;
    assert s.semaphores[s.calls[t.event.id].taskClass := s.semaphores[s.calls[t.event.id].taskClass]] == s.semaphores;
  }

  lemma PollKeeps(u: Setup, s: State, t: Timed)
    requires Inv(u, s) && Legal(s, t) && t.event.Poll?
    ensures Inv(u, Step(u, s, t))
  {
    var id, op := t.event.id, BucketOp.Poll(t.now);
    AtWork(u, s, id);
    var c, key := s.calls[id], CurrentKey(s.calls[id]);
    assert CallInv(u, c);
    OpKeeps(u, s, key, op, t.now);
    var moved := if Grants(s.buckets[key], op) then c.(phase := Requesting) else c;
    MoveKeeps(u, OpAt(s, key, op).(clock := t.now), id, moved);
    PollShape(u, s, t);
  }

  lemma PenalizeKeeps(u: Setup, s: State, id: CallId, response: Response, now: Time)
    requires Inv(u, s) && s.clock <= now && id in s.calls && Inside(s.calls[id])
    requires s.calls[id].at.candidate < |s.calls[id].candidates|
    ensures Inv(u, Penalize(s, s.calls[id], response, now).(clock := now))
  {
    AtWork(u, s, id);
    if !response.ok && response.status == 429 {
      OpKeeps(u, s, CurrentKey(s.calls[id]),
              Penalty(now, if response.retryAfterMs.Some? then response.retryAfterMs.value else 1000), now);
    } else {
      TickKeeps(u, s, now);
    }
  }

  lemma RespondKeeps(u: Setup, s: State, t: Timed)
    requires Inv(u, s) && Legal(s, t) && t.event.Respond?
    ensures Inv(u, Step(u, s, t))
  {
    var id, response := t.event.id, t.event.response;
    var c := Answer(u.ready, s.calls[id], response);
    assert CallInv(u, s.calls[id]);
    AnswerKeeps(u, s.calls[id], response);
    PenalizeKeeps(u, s, id, response, t.now);
    MoveKeeps(u, Penalize(s, s.calls[id], response, t.now).(clock := t.now), id, c);
    RespondStep(u, s, t);
  }

  /** An answer is a penalty and a move of the call. */
  lemma RespondStep(u: Setup, s: State, t: Timed)
    requires Inv(u, s) && Legal(s, t) && t.event.Respond?
    ensures var id, response := t.event.id, t.event.response;
      Step(u, s, t) == MoveCall(Penalize(s, s.calls[id], response, t.now).(clock := t.now), id,
                                Answer(u.ready, s.calls[id], response))
  {
    LeaveShape(s, t.event.id, Answer(u.ready, s.calls[t.event.id], t.event.response));
  }

  lemma ThrownKeeps(u: Setup, c: Call, after: Option<Response>)
    requires CallInv(u, c) && c.phase == Requesting
    ensures CallInv(u, Thrown(c, after))
  {
    if after.Some? {
      Push(c.attempts, c.candidates, c.maxAttempts, c.at, RecordOf(c, after.value));
    }
  }

  lemma ThrowKeeps(u: Setup, s: State, t: Timed)
    requires Inv(u, s) && Legal(s, t) && t.event.Throw?
    ensures Inv(u, Step(u, s, t))
  {
    var id, after := t.event.id, t.event.after;
    var c := Thrown(s.calls[id], after);
    assert CallInv(u, s.calls[id]);
    ThrownKeeps(u, s.calls[id], after);
    LeaveShape(s, id, c);
    if after.Some? {
      PenalizeKeeps(u, s, id, after.value, t.now);
      MoveKeeps(u, Penalize(s, s.calls[id], after.value, t.now).(clock := t.now), id, c);
    } else {
      TickKeeps(u, s, t.now);
      MoveKeeps(u, s.(clock := t.now), id, c);
    }
  }

  lemma StepKeepsInv(u: Setup, s: State, t: Timed)
    requires Inv(u, s) && Legal(s, t)
    ensures Inv(u, Step(u, s, t))
  {
    match t.event
    case Arrive(_, _, _, _) => ArriveKeeps(u, s, t);
    case Enter(_) => EnterKeeps(u, s, t);
    case Poll(_) => PollKeeps(u, s, t);
    case Respond(_, _) => RespondKeeps(u, s, t);
    case Throw(_, _) => ThrowKeeps(u, s, t);
  }

  lemma {:induction false} RunKeepsInv(u: Setup, run: seq<Timed>)
    requires SetupOk(u) && LegalRun(u, run)
    ensures Inv(u, Exec(u, run))
    decreases |run|
  {
    if run == [] {
      forall key | key in u.buckets ensures KeyInv(u, Start(u), key) {
      }
    } else {
      RunKeepsInv(u, run[..|run| - 1]);
      StepKeepsInv(u, Exec(u, run[..|run| - 1]), run[|run| - 1]);
    }
  }

  // ---------- theorems ----------

  /** However many calls interleave and however many 429s arrive, the requests recorded for one model key in a
      window stay within its bucket's size plus its rate over the window. */
  lemma {:induction false} HistoryStaysWithinRate(u: Setup, run: seq<Timed>, key: string, from: Time, to: Time)
    requires SetupOk(u) && LegalRun(u, run) && key in u.buckets && from <= to
    ensures key in Exec(u, run).requests
    ensures CountIn(Exec(u, run).requests[key], from, to) as real
         <= Supply(u.buckets[key].rpm, u.buckets[key].capacity, to - from)
  {
    RunKeepsInv(u, run);
    KeyStaysWithinRate(u, Exec(u, run), key, from, to);
  }

  lemma KeyStaysWithinRate(u: Setup, s: State, key: string, from: Time, to: Time)
    requires KeyInv(u, s, key) && EachBucketFresh(u.registry, u.buckets, u.startedAt) && from <= to
    ensures CountIn(s.requests[key], from, to) as real
         <= Supply(u.buckets[key].rpm, u.buckets[key].capacity, to - from)
  {
    var name, m :| FreshFor(u.registry, name, m, key, u.buckets[key], u.startedAt);
    var provider := u.registry.providers[m.provider];
    FreshIsSound(provider.defaultRpm, provider.defaultMaxBurst, u.startedAt);
    WindowBound(u.buckets[key], s.ops[key], from, to);
  }

  /** A class never has more calls between entry and exit than its policy allows, and the counter is exact:
      every entry added one and every exit, by return or by exception, took one away. */
  lemma {:induction false} SemaphoreIsExact(u: Setup, run: seq<Timed>, taskClass: string)
    requires SetupOk(u) && LegalRun(u, run)
    ensures var s := Exec(u, run);
      && (taskClass in s.semaphores ==>
            && taskClass in u.registry.classes
            && s.semaphores[taskClass].inFlight == |InsideIds(s.calls, taskClass)|
            && |InsideIds(s.calls, taskClass)| <= u.registry.classes[taskClass].maxParallel)
      && (taskClass !in s.semaphores ==> InsideIds(s.calls, taskClass) == {})
  {
    RunKeepsInv(u, run);
  }

  /** In a fixed environment every model a call may try has its provider's client and its bucket, so
      neither of the two error branches is ever taken. */
  lemma {:induction false} NoCallMissesProviderOrBucket(u: Setup, run: seq<Timed>, id: CallId)
    requires SetupOk(u) && LegalRun(u, run) && id in Exec(u, run).calls
    ensures var s := Exec(u, run);
      var c := s.calls[id];
      && (forall m | m in c.candidates :: m.provider in u.ready && ModelKey(m) in s.buckets)
      && (Inside(c) ==> c.at.candidate < |c.candidates|)
  {
    RunKeepsInv(u, run);
    assert CallInv(u, Exec(u, run).calls[id]);
  }

  /** In every interleaving the log of a finished call is orderly and ends as its result says; one that threw
      leaves an orderly log. */
  lemma {:induction false} FinishedLogsMeetTheSpec(u: Setup, run: seq<Timed>, id: CallId)
    requires SetupOk(u) && LegalRun(u, run) && id in Exec(u, run).calls
    ensures var c := Exec(u, run).calls[id];
      && (c.phase == Finished && c.ok ==> Succeeded(c.attempts, c.candidates, c.maxAttempts))
      && (c.phase == Finished && !c.ok ==> Failed(c.attempts, c.candidates, c.maxAttempts))
      && (c.phase == Threw ==> Orderly(c.attempts, c.candidates, c.maxAttempts))
  {
    RunKeepsInv(u, run);
    assert CallInv(u, Exec(u, run).calls[id]);
  }
}
