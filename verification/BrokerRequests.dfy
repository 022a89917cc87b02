/** The requests that calls start, read off the run itself: which polls start one, how many start in a window,
    and that none starts while a 429's pause is on. */
module BrokerRequests {
  import opened Options
  import opened RateLimit
  import opened AttemptLog
  import opened Broker
  import opened BrokerRuns

  /** The call works on the model of that key. */
  predicate WorksOn(c: Call, key: string) {
    c.at.candidate < |c.candidates|
    && c.candidates[c.at.candidate].provider + ":" + c.candidates[c.at.candidate].model == key
  }

  /** Between two states the call went on to request the model of that key. */
  predicate Starts(before: State, after: State, id: CallId, key: string) {
    && id in after.calls && after.calls[id].phase == Requesting && WorksOn(after.calls[id], key)
    && (id in before.calls ==> before.calls[id].phase != Requesting)
  }

  /** When requests for a model key were started, in order. */
  ghost function Started(u: Setup, run: seq<Timed>, key: string): seq<Time>
    requires LegalRun(u, run)
    decreases |run|
  {
    if run == [] then [] else
      var n := |run| - 1;
      Started(u, run[..n], key)
      + (if Starts(Exec(u, run[..n]), Exec(u, run), run[n].event.id, key) then [run[n].now] else [])
  }

  lemma PenaltyStartsNothing(s: State, c: Call, response: Response, now: Time)
    requires c.at.candidate < |c.candidates|
    ensures Penalize(s, c, response, now).requests == s.requests
  {
  }

  lemma PollStarts(u: Setup, s: State, t: Timed, key: string)
    requires Legal(s, t) && t.event.Poll? && key in s.requests && Tracked(s, CurrentKey(s.calls[t.event.id]))
    ensures key in Step(u, s, t).requests
    ensures Step(u, s, t).requests[key]
         == s.requests[key] + (if Starts(s, Step(u, s, t), t.event.id, key) then [t.now] else [])
  {
  }

  lemma OtherStepsStartNothing(u: Setup, s: State, t: Timed, key: string)
    requires Legal(s, t) && !t.event.Poll?
    ensures Step(u, s, t).requests == s.requests && !Starts(s, Step(u, s, t), t.event.id, key)
  {
    match t.event
    case Respond(id, response) => PenaltyStartsNothing(s, s.calls[id], response, t.now);
    case Throw(id, after) =>
      if after.Some? {
        PenaltyStartsNothing(s, s.calls[id], after.value, t.now);
      }
    case _ =>
  }

  lemma StepStarts(u: Setup, s: State, t: Timed, key: string)
    requires Inv(u, s) && Legal(s, t) && key in u.buckets
    ensures key in s.requests && key in Step(u, s, t).requests
    ensures Step(u, s, t).requests[key]
         == s.requests[key] + (if Starts(s, Step(u, s, t), t.event.id, key) then [t.now] else [])
  {
    assert KeyInv(u, s, key);
    if t.event.Poll? {
      AtWork(u, s, t.event.id);
      PollStarts(u, s, t, key);
    } else {
      OtherStepsStartNothing(u, s, t, key);
      assert s.requests[key] + [] == s.requests[key];
    }
  }

  /** The history of requests is what the calls did. */
  lemma {:induction false} RequestsAreStarted(u: Setup, run: seq<Timed>, key: string)
    requires SetupOk(u) && LegalRun(u, run) && key in u.buckets
    ensures key in Exec(u, run).requests && Exec(u, run).requests[key] == Started(u, run, key)
    decreases |run|
  {
    if run != [] {
      var n := |run| - 1;
      RequestsAreStarted(u, run[..n], key);
      RunKeepsInv(u, run[..n]);
      StepStarts(u, Exec(u, run[..n]), run[n], key);
    }
  }

  lemma {:induction false} OnlyTrackedStart(u: Setup, run: seq<Timed>, key: string)
    requires SetupOk(u) && LegalRun(u, run) && key !in u.buckets
    ensures Started(u, run, key) == []
    decreases |run|
  {
    if run != [] {
      var id, s := run[|run| - 1].event.id, Exec(u, run);
      OnlyTrackedStart(u, run[..|run| - 1], key);
      RunKeepsInv(u, run);
      if id in s.calls && s.calls[id].phase == Requesting {
        AtWork(u, s, id);
      }
    }
  }

  /** The provider's burst, or its rate if it sets none, plus what its rate allows in `ms` milliseconds. */
  function Allowance(p: Provider, ms: int): real {
    (match p.defaultMaxBurst case Some(burst) => burst case None => p.defaultRpm) + Added(p.defaultRpm, ms)
  }

  /** The model is in some class, has the key, and its provider serves. */
  predicate Configured(reg: Registry, name: string, m: Model, key: string) {
    && name in reg.classes && m in reg.classes[name].models && Serves(reg, m.provider)
    && key == m.provider + ":" + m.model
  }

  /** However many calls interleave and however many 429s arrive, the requests started for a model key in a
      window stay within the burst of its provider plus the provider's rate over the window; keys of no served
      model start none. */
  lemma {:induction false} RequestsStayWithinRate(u: Setup, run: seq<Timed>, key: string, from: Time, to: Time)
    requires SetupOk(u) && LegalRun(u, run) && from <= to
    ensures Started(u, run, key) == []
      || exists name, m :: Configured(u.registry, name, m, key)
           && CountIn(Started(u, run, key), from, to) as real <= Allowance(u.registry.providers[m.provider], to - from)
  {
    if key in u.buckets {
      RequestsAreStarted(u, run, key);
      HistoryStaysWithinRate(u, run, key, from, to);
      FreshBucketsAreFull(u.registry, u.buckets, u.startedAt);
      var name, m :| FullFor(u.registry, name, m, key, u.buckets[key], u.startedAt);
      assert Configured(u.registry, name, m, key);
    } else {
      OnlyTrackedStart(u, run, key);
    }
  }

  // ---------- what the attempt logs say ----------

  /** What a step answers to a request of the call, if anything; handling the answer may still throw. */
  function AnswersIn(t: Timed, id: CallId): seq<Response> {
    if t.event.id != id then [] else
      match t.event
      case Respond(_, response) => [response]
      case Throw(_, Some(response)) => [response]
      case _ => []
  }

  /** What the requests of a call were answered, in order. */
  ghost function Answers(run: seq<Timed>, id: CallId): seq<Response> {
    if run == [] then [] else Answers(run[..|run| - 1], id) + AnswersIn(run[|run| - 1], id)
  }

  /** A record for each answer, in order, with its status and whether it was ok. */
  predicate Recorded(attempts: seq<Record>, answers: seq<Response>) {
    && |attempts| == |answers|
    && forall i | 0 <= i < |attempts| :: attempts[i].status == answers[i].status && attempts[i].ok == answers[i].ok
  }

  /** With every provider ready, going on to the next attempt records nothing. */
  lemma SeekRecordsNothing(u: Setup, c: Call)
    requires forall m | m in c.candidates :: m.provider in u.ready && ModelKey(m) in u.buckets
    requires InProgress(c.attempts, c.candidates, c.maxAttempts, c.at) && c.attemptNumber == |c.attempts|
    requires c.at.candidate <= |c.candidates|
    ensures Seek(u.ready, c).attempts == c.attempts
  {
    if c.maxAttempts == 0 {
      SeekFromNothing(u.ready, c);
    } else if c.at.candidate < |c.candidates| {
      GuardNeverFires(c.attempts, c.candidates, c.maxAttempts, c.at);
    }
  }

  lemma AnswerRecords(u: Setup, c: Call, response: Response)
    requires CallInv(u, c) && c.phase == Requesting
    ensures Answer(u.ready, c, response).attempts == c.attempts + [RecordOf(c, response)]
  {
    var record := RecordOf(c, response);
    var longer := c.(attempts := c.attempts + [record], at := Onward(record, c.maxAttempts));
    Push(c.attempts, c.candidates, c.maxAttempts, c.at, record);
    if !response.ok {
      SeekKeeps(u, longer);
      SeekRecordsNothing(u, longer);
    }
  }

  lemma OneMoreRecord(attempts: seq<Record>, answers: seq<Response>, r: Record, response: Response)
    requires Recorded(attempts, answers) && r.status == response.status && r.ok == response.ok
    ensures Recorded(attempts + [r], answers + [response])
  {
  }

  lemma OtherCallsStay(u: Setup, s: State, t: Timed, id: CallId)
    requires Legal(s, t) && id in s.calls && t.event.id != id
    ensures id in Step(u, s, t).calls && Step(u, s, t).calls[id] == s.calls[id]
  {
  }

  /** What an event makes of its call's attempts, as the code between two awaits writes it. */
  predicate Follows(u: Setup, was: Call, now: Call, e: Event)
    requires was.at.candidate <= |was.candidates|
    requires e.Respond? || (e.Throw? && e.after.Some?) ==> was.at.candidate < |was.candidates|
  {
    match e
    case Enter(_) => now == Seek(u.ready, was)
    case Respond(_, response) => now == Answer(u.ready, was, response)
    case Throw(_, Some(response)) => now.attempts == was.attempts + [RecordOf(was, response)]
    case _ => now.attempts == was.attempts
  }

  lemma OwnAttempts(u: Setup, s: State, t: Timed)
    requires Legal(s, t) && t.event.id in s.calls
    ensures t.event.id in Step(u, s, t).calls
    ensures s.calls[t.event.id].at.candidate <= |s.calls[t.event.id].candidates|
    ensures Follows(u, s.calls[t.event.id], Step(u, s, t).calls[t.event.id], t.event)
  {
  }

  lemma FollowerRecords(u: Setup, was: Call, now: Call, t: Timed, answers: seq<Response>)
    requires CallInv(u, was) && Recorded(was.attempts, answers) && was.at.candidate <= |was.candidates|
    requires t.event.Enter? ==> was.phase == Queueing
    requires t.event.Respond? || t.event.Throw? ==> was.phase == Requesting
    requires Follows(u, was, now, t.event)
    ensures Recorded(now.attempts, answers + AnswersIn(t, t.event.id))
  {
    assert answers + [] == answers;
    match t.event
    case Enter(_) => SeekRecordsNothing(u, was);
    case Respond(_, response) =>
      AnswerRecords(u, was, response);
      OneMoreRecord(was.attempts, answers, RecordOf(was, response), response);
    case Throw(_, Some(response)) => OneMoreRecord(was.attempts, answers, RecordOf(was, response), response);
    case _ =>
  }

  lemma StepRecords(u: Setup, s: State, t: Timed, answers: seq<Response>)
    requires Inv(u, s) && Legal(s, t) && t.event.id in s.calls
    requires Recorded(s.calls[t.event.id].attempts, answers)
    ensures t.event.id in Step(u, s, t).calls
    ensures Recorded(Step(u, s, t).calls[t.event.id].attempts, answers + AnswersIn(t, t.event.id))
  {
    OwnAttempts(u, s, t);
    FollowerRecords(u, s.calls[t.event.id], Step(u, s, t).calls[t.event.id], t, answers);
  }

  lemma FirstStepRecords(u: Setup, s: State, t: Timed, id: CallId)
    requires Legal(s, t) && id !in s.calls
    ensures AnswersIn(t, id) == [] && (id in Step(u, s, t).calls ==> Step(u, s, t).calls[id].attempts == [])
  {
  }

  lemma {:induction false} NoCallNoAnswers(u: Setup, run: seq<Timed>, id: CallId)
    requires LegalRun(u, run) && id !in Exec(u, run).calls
    ensures Answers(run, id) == []
    decreases |run|
  {
    if run != [] {
      var before, t := run[..|run| - 1], run[|run| - 1];
      if id in Exec(u, before).calls {
        CallsStay(u, Exec(u, before), t, id);
      }
      NoCallNoAnswers(u, before, id);
      FirstStepRecords(u, Exec(u, before), t, id);
    }
  }

  lemma CallsStay(u: Setup, s: State, t: Timed, id: CallId)
    requires Legal(s, t) && id in s.calls
    ensures id in Step(u, s, t).calls
  {
  }

  /** In every interleaving a call's log has a record for each answer it got, in order, with its status. */
  lemma {:induction false} LogsRecordTheAnswers(u: Setup, run: seq<Timed>, id: CallId)
    requires SetupOk(u) && LegalRun(u, run) && id in Exec(u, run).calls
    ensures Recorded(Exec(u, run).calls[id].attempts, Answers(run, id))
    decreases |run|
  {
    if run != [] {
      var before, t := run[..|run| - 1], run[|run| - 1];
      var s := Exec(u, before);
      assert Answers(run, id) == Answers(before, id) + AnswersIn(t, id);
      if id !in s.calls {
        NoCallNoAnswers(u, before, id);
        FirstStepRecords(u, s, t, id);
      } else {
        LogsRecordTheAnswers(u, before, id);
        RunKeepsInv(u, before);
        NextRecorded(u, s, t, id, Answers(before, id));
      }
    }
  }

  lemma NextRecorded(u: Setup, s: State, t: Timed, id: CallId, answers: seq<Response>)
    requires Legal(s, t) && id in s.calls && Recorded(s.calls[id].attempts, answers) && Inv(u, s)
    ensures id in Step(u, s, t).calls && Recorded(Step(u, s, t).calls[id].attempts, answers + AnswersIn(t, id))
  {
    if t.event.id == id {
      StepRecords(u, s, t, answers);
    } else {
      OtherCallsStay(u, s, t, id);
      assert answers + [] == answers;
    }
  }

  // ---------- the pause after a 429 ----------

  /** A response that says: too many requests. */
  predicate TooMany(r: Response) {
    !r.ok && r.status == 429
  }

  /** The step is a 429 on the key, whether or not handling it threw. */
  predicate Refuses(s: State, t: Timed, key: string) {
    && t.event.id in s.calls && WorksOn(s.calls[t.event.id], key)
    && match t.event
       case Respond(_, response) => TooMany(response)
       case Throw(_, after) => after.Some? && TooMany(after.value)
       case _ => false
  }

  /** The pause a 429 announces: a second unless it says otherwise. */
  function Pause(e: Event): nat
    requires e.Respond? || (e.Throw? && e.after.Some?)
  {
    var r := if e.Respond? then e.response else e.after.value;
    match r.retryAfterMs case Some(ms) => ms case None => 1000
  }

  predicate Polls(s: State, t: Timed, key: string) {
    t.event.Poll? && t.event.id in s.calls && WorksOn(s.calls[t.event.id], key)
  }

  lemma OtherOpKeeps(s: State, key: string, c: Call, response: Response, now: Time)
    requires c.at.candidate < |c.candidates| && key in s.buckets && !(TooMany(response) && WorksOn(c, key))
    ensures key in Penalize(s, c, response, now).buckets && Penalize(s, c, response, now).buckets[key] == s.buckets[key]
  {
  }

  /** Nothing but polls and 429s of a key touches its bucket. */
  lemma OnlyPollsAndRefusalsTouch(u: Setup, s: State, t: Timed, key: string)
    requires Legal(s, t) && key in s.buckets && !Polls(s, t, key) && !Refuses(s, t, key)
    ensures key in Step(u, s, t).buckets && Step(u, s, t).buckets[key] == s.buckets[key]
  {
    match t.event
    case Respond(id, response) => OtherOpKeeps(s, key, s.calls[id], response, t.now);
    case Throw(id, after) =>
      if after.Some? {
        OtherOpKeeps(s, key, s.calls[id], after.value, t.now);
      }
    case _ =>
  }

  ghost predicate PausedUntil(b: Bucket, until: Time) {
    forall t | t <= until :: Verdict(b, t).Denied?
  }

  lemma RefusalPauses(u: Setup, s: State, t: Timed, key: string)
    requires Inv(u, s) && Legal(s, t) && Refuses(s, t, key)
    ensures key in u.buckets && key in Step(u, s, t).buckets
    ensures PausedUntil(Step(u, s, t).buckets[key], t.now + Pause(t.event))
  {
    AtWork(u, s, t.event.id);
    PenalizedIsPaused(s.buckets[key], Pause(t.event), t.now);
  }

  /** The last poll or 429 of the key was a 429 whose pause ends at `until`. */
  ghost predicate Pausing(u: Setup, run: seq<Timed>, key: string, until: Time)
    requires LegalRun(u, run)
    decreases |run|
  {
    run != [] &&
    var n := |run| - 1;
    var s := Exec(u, run[..n]);
    if Refuses(s, run[n], key) then until == run[n].now + Pause(run[n].event)
    else !Polls(s, run[n], key) && Pausing(u, run[..n], key, until)
  }

  lemma {:induction false} PauseLasts(u: Setup, run: seq<Timed>, key: string, until: Time)
    requires SetupOk(u) && LegalRun(u, run) && Pausing(u, run, key, until)
    ensures key in Exec(u, run).buckets && PausedUntil(Exec(u, run).buckets[key], until)
    decreases |run|
  {
    var n := |run| - 1;
    var s := Exec(u, run[..n]);
    if Refuses(s, run[n], key) {
      RunKeepsInv(u, run[..n]);
      RefusalPauses(u, s, run[n], key);
    } else {
      PauseLasts(u, run[..n], key, until);
      OnlyPollsAndRefusalsTouch(u, s, run[n], key);
    }
  }

  lemma DeniedPollStartsNothing(u: Setup, s: State, t: Timed, key: string)
    requires Legal(s, t) && Polls(s, t, key) && key in s.buckets && Verdict(s.buckets[key], t.now).Denied?
    ensures !Starts(s, Step(u, s, t), t.event.id, key)
  {
  }

  /** After a 429 the next poll of its model key, by whichever call, starts no request while the announced
      pause is on. */
  lemma {:induction false} FirstPollInPauseStartsNothing(u: Setup, run: seq<Timed>, t: Timed, key: string, until: Time)
    requires SetupOk(u) && LegalRun(u, run) && Pausing(u, run, key, until)
    requires Legal(Exec(u, run), t) && Polls(Exec(u, run), t, key) && t.now <= until
    ensures !Starts(Exec(u, run), Step(u, Exec(u, run), t), t.event.id, key)
    ensures LegalRun(u, run + [t]) && Started(u, run + [t], key) == Started(u, run, key)
  {
    PauseLasts(u, run, key, until);
    DeniedPollStartsNothing(u, Exec(u, run), t, key);
    assert (run + [t])[..|run|] == run;
    assert Started(u, run, key) + [] == Started(u, run, key);
  }
}
