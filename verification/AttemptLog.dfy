/** The retry and fallback loop of one broker call, and what its attempt log must look like. */
module AttemptLog {
  import opened Options

  datatype Model = Model(provider: string, model: string)

  function ModelKey(m: Model): string {
    m.provider + ":" + m.model
  }

  /** `candidate` and `perModel` are the loop positions a record was pushed at. */
  datatype Record = Record(
    modelKey: string, attemptNumber: nat, status: int, ok: bool, candidate: nat, perModel: nat)

  datatype Response = Response(ok: bool, status: int, retryAfterMs: Option<nat>)

  predicate Retryable(status: int) {
    status == 429 || 500 <= status < 600
  }

  datatype Position = Position(candidate: nat, perModel: nat)

  /** Where the loop goes after a record that was not ok. */
  function Onward(r: Record, maxAttempts: nat): Position {
    if Retryable(r.status) && r.perModel + 1 < maxAttempts
    then Position(r.candidate, r.perModel + 1)
    else Position(r.candidate + 1, 0)
  }

  function NextPosition(log: seq<Record>, maxAttempts: nat): Position {
    if log == [] then Position(0, 0) else Onward(log[|log| - 1], maxAttempts)
  }

  /** Numbered from one without gaps, grouped in candidate order with at most `maxAttempts` each, and
      a candidate is left only after a status that is not retried or after its last attempt. */
  ghost predicate Orderly(log: seq<Record>, candidates: seq<Model>, maxAttempts: nat) {
    && (forall i | 0 <= i < |log| ::
          && log[i].attemptNumber == i + 1
          && log[i].candidate < |candidates|
          && log[i].perModel < maxAttempts
          && log[i].modelKey == ModelKey(candidates[log[i].candidate]))
    && (log != [] ==> log[0].candidate == 0 && log[0].perModel == 0)
    && (forall i | 0 <= i < |log| - 1 ::
          Position(log[i + 1].candidate, log[i + 1].perModel) == Onward(log[i], maxAttempts))
    && (forall i | 0 <= i < |log| - 1 :: !log[i].ok)
  }

  /** The call has succeeded: its last record, and no earlier one, is ok. */
  ghost predicate Succeeded(log: seq<Record>, candidates: seq<Model>, maxAttempts: nat) {
    Orderly(log, candidates, maxAttempts) && log != [] && log[|log| - 1].ok
  }

  /** The call has failed: no record is ok, and the last candidate was left (or nothing could be tried). */
  ghost predicate Failed(log: seq<Record>, candidates: seq<Model>, maxAttempts: nat) {
    && Orderly(log, candidates, maxAttempts)
    && (forall i | 0 <= i < |log| :: !log[i].ok)
    && (maxAttempts == 0 || NextPosition(log, maxAttempts).candidate == |candidates|)
  }

  /** The loop stands at a position, about to make the next attempt. */
  ghost predicate InProgress(log: seq<Record>, candidates: seq<Model>, maxAttempts: nat, at: Position) {
    && Orderly(log, candidates, maxAttempts)
    && (forall i | 0 <= i < |log| :: !log[i].ok)
    && at == NextPosition(log, maxAttempts)
  }

  lemma Push(log: seq<Record>, candidates: seq<Model>, maxAttempts: nat, at: Position, r: Record)
    requires InProgress(log, candidates, maxAttempts, at)
    requires at.candidate < |candidates| && at.perModel < maxAttempts
    requires r.candidate == at.candidate && r.perModel == at.perModel && r.attemptNumber == |log| + 1
    requires r.modelKey == ModelKey(candidates[at.candidate])
    ensures Orderly(log + [r], candidates, maxAttempts)
    ensures !r.ok ==> InProgress(log + [r], candidates, maxAttempts, Onward(r, maxAttempts))
    ensures r.ok ==> Succeeded(log + [r], candidates, maxAttempts)
  {
  }

  /** No log has more records than the positions passed, so the attempt-count guard never fires. */
  lemma {:induction false} AttemptsBoundedByPosition(log: seq<Record>, candidates: seq<Model>, maxAttempts: nat)
    requires Orderly(log, candidates, maxAttempts) && log != []
    ensures |log| <= log[|log| - 1].candidate * maxAttempts + log[|log| - 1].perModel + 1
    decreases |log|
  {
    var n := |log| - 1;
    if n > 0 {
      AttemptsBoundedByPosition(log[..n], candidates, maxAttempts);
      assert Position(log[n - 1 + 1].candidate, log[n - 1 + 1].perModel) == Onward(log[n - 1], maxAttempts);
      if log[n].candidate != log[n - 1].candidate {
        assert log[n].candidate * maxAttempts == log[n - 1].candidate * maxAttempts + maxAttempts;
      }
    }
  }

  /** The guard `attemptNumber > maxAttempts * candidates.length` is false at every attempt. */
  lemma GuardNeverFires(log: seq<Record>, candidates: seq<Model>, maxAttempts: nat, at: Position)
    requires InProgress(log, candidates, maxAttempts, at)
    requires at.candidate < |candidates| && at.perModel < maxAttempts
    ensures |log| + 1 <= maxAttempts * |candidates|
  {
    if log != [] {
      var n := |log| - 1;
      AttemptsBoundedByPosition(log, candidates, maxAttempts);
      if at.candidate != log[n].candidate {
        assert at.candidate * maxAttempts == log[n].candidate * maxAttempts + maxAttempts;
      }
      assert |log| <= at.candidate * maxAttempts + at.perModel;
    }
    MulMonoNat(at.candidate + 1, |candidates|, maxAttempts);
    assert (at.candidate + 1) * maxAttempts == at.candidate * maxAttempts + maxAttempts;
  }

  /** A call tries the same model again exactly after a 429 or a server error with attempts left; otherwise it
      takes the next model, from its first attempt. */
  lemma NextAttempt(log: seq<Record>, candidates: seq<Model>, maxAttempts: nat, i: nat)
    requires Orderly(log, candidates, maxAttempts) && i + 1 < |log|
    ensures var was, next := log[i], log[i + 1];
      var again := (was.status == 429 || 500 <= was.status <= 599) && was.perModel + 1 < maxAttempts;
      && (next.candidate == if again then was.candidate else was.candidate + 1)
      && (next.perModel == if again then was.perModel + 1 else 0)
      && next.candidate < |candidates|
      && next.modelKey == candidates[next.candidate].provider + ":" + candidates[next.candidate].model
  {
    assert Position(log[i + 1].candidate, log[i + 1].perModel) == Onward(log[i], maxAttempts);
  }

  /** A failed call has tried its last model, and stopped there after a status that is not tried again or
      after the last attempt. */
  lemma FailureIsFinal(log: seq<Record>, candidates: seq<Model>, maxAttempts: nat)
    requires Failed(log, candidates, maxAttempts) && maxAttempts > 0 && candidates != []
    ensures log != []
    ensures var last := log[|log| - 1];
      && last.candidate == |candidates| - 1 && !last.ok
      && !((last.status == 429 || 500 <= last.status <= 599) && last.perModel + 1 < maxAttempts)
  {
  }

  lemma MulMonoNat(a: nat, b: nat, c: nat)
    requires a <= b
    ensures a * c <= b * c
  {
  }

  /** The record pushed for a provider without a client. */
  const NOT_INITIALIZED: Response := Response(false, 0, None)

  /** A record carries what its attempt was answered. */
  ghost predicate Answered(r: Record, candidates: seq<Model>, ready: set<string>, respond: nat -> Response) {
    && r.candidate < |candidates|
    && var res := if candidates[r.candidate].provider in ready then respond(r.attemptNumber) else NOT_INITIALIZED;
       r.ok == res.ok && r.status == res.status
  }

  /** The loop of `callClass` for a call that is not interrupted: what each attempt gets back is asked
      of `respond`.  `ready` says which providers have a client. */
  method RunAttempts(candidates: seq<Model>, maxAttempts: nat, ready: set<string>, respond: nat -> Response)
    returns (attempts: seq<Record>, ok: bool)
    ensures ok ==> Succeeded(attempts, candidates, maxAttempts)
    ensures !ok ==> Failed(attempts, candidates, maxAttempts)
    ensures forall i | 0 <= i < |attempts| :: Answered(attempts[i], candidates, ready, respond)
  {
    attempts := [];
    var attemptNumber := 0;
    var c := 0;
    while c < |candidates|
      invariant 0 <= c <= |candidates|
      invariant attemptNumber == |attempts|
      invariant Orderly(attempts, candidates, maxAttempts) && forall i | 0 <= i < |attempts| :: !attempts[i].ok
      invariant maxAttempts > 0 ==> NextPosition(attempts, maxAttempts) == Position(c, 0)
      invariant maxAttempts == 0 ==> attempts == []
      invariant forall i | 0 <= i < |attempts| :: Answered(attempts[i], candidates, ready, respond)
    {
      var candidate := candidates[c];
      var perModel := 0;
      var left := false;
      while !left && perModel < maxAttempts
        invariant 0 <= perModel <= maxAttempts
        invariant attemptNumber == |attempts|
        invariant Orderly(attempts, candidates, maxAttempts) && forall i | 0 <= i < |attempts| :: !attempts[i].ok
        invariant maxAttempts > 0 ==>
                    NextPosition(attempts, maxAttempts) ==
                    if left || perModel == maxAttempts then Position(c + 1, 0) else Position(c, perModel)
        invariant maxAttempts == 0 ==> attempts == []
        invariant forall i | 0 <= i < |attempts| :: Answered(attempts[i], candidates, ready, respond)
        decreases !left, maxAttempts - perModel
      {
        GuardNeverFires(attempts, candidates, maxAttempts, Position(c, perModel));
        attemptNumber := attemptNumber + 1;
        if attemptNumber > maxAttempts * |candidates| {
          assert false;
        }
        var res := if candidate.provider in ready then respond(attemptNumber) else NOT_INITIALIZED;
        var record := Record(ModelKey(candidate), attemptNumber, res.status, res.ok, c, perModel);
        Push(attempts, candidates, maxAttempts, Position(c, perModel), record);
        attempts := attempts + [record];
        if res.ok {
          return attempts, true;
        }
        if Retryable(res.status) {
          perModel := perModel + 1;
        } else {
          left := true;
        }
      }
      c := c + 1;
    }
    ok := false;
  }
}
