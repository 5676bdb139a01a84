// `WasixExecutor::invoke`: the executor's own retry loop.
module Invoke {
  import opened Prelude
  import opened Text
  import opened Json
  import opened Errors
  import opened Execution
  import opened Classification
  import opened Retry
  import Backoff

  datatype ToolRef = ToolRef(name: string, maxRetries: Option<u32>, retryBackoffMs: Option<u64>)

  datatype ToolOutput = ToolOutput(payload: Value, structuredContent: Option<Value>)

  // One attempt, as `exec_once` ends it: output bytes or a failure.
  type Attempt = Result<string, InvocationFailure>

  datatype Turn = Turn(outcome: Attempt, pause: Option<nat>)

  function MaxRetries(tool: ToolRef): u32 {
    match tool.maxRetries case Some(n) => n case None => 0
  }

  function BaseBackoff(tool: ToolRef): Backoff.Millis {
    match tool.retryBackoffMs case Some(ms) => ms as int case None => 200
  }

  function SaturatingAdd(a: u32, b: u32): u32 {
    if a as int + b as int > U32_MAX then 0xFFFF_FFFF else a + b
  }

  function Attempts(tool: ToolRef): nat {
    Backoff.Min(MaxRetries(tool) as int + 1, U32_MAX)
  }

  function Output(codec: Codec, bytes: string): Result<ToolOutput, McpError> {
    match codec.parse(bytes)
    case None => Err(ExecutionFailed("invalid tool output JSON"))
    case Some(payload) => Ok(ToolOutput(payload, payload.Get("structuredContent")))
  }

  function Conclude(codec: Codec, tool: ToolRef, outcome: Attempt): Result<ToolOutput, McpError> {
    match outcome
    case Ok(bytes) => Output(codec, bytes)
    case Err(TransientFailure(message)) => Err(Transient(tool.name, message))
    case Err(Fatal(error)) => Err(error)
  }

  function Outcomes(turns: seq<Turn>): (r: seq<Attempt>)
    ensures |r| == |turns|
    ensures forall i :: 0 <= i < |turns| ==> r[i] == turns[i].outcome
  {
    seq(|turns|, i requires 0 <= i < |turns| => turns[i].outcome)
  }

  ghost predicate IsRun(codec: Codec, tool: ToolRef, execOnce: nat -> Attempt, jitter: nat -> real, turns: seq<Turn>,
                        result: Result<ToolOutput, McpError>)
  {
    && StopsCorrectly(Attempts(tool), IsRetried, Outcomes(turns))
    && (forall i :: 0 <= i < |turns| ==> turns[i].outcome == execOnce(i))
    && (forall i :: 0 <= i < |turns| - 1 ==> turns[i].pause == Some(Backoff.Delay(BaseBackoff(tool), i, jitter(i))))
    && turns[|turns| - 1].pause == None
    && result == Conclude(codec, tool, turns[|turns| - 1].outcome)
  }

  // The counters are 32-bit: the saturating sum and `attempt + 1` are checked
  // for overflow here, for every `max_retries`.
  method Invoke(codec: Codec, tool: ToolRef, execOnce: nat -> Attempt, jitter: nat -> real)
    returns (result: Result<ToolOutput, McpError>, turns: seq<Turn>)
    ensures IsRun(codec, tool, execOnce, jitter, turns, result)
  {
    var attempts: u32 := SaturatingAdd(MaxRetries(tool), 1);
    var baseBackoff := BaseBackoff(tool);
    result := Err(InternalError("unreachable retry loop"));
    turns := [];
    var attempt: u32 := 0;
    while attempt < attempts
      invariant attempt < attempts
      invariant |turns| == attempt as int
      invariant forall i :: 0 <= i < |turns| ==>
                  && turns[i].outcome == execOnce(i)
                  && IsRetried(turns[i].outcome)
                  && turns[i].pause == Some(Backoff.Delay(baseBackoff, i, jitter(i)))
      decreases attempts as int - attempt as int
    {
      var outcome := execOnce(attempt as int);
      match outcome {
      case Ok(bytes) =>
        turns := turns + [Turn(outcome, None)];
        return Output(codec, bytes), turns;
      case Err(TransientFailure(message)) =>
        if attempt + 1 >= attempts {
          turns := turns + [Turn(outcome, None)];
          return Err(Transient(tool.name, message)), turns;
        }
        turns := turns + [Turn(outcome, Some(Backoff.Delay(baseBackoff, attempt as int, jitter(attempt as int))))];
      case Err(Fatal(error)) =>
        turns := turns + [Turn(outcome, None)];
        return Err(error), turns;
      }
      attempt := attempt + 1;
    }
    assert false; // the final error is never returned
  }

  lemma {:induction false} RunIsUnique(codec: Codec, tool: ToolRef, execOnce: nat -> Attempt, jitter: nat -> real,
                                       t1: seq<Turn>, r1: Result<ToolOutput, McpError>, t2: seq<Turn>,
                                       r2: Result<ToolOutput, McpError>)
    requires IsRun(codec, tool, execOnce, jitter, t1, r1) && IsRun(codec, tool, execOnce, jitter, t2, r2)
    ensures t1 == t2 && r1 == r2
  {
    StopIsUnique(Attempts(tool), IsRetried, Outcomes(t1), Outcomes(t2));
    assert |t1| == |t2|;
  }

  // ----- What a run is, without the loop's own functions -----

  // One attempt and up to `max_retries` more, none without it; all but the last
  // ended in a transient failure, and so did the last if it ran out of retries.
  // The result is the last outcome: its bytes parsed, with their structured
  // content, or its failure. Pauses are backoffs from 200 ms unless configured.
  lemma {:induction false} RunMeaning(codec: Codec, tool: ToolRef, execOnce: nat -> Attempt, jitter: nat -> real,
                                      turns: seq<Turn>, result: Result<ToolOutput, McpError>)
    requires IsRun(codec, tool, execOnce, jitter, turns, result)
    ensures
      var retries := if tool.maxRetries.Some? then tool.maxRetries.value as int else 0;
      && 1 <= |turns| <= retries + 1 && |turns| <= 4294967295
      && (|turns| < retries + 1 && |turns| < 4294967295 ==>
            !(turns[|turns| - 1].outcome.Err? && turns[|turns| - 1].outcome.error.TransientFailure?))
    ensures forall i :: 0 <= i < |turns| - 1 ==>
              && turns[i].outcome.Err? && turns[i].outcome.error.TransientFailure?
              && turns[i].pause == Some(Backoff.Delay(
                   if tool.retryBackoffMs.Some? then tool.retryBackoffMs.value as int else 200, i, jitter(i)))
    ensures turns[|turns| - 1].pause == None
    ensures
      match turns[|turns| - 1].outcome
      case Ok(bytes) =>
        if codec.parse(bytes).Some? then
          && result.Ok? && codec.parse(bytes) == Some(result.value.payload)
          && result.value.structuredContent == result.value.payload.Get("structuredContent")
        else result.Err? && result.error.ExecutionFailed?
      case Err(TransientFailure(message)) => result == Err(Transient(tool.name, message))
      case Err(Fatal(error)) => result == Err(error)
  {
    assert forall i :: 0 <= i < |turns| ==> Outcomes(turns)[i] == turns[i].outcome;
  }

  // ----- How long a run pauses -----

  // The pauses of a run, all turns but the last.
  function Pauses(turns: seq<Turn>): (pauses: seq<int>)
    requires turns != []
    ensures |pauses| == |turns| - 1
    ensures forall i :: 0 <= i < |pauses| && turns[i].pause.Some? ==> pauses[i] == turns[i].pause.value
  {
    seq(|turns| - 1, i requires 0 <= i < |turns| - 1 => match turns[i].pause case Some(ms) => ms case None => 0)
  }

  // Below the cap and with up to 17 retries, n pauses of a run take between
  // b(2^n - 1)/2 and 3b(2^n - 1)/2 + n/2 milliseconds in all.
  lemma {:induction false} RunPauses(codec: Codec, tool: ToolRef, execOnce: nat -> Attempt, jitter: nat -> real,
                                     turns: seq<Turn>, result: Result<ToolOutput, McpError>)
    requires IsRun(codec, tool, execOnce, jitter, turns, result)
    requires forall i :: Backoff.IsJitter(jitter(i))
    requires |Pauses(turns)| <= 17 && Backoff.Uncapped(BaseBackoff(tool), |Pauses(turns)|)
    ensures Backoff.IsDoublingTotal(BaseBackoff(tool), |Pauses(turns)|, Backoff.Sum(Pauses(turns)))
  {
    var pauses := Pauses(turns);
    Backoff.TotalDelay(BaseBackoff(tool), pauses, seq(|pauses|, i requires 0 <= i < |pauses| => jitter(i)));
  }

  // ----- The loop on top of real attempts -----

  function ExecOnce(codec: Codec, req: ExecRequest, tool: ToolRef, timeout: nat, end: AttemptEnd): Attempt {
    match end
    case Ended(c) => InvokeOnce(codec, req, tool.name, timeout, c)
    case Rejected(error) => Err(MapExecError(codec, error, tool.name, codec.print_(req.args)))
    case Lost(reason) => Err(Fatal(InternalError("spawn_blocking failed: " + reason)))
  }

  // What the loop sees of an attempt: the bytes or the failure of one invocation,
  // the mapped error if `exec` gave up before, and a lost task as a final error.
  lemma {:induction false} EndsAreSeen(codec: Codec, req: ExecRequest, tool: ToolRef, timeout: nat)
    ensures forall r :: ExecOnce(codec, req, tool, timeout, Ended(Answer(r))) ==
              match FinishExec(req, r)
              case Ok(value) => Ok(codec.print_(value))
              case Err(e) => Err(MapExecError(codec, e, tool.name, codec.print_(req.args)))
    ensures forall e :: ExecOnce(codec, req, tool, timeout, Rejected(e)) ==
              Err(MapExecError(codec, e, tool.name, codec.print_(req.args)))
    ensures forall reason ::
              var end := ExecOnce(codec, req, tool, timeout, Lost(reason));
              && end.Err? && end.error.Fatal? && end.error.error.InternalError?
              && EndsWith(end.error.error.reason, reason)
  {
  }

  // The caller sees a transient error exactly when every allowed attempt was
  // made and ended in a retried failure; it then says "transient".
  lemma {:induction false} TransientIffExhausted(codec: Codec, tool: ToolRef, req: ExecRequest, timeout: nat,
                                                 ends: nat -> AttemptEnd, execOnce: nat -> Attempt, jitter: nat -> real,
                                                 turns: seq<Turn>, result: Result<ToolOutput, McpError>)
    requires forall i :: execOnce(i) == ExecOnce(codec, req, tool, timeout, ends(i))
    requires IsRun(codec, tool, execOnce, jitter, turns, result)
    ensures (result.Err? && result.error.Transient?) <==>
              |turns| == Attempts(tool) && forall i :: 0 <= i < |turns| ==> IsRetried(turns[i].outcome)
    ensures result.Err? && result.error.Transient? ==>
              result.error.name == tool.name && Contains(result.error.reason, "transient")
  {
    var last := |turns| - 1;
    assert turns[last].outcome == execOnce(last);
    match ends(last) {
      case Lost(_) =>
      case Rejected(error) =>
        TransientFailureSaysSo(codec, error, tool.name, codec.print_(req.args));
      case Ended(c) =>
        var r := FinishExec(req, Collect(c, timeout));
        if r.Err? {
          TransientFailureSaysSo(codec, r.error, tool.name, codec.print_(req.args));
        }
    }
  }

  // On input without a marker a time-out ends the invocation at once, so at
  // most the last attempt can have timed out.
  lemma {:induction false} UnmarkedTimeoutIsFinal(codec: Codec, tool: ToolRef, req: ExecRequest, timeout: nat,
                                                  ends: nat -> AttemptEnd, execOnce: nat -> Attempt,
                                                  jitter: nat -> real, turns: seq<Turn>,
                                                  result: Result<ToolOutput, McpError>, k: nat)
    requires codec.RoundTrips(req.args) && !MarkedTransient(req.args)
    requires forall i :: execOnce(i) == ExecOnce(codec, req, tool, timeout, ends(i))
    requires IsRun(codec, tool, execOnce, jitter, turns, result)
    requires k < |turns| && ends(k) == Ended(Expired)
    ensures k == |turns| - 1 && result == Err(TimedOut(tool.name, timeout))
  {
    UnmarkedAttempt(codec, req, tool.name, timeout, Unwound(""));
    assert turns[k].outcome == execOnce(k) == Err(Fatal(TimedOut(tool.name, timeout)));
    assert Outcomes(turns)[k] == turns[k].outcome;
  }
}
