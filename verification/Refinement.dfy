// Both retry loops run on top of the concurrent protocol. Whatever the
// interleaving, a finished protocol run is a run of the sequential loop against
// some backend, so everything proved of the loops holds of it.
module Refinement {
  import opened Prelude
  import opened Json
  import opened Errors
  import opened Execution
  import opened Classification
  import opened Protocol
  import opened Retry
  import ExecRetries
  import Invoke
  import Backoff

  // What the recorded attempts did, whatever a loop says about its turns.

  // If attempt k was answered, it was by a worker given this request.
  ghost predicate AnsweredFrom(codec: Codec, s: State, k: nat, req: ExecRequest)
    requires k < |s.attempts|
  {
    var end := s.attempts[k].end;
    end.Some? && end.value.Ended? && end.value.c.Answer? ==>
      exists run :: end.value.c.result == WorkerAnswer(codec, req, run)
  }

  // Attempt k + 1 started this long after attempt k ended, or longer.
  predicate PausedFor(s: State, k: nat, pause: nat)
    requires k + 1 < |s.attempts|
  {
    s.attempts[k].endedAt + pause <= s.attempts[k + 1].startedAt
  }

  lemma {:induction false} AttemptIsReal(cfg: Config, steps: seq<Step>, k: nat)
    requires cfg.maxAttempts >= 1 && Reach(cfg, steps).Some? && k < |Reach(cfg, steps).value.attempts|
    ensures AnsweredFrom(cfg.codec, Reach(cfg, steps).value, k, cfg.request(k))
  {
    AttemptsAreSound(cfg, steps, k);
  }

  lemma {:induction false} PauseIsReal(cfg: Config, steps: seq<Step>, k: nat)
    requires Reach(cfg, steps).Some? && k + 1 < |Reach(cfg, steps).value.attempts|
    ensures PausedFor(Reach(cfg, steps).value, k, cfg.pause(k + 1))
  {
    PausesAreKept(cfg, steps);
  }

  // ----- exec_with_retries -----

  function RetriesConfig(codec: Codec, req: ExecRequest, policy: ExecRetries.RuntimePolicy): Config {
    Config(
      codec,
      (k: nat) => if k <= U32_MAX then ExecRetries.AtAttempt(req, k) else req,
      policy.perCallTimeout,
      ExecRetries.MaxAttempts(policy),
      end => ExecRetries.Retryable(ExecRetries.CallOf(req, policy.perCallTimeout, end)),
      (k: nat) => ExecRetries.Pause(policy.baseBackoff, k))
  }

  function RetriesTurns(req: ExecRequest, policy: ExecRetries.RuntimePolicy, s: State): (turns: seq<ExecRetries.Turn>)
    requires |s.attempts| <= U32_MAX
    ensures |turns| == |s.attempts|
    ensures forall k :: 0 <= k < |turns| ==>
              turns[k] == ExecRetries.Turn(
                ExecRetries.AtAttempt(req, k),
                ExecRetries.CallOf(req, policy.perCallTimeout, EndAt(s, k)),
                if k < |s.attempts| - 1 then Some(ExecRetries.Pause(policy.baseBackoff, k + 1)) else None)
  {
    seq(|s.attempts|, k requires 0 <= k < |s.attempts| =>
      ExecRetries.Turn(
        ExecRetries.AtAttempt(req, k),
        ExecRetries.CallOf(req, policy.perCallTimeout, EndAt(s, k)),
        if k < |s.attempts| - 1 then Some(ExecRetries.Pause(policy.baseBackoff, k + 1)) else None))
  }

  // The requests and pauses of the turns are those of the recorded attempts.
  ghost predicate RetriesTurnsAreReal(codec: Codec, s: State, turns: seq<ExecRetries.Turn>) {
    && |turns| == |s.attempts|
    && (forall k :: 0 <= k < |turns| ==> AnsweredFrom(codec, s, k, turns[k].request))
    && (forall k :: 0 <= k < |turns| - 1 ==> turns[k].pause.Some? && PausedFor(s, k, turns[k].pause.value))
  }

  lemma {:induction false} RetriesTurnsMatch(codec: Codec, req: ExecRequest, policy: ExecRetries.RuntimePolicy,
                                             steps: seq<Step>)
    requires Reach(RetriesConfig(codec, req, policy), steps).Some?
    requires |Reach(RetriesConfig(codec, req, policy), steps).value.attempts| <= U32_MAX
    ensures
      var s := Reach(RetriesConfig(codec, req, policy), steps).value;
      RetriesTurnsAreReal(codec, s, RetriesTurns(req, policy, s))
  {
    var cfg := RetriesConfig(codec, req, policy);
    var s := Reach(cfg, steps).value;
    var turns := RetriesTurns(req, policy, s);
    forall k | 0 <= k < |turns|
      ensures AnsweredFrom(codec, s, k, turns[k].request)
    {
      AttemptIsReal(cfg, steps, k);
    }
    forall k | 0 <= k < |turns| - 1
      ensures turns[k].pause.Some? && PausedFor(s, k, turns[k].pause.value)
    {
      PauseIsReal(cfg, steps, k);
    }
  }

  lemma {:induction false} RetriesRefineLoop(codec: Codec, req: ExecRequest, policy: ExecRetries.RuntimePolicy,
                                             steps: seq<Step>)
    returns (backend: ExecRetries.Backend, turns: seq<ExecRetries.Turn>, result: Result<Value, ExecError>)
    requires Reach(RetriesConfig(codec, req, policy), steps).Some?
    requires Reach(RetriesConfig(codec, req, policy), steps).value.phase.Finished?
    ensures ExecRetries.IsRun(req, policy, backend, turns, result)
    ensures
      var s := Reach(RetriesConfig(codec, req, policy), steps).value;
      && |turns| == |s.attempts|
      && (forall k :: 0 <= k < |turns| ==>
            turns[k].outcome == ExecRetries.CallOf(req, policy.perCallTimeout, EndAt(s, k)))
      && RetriesTurnsAreReal(codec, s, turns)
  {
    var cfg := RetriesConfig(codec, req, policy);
    FinishedStopsCorrectly(cfg, steps);
    var s := Reach(cfg, steps).value;
    turns := RetriesTurns(req, policy, s);
    backend := (k: nat, _: ExecRequest) => ExecRetries.CallOf(req, policy.perCallTimeout, EndAt(s, k));
    result := ExecRetries.Report(req, turns[|turns| - 1].outcome);
    StopsAlike(cfg.maxAttempts, cfg.retryable, ExecRetries.Retryable, Ends(s), ExecRetries.Outcomes(turns));
    RetriesTurnsMatch(codec, req, policy, steps);
  }

  // ----- invoke -----

  // The pause between attempt k and the next, counting attempts from one.
  function PauseBefore(tool: Invoke.ToolRef, jitter: nat -> real, k: nat): nat {
    if k == 0 then 0 else Backoff.Delay(Invoke.BaseBackoff(tool), k - 1, jitter(k - 1))
  }

  function InvokeConfig(codec: Codec, req: ExecRequest, tool: Invoke.ToolRef, timeout: nat, jitter: nat -> real): Config
  {
    Config(
      codec,
      (_: nat) => req,
      timeout,
      Invoke.Attempts(tool),
      end => IsRetried(Invoke.ExecOnce(codec, req, tool, timeout, end)),
      k => PauseBefore(tool, jitter, k))
  }

  function InvokeTurns(codec: Codec, req: ExecRequest, tool: Invoke.ToolRef, timeout: nat, jitter: nat -> real,
                       s: State): (turns: seq<Invoke.Turn>)
    ensures |turns| == |s.attempts|
    ensures forall k :: 0 <= k < |turns| ==>
              turns[k] == Invoke.Turn(
                Invoke.ExecOnce(codec, req, tool, timeout, EndAt(s, k)),
                if k < |s.attempts| - 1 then Some(Backoff.Delay(Invoke.BaseBackoff(tool), k, jitter(k))) else None)
  {
    seq(|s.attempts|, k requires 0 <= k < |s.attempts| =>
      Invoke.Turn(
        Invoke.ExecOnce(codec, req, tool, timeout, EndAt(s, k)),
        if k < |s.attempts| - 1 then Some(Backoff.Delay(Invoke.BaseBackoff(tool), k, jitter(k))) else None))
  }

  ghost predicate InvokeTurnsAreReal(codec: Codec, req: ExecRequest, s: State, turns: seq<Invoke.Turn>) {
    && |turns| == |s.attempts|
    && (forall k: nat :: k < |turns| ==> AnsweredFrom(codec, s, k, req))
    && (forall k :: 0 <= k < |turns| - 1 ==> turns[k].pause.Some? && PausedFor(s, k, turns[k].pause.value))
  }

  lemma {:induction false} InvokeTurnsMatch(codec: Codec, req: ExecRequest, tool: Invoke.ToolRef, timeout: nat,
                                            jitter: nat -> real, steps: seq<Step>)
    requires Reach(InvokeConfig(codec, req, tool, timeout, jitter), steps).Some?
    ensures
      var s := Reach(InvokeConfig(codec, req, tool, timeout, jitter), steps).value;
      InvokeTurnsAreReal(codec, req, s, InvokeTurns(codec, req, tool, timeout, jitter, s))
  {
    var cfg := InvokeConfig(codec, req, tool, timeout, jitter);
    var s := Reach(cfg, steps).value;
    var turns := InvokeTurns(codec, req, tool, timeout, jitter, s);
    forall k: nat | k < |turns|
      ensures AnsweredFrom(codec, s, k, req)
    {
      AttemptIsReal(cfg, steps, k);
    }
    forall k | 0 <= k < |turns| - 1
      ensures turns[k].pause.Some? && PausedFor(s, k, turns[k].pause.value)
    {
      PauseIsReal(cfg, steps, k);
    }
  }

  lemma {:induction false} InvokeRefinesLoop(codec: Codec, req: ExecRequest, tool: Invoke.ToolRef, timeout: nat,
                                             jitter: nat -> real, steps: seq<Step>)
    returns (execOnce: nat -> Invoke.Attempt, turns: seq<Invoke.Turn>, result: Result<Invoke.ToolOutput, McpError>)
    requires Reach(InvokeConfig(codec, req, tool, timeout, jitter), steps).Some?
    requires Reach(InvokeConfig(codec, req, tool, timeout, jitter), steps).value.phase.Finished?
    ensures Invoke.IsRun(codec, tool, execOnce, jitter, turns, result)
    ensures
      var s := Reach(InvokeConfig(codec, req, tool, timeout, jitter), steps).value;
      && |turns| == |s.attempts|
      && (forall k :: 0 <= k < |turns| ==> turns[k].outcome == Invoke.ExecOnce(codec, req, tool, timeout, EndAt(s, k)))
      && InvokeTurnsAreReal(codec, req, s, turns)
  {
    var cfg := InvokeConfig(codec, req, tool, timeout, jitter);
    FinishedStopsCorrectly(cfg, steps);
    var s := Reach(cfg, steps).value;
    turns := InvokeTurns(codec, req, tool, timeout, jitter, s);
    execOnce := (k: nat) => Invoke.ExecOnce(codec, req, tool, timeout, EndAt(s, k));
    result := Invoke.Conclude(codec, tool, turns[|turns| - 1].outcome);
    StopsAlike(cfg.maxAttempts, cfg.retryable, IsRetried, Ends(s), Invoke.Outcomes(turns));
    InvokeTurnsMatch(codec, req, tool, timeout, jitter, steps);
  }

  // ----- What the two loops let happen at the same time -----

  // Under `invoke`, on input without a marker, no attempt starts while an
  // earlier worker is still running.
  lemma {:induction false} InvokeNeverOverlaps(codec: Codec, req: ExecRequest, tool: Invoke.ToolRef, timeout: nat,
                                               jitter: nat -> real, steps: seq<Step>)
    requires codec.RoundTrips(req.args) && !MarkedTransient(req.args)
    requires Reach(InvokeConfig(codec, req, tool, timeout, jitter), steps).Some?
    ensures
      var s := Reach(InvokeConfig(codec, req, tool, timeout, jitter), steps).value;
      Enabled(InvokeConfig(codec, req, tool, timeout, jitter), s, Spawn) ==>
        forall i :: 0 <= i < |s.attempts| ==> !Live(s.attempts[i])
  {
    UnmarkedAttempt(codec, req, tool.name, timeout, Unwound(""));
    NoOverlapWhenTimeoutsAreFinal(InvokeConfig(codec, req, tool, timeout, jitter), steps);
  }

  // Marked input does overlap, and so does every `exec_with_retries`: all the
  // allowed workers may run at once.
  lemma {:induction false} RetriesMayOverlap(codec: Codec, req: ExecRequest, policy: ExecRetries.RuntimePolicy)
    returns (steps: seq<Step>)
    ensures Reach(RetriesConfig(codec, req, policy), steps).Some?
    ensures CountLive(Reach(RetriesConfig(codec, req, policy), steps).value.attempts) == ExecRetries.MaxAttempts(policy)
  {
    steps := AllWorkersMayRunAtOnce(RetriesConfig(codec, req, policy));
  }

  lemma {:induction false} MarkedInvokeMayOverlap(codec: Codec, req: ExecRequest, tool: Invoke.ToolRef, timeout: nat,
                                                  jitter: nat -> real)
    returns (steps: seq<Step>)
    requires codec.RoundTrips(req.args) && MarkedTransient(req.args)
    ensures Reach(InvokeConfig(codec, req, tool, timeout, jitter), steps).Some?
    ensures CountLive(Reach(InvokeConfig(codec, req, tool, timeout, jitter), steps).value.attempts)
            == Invoke.Attempts(tool)
  {
    MarkedAttempt(codec, req, tool.name, timeout, Unwound(""));
    steps := AllWorkersMayRunAtOnce(InvokeConfig(codec, req, tool, timeout, jitter));
  }
}
