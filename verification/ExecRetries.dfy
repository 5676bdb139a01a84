// `exec_with_retries_with`: the retry loop around `exec`.
module ExecRetries {
  import opened Prelude
  import opened Text
  import opened Json
  import opened Errors
  import opened Execution
  import opened Retry

  // Nanoseconds. A duration holds up to 2^64 seconds.
  type Duration = d: int | 0 <= d < 0x1_0000_0000_0000_0000 * 1_000_000_000

  const DURATION_LIMIT: int := 0x1_0000_0000_0000_0000 * 1_000_000_000

  datatype RuntimePolicy = RuntimePolicy(perCallTimeout: Duration, maxAttempts: u32, baseBackoff: Duration)

  // One blocking call: it ran, or its task was lost (panicked or cancelled).
  datatype CallOutcome = Joined(result: Result<Value, ExecError>) | JoinFailed(reason: string)

  // The backend is arbitrary: it may answer the k-th call any way it likes.
  type Backend = (nat, ExecRequest) -> CallOutcome

  // One turn of the loop; the pause, if any, follows the call.
  datatype Turn = Turn(request: ExecRequest, outcome: CallOutcome, pause: Option<Duration>)

  function MaxAttempts(policy: RuntimePolicy): (n: nat)
    ensures 1 <= n <= U32_MAX && policy.maxAttempts as int <= n
    ensures n == 1 || n == policy.maxAttempts as int
  {
    if policy.maxAttempts == 0 then 1 else policy.maxAttempts as int
  }

  // Only the attempt counter of the tenant changes from call to call.
  function AtAttempt(req: ExecRequest, i: nat): (r: ExecRequest)
    requires i <= U32_MAX
    ensures r.tenant.Some? <==> req.tenant.Some?
    ensures r.tenant.Some? ==>
              r.tenant.value.attempt as int == i && r.tenant.value.identity == req.tenant.value.identity
    ensures r.component == req.component && r.action == req.action && r.args == req.args
  {
    match req.tenant
    case None => req
    case Some(t) => req.(tenant := Some(t.(attempt := i as u32)))
  }

  function CheckedMul(base: Duration, k: nat): Option<Duration> {
    if base * k < DURATION_LIMIT then Some(base * k) else None
  }

  function Pause(base: Duration, attempt: nat): Duration {
    match CheckedMul(base, attempt) case Some(d) => d case None => base
  }

  predicate Retryable(outcome: CallOutcome) {
    outcome.Joined? && outcome.result.Err? && IsTransientError(outcome.result.error)
  }

  function Report(req: ExecRequest, outcome: CallOutcome): Result<Value, ExecError> {
    match outcome
    case Joined(result) => result
    case JoinFailed(reason) => Err(Runner(req.component, Internal("blocking exec failed: " + reason)))
  }

  // One call of `exec`, from the way its attempt ended.
  function CallOf(req: ExecRequest, timeout: nat, end: AttemptEnd): CallOutcome {
    match end
    case Ended(c) => Joined(FinishExec(req, Collect(c, timeout)))
    case Rejected(error) => Joined(Err(error))
    case Lost(reason) => JoinFailed(reason)
  }

  function Outcomes(turns: seq<Turn>): (r: seq<CallOutcome>)
    ensures |r| == |turns|
    ensures forall i :: 0 <= i < |turns| ==> r[i] == turns[i].outcome
  {
    seq(|turns|, i requires 0 <= i < |turns| => turns[i].outcome)
  }

  // What a complete run of the loop looks like from outside.
  ghost predicate IsRun(req: ExecRequest, policy: RuntimePolicy, backend: Backend, turns: seq<Turn>,
                        result: Result<Value, ExecError>)
  {
    && StopsCorrectly(MaxAttempts(policy), Retryable, Outcomes(turns))
    && (forall i :: 0 <= i < |turns| ==>
          && turns[i].request == AtAttempt(req, i)
          && turns[i].outcome == backend(i, AtAttempt(req, i)))
    && (forall i :: 0 <= i < |turns| - 1 ==> turns[i].pause == Some(Pause(policy.baseBackoff, i + 1)))
    && turns[|turns| - 1].pause == None
    && result == Report(req, turns[|turns| - 1].outcome)
  }

  // A run that has not ended: every call so far failed in a retryable way.
  ghost predicate Underway(req: ExecRequest, policy: RuntimePolicy, backend: Backend, turns: seq<Turn>) {
    && |turns| < MaxAttempts(policy)
    && forall i :: 0 <= i < |turns| ==>
         && turns[i].request == AtAttempt(req, i)
         && turns[i].outcome == backend(i, AtAttempt(req, i))
         && Retryable(turns[i].outcome)
         && turns[i].pause == Some(Pause(policy.baseBackoff, i + 1))
  }

  lemma {:induction false} RunEnds(req: ExecRequest, policy: RuntimePolicy, backend: Backend, turns: seq<Turn>,
                                   last: Turn)
    requires Underway(req, policy, backend, turns)
    requires last.request == AtAttempt(req, |turns|) && last.outcome == backend(|turns|, last.request) &&
             last.pause == None
    requires |turns| + 1 == MaxAttempts(policy) || !Retryable(last.outcome)
    ensures IsRun(req, policy, backend, turns + [last], Report(req, last.outcome))
  {
    assert (turns + [last])[|turns|] == last;
  }

  method ExecWithRetries(request: ExecRequest, policy: RuntimePolicy, backend: Backend)
    returns (result: Result<Value, ExecError>, turns: seq<Turn>)
    ensures IsRun(request, policy, backend, turns, result)
  {
    var req := request;
    var maxAttempts := if policy.maxAttempts == 0 then 1 else policy.maxAttempts;
    turns := [];
    for attempt := 1 to maxAttempts as int + 1
      invariant |turns| == attempt - 1
      invariant req == request || (attempt > 1 && req == AtAttempt(request, attempt - 2))
      invariant Underway(request, policy, backend, turns)
    {
      if req.tenant.Some? {
        req := req.(tenant := Some(req.tenant.value.(attempt := (attempt - 1) as u32)));
      }
      assert req == AtAttempt(request, attempt - 1);
      var outcome := backend(attempt - 1, req);
      if outcome.JoinFailed? {
        RunEnds(request, policy, backend, turns, Turn(req, outcome, None));
        turns := turns + [Turn(req, outcome, None)];
        return Err(Runner(req.component, Internal("blocking exec failed: " + outcome.reason))), turns;
      }
      if outcome.result.Ok? {
        RunEnds(request, policy, backend, turns, Turn(req, outcome, None));
        turns := turns + [Turn(req, outcome, None)];
        return outcome.result, turns;
      }
      var shouldRetry := attempt < maxAttempts as int && IsTransientError(outcome.result.error);
      if !shouldRetry {
        RunEnds(request, policy, backend, turns, Turn(req, outcome, None));
        turns := turns + [Turn(req, outcome, None)];
        return outcome.result, turns;
      }
      var backoff := match CheckedMul(policy.baseBackoff, attempt) case Some(d) => d case None => policy.baseBackoff;
      turns := turns + [Turn(req, outcome, Some(backoff))];
    }
    assert false; // the loop never runs out: its last turn returns
  }

  // The contract leaves no freedom: the backend decides the whole run.
  lemma {:induction false} RunIsUnique(req: ExecRequest, policy: RuntimePolicy, backend: Backend, t1: seq<Turn>,
                                       r1: Result<Value, ExecError>, t2: seq<Turn>, r2: Result<Value, ExecError>)
    requires IsRun(req, policy, backend, t1, r1) && IsRun(req, policy, backend, t2, r2)
    ensures t1 == t2 && r1 == r2
  {
    StopIsUnique(MaxAttempts(policy), Retryable, Outcomes(t1), Outcomes(t2));
    assert |t1| == |t2|;
  }

  // ----- How long a run pauses -----

  function TotalPause(base: Duration, pauses: nat): nat {
    if pauses == 0 then 0 else TotalPause(base, pauses - 1) + Pause(base, pauses)
  }

  // Once a product no longer fits, no later one fits.
  lemma {:induction false} OverflowPersists(base: Duration, i: nat, j: nat)
    requires i <= j && CheckedMul(base, i).None?
    ensures CheckedMul(base, j).None?
  {
    ProductsGrow(base, i, j);
  }

  lemma {:induction false} ProductsGrow(b: nat, i: nat, j: nat)
    requires i <= j
    ensures b * i <= b * j
    decreases j - i
  {
    if i < j {
      ProductsGrow(b, i + 1, j);
      assert b * (i + 1) == b * i + b;
    }
  }

  // The product is shorter than 2^64 seconds, counted in nanoseconds.
  predicate Fits(base: nat, k: nat) {
    base * k < 18446744073709551616 * 1000000000
  }

  lemma {:induction false} ProductFits(base: Duration, k: nat)
    ensures Fits(base, k) ==> CheckedMul(base, k) == Some(base * k) && Pause(base, k) == base * k
    ensures !Fits(base, k) ==> CheckedMul(base, k) == None && Pause(base, k) == base
  {
  }

  // At most base * n(n-1)/2, and exactly that when and only when base * (n-1) fits.
  predicate IsBoundedPause(base: Duration, n: nat, total: nat)
    requires n >= 1
  {
    && 2 * total <= base * (n * (n - 1))
    && (2 * total == base * (n * (n - 1)) <==> Fits(base, n - 1))
  }

  // A run of n calls pauses n - 1 times, for at most base * n(n-1)/2 in all,
  // and for exactly that long when and only when base * (n-1) still fits.
  lemma {:induction false} TotalPauseBound(base: Duration, n: nat)
    requires n >= 1
    ensures IsBoundedPause(base, n, TotalPause(base, n - 1))
  {
    if n > 1 {
      var k := n - 1;
      TotalPauseBound(base, k);
      Triangle(base, k);
      if CheckedMul(base, k).Some? {
        if CheckedMul(base, k - 1).None? {
          OverflowPersists(base, k - 1, k);
        }
      } else {
        PauseFallsShort(base, k);
      }
    }
  }

  lemma {:induction false} Triangle(b: int, k: int)
    ensures b * ((k + 1) * k) == b * (k * (k - 1)) + 2 * (b * k)
  {
    assert (k + 1) * k == k * (k - 1) + 2 * k;
  }

  // A pause that fell back to the base is shorter than the product it replaced.
  lemma {:induction false} PauseFallsShort(base: Duration, k: nat)
    requires CheckedMul(base, k).None?
    ensures Pause(base, k) < base * k
  {
    assert k == 0 ==> base * k == 0;
    assert k == 1 ==> base * k == base;
    assert base == 0 ==> base * k == 0;
    assert k >= 2 ==> base * k >= base * 2;
  }

  // What a run of the loop pauses in all.
  function Paused(turns: seq<Turn>): nat {
    if turns == [] then 0
    else Paused(turns[..|turns| - 1]) + (match turns[|turns| - 1].pause case Some(d) => d case None => 0)
  }

  lemma {:induction false} PausedIs(base: Duration, turns: seq<Turn>)
    requires forall i :: 0 <= i < |turns| ==> turns[i].pause == Some(Pause(base, i + 1))
    ensures Paused(turns) == TotalPause(base, |turns|)
  {
    if turns != [] {
      PausedIs(base, turns[..|turns| - 1]);
    }
  }

  // Every run of n calls pauses for at most base * n(n-1)/2, with equality
  // exactly when base * (n-1) fits.
  lemma {:induction false} RunPauses(req: ExecRequest, policy: RuntimePolicy, backend: Backend, turns: seq<Turn>,
                                     result: Result<Value, ExecError>)
    requires IsRun(req, policy, backend, turns, result)
    ensures turns != [] && IsBoundedPause(policy.baseBackoff, |turns|, Paused(turns))
  {
    PausedIs(policy.baseBackoff, turns[..|turns| - 1]);
    TotalPauseBound(policy.baseBackoff, |turns|);
  }

  // What the loop sees of an attempt: the end of `exec`, on the worker's answer or
  // the time-out, its error if it gave up before, or a lost task.
  lemma {:induction false} EndsAreSeen(req: ExecRequest, timeout: nat)
    ensures forall r :: CallOf(req, timeout, Ended(Answer(r))) == Joined(FinishExec(req, r))
    ensures CallOf(req, timeout, Ended(Expired)) == Joined(Err(Runner(req.component, Timeout(timeout))))
    ensures forall e :: CallOf(req, timeout, Rejected(e)) == Joined(Err(e))
    ensures forall reason :: CallOf(req, timeout, Lost(reason)) == JoinFailed(reason)
  {
  }

  // ----- What a run is, without the loop's own functions -----

  // The errors the loop retries: a time-out, or a code that starts with "transient.".
  ghost predicate IsRetriedError(e: ExecError) {
    || (e.Runner? && e.source.Timeout?)
    || (e.Tool? && exists rest :: e.code == "transient." + rest)
  }

  ghost predicate IsRetriedOutcome(outcome: CallOutcome) {
    outcome.Joined? && outcome.result.Err? && IsRetriedError(outcome.result.error)
  }

  lemma {:induction false} RetryableIff(outcome: CallOutcome)
    ensures Retryable(outcome) <==> IsRetriedOutcome(outcome)
  {
    if outcome.Joined? && outcome.result.Err? && outcome.result.error.Tool? {
      var code := outcome.result.error.code;
      if "transient." <= code {
        assert code == "transient." + code[10..];
      }
    }
  }

  // Calls are made up to the first outcome that is not retried, or max_attempts
  // of them, or one if that is zero. The pause after call i is base * i, or the
  // base when that does not fit. The last outcome is the result; a lost task
  // is an internal error of the component that gives its reason.
  lemma {:induction false} RunMeaning(req: ExecRequest, policy: RuntimePolicy, backend: Backend, turns: seq<Turn>,
                                      result: Result<Value, ExecError>)
    requires IsRun(req, policy, backend, turns, result)
    ensures turns != [] && (|turns| == 1 || |turns| <= policy.maxAttempts as int)
    ensures forall i :: 0 <= i < |turns| - 1 ==> IsRetriedOutcome(turns[i].outcome)
    ensures |turns| < policy.maxAttempts as int ==> !IsRetriedOutcome(turns[|turns| - 1].outcome)
    ensures forall i :: 0 <= i < |turns| - 1 ==>
              turns[i].pause == Some(if Fits(policy.baseBackoff, i + 1) then policy.baseBackoff * (i + 1)
                                     else policy.baseBackoff)
    ensures turns[|turns| - 1].pause == None
    ensures
      match turns[|turns| - 1].outcome
      case Joined(r) => result == r
      case JoinFailed(reason) =>
        && result.Err? && result.error.Runner? && result.error.component == req.component
        && result.error.source.Internal? && EndsWith(result.error.source.message, reason)
  {
    var outcomes := Outcomes(turns);
    forall i | 0 <= i < |turns|
      ensures Retryable(turns[i].outcome) <==> IsRetriedOutcome(turns[i].outcome)
    {
      RetryableIff(turns[i].outcome);
    }
    forall i | 0 <= i < |turns| - 1
      ensures IsRetriedOutcome(turns[i].outcome)
      ensures turns[i].pause == Some(if Fits(policy.baseBackoff, i + 1) then policy.baseBackoff * (i + 1)
                                     else policy.baseBackoff)
    {
      assert Retryable(outcomes[i]);
      ProductFits(policy.baseBackoff, i + 1);
    }
  }
}
