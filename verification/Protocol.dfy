// The concurrent protocol under the retry loops: each attempt starts a detached
// worker thread with its own one-shot channel, and the caller waits on that
// channel until a deadline. A run is any sequence of enabled steps of the
// caller, the workers and the clock; the guests are arbitrary.
module Protocol {
  import opened Prelude
  import opened Json
  import opened Errors
  import opened Execution
  import opened Retry

  datatype Config = Config(
    codec: Codec,
    request: nat -> ExecRequest,   // what attempt k is given
    timeout: nat,
    maxAttempts: nat,
    retryable: AttemptEnd -> bool,
    pause: nat -> nat)

  // A worker runs the guest, sends one answer and goes away.
  datatype Worker = Unspawned | Running | Computed(v: RunResult) | Sent(v: RunResult) | Gone(v: RunResult)

  datatype Attempt = Attempt(
    worker: Worker,
    channel: seq<RunResult>,
    sends: nat,
    startedAt: nat,
    endedAt: nat,                  // meaningful once `end` is set
    end: Option<AttemptEnd>)

  datatype Phase = Ready | Waiting | Pausing(until: nat) | Finished

  datatype State = State(clock: nat, phase: Phase, attempts: seq<Attempt>)

  datatype Step =
    | Spawn
    | Reject(error: ExecError)
    | Lose(reason: string)
    | Receive
    | Expire
    | Disconnect
    | Wake
    | Tick(d: nat)
    | Compute(k: nat, run: GuestRun)
    | Send(k: nat)
    | Exit(k: nat)

  const INIT := State(0, Ready, [])

  predicate Enabled(cfg: Config, s: State, step: Step) {
    match step
    case Spawn => s.phase.Ready?
    case Reject(_) => s.phase.Ready?
    case Lose(_) => s.phase.Ready?
    case Receive => s.phase.Waiting? && s.attempts != [] && Last(s).channel != []
    case Expire =>
      s.phase.Waiting? && s.attempts != [] && Last(s).channel == [] && s.clock >= Last(s).startedAt + cfg.timeout
    case Disconnect => s.phase.Waiting? && s.attempts != [] && Last(s).channel == [] && Last(s).worker.Gone?
    case Wake => s.phase.Pausing? && s.clock >= s.phase.until
    case Tick(_) => true
    case Compute(k, _) => k < |s.attempts| && s.attempts[k].worker.Running?
    case Send(k) => k < |s.attempts| && s.attempts[k].worker.Computed?
    case Exit(k) => k < |s.attempts| && s.attempts[k].worker.Sent?
  }

  function Last(s: State): Attempt
    requires s.attempts != []
  {
    s.attempts[|s.attempts| - 1]
  }

  // The loop looks at the end of an attempt and pauses or stops.
  function After(cfg: Config, s: State, count: nat, end: AttemptEnd): Phase {
    if count < cfg.maxAttempts && cfg.retryable(end) then Pausing(s.clock + cfg.pause(count)) else Finished
  }

  function EndLast(cfg: Config, s: State, end: AttemptEnd): State
    requires s.attempts != []
  {
    var n := |s.attempts|;
    s.(phase := After(cfg, s, n, end), attempts := s.attempts[n - 1 := Last(s).(end := Some(end), endedAt := s.clock)])
  }

  function EndEarly(cfg: Config, s: State, end: AttemptEnd): State {
    s.(phase := After(cfg, s, |s.attempts| + 1, end),
       attempts := s.attempts + [Attempt(Unspawned, [], 0, s.clock, s.clock, Some(end))])
  }

  function Apply(cfg: Config, s: State, step: Step): State
    requires Enabled(cfg, s, step)
  {
    match step
    case Spawn => s.(phase := Waiting, attempts := s.attempts + [Attempt(Running, [], 0, s.clock, s.clock, None)])
    case Reject(error) => EndEarly(cfg, s, Rejected(error))
    case Lose(reason) => EndEarly(cfg, s, Lost(reason))
    case Receive => EndLast(cfg, s, Ended(Answer(Last(s).channel[0])))
    case Expire => EndLast(cfg, s, Ended(Expired))
    case Disconnect => EndLast(cfg, s, Ended(Disconnected))
    case Wake => s.(phase := Ready)
    case Tick(d) => s.(clock := s.clock + d)
    case Compute(k, run) =>
      s.(attempts := s.attempts[k := s.attempts[k].(worker := Computed(WorkerAnswer(cfg.codec, cfg.request(k), run)))])
    case Send(k) =>
      // With the receiver gone the send fails and the worker ignores it.
      var a := s.attempts[k];
      var channel := if a.end.None? then a.channel + [a.worker.v] else a.channel;
      s.(attempts := s.attempts[k := a.(worker := Sent(a.worker.v), channel := channel, sends := a.sends + 1)])
    case Exit(k) =>
      s.(attempts := s.attempts[k := s.attempts[k].(worker := Gone(s.attempts[k].worker.v))])
  }

  // The state after a sequence of steps, if every step was enabled.
  function Reach(cfg: Config, steps: seq<Step>): Option<State> {
    if steps == [] then Some(INIT)
    else
      match Reach(cfg, steps[..|steps| - 1])
      case None => None
      case Some(s) =>
        var step := steps[|steps| - 1];
        if Enabled(cfg, s, step) then Some(Apply(cfg, s, step)) else None
  }

  // What the caller's steps record as the end of the last attempt.
  lemma {:induction false} EndIsRecorded(cfg: Config, s: State, step: Step)
    requires Enabled(cfg, s, step) && (step.Reject? || step.Lose? || step.Receive? || step.Expire?)
    ensures Apply(cfg, s, step).attempts != [] && Last(Apply(cfg, s, step)).endedAt == s.clock
    ensures
      var end := Last(Apply(cfg, s, step)).end;
      && (step.Reject? ==> end == Some(Rejected(step.error)))
      && (step.Lose? ==> end == Some(Lost(step.reason)))
      && (step.Receive? ==> end == Some(Ended(Answer(Last(s).channel[0]))))
      && (step.Expire? ==> end == Some(Ended(Expired)))
  {
  }

  // ----- Invariants -----

  predicate Live(a: Attempt) {
    a.worker.Running? || a.worker.Computed?
  }

  predicate Delivered(a: Attempt) {
    a.worker.Sent? || a.worker.Gone?
  }

  predicate HasAnswer(w: Worker) {
    w.Computed? || w.Sent? || w.Gone?
  }

  predicate TimedOut(a: Attempt) {
    a.end == Some(Ended(Expired))
  }

  ghost predicate AnswersFor(cfg: Config, k: nat, v: RunResult) {
    exists run :: v == WorkerAnswer(cfg.codec, cfg.request(k), run)
  }

  ghost predicate AttemptOk(cfg: Config, k: nat, a: Attempt, clock: nat) {
    && (HasAnswer(a.worker) ==> AnswersFor(cfg, k, a.worker.v))
    && a.startedAt <= a.endedAt <= clock && |a.channel| <= 1
    && (a.worker.Unspawned? ==> a.channel == [] && a.sends == 0 && a.end.Some? && !a.end.value.Ended?)
    && (Live(a) ==> a.channel == [] && a.sends == 0 && (a.end.None? || TimedOut(a)))
    && (Delivered(a) ==> a.sends == 1 && (a.end.None? ==> a.channel == [a.worker.v]))
    && (a.end.Some? && a.end.value.Ended? ==> !a.worker.Unspawned?)
    && (a.end.Some? && !a.end.value.Ended? ==> a.worker.Unspawned?)
    && (TimedOut(a) ==> a.endedAt >= a.startedAt + cfg.timeout && a.channel == [])
    && a.end != Some(Ended(Disconnected))
    && (a.end.Some? && a.end.value.Ended? && a.end.value.c.Answer? ==>
          Delivered(a) && a.end.value.c.result == a.worker.v)
  }

  ghost predicate Retried(cfg: Config, a: Attempt) {
    a.end.Some? && cfg.retryable(a.end.value)
  }

  // Where the caller is, and that it only goes on after a retryable end.
  ghost predicate PhaseOk(cfg: Config, s: State) {
    var n := |s.attempts|;
    && n <= cfg.maxAttempts
    && (forall i :: 0 <= i < n - 1 ==> Retried(cfg, s.attempts[i]))
    && match s.phase
       case Ready => n < cfg.maxAttempts && (n > 0 ==> Retried(cfg, s.attempts[n - 1]))
       case Pausing(_) => 0 < n < cfg.maxAttempts && Retried(cfg, s.attempts[n - 1])
       case Waiting => n > 0 && s.attempts[n - 1].end.None?
       case Finished =>
         n > 0 && s.attempts[n - 1].end.Some? && (n == cfg.maxAttempts || !Retried(cfg, s.attempts[n - 1]))
  }

  ghost predicate AttemptsOk(cfg: Config, s: State) {
    forall i :: 0 <= i < |s.attempts| ==> AttemptOk(cfg, i, s.attempts[i], s.clock)
  }

  ghost predicate Inv(cfg: Config, s: State) {
    AttemptsOk(cfg, s) && PhaseOk(cfg, s)
  }

  predicate IsWorkerStep(step: Step) {
    step.Compute? || step.Send? || step.Exit?
  }

  lemma {:induction false} WorkerStepOk(cfg: Config, s: State, step: Step)
    requires AttemptsOk(cfg, s) && Enabled(cfg, s, step) && IsWorkerStep(step)
    ensures AttemptsOk(cfg, Apply(cfg, s, step))
  {
    assert AttemptOk(cfg, step.k, s.attempts[step.k], s.clock);
    assert AttemptOk(cfg, step.k, Apply(cfg, s, step).attempts[step.k], s.clock);
  }

  lemma {:induction false} CallerStepOk(cfg: Config, s: State, step: Step)
    requires Inv(cfg, s) && Enabled(cfg, s, step) && !IsWorkerStep(step)
    ensures AttemptsOk(cfg, Apply(cfg, s, step))
  {
    if s.attempts != [] {
      assert AttemptOk(cfg, |s.attempts| - 1, Last(s), s.clock);
    }
  }

  lemma {:induction false} InvStep(cfg: Config, s: State, step: Step)
    requires Inv(cfg, s) && Enabled(cfg, s, step)
    ensures Inv(cfg, Apply(cfg, s, step))
  {
    if IsWorkerStep(step) {
      WorkerStepOk(cfg, s, step);
    } else {
      CallerStepOk(cfg, s, step);
    }
    PhaseStep(cfg, s, step);
  }

  lemma {:induction false} PhaseStep(cfg: Config, s: State, step: Step)
    requires PhaseOk(cfg, s) && Enabled(cfg, s, step)
    ensures PhaseOk(cfg, Apply(cfg, s, step))
  {
  }

  lemma {:induction false} ReachInv(cfg: Config, steps: seq<Step>)
    requires cfg.maxAttempts >= 1 && Reach(cfg, steps).Some?
    ensures Inv(cfg, Reach(cfg, steps).value)
  {
    if steps != [] {
      ReachInv(cfg, steps[..|steps| - 1]);
      InvStep(cfg, Reach(cfg, steps[..|steps| - 1]).value, steps[|steps| - 1]);
    }
  }

  // ----- Safety over every interleaving -----

  // At most `maxAttempts` attempts are ever started, so at most that many
  // workers; each sends at most once; an attempt ends with its own worker's
  // answer, to its own request, or by its deadline; never because its channel
  // was closed.
  lemma {:induction false} AttemptsAreSound(cfg: Config, steps: seq<Step>, k: nat)
    requires cfg.maxAttempts >= 1 && Reach(cfg, steps).Some?
    requires k < |Reach(cfg, steps).value.attempts|
    ensures |Reach(cfg, steps).value.attempts| <= cfg.maxAttempts
    ensures
      var s := Reach(cfg, steps).value;
      var a := s.attempts[k];
      && a.sends <= 1 && |a.channel| <= 1
      && (a.end.Some? && a.end.value.Ended? ==>
            match a.end.value.c
            case Answer(v) => Delivered(a) && v == a.worker.v && AnswersFor(cfg, k, v)
            case Expired => a.endedAt >= a.startedAt + cfg.timeout && a.channel == []
            case Disconnected => false)
  {
    ReachInv(cfg, steps);
    var a := Reach(cfg, steps).value.attempts[k];
    assert AttemptOk(cfg, k, a, Reach(cfg, steps).value.clock);
  }

  ghost predicate Spaced(cfg: Config, s: State) {
    var n := |s.attempts|;
    && (forall i :: 0 <= i < n - 1 ==> s.attempts[i].endedAt + cfg.pause(i + 1) <= s.attempts[i + 1].startedAt)
    && (n > 0 && s.phase.Pausing? ==> s.phase.until == s.attempts[n - 1].endedAt + cfg.pause(n))
    && (n > 0 && s.phase.Ready? ==> s.attempts[n - 1].endedAt + cfg.pause(n) <= s.clock)
  }

  // A worker's step, or time passing, changes no recorded time and no phase.
  lemma {:induction false} SpacedBackground(cfg: Config, s: State, step: Step)
    requires Spaced(cfg, s) && Enabled(cfg, s, step) && (IsWorkerStep(step) || step.Tick?)
    ensures Spaced(cfg, Apply(cfg, s, step))
  {
    var t := Apply(cfg, s, step);
    assert t.phase == s.phase && |t.attempts| == |s.attempts| && t.clock >= s.clock;
    assert forall i :: 0 <= i < |s.attempts| ==>
        t.attempts[i].startedAt == s.attempts[i].startedAt && t.attempts[i].endedAt == s.attempts[i].endedAt;
  }

  lemma {:induction false} SpacedEndLast(cfg: Config, s: State, end: AttemptEnd)
    requires Spaced(cfg, s) && s.phase.Waiting? && s.attempts != []
    ensures Spaced(cfg, EndLast(cfg, s, end))
  {
    var t := EndLast(cfg, s, end);
    assert forall i :: 0 <= i < |s.attempts| ==> t.attempts[i].startedAt == s.attempts[i].startedAt;
    assert forall i :: 0 <= i < |s.attempts| - 1 ==> t.attempts[i].endedAt == s.attempts[i].endedAt;
  }

  lemma {:induction false} SpacedEndEarly(cfg: Config, s: State, end: AttemptEnd)
    requires Spaced(cfg, s) && s.phase.Ready?
    ensures Spaced(cfg, EndEarly(cfg, s, end))
  {
    var t := EndEarly(cfg, s, end);
    assert forall i :: 0 <= i < |s.attempts| ==> t.attempts[i] == s.attempts[i];
  }

  lemma {:induction false} SpacedStep(cfg: Config, s: State, step: Step)
    requires Spaced(cfg, s) && Enabled(cfg, s, step)
    ensures Spaced(cfg, Apply(cfg, s, step))
  {
    match step
    case Receive => SpacedEndLast(cfg, s, Ended(Answer(Last(s).channel[0])));
    case Expire => SpacedEndLast(cfg, s, Ended(Expired));
    case Disconnect => SpacedEndLast(cfg, s, Ended(Disconnected));
    case Reject(error) => SpacedEndEarly(cfg, s, Rejected(error));
    case Lose(reason) => SpacedEndEarly(cfg, s, Lost(reason));
    case Spawn =>
      assert forall i :: 0 <= i < |s.attempts| ==> Apply(cfg, s, step).attempts[i] == s.attempts[i];
    case Wake =>
    case _ => SpacedBackground(cfg, s, step);
  }

  // Two attempts are always separated by the whole pause.
  lemma {:induction false} PausesAreKept(cfg: Config, steps: seq<Step>)
    requires Reach(cfg, steps).Some?
    ensures Spaced(cfg, Reach(cfg, steps).value)
  {
    if steps != [] {
      PausesAreKept(cfg, steps[..|steps| - 1]);
      SpacedStep(cfg, Reach(cfg, steps[..|steps| - 1]).value, steps[|steps| - 1]);
    }
  }

  // The branch for a closed channel is dead: a worker that is gone has sent.
  lemma {:induction false} DisconnectNeverHappens(cfg: Config, steps: seq<Step>)
    requires cfg.maxAttempts >= 1 && Reach(cfg, steps).Some?
    ensures !Enabled(cfg, Reach(cfg, steps).value, Disconnect)
  {
    ReachInv(cfg, steps);
    var s := Reach(cfg, steps).value;
    if s.attempts != [] {
      assert AttemptOk(cfg, |s.attempts| - 1, Last(s), s.clock);
    }
  }

  function Progress(w: Worker): nat {
    match w case Unspawned => 0 case Running => 1 case Computed(_) => 2 case Sent(_) => 3 case Gone(_) => 4
  }

  // No step rewrites history: an attempt keeps its end and its times, a worker
  // only moves forward and never changes its answer. A late answer therefore
  // stays with its own attempt.
  lemma {:induction false} HistoryIsStable(cfg: Config, s: State, step: Step, k: nat)
    requires Inv(cfg, s) && Enabled(cfg, s, step) && k < |s.attempts|
    ensures
      var t := Apply(cfg, s, step);
      && s.clock <= t.clock && |s.attempts| <= |t.attempts| <= |s.attempts| + 1
      && (s.attempts[k].end.Some? ==>
            t.attempts[k].end == s.attempts[k].end &&
            t.attempts[k].endedAt == s.attempts[k].endedAt &&
            t.attempts[k].channel == s.attempts[k].channel)
      && t.attempts[k].startedAt == s.attempts[k].startedAt
      && Progress(s.attempts[k].worker) <= Progress(t.attempts[k].worker)
      && (HasAnswer(s.attempts[k].worker) ==>
            HasAnswer(t.attempts[k].worker) && t.attempts[k].worker.v == s.attempts[k].worker.v)
  {
  }

  // The end of attempt k, once it has one.
  function EndAt(s: State, k: nat): AttemptEnd {
    if k < |s.attempts| && s.attempts[k].end.Some? then s.attempts[k].end.value else Lost("")
  }

  function Ends(s: State): (ends: seq<AttemptEnd>)
    ensures |ends| == |s.attempts| && forall k :: 0 <= k < |ends| ==> ends[k] == EndAt(s, k)
  {
    seq(|s.attempts|, k requires 0 <= k < |s.attempts| => EndAt(s, k))
  }

  // A finished run stopped where a sequential retry loop would have.
  lemma {:induction false} FinishedStopsCorrectly(cfg: Config, steps: seq<Step>)
    requires cfg.maxAttempts >= 1 && Reach(cfg, steps).Some? && Reach(cfg, steps).value.phase.Finished?
    ensures StopsCorrectly(cfg.maxAttempts, cfg.retryable, Ends(Reach(cfg, steps).value))
  {
    ReachInv(cfg, steps);
    var s := Reach(cfg, steps).value;
    forall i | 0 <= i < |s.attempts| - 1
      ensures cfg.retryable(EndAt(s, i))
    {
      assert Retried(cfg, s.attempts[i]);
    }
  }

  // ----- How many workers run at once -----

  function CountLive(attempts: seq<Attempt>): nat {
    if attempts == [] then 0
    else CountLive(attempts[..|attempts| - 1]) + (if Live(attempts[|attempts| - 1]) then 1 else 0)
  }

  function CountTimedOut(attempts: seq<Attempt>): nat {
    if attempts == [] then 0
    else CountTimedOut(attempts[..|attempts| - 1]) + (if TimedOut(attempts[|attempts| - 1]) then 1 else 0)
  }

  lemma {:induction false} LiveImpliesTimedOutCounts(attempts: seq<Attempt>)
    requires forall i :: 0 <= i < |attempts| ==> Live(attempts[i]) ==> TimedOut(attempts[i])
    ensures CountLive(attempts) <= CountTimedOut(attempts)
  {
    if attempts != [] {
      LiveImpliesTimedOutCounts(attempts[..|attempts| - 1]);
    }
  }

  // An unfinished worker belongs to the attempt being waited for or to one that
  // timed out, so there are at most as many as time-outs, plus one while waiting.
  lemma {:induction false} LiveWorkersBound(cfg: Config, steps: seq<Step>)
    requires cfg.maxAttempts >= 1 && Reach(cfg, steps).Some?
    ensures
      var s := Reach(cfg, steps).value;
      && (forall i :: 0 <= i < |s.attempts| && Live(s.attempts[i]) ==>
            TimedOut(s.attempts[i]) || (i == |s.attempts| - 1 && s.phase.Waiting?))
      && CountLive(s.attempts) <= CountTimedOut(s.attempts) + (if s.phase.Waiting? then 1 else 0)
  {
    ReachInv(cfg, steps);
    var s := Reach(cfg, steps).value;
    forall i | 0 <= i < |s.attempts| && Live(s.attempts[i])
      ensures TimedOut(s.attempts[i]) || (i == |s.attempts| - 1 && s.phase.Waiting?)
    {
      LiveIsExpected(cfg, s, i);
    }
    if s.phase.Waiting? {
      LiveImpliesTimedOutCounts(s.attempts[..|s.attempts| - 1]);
    } else {
      LiveImpliesTimedOutCounts(s.attempts);
    }
  }

  lemma {:induction false} LiveIsExpected(cfg: Config, s: State, i: nat)
    requires Inv(cfg, s) && i < |s.attempts| && Live(s.attempts[i])
    ensures TimedOut(s.attempts[i]) || (i == |s.attempts| - 1 && s.phase.Waiting?)
  {
    assert AttemptOk(cfg, i, s.attempts[i], s.clock);
    assert i < |s.attempts| - 1 ==> Retried(cfg, s.attempts[i]);
  }

  // If time-outs are final, attempts never overlap: when the next worker may be
  // spawned, every earlier one has delivered its answer.
  lemma {:induction false} NoOverlapWhenTimeoutsAreFinal(cfg: Config, steps: seq<Step>)
    requires cfg.maxAttempts >= 1 && Reach(cfg, steps).Some?
    requires !cfg.retryable(Ended(Expired))
    ensures
      var s := Reach(cfg, steps).value;
      Enabled(cfg, s, Spawn) ==> forall i :: 0 <= i < |s.attempts| ==> !Live(s.attempts[i])
  {
    ReachInv(cfg, steps);
    var s := Reach(cfg, steps).value;
    forall i | 0 <= i < |s.attempts| && s.phase.Ready?
      ensures !Live(s.attempts[i])
    {
      if Live(s.attempts[i]) {
        LiveIsExpected(cfg, s, i);
        LiveIsRetried(cfg, s, i);
      }
    }
  }

  lemma {:induction false} LiveIsRetried(cfg: Config, s: State, i: nat)
    requires PhaseOk(cfg, s) && s.phase.Ready? && i < |s.attempts| && TimedOut(s.attempts[i])
    ensures cfg.retryable(Ended(Expired))
  {
    assert Retried(cfg, s.attempts[i]);
  }

  // If they are retried, the bound is met: some interleaving has all
  // `maxAttempts` workers running at the same time.
  lemma {:induction false} AllWorkersMayRunAtOnce(cfg: Config) returns (steps: seq<Step>)
    requires cfg.maxAttempts >= 1 && cfg.retryable(Ended(Expired))
    ensures Reach(cfg, steps).Some? && CountLive(Reach(cfg, steps).value.attempts) == cfg.maxAttempts
  {
    var before := Stragglers(cfg, cfg.maxAttempts - 1);
    steps := before + [Spawn];
    assert steps[..|steps| - 1] == before;
    var s, t := Reach(cfg, before).value, Reach(cfg, steps).value;
    assert t.attempts[..|t.attempts| - 1] == s.attempts;
  }

  lemma {:induction false} Stragglers(cfg: Config, n: nat) returns (steps: seq<Step>)
    requires n < cfg.maxAttempts && cfg.retryable(Ended(Expired))
    ensures Reach(cfg, steps).Some?
    ensures
      var s := Reach(cfg, steps).value;
      s.phase.Ready? && |s.attempts| == n && CountLive(s.attempts) == n
  {
    if n == 0 {
      steps := [];
    } else {
      var before := Stragglers(cfg, n - 1);
      var s := Reach(cfg, before).value;
      steps := Then(cfg, before, Spawn);
      steps := Then(cfg, steps, Tick(cfg.timeout));
      steps := Then(cfg, steps, Expire);
      steps := Then(cfg, steps, Tick(cfg.pause(n)));
      steps := Then(cfg, steps, Wake);
      var t := Reach(cfg, steps).value;
      assert t.attempts[..n - 1] == s.attempts;
    }
  }

  lemma {:induction false} Then(cfg: Config, steps: seq<Step>, step: Step) returns (longer: seq<Step>)
    requires Reach(cfg, steps).Some? && Enabled(cfg, Reach(cfg, steps).value, step)
    ensures Reach(cfg, longer) == Some(Apply(cfg, Reach(cfg, steps).value, step))
  {
    longer := steps + [step];
    assert longer[..|longer| - 1] == steps;
  }

  // ----- Progress -----

  // The caller is never stuck: while it waits, letting the clock run to the
  // deadline enables it to receive or to give up; a pause ends by itself.
  lemma {:induction false} CallerAlwaysProceeds(cfg: Config, steps: seq<Step>) returns (d: nat)
    requires cfg.maxAttempts >= 1 && Reach(cfg, steps).Some?
    ensures
      var later := Apply(cfg, Reach(cfg, steps).value, Tick(d));
      match later.phase
      case Ready => Enabled(cfg, later, Spawn)
      case Waiting => Enabled(cfg, later, Receive) || Enabled(cfg, later, Expire)
      case Pausing(_) => Enabled(cfg, later, Wake)
      case Finished => true
  {
    ReachInv(cfg, steps);
    var s := Reach(cfg, steps).value;
    d := if s.phase.Pausing? then s.phase.until else cfg.timeout;
    if s.phase.Waiting? {
      assert AttemptOk(cfg, |s.attempts| - 1, Last(s), s.clock);
    }
  }
}
