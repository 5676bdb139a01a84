// How often the token cache calls its broker: exact counts over every run of
// the thread protocol, and what a caller must see before a call to be sure that
// it causes no second one.
module TokenCalls {
  import opened Prelude
  import opened TokenCache

  // ----- Counting in the log -----

  function Calls(log: seq<Event>, key: Key): nat {
    if log == [] then 0
    else
      var e := log[|log| - 1];
      Calls(log[..|log| - 1], key) + (if e.Called? && e.key == key then 1 else 0)
  }

  function Successes(log: seq<Event>, key: Key): nat {
    if log == [] then 0
    else
      var e := log[|log| - 1];
      Successes(log[..|log| - 1], key) + (if e.Called? && e.key == key && e.answer.Ok? then 1 else 0)
  }

  function Failures(log: seq<Event>, key: Key): nat {
    if log == [] then 0
    else
      var e := log[|log| - 1];
      Failures(log[..|log| - 1], key) + (if e.Called? && e.key == key && e.answer.Err? then 1 else 0)
  }

  predicate WasInserted(log: seq<Event>, key: Key) {
    exists e :: e in log && e.Inserted? && e.key == key
  }

  // Lookups of the key made before it first entered the cache.
  function EarlyLookups(log: seq<Event>, key: Key): nat {
    if log == [] then 0
    else
      var e := log[|log| - 1];
      var before := log[..|log| - 1];
      EarlyLookups(before, key) + (if e.Looked? && e.key == key && !WasInserted(before, key) then 1 else 0)
  }

  lemma {:induction false} Appended(log: seq<Event>, e: Event, key: Key)
    ensures WasInserted(log + [e], key) == (WasInserted(log, key) || (e.Inserted? && e.key == key))
    ensures Calls(log + [e], key) == Calls(log, key) + (if e.Called? && e.key == key then 1 else 0)
    ensures EarlyLookups(log + [e], key) ==
              EarlyLookups(log, key) + (if e.Looked? && e.key == key && !WasInserted(log, key) then 1 else 0)
    ensures Successes(log + [e], key) ==
              Successes(log, key) + (if e.Called? && e.key == key && e.answer.Ok? then 1 else 0)
    ensures Failures(log + [e], key) ==
              Failures(log, key) + (if e.Called? && e.key == key && e.answer.Err? then 1 else 0)
  {
    assert (log + [e])[..|log + [e]| - 1] == log;
    assert e in log + [e];
    assert forall x :: x in log ==> x in log + [e];
  }

  // ----- Counting threads -----

  datatype Stage = BeforeLook | BeforeCall | AfterMiss

  predicate InStage(pc: Pc, stage: Stage, key: Key) {
    match stage
    case BeforeLook => pc == Looking(key)
    case BeforeCall => pc == Fetching(key)
    case AfterMiss => pc == Fetching(key) || (pc.Inserting? && pc.key == key)
  }

  function Threads(s: State, stage: Stage, key: Key): set<nat> {
    set t | t in s.pcs && InStage(s.pcs[t], stage, key)
  }

  lemma {:induction false} SizeWithout(a: set<nat>, t: nat)
    ensures |a| == |a - {t}| + (if t in a then 1 else 0)
  {
    assert a == if t in a then (a - {t}) + {t} else a - {t};
  }

  lemma {:induction false} ThreadsUpdated(s: State, s': State, t: nat, pc: Pc, stage: Stage, key: Key)
    requires s'.pcs == s.pcs[t := pc]
    ensures |Threads(s', stage, key)| == |Threads(s, stage, key)|
              + (if InStage(pc, stage, key) then 1 else 0) - (if InStage(PcOf(s, t), stage, key) then 1 else 0)
  {
    ThreadsElsewhere(s, s', t, stage, key);
    SizeWithout(Threads(s, stage, key), t);
    SizeWithout(Threads(s', stage, key), t);
  }

  lemma {:induction false} ThreadsElsewhere(s: State, s': State, t: nat, stage: Stage, key: Key)
    requires t in s'.pcs && s'.pcs == s.pcs[t := s'.pcs[t]]
    ensures Threads(s', stage, key) - {t} == Threads(s, stage, key) - {t}
  {
    assert forall u :: u != t ==> (u in s'.pcs <==> u in s.pcs) && (u in s.pcs ==> s'.pcs[u] == s.pcs[u]);
  }

  // The step is a lookup of the key that misses.
  predicate Misses(s: State, step: Step, key: Key) {
    step.Look? && PcOf(s, step.t) == Looking(key) && key !in s.cache
  }

  // How each step moves its own thread between the stages of a key.
  lemma {:induction false} ThreadsStep(s: State, step: Step, key: Key)
    requires Enabled(s, step)
    ensures
      var s' := Apply(s, step);
      && |Threads(s', BeforeLook, key)| == |Threads(s, BeforeLook, key)|
           + (if step.Begin? && step.key == key then 1 else 0)
           - (if step.Look? && PcOf(s, step.t).key == key then 1 else 0)
      && |Threads(s', BeforeCall, key)| == |Threads(s, BeforeCall, key)|
           + (if Misses(s, step, key) then 1 else 0)
           - (if step.Fetch? && PcOf(s, step.t).key == key then 1 else 0)
      && |Threads(s', AfterMiss, key)| == |Threads(s, AfterMiss, key)|
           + (if Misses(s, step, key) then 1 else 0)
           - (if step.Fetch? && PcOf(s, step.t).key == key && step.answer.Err? then 1 else 0)
           - (if step.Insert? && PcOf(s, step.t).key == key then 1 else 0)
  {
    var s' := Apply(s, step);
    var pc := PcOf(s', step.t);
    assert s'.pcs == s.pcs[step.t := pc];
    ThreadsUpdated(s, s', step.t, pc, BeforeLook, key);
    ThreadsUpdated(s, s', step.t, pc, BeforeCall, key);
    ThreadsUpdated(s, s', step.t, pc, AfterMiss, key);
  }

  // What a step adds to the counts of the log.
  lemma {:induction false} LogStep(s: State, step: Step, key: Key)
    requires Enabled(s, step) && (key in s.cache <==> WasInserted(s.log, key))
    ensures
      var s' := Apply(s, step);
      && (key in s'.cache <==> WasInserted(s'.log, key))
      && Calls(s'.log, key) == Calls(s.log, key) + (if step.Fetch? && PcOf(s, step.t).key == key then 1 else 0)
      && Failures(s'.log, key) == Failures(s.log, key)
           + (if step.Fetch? && PcOf(s, step.t).key == key && step.answer.Err? then 1 else 0)
      && EarlyLookups(s'.log, key) == EarlyLookups(s.log, key) + (if Misses(s, step, key) then 1 else 0)
  {
    if !step.Begin? {
      Appended(s.log, Apply(s, step).log[|s.log|], key);
    }
  }

  // ----- How often the broker is called -----

  ghost predicate CallInv(s: State, key: Key) {
    var early, missed := EarlyLookups(s.log, key), |Threads(s, AfterMiss, key)| + Failures(s.log, key);
    && (key in s.cache <==> WasInserted(s.log, key))
    && Calls(s.log, key) + |Threads(s, BeforeCall, key)| == early
    && missed <= early
    && (early > 0 ==> missed > 0 || key in s.cache)
  }

  lemma {:induction false} CallStep(s: State, step: Step, key: Key)
    requires CallInv(s, key) && Enabled(s, step)
    ensures CallInv(Apply(s, step), key)
  {
    ThreadsStep(s, step, key);
    LogStep(s, step, key);
  }

  // Exactly: one call for each lookup made before the key first entered the
  // cache, less the threads that still have to make theirs. Each such lookup
  // is by a thread that is still before its insertion, was answered with an
  // error, or led to the insertion.
  lemma {:induction false} BrokerCalls(steps: seq<Step>, key: Key)
    requires Reach(steps).Some?
    ensures CallInv(Reach(steps).value, key)
  {
    if steps == [] {
      assert Threads(INIT, BeforeCall, key) == Threads(INIT, AfterMiss, key) == {};
    } else {
      BrokerCalls(steps[..|steps| - 1], key);
      CallStep(Reach(steps[..|steps| - 1]).value, steps[|steps| - 1], key);
    }
  }

  // ----- Why a key is asked for again -----

  // The two ways: two threads are between their miss and its insertion at the
  // same time, or one is there after the broker has answered with an error.
  ghost predicate IsRepeating(s: State, key: Key) {
    || |Threads(s, AfterMiss, key)| > 1
    || (Threads(s, AfterMiss, key) != {} && Failures(s.log, key) > 0)
  }

  ghost predicate Repeated(steps: seq<Step>, key: Key) {
    steps != []
    && (Repeated(steps[..|steps| - 1], key) || (Reach(steps).Some? && IsRepeating(Reach(steps).value, key)))
  }

  lemma {:induction false} EarlyLookupsRepeat(steps: seq<Step>, key: Key)
    requires Reach(steps).Some?
    ensures EarlyLookups(Reach(steps).value.log, key) <= 1 <==> !Repeated(steps, key)
  {
    if steps != [] {
      var before, step := steps[..|steps| - 1], steps[|steps| - 1];
      var s := Reach(before).value;
      EarlyLookupsRepeat(before, key);
      BrokerCalls(before, key);
      BrokerCalls(steps, key);
      LogStep(s, step, key);
      ThreadsStep(s, step, key);
      var after := Threads(Reach(steps).value, AfterMiss, key);
      assert |after| == 0 <==> after == {};
    }
  }

  // The cache is there to avoid repeated calls for one key. Once every thread
  // is done, it has done so exactly when neither of the two ways happened.
  lemma {:induction false} NoRepeatedCallIff(steps: seq<Step>, key: Key)
    requires Reach(steps).Some? && forall t :: PcOf(Reach(steps).value, t).Idle?
    ensures Calls(Reach(steps).value.log, key) <= 1 <==> !Repeated(steps, key)
  {
    BrokerCalls(steps, key);
    EarlyLookupsRepeat(steps, key);
    var s := Reach(steps).value;
    assert forall t :: t in s.pcs ==> PcOf(s, t).Idle?;
    assert Threads(s, BeforeCall, key) == {};
  }

  // ----- When a call may begin -----

  predicate HasBegun(steps: seq<Step>, key: Key) {
    exists i :: 0 <= i < |steps| && steps[i].Begin? && steps[i].key == key
  }

  // Every call for the key after the first begins when the key is cached.
  ghost predicate BeginsWhenCached(steps: seq<Step>, key: Key) {
    steps == [] ||
    (var before, last := steps[..|steps| - 1], steps[|steps| - 1];
     && BeginsWhenCached(before, key)
     && (last.Begin? && last.key == key ==>
           !HasBegun(before, key) || (Reach(before).Some? && key in Reach(before).value.cache)))
  }

  // A caller that has been given a token knows that the key is cached.
  lemma {:induction false} ReturnedMeansCached(steps: seq<Step>)
    requires Reach(steps).Some?
    ensures
      var s := Reach(steps).value;
      && (forall e :: e in s.log && e.Returned? && e.answer.Ok? ==> e.key in s.cache)
      && (forall t :: t in s.pcs && s.pcs[t].Returning? && s.pcs[t].answer.Ok? ==> s.pcs[t].key in s.cache)
  {
    if steps != [] {
      ReturnedMeansCached(steps[..|steps| - 1]);
    }
  }

  lemma {:induction false} HasBegunSnoc(steps: seq<Step>, step: Step, key: Key)
    ensures HasBegun(steps + [step], key) <==> HasBegun(steps, key) || (step.Begin? && step.key == key)
  {
    var all := steps + [step];
    if step.Begin? && step.key == key {
      assert all[|steps|] == step;
    }
    if HasBegun(steps, key) {
      var i :| 0 <= i < |steps| && steps[i].Begin? && steps[i].key == key;
      assert all[i] == steps[i];
    }
  }

  // Before the key is cached, every call for it that began has missed, or still
  // has to look; so if calls begin only then, there is at most one.
  lemma {:induction false} BegunCount(steps: seq<Step>, key: Key)
    requires Reach(steps).Some?
    ensures
      var s := Reach(steps).value;
      var asked := EarlyLookups(s.log, key) + |Threads(s, BeforeLook, key)|;
      && (key !in s.cache ==> (HasBegun(steps, key) <==> asked > 0))
      && (key !in s.cache && BeginsWhenCached(steps, key) ==> asked <= 1)
      && (BeginsWhenCached(steps, key) ==> EarlyLookups(s.log, key) <= 1)
  {
    if steps == [] {
      assert Threads(INIT, BeforeLook, key) == {};
    } else {
      var before, step := steps[..|steps| - 1], steps[|steps| - 1];
      assert steps == before + [step];
      BegunCount(before, key);
      BrokerCalls(before, key);
      HasBegunSnoc(before, step, key);
      LogStep(Reach(before).value, step, key);
      ThreadsStep(Reach(before).value, step, key);
    }
  }

  // If every later call begins when the key is cached, the broker is called at
  // most once for it.
  lemma {:induction false} OneCallIfCached(steps: seq<Step>, key: Key)
    requires Reach(steps).Some? && BeginsWhenCached(steps, key)
    ensures Calls(Reach(steps).value.log, key) <= 1
  {
    BegunCount(steps, key);
    BrokerCalls(steps, key);
  }

  // Every call for the key after the first begins once one has returned a token.
  ghost predicate BeginsAfterToken(steps: seq<Step>, key: Key) {
    steps == [] ||
    (var before, last := steps[..|steps| - 1], steps[|steps| - 1];
     && BeginsAfterToken(before, key)
     && (last.Begin? && last.key == key && HasBegun(before, key) ==>
           Reach(before).Some? &&
           exists e :: e in Reach(before).value.log && e.Returned? && e.key == key && e.answer.Ok?))
  }

  lemma {:induction false} AfterTokenIsCached(steps: seq<Step>, key: Key)
    requires BeginsAfterToken(steps, key)
    ensures BeginsWhenCached(steps, key)
  {
    if steps != [] {
      var before := steps[..|steps| - 1];
      AfterTokenIsCached(before, key);
      if Reach(before).Some? {
        ReturnedMeansCached(before);
      }
    }
  }

  // In particular, waiting for the first token is enough.
  lemma {:induction false} OneCallAfterToken(steps: seq<Step>, key: Key)
    requires Reach(steps).Some? && BeginsAfterToken(steps, key)
    ensures Calls(Reach(steps).value.log, key) <= 1
  {
    AfterTokenIsCached(steps, key);
    OneCallIfCached(steps, key);
  }

  // No more calls for the key begin, yet the broker is called twice for it.
  ghost predicate MayRepeat(steps: seq<Step>, key: Key) {
    exists more :: !HasBegun(more, key) && CallsTwice(steps + more, key)
  }

  ghost predicate CallsTwice(steps: seq<Step>, key: Key) {
    Reach(steps).Some? && Calls(Reach(steps).value.log, key) >= 2
  }

  // The broker may refuse a thread that is about to call it.
  lemma {:induction false} Refuse(steps: seq<Step>, t: nat, key: Key) returns (longer: seq<Step>)
    requires Reach(steps).Some? && PcOf(Reach(steps).value, t) == Fetching(key)
    ensures longer == steps + [Fetch(t, Err(""))] && Reach(longer).Some?
    ensures
      var s, s' := Reach(steps).value, Reach(longer).value;
      && Calls(s'.log, key) == Calls(s.log, key) + 1 && s'.cache == s.cache
      && forall u :: u != t ==> PcOf(s', u) == PcOf(s, u)
  {
    Then(steps, Fetch(t, Err("")));
    longer := steps + [Fetch(t, Err(""))];
    Appended(Reach(steps).value.log, Called(t, key, Err("")), key);
  }

  // So may it refuse one that is about to miss.
  lemma {:induction false} MissAndRefuse(steps: seq<Step>, t: nat, key: Key) returns (longer: seq<Step>)
    requires Reach(steps).Some? && PcOf(Reach(steps).value, t) == Looking(key) && key !in Reach(steps).value.cache
    ensures longer == steps + [Look(t), Fetch(t, Err(""))] && Reach(longer).Some?
    ensures
      var s, s' := Reach(steps).value, Reach(longer).value;
      && Calls(s'.log, key) == Calls(s.log, key) + 1 && s'.cache == s.cache
      && forall u :: u != t ==> PcOf(s', u) == PcOf(s, u)
  {
    Then(steps, Look(t));
    Appended(Reach(steps).value.log, Looked(t, key, false), key);
    longer := Refuse(steps + [Look(t)], t, key);
    assert longer == steps + [Look(t), Fetch(t, Err(""))];
  }

  // With two calls for the key begun and none of them cached, one of them can
  // have called the broker while the other, of `u`, still has to look.
  lemma {:induction false} FirstCall(steps: seq<Step>, u: nat, key: Key) returns (longer: seq<Step>, more: seq<Step>)
    requires Reach(steps).Some? && PcOf(Reach(steps).value, u) == Looking(key) && key !in Reach(steps).value.cache
    requires EarlyLookups(Reach(steps).value.log, key) + |Threads(Reach(steps).value, BeforeLook, key)| >= 2
    ensures longer == steps + more && !HasBegun(more, key)
    ensures Reach(longer).Some? && PcOf(Reach(longer).value, u) == Looking(key) && key !in Reach(longer).value.cache
    ensures Calls(Reach(longer).value.log, key) >= 1
  {
    var s := Reach(steps).value;
    BrokerCalls(steps, key);
    if Calls(s.log, key) > 0 {
      return steps, [];
    }
    var calling, looking := Threads(s, BeforeCall, key), Threads(s, BeforeLook, key);
    if |calling| > 0 {
      var t :| t in calling;
      more := [Fetch(t, Err(""))];
      longer := Refuse(steps, t, key);
    } else {
      SizeWithout(looking, u);
      assert |looking - {u}| > 0;
      var t :| t in looking - {u};
      more := [Look(t), Fetch(t, Err(""))];
      longer := MissAndRefuse(steps, t, key);
    }
  }

  lemma {:induction false} UncachedBeginRepeats(steps: seq<Step>, u: nat, key: Key)
    requires Reach(steps).Some? && PcOf(Reach(steps).value, u).Idle?
    requires HasBegun(steps, key) && key !in Reach(steps).value.cache
    ensures MayRepeat(steps + [Begin(u, key)], key)
  {
    var began := steps + [Begin(u, key)];
    Then(steps, Begin(u, key));
    BegunCount(steps, key);
    ThreadsStep(Reach(steps).value, Begin(u, key), key);
    var first, more := FirstCall(began, u, key);
    var second := MissAndRefuse(first, u, key);
    var all := more + [Look(u)] + [Fetch(u, Err(""))];
    assert second == began + all;
    HasBegunSnoc(more, Look(u), key);
    HasBegunSnoc(more + [Look(u)], Fetch(u, Err("")), key);
    assert CallsTwice(began + all, key);
  }

  lemma {:induction false} StillWhenCached(steps: seq<Step>, more: seq<Step>, key: Key)
    requires BeginsWhenCached(steps, key) && !HasBegun(more, key)
    ensures BeginsWhenCached(steps + more, key)
  {
    if more == [] {
      assert steps + more == steps;
    } else {
      var init, last := more[..|more| - 1], more[|more| - 1];
      assert more == init + [last];
      HasBegunSnoc(init, last, key);
      StillWhenCached(steps, init, key);
      assert (steps + more)[..|steps + more| - 1] == steps + init;
    }
  }

  // The condition is exact, and one that can be seen before the call: after a
  // history that kept to it, one more call is safe exactly when it is the first
  // for the key or the key is cached.
  lemma {:induction false} BeginIsSafeIff(steps: seq<Step>, u: nat, key: Key)
    requires Reach(steps).Some? && PcOf(Reach(steps).value, u).Idle? && BeginsWhenCached(steps, key)
    ensures !MayRepeat(steps + [Begin(u, key)], key) <==> !HasBegun(steps, key) || key in Reach(steps).value.cache
  {
    var began := steps + [Begin(u, key)];
    assert began[..|began| - 1] == steps;
    if HasBegun(steps, key) && key !in Reach(steps).value.cache {
      UncachedBeginRepeats(steps, u, key);
    } else {
      forall more | !HasBegun(more, key)
        ensures !CallsTwice(began + more, key)
      {
        if Reach(began + more).Some? {
          StillWhenCached(began, more, key);
          OneCallIfCached(began + more, key);
        }
      }
    }
  }

  // Two threads that both miss make two calls; the later insertion wins, and
  // the other thread is about to return a token that is no longer the cached one.
  lemma {:induction false} ConcurrentMissesCallTwice(key: Key) returns (steps: seq<Step>)
    ensures Reach(steps).Some?
    ensures
      var s := Reach(steps).value;
      && Calls(s.log, key) == 2
      && s.cache == map[key := "b"]
      && PcOf(s, 0) == Returning(key, Ok("a")) && PcOf(s, 1) == Returning(key, Ok("b"))
  {
    var log;
    steps, log := BothInserted(key);
    BothAreCounted(key, log);
    Appended(log, Inserted(0, key, "a"), key);
    Appended(log + [Inserted(0, key, "a")], Inserted(1, key, "b"), key);
  }

  lemma {:induction false} BothInserted(key: Key) returns (steps: seq<Step>, called: seq<Event>)
    ensures Reach(steps).Some?
    ensures called == [Looked(0, key, false), Looked(1, key, false), Called(0, key, Ok("a")), Called(1, key, Ok("b"))]
    ensures
      var s := Reach(steps).value;
      && s.cache == map[key := "b"]
      && PcOf(s, 0) == Returning(key, Ok("a")) && PcOf(s, 1) == Returning(key, Ok("b"))
      && s.log == called + [Inserted(0, key, "a")] + [Inserted(1, key, "b")]
  {
    steps := BothCalled(key);
    called := Reach(steps).value.log;
    Then(steps, Insert(0));
    steps := steps + [Insert(0)];
    Then(steps, Insert(1));
    steps := steps + [Insert(1)];
  }

  lemma {:induction false} BothCalled(key: Key) returns (steps: seq<Step>)
    ensures Reach(steps).Some?
    ensures
      var s := Reach(steps).value;
      && s.cache == map[]
      && PcOf(s, 0) == Inserting(key, "a") && PcOf(s, 1) == Inserting(key, "b")
      && s.log == [Looked(0, key, false), Looked(1, key, false), Called(0, key, Ok("a")), Called(1, key, Ok("b"))]
  {
    steps := BothMissed(key);
    Then(steps, Fetch(0, Ok("a")));
    steps := steps + [Fetch(0, Ok("a"))];
    Then(steps, Fetch(1, Ok("b")));
    steps := steps + [Fetch(1, Ok("b"))];
  }

  lemma {:induction false} BothMissed(key: Key) returns (steps: seq<Step>)
    ensures Reach(steps).Some?
    ensures
      var s := Reach(steps).value;
      && s.cache == map[]
      && PcOf(s, 0) == Fetching(key) && PcOf(s, 1) == Fetching(key)
      && s.log == [Looked(0, key, false), Looked(1, key, false)]
  {
    steps := [];
    Then(steps, Begin(0, key));
    steps := steps + [Begin(0, key)];
    Then(steps, Begin(1, key));
    steps := steps + [Begin(1, key)];
    Then(steps, Look(0));
    steps := steps + [Look(0)];
    Then(steps, Look(1));
    steps := steps + [Look(1)];
  }

  lemma {:induction false} BothAreCounted(key: Key, log: seq<Event>)
    requires log == [Looked(0, key, false), Looked(1, key, false), Called(0, key, Ok("a")), Called(1, key, Ok("b"))]
    ensures Calls(log, key) == 2
  {
    assert log == [] + [log[0]] + [log[1]] + [log[2]] + [log[3]];
    Appended([], log[0], key);
    Appended([] + [log[0]], log[1], key);
    Appended([] + [log[0]] + [log[1]], log[2], key);
    Appended([] + [log[0]] + [log[1]] + [log[2]], log[3], key);
  }

  // ----- One caller at a time -----

  // No call for the key is under way.
  predicate Quiet(s: State, key: Key) {
    forall t :: t in s.pcs ==> s.pcs[t].Idle? || s.pcs[t].key != key
  }

  // No call for the key begins while another for it is under way; calls for
  // other keys may overlap it and each other.
  predicate Sequential(steps: seq<Step>, key: Key) {
    steps == [] ||
    (var before, last := steps[..|steps| - 1], steps[|steps| - 1];
     && Sequential(before, key)
     && (last.Begin? && last.key == key ==> Reach(before).Some? && Quiet(Reach(before).value, key)))
  }

  predicate IsFor(pc: Pc, key: Key) {
    !pc.Idle? && pc.key == key
  }

  ghost predicate OneCaller(s: State, key: Key) {
    forall t, u :: t in s.pcs && u in s.pcs && IsFor(s.pcs[t], key) && IsFor(s.pcs[u], key) ==> t == u
  }

  ghost predicate MissesHold(s: State, key: Key) {
    forall t :: t in s.pcs && InStage(s.pcs[t], AfterMiss, key) ==> key !in s.cache
  }

  ghost predicate AboutToInsert(s: State, key: Key) {
    exists t :: t in s.pcs && s.pcs[t].Inserting? && s.pcs[t].key == key
  }

  ghost predicate SeqInv(s: State, key: Key) {
    && OneCaller(s, key) && MissesHold(s, key)
    && (Successes(s.log, key) == 0 || (Successes(s.log, key) == 1 && (key in s.cache || AboutToInsert(s, key))))
  }

  lemma {:induction false} SeqStepThreads(s: State, step: Step, key: Key)
    requires OneCaller(s, key) && MissesHold(s, key) && Enabled(s, step)
    requires step.Begin? && step.key == key ==> Quiet(s, key)
    ensures OneCaller(Apply(s, step), key) && MissesHold(Apply(s, step), key)
  {
    var s' := Apply(s, step);
    assert step.t in s'.pcs && s'.pcs == s.pcs[step.t := s'.pcs[step.t]];
  }

  lemma {:induction false} SeqStep(s: State, step: Step, key: Key)
    requires SeqInv(s, key) && Enabled(s, step)
    requires step.Begin? && step.key == key ==> Quiet(s, key)
    ensures SeqInv(Apply(s, step), key)
  {
    SeqStepThreads(s, step, key);
    if !step.Begin? {
      Appended(s.log, Apply(s, step).log[|s.log|], key);
    }
    if AboutToInsert(s, key) {
      InsertionStays(s, step, key);
    }
    if step.Fetch? && PcOf(s, step.t).key == key {
      FetchIsFirst(s, step, key);
    }
  }

  // A pending insertion stays until it is made.
  lemma {:induction false} InsertionStays(s: State, step: Step, key: Key)
    requires Enabled(s, step) && AboutToInsert(s, key)
    ensures AboutToInsert(Apply(s, step), key) || key in Apply(s, step).cache
  {
    var t :| t in s.pcs && s.pcs[t].Inserting? && s.pcs[t].key == key;
    if t != step.t {
      assert Apply(s, step).pcs[t] == s.pcs[t];
    }
  }

  // A sequential broker call comes before any insertion, and a success leads to one.
  lemma {:induction false} FetchIsFirst(s: State, step: Step, key: Key)
    requires OneCaller(s, key) && MissesHold(s, key)
    requires Enabled(s, step) && step.Fetch? && PcOf(s, step.t).key == key
    ensures key !in s.cache && !AboutToInsert(s, key)
    ensures step.answer.Ok? ==> AboutToInsert(Apply(s, step), key)
  {
    assert IsFor(s.pcs[step.t], key) && InStage(s.pcs[step.t], AfterMiss, key);
    assert step.answer.Ok? ==> Apply(s, step).pcs[step.t].Inserting?;
  }

  lemma {:induction false} SequentialInv(steps: seq<Step>, key: Key)
    requires Reach(steps).Some? && Sequential(steps, key)
    ensures SeqInv(Reach(steps).value, key)
  {
    if steps != [] {
      var before, step := steps[..|steps| - 1], steps[|steps| - 1];
      SequentialInv(before, key);
      SeqStep(Reach(before).value, step, key);
    }
  }

  // If the calls for a key are sequential, the broker succeeds at most once for it.
  lemma {:induction false} SequentialSuccessesAtMostOne(steps: seq<Step>, key: Key)
    requires Reach(steps).Some? && Sequential(steps, key)
    ensures Successes(Reach(steps).value.log, key) <= 1
  {
    SequentialInv(steps, key);
  }
}
