// `CachedBroker`: a token cache that drops its lock between looking a key up
// and inserting it. Any number of threads may call `get_token`; a run is any
// sequence of their atomic steps, and the broker may answer anything.
module TokenCache {
  import opened Prelude

  datatype Key = Key(provider: string, resource: string, scopes: seq<string>)

  type Token = string

  type Answer = Result<Token, string>

  datatype Pc =
    | Idle
    | Looking(key: Key)
    | Fetching(key: Key)
    | Inserting(key: Key, token: Token)
    | Returning(key: Key, answer: Answer)

  datatype Event =
    | Looked(t: nat, key: Key, hit: bool)
    | Called(t: nat, key: Key, answer: Answer)
    | Inserted(t: nat, key: Key, token: Token)
    | Returned(t: nat, key: Key, answer: Answer)

  datatype State = State(cache: map<Key, Token>, pcs: map<nat, Pc>, log: seq<Event>)

  datatype Step =
    | Begin(t: nat, key: Key)
    | Look(t: nat)
    | Fetch(t: nat, answer: Answer)
    | Insert(t: nat)
    | Return(t: nat)

  const INIT := State(map[], map[], [])

  function PcOf(s: State, t: nat): Pc {
    if t in s.pcs then s.pcs[t] else Idle
  }

  predicate Enabled(s: State, step: Step) {
    match step
    case Begin(t, _) => PcOf(s, t).Idle?
    case Look(t) => PcOf(s, t).Looking?
    case Fetch(t, _) => PcOf(s, t).Fetching?
    case Insert(t) => PcOf(s, t).Inserting?
    case Return(t) => PcOf(s, t).Returning?
  }

  function Apply(s: State, step: Step): State
    requires Enabled(s, step)
  {
    match step
    case Begin(t, key) => s.(pcs := s.pcs[t := Looking(key)])
    case Look(t) =>
      var key := PcOf(s, t).key;
      if key in s.cache then
        s.(pcs := s.pcs[t := Returning(key, Ok(s.cache[key]))], log := s.log + [Looked(t, key, true)])
      else
        s.(pcs := s.pcs[t := Fetching(key)], log := s.log + [Looked(t, key, false)])
    case Fetch(t, answer) =>
      var key := PcOf(s, t).key;
      var pc := match answer case Ok(token) => Inserting(key, token) case Err(_) => Returning(key, answer);
      s.(pcs := s.pcs[t := pc], log := s.log + [Called(t, key, answer)])
    case Insert(t) =>
      var Inserting(key, token) := PcOf(s, t);
      State(s.cache[key := token], s.pcs[t := Returning(key, Ok(token))], s.log + [Inserted(t, key, token)])
    case Return(t) =>
      var Returning(key, answer) := PcOf(s, t);
      s.(pcs := s.pcs[t := Idle], log := s.log + [Returned(t, key, answer)])
  }

  function Reach(steps: seq<Step>): Option<State> {
    if steps == [] then Some(INIT)
    else
      match Reach(steps[..|steps| - 1])
      case None => None
      case Some(s) => if Enabled(s, steps[|steps| - 1]) then Some(Apply(s, steps[|steps| - 1])) else None
  }

  lemma {:induction false} Then(steps: seq<Step>, step: Step)
    requires Reach(steps).Some? && Enabled(Reach(steps).value, step)
    ensures Reach(steps + [step]) == Some(Apply(Reach(steps).value, step))
  {
    assert (steps + [step])[..|steps + [step]| - 1] == steps;
  }

  // ----- Every token was issued for its key -----

  ghost predicate Issued(log: seq<Event>, key: Key, token: Token) {
    exists t :: Called(t, key, Ok(token)) in log
  }

  ghost predicate Inv(s: State) {
    && (forall key :: key in s.cache ==> Issued(s.log, key, s.cache[key]))
    && (forall t :: PcOf(s, t).Inserting? ==> Issued(s.log, PcOf(s, t).key, PcOf(s, t).token))
    && (forall t :: PcOf(s, t).Returning? && PcOf(s, t).answer.Ok? ==>
          Issued(s.log, PcOf(s, t).key, PcOf(s, t).answer.value))
    && (forall e :: e in s.log && e.Returned? && e.answer.Ok? ==> Issued(s.log, e.key, e.answer.value))
    && (forall t :: PcOf(s, t).Returning? && PcOf(s, t).answer.Err? ==>
          Called(t, PcOf(s, t).key, PcOf(s, t).answer) in s.log)
    && (forall e :: e in s.log && e.Returned? && e.answer.Err? ==> Called(e.t, e.key, e.answer) in s.log)
  }

  lemma {:induction false} IssuedLasts(log: seq<Event>, more: seq<Event>)
    ensures forall key, token :: Issued(log, key, token) ==> Issued(log + more, key, token)
  {
    forall key, token | Issued(log, key, token)
      ensures Issued(log + more, key, token)
    {
      var t :| Called(t, key, Ok(token)) in log;
      assert Called(t, key, Ok(token)) in log + more;
    }
  }

  lemma {:induction false} InvStep(s: State, step: Step)
    requires Inv(s) && Enabled(s, step)
    ensures Inv(Apply(s, step))
  {
    var s' := Apply(s, step);
    assert s'.log == s.log + s'.log[|s.log|..];
    IssuedLasts(s.log, s'.log[|s.log|..]);
    assert forall t :: t != step.t ==> PcOf(s', t) == PcOf(s, t);
    if step.Fetch? {
      assert Called(step.t, PcOf(s, step.t).key, step.answer) in s'.log;
    }
  }

  // Every cached token, and every token a caller was given, was issued by the
  // broker for exactly that key, so errors are never cached. An error a caller
  // was given is the broker's answer to that caller's own call.
  lemma {:induction false} TokensAreIssued(steps: seq<Step>)
    requires Reach(steps).Some?
    ensures Inv(Reach(steps).value)
  {
    if steps != [] {
      TokensAreIssued(steps[..|steps| - 1]);
      InvStep(Reach(steps[..|steps| - 1]).value, steps[|steps| - 1]);
    }
  }

  // No step removes a key; only an insertion changes the cache, at its own key.
  lemma {:induction false} KeysNeverLeave(s: State, step: Step)
    requires Enabled(s, step)
    ensures s.cache.Keys <= Apply(s, step).cache.Keys
    ensures forall key :: key in s.cache && Apply(s, step).cache[key] != s.cache[key]
              ==> step.Insert? && PcOf(s, step.t).key == key
  {
  }

  // ----- The object, as one caller sees it -----

  // The whole effect of one uninterrupted call.
  function GetEffect(cache: map<Key, Token>, key: Key, answer: Answer): (map<Key, Token>, Answer) {
    if key in cache then (cache, Ok(cache[key]))
    else match answer
      case Ok(token) => (cache[key := token], answer)
      case Err(_) => (cache, answer)
  }

  class CachedBroker {
    const broker: (nat, Key) -> Answer   // how the broker answers its i-th call
    var cache: map<Key, Token>
    var calls: seq<Key>                  // the calls made to it so far

    constructor (broker: (nat, Key) -> Answer)
      ensures this.broker == broker && cache == map[] && calls == []
    {
      this.broker := broker;
      cache := map[];
      calls := [];
    }

    method GetToken(provider: string, resource: string, scopes: seq<string>) returns (answer: Answer)
      modifies this
      ensures
        var key := Key(provider, resource, scopes);
        && (cache, answer) == GetEffect(old(cache), key, broker(|old(calls)|, key))
        && calls == (if key in old(cache) then old(calls) else old(calls) + [key])
    {
      var key := Key(provider, resource, scopes);
      if key in cache {
        return Ok(cache[key]);
      }
      var index := |calls|;
      calls := calls + [key];
      answer := broker(index, key);
      if answer.Err? {
        return answer;
      }
      cache := cache[key := answer.value];
    }
  }

  // The object's method is the uninterrupted run of the protocol's steps.
  lemma {:induction false} CallIsUninterruptedRun(steps: seq<Step>, t: nat, key: Key, answer: Answer)
    returns (longer: seq<Step>)
    requires Reach(steps).Some? && PcOf(Reach(steps).value, t).Idle?
    ensures Reach(longer).Some? && steps <= longer && Reach(longer).value.log != []
    ensures
      var (cache, result) := GetEffect(Reach(steps).value.cache, key, answer);
      && Reach(longer).value.cache == cache
      && PcOf(Reach(longer).value, t).Idle?
      && Reach(longer).value.log[|Reach(longer).value.log| - 1] == Returned(t, key, result)
  {
    var s := Reach(steps).value;
    Then(steps, Begin(t, key));
    longer := steps + [Begin(t, key)];
    Then(longer, Look(t));
    longer := longer + [Look(t)];
    if key !in s.cache {
      Then(longer, Fetch(t, answer));
      longer := longer + [Fetch(t, answer)];
      if answer.Ok? {
        Then(longer, Insert(t));
        longer := longer + [Insert(t)];
      }
    }
    Then(longer, Return(t));
    longer := longer + [Return(t)];
  }
}
