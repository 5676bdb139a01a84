// When a bounded retry loop may stop, shared by both loops and by the
// concurrent protocol.
module Retry {

  // `outcomes` is everything a loop saw: at least one call, at most `max`, only
  // retryable outcomes before the last, and no stopping early on a retryable one.
  ghost predicate StopsCorrectly<R(!new)>(max: nat, retryable: R -> bool, outcomes: seq<R>) {
    && 1 <= |outcomes| <= max
    && (forall i :: 0 <= i < |outcomes| - 1 ==> retryable(outcomes[i]))
    && (|outcomes| == max || !retryable(outcomes[|outcomes| - 1]))
  }

  // Stopping correctly only depends on which outcomes are retryable.
  lemma {:induction false} StopsAlike<A(!new), B(!new)>(max: nat, p: A -> bool, q: B -> bool, a: seq<A>, b: seq<B>)
    requires |a| == |b| && forall i :: 0 <= i < |a| ==> p(a[i]) == q(b[i])
    ensures StopsCorrectly(max, p, a) <==> StopsCorrectly(max, q, b)
  {
  }

  // Two loops against the same backend see the same calls, so a loop that stops
  // correctly is determined by its backend.
  lemma {:induction false} StopIsUnique<R(!new)>(max: nat, retryable: R -> bool, a: seq<R>, b: seq<R>)
    requires StopsCorrectly(max, retryable, a) && StopsCorrectly(max, retryable, b)
    requires forall i :: 0 <= i < |a| && i < |b| ==> a[i] == b[i]
    ensures a == b
  {
    assert |a| <= |b| ==> a[|a| - 1] == b[|a| - 1];
    assert |b| <= |a| ==> a[|b| - 1] == b[|b| - 1];
  }
}
