/**
 The effects a health-check run yields, in the order it yields them, and counting
 over such traces. Store reads and the interval write stand for the saga's `select`
 and `put` effects; the probe and the two callbacks are the run's outward actions.
 */
module Effects {
  import opened TunnelProbe
  import opened PingInterval

  /** The two pieces of tunnel state a run reads from the store. */
  datatype StoreField = LastPingedTimestamp | PublicUrl

  datatype Effect =
    | Select(field: StoreField)
    | Probe(url: string)
    | CallError(response: Response)
    | CallSuccess
    | PutInterval(interval: TunnelCheckTimeInterval)
    /** The run ended with the exception the probe raised; nothing after it happens. */
    | Throw

  predicate IsProbe(e: Effect) { e.Probe? }

  predicate IsCallback(e: Effect) { e.CallError? || e.CallSuccess? }

  predicate IsErrorCallback(e: Effect) { e.CallError? }

  /** The saga's only `put`, `setTimeIntervalSinceLastPing`; what its reducer writes is not modelled. */
  predicate IsPut(e: Effect) { e.PutInterval? }

  /** The number of effects in `trace` that satisfy `p`. */
  function Count(trace: seq<Effect>, p: Effect -> bool): (n: nat)
    ensures n <= |trace|
    ensures n == 0 <==> forall k :: 0 <= k < |trace| ==> !p(trace[k])
  {
    if trace == [] then 0
    else (if p(trace[0]) then 1 else 0) + Count(trace[1..], p)
  }

  /** Counting distributes over concatenation. */
  lemma {:induction false} CountAppend(a: seq<Effect>, b: seq<Effect>, p: Effect -> bool)
    ensures Count(a + b, p) == Count(a, p) + Count(b, p)
  {
    if a == [] {
      assert a + b == b;
    } else {
      assert (a + b)[1..] == a[1..] + b;
      CountAppend(a[1..], b, p);
    }
  }

  /** Every callback in `trace` comes straight after a probe. */
  predicate CallbacksFollowProbes(trace: seq<Effect>)
  {
    forall k :: 0 <= k < |trace| && IsCallback(trace[k]) ==> 0 < k && IsProbe(trace[k - 1])
  }

  /** Two traces with that property, the second not opening with a callback, keep it when joined. */
  lemma CallbacksFollowProbesAppend(a: seq<Effect>, b: seq<Effect>)
    requires CallbacksFollowProbes(a) && CallbacksFollowProbes(b)
    requires b != [] ==> !IsCallback(b[0])
    ensures CallbacksFollowProbes(a + b)
  {
    forall k | 0 <= k < |a + b| && IsCallback((a + b)[k])
      ensures 0 < k && IsProbe((a + b)[k - 1])
    {
      if k < |a| {
        assert (a + b)[k] == a[k];
      } else {
        assert (a + b)[k] == b[k - |a|];
        assert (a + b)[k - 1] == b[k - |a| - 1];
      }
    }
  }
}
