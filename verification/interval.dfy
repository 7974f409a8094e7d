/**
 How "due" the next tunnel check is, computed from the milliseconds elapsed since
 the last ping. The clock is not modelled: the current time is a parameter.
 */
module PingInterval {

  /** The three buckets the health check publishes. */
  datatype TunnelCheckTimeInterval = Now | FirstInterval | SecondInterval

  /** Below this many milliseconds since the last ping the check is in its first interval. */
  const FirstIntervalMs: int := 20000

  /** From this many milliseconds since the last ping on, a check is due now. */
  const DueMs: int := 60000

  /** Orders the buckets by how overdue they are: FirstInterval < SecondInterval < Now. */
  function Urgency(interval: TunnelCheckTimeInterval): (u: nat)
    ensures u <= 2
    ensures interval == Now <==> u == 2
  {
    match interval
    case FirstInterval => 0
    case SecondInterval => 1
    case Now => 2
  }

  /** The bucket `getPingTimeInterval` returns when called at time `now` with the stored last-ping time. */
  function PingTimeInterval(lastPingTime: int, now: int): (interval: TunnelCheckTimeInterval)
    ensures interval == FirstInterval <==> now - lastPingTime < FirstIntervalMs
    ensures interval == SecondInterval <==> FirstIntervalMs <= now - lastPingTime < DueMs
    ensures interval == Now <==> now - lastPingTime >= DueMs
  {
    var diff := now - lastPingTime;
    if diff < FirstIntervalMs then FirstInterval
    else if diff >= DueMs then Now
    else SecondInterval
  }

  /** A last-ping time in the future (a negative elapsed time) falls into the first interval. */
  lemma NegativeElapsedIsFirstInterval(lastPingTime: int, now: int)
    requires now < lastPingTime
    ensures PingTimeInterval(lastPingTime, now) == FirstInterval
  {
  }

  /** The bucket depends on the elapsed time only, so the same elapsed time always yields the same bucket. */
  lemma DependsOnlyOnElapsed(lastPing1: int, now1: int, lastPing2: int, now2: int)
    requires now1 - lastPing1 == now2 - lastPing2
    ensures PingTimeInterval(lastPing1, now1) == PingTimeInterval(lastPing2, now2)
  {
  }

  /** A longer elapsed time never yields a less urgent bucket. */
  lemma UrgencyMonotoneInElapsed(lastPing1: int, now1: int, lastPing2: int, now2: int)
    requires now1 - lastPing1 <= now2 - lastPing2
    ensures Urgency(PingTimeInterval(lastPing1, now1)) <= Urgency(PingTimeInterval(lastPing2, now2))
  {
  }

  /** The contrapositive of monotonicity: a strictly more urgent bucket means strictly more time has elapsed. */
  lemma MoreUrgentMeansLonger(lastPing1: int, now1: int, lastPing2: int, now2: int)
    requires Urgency(PingTimeInterval(lastPing1, now1)) < Urgency(PingTimeInterval(lastPing2, now2))
    ensures now1 - lastPing1 < now2 - lastPing2
  {
    if now2 - lastPing2 <= now1 - lastPing1 {
      UrgencyMonotoneInElapsed(lastPing2, now2, lastPing1, now1);
    }
  }
}
