/**
 A series of health-check runs that do not overlap, each probing (when it probes)
 a tunnel that answers; a series with a run whose request throws is not built here.
 The watcher starts one run per check request; when a run finishes before the next
 request arrives, the effects of the series are the runs' traces one after another.
 */
module HealthCheckSession {
  import opened TunnelProbe
  import opened Effects
  import opened HealthCheck

  /** One check request, with the store state, clock reading and tunnel response its run sees. */
  datatype Trigger = Trigger(request: CheckRequest, store: TunnelSnapshot, now: int, response: Response)

  function RunOf(t: Trigger): seq<Effect>
  {
    RunTunnelStatusHealthCheck(t.request, t.store, t.now, Responded(t.response))
  }

  /** The effects of the runs for `triggers`, in order. */
  function RunSession(triggers: seq<Trigger>): (trace: seq<Effect>)
    ensures |triggers| * 3 <= |trace| <= |triggers| * 5
  {
    if triggers == [] then []
    else RunSession(triggers[..|triggers| - 1]) + RunOf(triggers[|triggers| - 1])
  }

  /** How many of the triggers send a probe. */
  function ProbingCount(triggers: seq<Trigger>): (n: nat)
    ensures n <= |triggers|
  {
    if triggers == [] then 0
    else
      var t := triggers[|triggers| - 1];
      ProbingCount(triggers[..|triggers| - 1]) + (if Probes(t.request, t.store, t.now) then 1 else 0)
  }

  /** How many of the triggers send a probe that is answered with an error response. */
  function RejectedCount(triggers: seq<Trigger>): (n: nat)
    ensures n <= ProbingCount(triggers)
  {
    if triggers == [] then 0
    else
      var t := triggers[|triggers| - 1];
      RejectedCount(triggers[..|triggers| - 1])
        + (if Probes(t.request, t.store, t.now) && IsErrorResponse(t.response) then 1 else 0)
  }

  /** The effects of one run, counted. */
  lemma RunCounts(t: Trigger)
    ensures Count(RunOf(t), IsProbe) == (if Probes(t.request, t.store, t.now) then 1 else 0)
    ensures Count(RunOf(t), IsCallback) == (if Probes(t.request, t.store, t.now) then 1 else 0)
    ensures Count(RunOf(t), IsErrorCallback)
         == (if Probes(t.request, t.store, t.now) && IsErrorResponse(t.response) then 1 else 0)
    ensures Count(RunOf(t), IsPut) == 1
  {
    var trace := RunOf(t);
    assert trace == Reads + trace[2..];
    CountAppend(Reads, trace[2..], IsProbe);
    CountAppend(Reads, trace[2..], IsCallback);
    CountAppend(Reads, trace[2..], IsErrorCallback);
    CountAppend(Reads, trace[2..], IsPut);
  }

  /**
   Across a series of runs there is one probe per forced or due request, one callback per
   probe, one error callback per error response, and one published interval per request.
   */
  lemma {:induction false} SessionCounts(triggers: seq<Trigger>)
    ensures Count(RunSession(triggers), IsProbe) == ProbingCount(triggers)
    ensures Count(RunSession(triggers), IsCallback) == ProbingCount(triggers)
    ensures Count(RunSession(triggers), IsErrorCallback) == RejectedCount(triggers)
    ensures Count(RunSession(triggers), IsPut) == |triggers|
  {
    if triggers != [] {
      var init := triggers[..|triggers| - 1];
      var t := triggers[|triggers| - 1];
      SessionCounts(init);
      RunCounts(t);
      CountAppend(RunSession(init), RunOf(t), IsProbe);
      CountAppend(RunSession(init), RunOf(t), IsCallback);
      CountAppend(RunSession(init), RunOf(t), IsErrorCallback);
      CountAppend(RunSession(init), RunOf(t), IsPut);
    }
  }

  /** In a series of runs every callback comes straight after the probe it answers. */
  lemma {:induction false} SessionCallbacksFollowProbes(triggers: seq<Trigger>)
    ensures CallbacksFollowProbes(RunSession(triggers))
  {
    if triggers != [] {
      var init := triggers[..|triggers| - 1];
      var t := triggers[|triggers| - 1];
      SessionCallbacksFollowProbes(init);
      var run := RunOf(t);
      assert CallbacksFollowProbes(run) by {
        RunTraceHasShape(t.request, t.store, t.now, Responded(t.response));
      }
      CallbacksFollowProbesAppend(RunSession(init), run);
    }
  }

  /** After a non-empty series the last effect is the interval the last run published. */
  lemma SessionEndsWithLastPublished(triggers: seq<Trigger>)
    requires triggers != []
    ensures var trace := RunSession(triggers);
      var t := triggers[|triggers| - 1];
      trace[|trace| - 1] == PutInterval(Published(t.request, t.store, t.now))
  {
  }
}
