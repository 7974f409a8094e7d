/**
 One run of the tunnel status health check, as a pure function from the request,
 the store's tunnel state, the current time and the probe's outcome to the ordered
 trace of effects the run yields.
 */
module HealthCheck {
  import opened TunnelProbe
  import opened PingInterval
  import opened Effects

  /** The payload of a check request; the two callbacks appear as effects of the run. */
  datatype CheckRequest = CheckRequest(forceCheckTunnelNow: bool)

  /** The tunnel state a run reads from the store. */
  datatype TunnelSnapshot = TunnelSnapshot(lastPingedTimestamp: int, publicUrl: string)

  /**
   How the request to the tunnel turned out: answered with a response, rejected at the
   transport level, or never settled (the request sets no time-out), which leaves the run
   suspended at the probe.
   */
  datatype ProbeOutcome = Responded(response: Response) | TransportFailure | Pending

  /** The two reads every run starts with. */
  const Reads: seq<Effect> := [Select(LastPingedTimestamp), Select(PublicUrl)]

  /** A run probes when the check is forced or the bucket says a check is due now. */
  predicate ShouldProbe(request: CheckRequest, interval: TunnelCheckTimeInterval)
  {
    request.forceCheckTunnelNow || interval == Now
  }

  /** Whether a run with these inputs sends a probe, stated in elapsed time rather than through the bucket. */
  predicate Probes(request: CheckRequest, store: TunnelSnapshot, now: int)
  {
    request.forceCheckTunnelNow || now - store.lastPingedTimestamp >= DueMs
  }

  /** The interval a run that does not throw publishes. */
  function Published(request: CheckRequest, store: TunnelSnapshot, now: int): (interval: TunnelCheckTimeInterval)
    ensures interval == Now <==> Probes(request, store, now)
    ensures !Probes(request, store, now) ==> interval == PingTimeInterval(store.lastPingedTimestamp, now)
  {
    var bucket := PingTimeInterval(store.lastPingedTimestamp, now);
    if ShouldProbe(request, bucket) then Now else bucket
  }

  /** The callback a probe answered with `response` fires. */
  function Callback(response: Response): (e: Effect)
    ensures IsCallback(e)
    ensures e.CallError? <==> IsErrorResponse(response)
    ensures e.CallError? ==> e.response == response
  {
    match PingTunnel(response)
    case Some(error) => CallError(error)
    case None => CallSuccess
  }

  /** The effects of `runTunnelStatusHealthCheck`, in order. */
  function RunTunnelStatusHealthCheck(request: CheckRequest, store: TunnelSnapshot, now: int, outcome: ProbeOutcome)
    : (trace: seq<Effect>)
    ensures 3 <= |trace| <= 5
    ensures trace[..2] == Reads
    ensures Probe(store.publicUrl) in trace <==> Probes(request, store, now)
    ensures outcome.Responded? ==> trace[|trace| - 1] == PutInterval(Published(request, store, now))
    ensures outcome.TransportFailure? && Probes(request, store, now) ==> trace[|trace| - 1] == Throw
    ensures outcome.Pending? && Probes(request, store, now) ==> trace[|trace| - 1] == Probe(store.publicUrl)
  {
    var interval := PingTimeInterval(store.lastPingedTimestamp, now);
    if ShouldProbe(request, interval) then
      Reads + [Probe(store.publicUrl)] +
        match outcome
        case TransportFailure => [Throw]
        case Pending => []
        case Responded(response) => [Callback(response), PutInterval(Now)]
    else
      Reads + [PutInterval(interval)]
  }

  /** A forced check probes the tunnel's URL whatever the elapsed time. */
  lemma ForcedCheckAlwaysProbes(store: TunnelSnapshot, now: int, outcome: ProbeOutcome)
    ensures Probe(store.publicUrl) in RunTunnelStatusHealthCheck(CheckRequest(true), store, now, outcome)
  {
  }

  /** A run sends exactly one probe when forced or due and none otherwise, always to the stored public URL (empty or not). */
  lemma ProbeCount(request: CheckRequest, store: TunnelSnapshot, now: int, outcome: ProbeOutcome)
    ensures var trace := RunTunnelStatusHealthCheck(request, store, now, outcome);
      && Count(trace, IsProbe) == (if Probes(request, store, now) then 1 else 0)
      && forall k :: 0 <= k < |trace| && trace[k].Probe? ==> trace[k].url == store.publicUrl
  {
    var trace := RunTunnelStatusHealthCheck(request, store, now, outcome);
    CountAppend(Reads, trace[2..], IsProbe);
    assert trace == Reads + trace[2..];
  }

  /** Without a probe there is no callback: the run reads the store and publishes the computed bucket, which is not `Now`. */
  lemma NoProbeNoCallback(request: CheckRequest, store: TunnelSnapshot, now: int, outcome: ProbeOutcome)
    requires !Probes(request, store, now)
    ensures var trace := RunTunnelStatusHealthCheck(request, store, now, outcome);
      && trace == Reads + [PutInterval(PingTimeInterval(store.lastPingedTimestamp, now))]
      && Count(trace, IsCallback) == 0
      && PingTimeInterval(store.lastPingedTimestamp, now) != Now
  {
  }

  /**
   A probe that gets a response fires exactly one callback: the error callback with the
   very response received when that response is an error, the success callback otherwise.
   */
  lemma ExactlyOneCallback(request: CheckRequest, store: TunnelSnapshot, now: int, response: Response)
    requires Probes(request, store, now)
    ensures var trace := RunTunnelStatusHealthCheck(request, store, now, Responded(response));
      && Count(trace, IsCallback) == 1
      && (CallError(response) in trace <==> IsErrorResponse(response))
      && (CallSuccess in trace <==> !IsErrorResponse(response))
      && forall k :: 0 <= k < |trace| && trace[k].CallError? ==> trace[k].response == response
  {
    var trace := RunTunnelStatusHealthCheck(request, store, now, Responded(response));
    var head := Reads + [Probe(store.publicUrl)];
    assert trace == head + [Callback(response), PutInterval(Now)];
    CountAppend(head, [Callback(response), PutInterval(Now)], IsCallback);
  }

  /** A run whose probe is answered publishes exactly one interval, as its last effect: `Now` after a probe, the bucket otherwise. */
  lemma PublishesOnce(request: CheckRequest, store: TunnelSnapshot, now: int, response: Response)
    ensures var trace := RunTunnelStatusHealthCheck(request, store, now, Responded(response));
      && Count(trace, IsPut) == 1
      && trace[|trace| - 1] == PutInterval(Published(request, store, now))
  {
    var trace := RunTunnelStatusHealthCheck(request, store, now, Responded(response));
    var last := [PutInterval(Published(request, store, now))];
    assert trace == trace[..|trace| - 1] + last;
    CountAppend(trace[..|trace| - 1], last, IsPut);
  }

  /** A probe that raises at the transport level ends the run: no callback fires and no interval is published. */
  lemma TransportFailureEndsRun(request: CheckRequest, store: TunnelSnapshot, now: int)
    requires Probes(request, store, now)
    ensures var trace := RunTunnelStatusHealthCheck(request, store, now, TransportFailure);
      && trace == Reads + [Probe(store.publicUrl), Throw]
      && Count(trace, IsCallback) == 0
      && Count(trace, IsPut) == 0
  {
  }

  /** A probe that never settles leaves the run suspended after it: no callback fires and no interval is published. */
  lemma PendingProbeStallsRun(request: CheckRequest, store: TunnelSnapshot, now: int)
    requires Probes(request, store, now)
    ensures var trace := RunTunnelStatusHealthCheck(request, store, now, Pending);
      && trace == Reads + [Probe(store.publicUrl)]
      && Count(trace, IsCallback) == 0
      && Count(trace, IsPut) == 0
  {
  }

  /** A run reads the last-ping time and the public URL, first and once each, and reads nothing else. */
  lemma ReadsOnlyTimestampAndUrl(request: CheckRequest, store: TunnelSnapshot, now: int, outcome: ProbeOutcome)
    ensures var trace := RunTunnelStatusHealthCheck(request, store, now, outcome);
      forall k :: 0 <= k < |trace| && trace[k].Select? ==> k < |Reads| && trace[k] == Reads[k]
  {
  }

  /** The shapes a run's trace can take, written out independently of the run. */
  predicate IsRunTrace(trace: seq<Effect>)
  {
    && |trace| >= 3
    && trace[..2] == Reads
    && match trace[2]
       case PutInterval(interval) => |trace| == 3 && interval != Now
       case Probe(_) =>
         || trace[3..] == []
         || trace[3..] == [Throw]
         || trace[3..] == [CallSuccess, PutInterval(Now)]
         || (|trace| == 5 && trace[3].CallError? && IsErrorResponse(trace[3].response) && trace[4] == PutInterval(Now))
       case _ => false
  }

  /** Every run yields a trace of one of those shapes. */
  lemma RunTraceHasShape(request: CheckRequest, store: TunnelSnapshot, now: int, outcome: ProbeOutcome)
    ensures IsRunTrace(RunTunnelStatusHealthCheck(request, store, now, outcome))
  {
  }

  /** The inputs to a run. */
  datatype RunInputs = RunInputs(request: CheckRequest, store: TunnelSnapshot, now: int, outcome: ProbeOutcome)

  /** Conversely, inputs that make a run yield any given trace of those shapes. */
  function ReplayInputs(trace: seq<Effect>): (inputs: RunInputs)
    requires IsRunTrace(trace)
    ensures RunTunnelStatusHealthCheck(inputs.request, inputs.store, inputs.now, inputs.outcome) == trace
  {
    match trace[2]
    case PutInterval(interval) =>
      var now := if interval == FirstInterval then 0 else FirstIntervalMs;
      RunInputs(CheckRequest(false), TunnelSnapshot(0, ""), now, TransportFailure)
    case Probe(url) =>
      var store := TunnelSnapshot(0, url);
      if |trace| == 3 then RunInputs(CheckRequest(true), store, 0, Pending)
      else if trace[3] == Throw then RunInputs(CheckRequest(true), store, 0, TransportFailure)
      else if trace[3] == CallSuccess then RunInputs(CheckRequest(true), store, 0, Responded(Response(200, true)))
      else RunInputs(CheckRequest(true), store, 0, Responded(trace[3].response))
  }
}
