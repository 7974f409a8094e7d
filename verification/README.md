# Tunnel health check model

A Dafny model of the ngrok tunnel health check in the Bot Framework Emulator's main
process (`packages/app/main/src/state/sagas/ngrokSagas.ts`). The check has three parts:

- **Probe classification** (`TunnelProbe`, `probe.dfy`). A response to the GET on the
  tunnel's public URL is an error when its status is 429, 402 or 500, or when it has no
  non-empty `Server` header (an empty `Server` value is falsy, like a missing one).
  `pingTunnel` resolves to that very response when it is an error, and to `undefined`
  (here `None`) otherwise.
- **Interval bucketing** (`PingInterval`, `interval.dfy`). The milliseconds since the last
  ping fall into `FirstInterval` (below 20000), `SecondInterval` (20000 up to 60000) or
  `Now` (60000 and more). The clock is a parameter `now`.
- **One health-check run** (`HealthCheck`, `health_check.dfy`). `runTunnelStatusHealthCheck`
  is a pure function from the request's `forceCheckTunnelNow` flag, the store's
  `lastPingedTimestamp` and `publicUrl`, the time and the probe's outcome to the ordered
  trace of effects it yields. The trace holds two store reads, then either a probe,
  one callback and `put(Now)`, or just `put(bucket)`; a probe that throws or never
  settles cuts the trace short. The store reads, the probe, the two
  callbacks and the interval `put` are the constructors of `Effects.Effect` (`effects.dfy`).
  The saga's own effects contain no write of `lastPingedTimestamp` or `publicUrl`: its only
  `put` is `setTimeIntervalSinceLastPing` (`PutInterval`). What that action's reducer and
  the two callbacks write is not modelled.
- **A series of runs** (`HealthCheckSession`, `session.dfy`). The watcher starts one run
  per `checkOnTunnel` action. When runs do not overlap, the series' effects are the runs'
  traces one after another. The lemmas lift the per-run counts to the whole series.

Facts about `ngrokSagas.ts` that the model keeps:

- A run probes at most once. There is no cooldown or waiting after a probe.
- An empty `publicUrl` gets no special treatment. It is probed like any other URL.
- A rejection from `fetch` is not caught, so the run ends with `Throw`: no callback fires
  and no interval is published.
- The `fetch` sets no time-out. If its promise never settles, the run stays suspended at
  the `yield` on line 80: its trace stops after the probe, with no callback and no interval
  published. The model gives this case the outcome `Pending`.

## Model

| member | source | states |
|---|---|---|
| TunnelProbe.PingTunnel | packages/app/main/src/state/sagas/ngrokSagas.ts:54-59 | The result is an error exactly when the status is in {402, 429, 500} or the `Server` header is missing or empty, and an error result is the received response itself |
| TunnelProbe.ErrorStatusIsErrorWhateverHeaders | packages/app/main/src/state/sagas/ngrokSagas.ts:54-55 | Status 429, 402 or 500 yields that response as an error, whatever its `Server` header |
| TunnelProbe.MissingOrEmptyServerHeaderIsError | packages/app/main/src/state/sagas/ngrokSagas.ts:55 | A response without a `Server` header, or with an empty one, is an error whatever its status, 200 included |
| TunnelProbe.OtherResponsesAreHealthy | packages/app/main/src/state/sagas/ngrokSagas.ts:56-59 | Any other response resolves to `undefined` (healthy) |
| PingInterval.PingTimeInterval | packages/app/main/src/state/sagas/ngrokSagas.ts:62-72 | Each elapsed time lands in exactly one bucket: below 20000 ms FirstInterval, from 20000 ms up to 60000 ms SecondInterval, from 60000 ms on Now |
| PingInterval.NegativeElapsedIsFirstInterval | packages/app/main/src/state/sagas/ngrokSagas.ts:63-66 | A last-ping time later than `now` gives FirstInterval |
| PingInterval.DependsOnlyOnElapsed | packages/app/main/src/state/sagas/ngrokSagas.ts:62-63 | Two calls with the same elapsed time give the same bucket |
| PingInterval.UrgencyMonotoneInElapsed | packages/app/main/src/state/sagas/ngrokSagas.ts:65-71 | A longer elapsed time never gives a less due bucket, under FirstInterval < SecondInterval < Now |
| PingInterval.MoreUrgentMeansLonger | packages/app/main/src/state/sagas/ngrokSagas.ts:65-71 | The contrapositive of UrgencyMonotoneInElapsed: a strictly more due bucket implies strictly more elapsed time |
| HealthCheck.Published | packages/app/main/src/state/sagas/ngrokSagas.ts:79-89 | The published interval is Now exactly when the check is forced or 60000 ms have elapsed; otherwise it is the computed bucket |
| HealthCheck.Callback | packages/app/main/src/state/sagas/ngrokSagas.ts:81-85 | An answered probe fires one callback: the error callback, with the received response, exactly when the response is an error |
| HealthCheck.RunTunnelStatusHealthCheck | packages/app/main/src/state/sagas/ngrokSagas.ts:75-90 | A run starts with the two store reads and probes the stored URL exactly when forced or due. An answered run ends by publishing its interval; a run whose probe throws ends with the throw; a run whose probe never settles ends at the probe |
| HealthCheck.ForcedCheckAlwaysProbes | packages/app/main/src/state/sagas/ngrokSagas.ts:79-80 | A forced check probes the public URL whatever the elapsed time |
| HealthCheck.ProbeCount | packages/app/main/src/state/sagas/ngrokSagas.ts:77-80 | A run sends one probe when forced or due and none otherwise, always to the stored public URL |
| HealthCheck.NoProbeNoCallback | packages/app/main/src/state/sagas/ngrokSagas.ts:79-89 | Without a probe the run only reads and publishes the bucket, which is not Now; no callback fires |
| HealthCheck.ExactlyOneCallback | packages/app/main/src/state/sagas/ngrokSagas.ts:80-85 | An answered probe fires exactly one callback; the error callback (carrying the received response) fires iff the response is an error, the success callback iff it is not |
| HealthCheck.PublishesOnce | packages/app/main/src/state/sagas/ngrokSagas.ts:86-89 | An answered run publishes exactly one interval, as its last effect: Now after a probe, the bucket otherwise |
| HealthCheck.TransportFailureEndsRun | packages/app/main/src/state/sagas/ngrokSagas.ts:80-86 | A probe whose `fetch` rejects ends the run at the uncaught `yield`: no callback, no published interval |
| HealthCheck.PendingProbeStallsRun | packages/app/main/src/state/sagas/ngrokSagas.ts:80-86 | A probe whose `fetch` never settles leaves the run suspended at the `yield`: the trace ends at the probe, with no callback and no published interval |
| HealthCheck.ReadsOnlyTimestampAndUrl | packages/app/main/src/state/sagas/ngrokSagas.ts:76-77 | The only store reads are the last-ping time and then the public URL, at the start of the run |
| HealthCheck.RunTraceHasShape | packages/app/main/src/state/sagas/ngrokSagas.ts:75-90 | Every run's trace has one of the shapes reads+put(bucket other than Now), reads+probe (suspended), reads+probe+throw, reads+probe+success+put(Now), reads+probe+error(error response)+put(Now) |
| HealthCheck.ReplayInputs | packages/app/main/src/state/sagas/ngrokSagas.ts:75-90 | Conversely, every trace of those shapes is produced by some request, store state, time and probe outcome |
| HealthCheckSession.RunSession | packages/app/main/src/state/sagas/ngrokSagas.ts:93-95 | A series of n non-overlapping answered runs yields between 3n and 5n effects |
| HealthCheckSession.SessionCounts | packages/app/main/src/state/sagas/ngrokSagas.ts:93-95 | Over a series of answered runs: probes = callbacks = number of forced or due requests, error callbacks = number of those answered with an error, published intervals = number of requests |
| HealthCheckSession.SessionCallbacksFollowProbes | packages/app/main/src/state/sagas/ngrokSagas.ts:93-95 | Over a series of answered runs every callback comes straight after a probe |
| HealthCheckSession.SessionEndsWithLastPublished | packages/app/main/src/state/sagas/ngrokSagas.ts:93-95 | After a series of answered runs the last effect publishes the last run's interval |

## Left out

- `takeLatest` cancellation of a run that is still in flight when a new request arrives (line 94). It belongs to the redux-saga library, which is not part of this model. The series of runs covers runs that do not overlap.
- The `fetch` call, its URL and its `Content-Type` header (lines 49-53). This is network I/O. A probe is the `Probe(url)` effect plus an outcome passed in as a parameter.
- `new Date().getTime()` (line 63). It is the `now` parameter.
- The `select`/`put` plumbing, the `RootState` shape, the action creators and the reducer that stores the published interval. None of these is part of this model. Reads and the interval write are effects, and the model makes no claim about store contents after a `put`.
- The bodies of the two callbacks, and what they write. The caller supplies them; a run only records that it invoked one.
- Exceptions thrown by `onTunnelPingError` or `onTunnelPingSuccess` (lines 82, 84). They are not caught, so such a run would end right after the callback, without the `put` on line 86. The model assumes both callbacks return.
- HealthCheck.RunTunnelStatusHealthCheck: assumes the callbacks return. With a throwing callback an answered run would end after the callback, not with `PutInterval(Now)`.
- HealthCheck.PublishesOnce: assumes the callbacks return. A throwing callback would leave the run with no published interval.
- JavaScript number semantics. Timestamps are unbounded integers. This is exact for millisecond times below 2^53. An `undefined` or `NaN` last-ping time is not modelled; with it, both comparisons are false and the code would return SecondInterval.
- HealthCheckSession.RunSession: builds only series in which every probe is answered. A run whose `fetch` rejects ends with `Throw`, and what the watcher does after that is redux-saga's error propagation, which is not part of this model.
- HealthCheckSession.SessionCounts: covers only series in which every probe is answered and every callback returns, for the same reason.
- HealthCheckSession.SessionCallbacksFollowProbes: covers only series in which every probe is answered, for the same reason.
- HealthCheckSession.SessionEndsWithLastPublished: covers only series in which every probe is answered and every callback returns. A series whose last run throws ends with `Throw`, not with a published interval.
