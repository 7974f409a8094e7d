/**
 The probe half of the tunnel health check: how the response that comes back from
 a GET on the tunnel's public URL is classified.

 The network request itself is not modelled; a probe's result is the response it
 received, reduced to the two things the classification looks at.
 */
module TunnelProbe {

  /** What a ping resolves to: `Some` of the error response, or `None` for the `undefined` of a healthy ping. */
  datatype Option<+T> = None | Some(value: T)

  /**
   What the health check reads from a probe response: the HTTP status, and whether the
   response carries a `Server` header with a non-empty value. A `Server` header that is
   present but empty reads as falsy, so it counts the same as a missing one.
   */
  datatype Response = Response(status: int, hasNonEmptyServerHeader: bool)

  /** HTTP statuses the tunnel provider answers with when the tunnel is throttled, out of quota or broken. */
  const TooManyRequests: int := 429
  const PaymentRequired: int := 402
  const InternalServerError: int := 500

  /** The same statuses as a set: the reference the classification is checked against. */
  const ErrorStatuses: set<int> := {TooManyRequests, PaymentRequired, InternalServerError}

  /** A response is an error when its status is one of the provider's error statuses or it lacks a non-empty `Server` header. */
  predicate IsErrorResponse(response: Response)
  {
    || response.status == TooManyRequests
    || response.status == PaymentRequired
    || response.status == InternalServerError
    || !response.hasNonEmptyServerHeader
  }

  /**
   The value `pingTunnel` resolves to once the request has been answered with `response`:
   the response itself when it is an error, `None` when the tunnel is healthy.
   */
  function PingTunnel(response: Response): (r: Option<Response>)
    ensures r.Some? <==> response.status in ErrorStatuses || !response.hasNonEmptyServerHeader
    ensures r.Some? ==> r.value == response
  {
    if IsErrorResponse(response) then Some(response) else None
  }

  /** A provider error status makes the response an error, whatever its headers. */
  lemma ErrorStatusIsErrorWhateverHeaders(status: int, hasNonEmptyServerHeader: bool)
    requires status == TooManyRequests || status == PaymentRequired || status == InternalServerError
    ensures PingTunnel(Response(status, hasNonEmptyServerHeader)) == Some(Response(status, hasNonEmptyServerHeader))
  {
  }

  /** A missing or empty `Server` header makes the response an error, whatever its status; a bare 200 included. */
  lemma MissingOrEmptyServerHeaderIsError(status: int)
    ensures PingTunnel(Response(status, false)) == Some(Response(status, false))
  {
  }

  /** Every other response is healthy. */
  lemma OtherResponsesAreHealthy(response: Response)
    requires response.status !in ErrorStatuses
    requires response.hasNonEmptyServerHeader
    ensures PingTunnel(response) == None
  {
  }
}
