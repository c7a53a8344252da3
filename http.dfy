/**
 * The part of an inbound HTTP request the webhook adapters look at, the status
 * codes they answer with, and the final non-blocking enqueue they all share.
 */
module Http {
  import opened Wrappers
  import opened Types
  import Channels

  const MethodPost: string := "POST"

  const StatusAccepted: int := 202
  const StatusBadRequest: int := 400
  const StatusUnauthorized: int := 401
  const StatusMethodNotAllowed: int := 405
  const StatusInternalServerError: int := 500
  const StatusServiceUnavailable: int := 503

  /**
   * A request: its method (verb), its headers (keys as the handlers spell them) and its body,
   * which is None when reading it failed.
   */
  datatype Request = Request(verb: string, headers: map<string, string>, body: Option<Bytes>)

  /** http.Header.Get: the empty string for a missing header. */
  function Header(r: Request, name: string): (v: string)
    ensures name !in r.headers ==> v == ""
    ensures name in r.headers ==> v == r.headers[name]
  {
    if name in r.headers then r.headers[name] else ""
  }

  /** What a handler decides before the enqueue: an error status, or an event to enqueue. */
  datatype Verdict<E> = Reject(status: int) | Enqueue(event: E)

  /**
   * The tail every handler shares: an error verdict is written as is; an event
   * is offered to the channel without blocking (select with a default case),
   * giving 202 when it was taken and 503 when the channel was full.
   */
  method Respond<E>(v: Verdict<E>, ch: Channels.Channel<E>) returns (status: int)
    requires ch.Valid() && !ch.closed
    modifies ch
    ensures ch.Valid() && !ch.closed
    ensures v.Reject? ==> status == v.status && ch.buf == old(ch.buf)
    ensures v.Enqueue? && |old(ch.buf)| < ch.capacity ==>
              status == StatusAccepted && ch.buf == old(ch.buf) + [v.event]
    ensures v.Enqueue? && |old(ch.buf)| >= ch.capacity ==>
              status == StatusServiceUnavailable && ch.buf == old(ch.buf)
  {
    match v
    case Reject(s) =>
      status := s;
    case Enqueue(e) =>
      var ok := ch.TrySend(e);
      status := if ok then StatusAccepted else StatusServiceUnavailable;
  }
}
