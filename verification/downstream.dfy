/** The downstream call a per-service handler makes, with the HTTP exchange
    abstracted to the outcome the handler observes. */
module Downstream {
  import opened Envelope
  import opened Payloads

  /** `http.StatusAccepted`: the only status the handlers treat as success. */
  const StatusAccepted: int := 202

  /** `http.StatusUnauthorized`. */
  const StatusUnauthorized: int := 401

  /** The outbound request a handler builds: which service, with which
      sub-payload of the inbound envelope. */
  datatype Request =
    | ToAuthentication(auth: AuthPayload)
    | ToLogger(log: LogPayload)
    | ToMail(mail: MailPayload)

  /** The response body as the handler reads it: decoded into a `Reply`, or
      a decode error. */
  datatype Body = Decoded(reply: Reply) | Undecodable(err: string)

  /** Everything a handler can observe of its one downstream call: building
      the request failed, the transport failed, or a response arrived. */
  datatype Outcome =
    | BuildFailed(err: string)
    | TransportFailed(err: string)
    | Responded(status: int, body: Body)

  /** The downstream services, as seen by one inbound request: the outcome
      each possible outbound request would have. */
  type Services = Request -> Outcome

  datatype Option<T> = None | Some(value: T)

  /** A response with status 202 arrived. */
  predicate Accepted(o: Outcome)
  {
    o.Responded? && o.status == StatusAccepted
  }

  /** A 202 response arrived and its body decoded. */
  predicate AcceptedAndDecoded(o: Outcome)
  {
    Accepted(o) && o.body.Decoded?
  }

  /** The call failed before any status was seen. */
  predicate CallFailed(o: Outcome)
  {
    o.BuildFailed? || o.TransportFailed?
  }
}
