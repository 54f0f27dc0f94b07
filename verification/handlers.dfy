/** The broker's `HandleSubmission` dispatch and its three per-service
    handlers. Each handler is split into the outbound request it builds from
    its sub-payload and a pure reply function from the observed downstream
    outcome to the sequence of writes it makes, in order. */
module Handlers {
  import opened Envelope
  import opened Payloads
  import opened Downstream

  /** What handling one inbound request did: the handler it dispatched to,
      with that handler's sub-payload, if any (building the request may still
      fail), and the writes it made to the inbound response. */
  datatype Trace = Trace(dispatched: Option<Request>, writes: seq<Write>)

  /** `authentication`: the outcome of the call to the authentication
      service, turned into writes. A downstream error flag produces an error
      write and, with no `return` after it, the success write as well. */
  function AuthenticationReply(o: Outcome): (ws: seq<Write>)
    ensures 1 <= |ws| <= 2
    ensures ErrorsBeforeLast(ws)
    ensures SuccessCount(ws) <= 1
    // a success write happens exactly when a 202 arrived with a decodable body
    ensures !ws[|ws| - 1].error <==> AcceptedAndDecoded(o)
    ensures AcceptedAndDecoded(o) ==>
      ws[|ws| - 1] == Write(Code(StatusAccepted), false, Text("Authenticated!"), o.body.reply.data)
    // two writes exactly when the downstream body itself reports an error
    ensures |ws| == 2 <==> AcceptedAndDecoded(o) && o.body.reply.error
    ensures |ws| == 2 ==> ws[0] == Write(Code(StatusUnauthorized), true, OfNilError, Null)
    ensures o.Responded? && o.status == StatusUnauthorized ==>
      ws == [Failure(Error("invalid credentials"))]
    ensures o.Responded? && o.status != StatusUnauthorized && o.status != StatusAccepted ==>
      ws == [Failure(Error("something went wrong"))]
    ensures CallFailed(o) ==> ws == [Failure(Error(o.err))]
    ensures Accepted(o) && o.body.Undecodable? ==> ws == [Failure(Error(o.body.err))]
  {
    match o
    case BuildFailed(e) => [Failure(Error(e))]
    case TransportFailed(e) => [Failure(Error(e))]
    case Responded(status, body) =>
      if status == StatusUnauthorized then [Failure(Error("invalid credentials"))]
      else if status != StatusAccepted then [Failure(Error("something went wrong"))]
      else
        match body
        case Undecodable(e) => [Failure(Error(e))]
        case Decoded(reply) =>
          // `err` here is the nil result of the successful decode
          var flagged := if reply.error then [ErrorJSON(NilError, Code(StatusUnauthorized))] else [];
          flagged + [WriteJSON(StatusAccepted, Reply(false, "Authenticated!", reply.data))]
  }

  /** `logItem`: the outcome of the call to the logger service, turned into
      writes. Unlike authentication, 401 gets no message of its own; the
      missing `return` after the downstream-error write is the same. */
  function LogItemReply(o: Outcome): (ws: seq<Write>)
    ensures 1 <= |ws| <= 2
    ensures ErrorsBeforeLast(ws)
    ensures SuccessCount(ws) <= 1
    ensures !ws[|ws| - 1].error <==> AcceptedAndDecoded(o)
    ensures AcceptedAndDecoded(o) ==>
      ws[|ws| - 1] == Write(Code(StatusAccepted), false, Text("Logged!"), o.body.reply.data)
    ensures |ws| == 2 <==> AcceptedAndDecoded(o) && o.body.reply.error
    ensures |ws| == 2 ==> ws[0] == Write(Code(StatusUnauthorized), true, OfNilError, Null)
    ensures o.Responded? && o.status != StatusAccepted ==>
      ws == [Failure(Error("something went wrong"))]
    ensures CallFailed(o) ==> ws == [Failure(Error(o.err))]
    ensures Accepted(o) && o.body.Undecodable? ==> ws == [Failure(Error(o.body.err))]
  {
    match o
    case BuildFailed(e) => [Failure(Error(e))]
    case TransportFailed(e) => [Failure(Error(e))]
    case Responded(status, body) =>
      if status != StatusAccepted then [Failure(Error("something went wrong"))]
      else
        match body
        case Undecodable(e) => [Failure(Error(e))]
        case Decoded(reply) =>
          var flagged := if reply.error then [ErrorJSON(NilError, Code(StatusUnauthorized))] else [];
          flagged + [WriteJSON(StatusAccepted, Reply(false, "Logged!", reply.data))]
  }

  /** `sendMail`: the outcome of the call to the mail service, turned into
      one write. The response body is never read. */
  function SendMailReply(msg: MailPayload, o: Outcome): (ws: seq<Write>)
    ensures |ws| == 1
    ensures !ws[0].error <==> Accepted(o)
    ensures Accepted(o) ==>
      ws[0] == Write(Code(StatusAccepted), false, Text("Message sent to " + msg.to), Null)
    ensures o.Responded? && o.status != StatusAccepted ==>
      ws == [Failure(Error("error calling mail service"))]
    ensures CallFailed(o) ==> ws == [Failure(Error(o.err))]
  {
    match o
    case BuildFailed(e) => [Failure(Error(e))]
    case TransportFailed(e) => [Failure(Error(e))]
    case Responded(status, _) =>
      if status != StatusAccepted then [Failure(Error("error calling mail service"))]
      else [WriteJSON(StatusAccepted, Reply(false, "Message sent to " + msg.to, Null))]
  }

  /** The `switch` on the action: the matching handler with its own
      sub-payload, or none for an unknown action. */
  function Route(p: RequestPayload): (r: Option<Request>)
    ensures r.None? <==> p.action !in KnownActions
    ensures p.action == "auth" <==> r == Some(ToAuthentication(p.auth))
    ensures p.action == "log" <==> r == Some(ToLogger(p.log))
    ensures p.action == "mail" <==> r == Some(ToMail(p.mail))
  {
    match ParseAction(p.action)
    case Auth => Some(ToAuthentication(p.auth))
    case Log => Some(ToLogger(p.log))
    case Mail => Some(ToMail(p.mail))
    case Unknown(_) => None
  }

  /** The handler that owns a request, given the outcome of sending it. */
  function Respond(req: Request, o: Outcome): seq<Write>
  {
    match req
    case ToAuthentication(_) => AuthenticationReply(o)
    case ToLogger(_) => LogItemReply(o)
    case ToMail(m) => SendMailReply(m, o)
  }

  /** `HandleSubmission`: read the inbound body, dispatch on the action to
      exactly one handler, which makes one downstream call and answers. */
  function HandleSubmission(inbound: Inbound, services: Services): (t: Trace)
    ensures |t.writes| >= 1
    // an unreadable body: one error write carrying the decode error, no dispatch
    ensures inbound.Unreadable? ==> t == Trace(None, [Failure(Error(inbound.err))])
    // an unknown action: one "unknown action" error write, no dispatch
    ensures inbound.Read? && inbound.payload.action !in KnownActions ==>
      t == Trace(None, [Failure(Error("unknown action"))])
    // a known action: exactly the matching handler, with its own sub-payload
    ensures inbound.Read? && inbound.payload.action == "auth" ==>
      var req := ToAuthentication(inbound.payload.auth);
      t == Trace(Some(req), AuthenticationReply(services(req)))
    ensures inbound.Read? && inbound.payload.action == "log" ==>
      var req := ToLogger(inbound.payload.log);
      t == Trace(Some(req), LogItemReply(services(req)))
    ensures inbound.Read? && inbound.payload.action == "mail" ==>
      var req := ToMail(inbound.payload.mail);
      t == Trace(Some(req), SendMailReply(inbound.payload.mail, services(req)))
    ensures t.dispatched.Some? <==> inbound.Read? && inbound.payload.action in KnownActions
  {
    match inbound
    case Unreadable(e) => Trace(None, [Failure(Error(e))])
    case Read(p) =>
      match Route(p)
      case None => Trace(None, [Failure(Error("unknown action"))])
      case Some(req) => Trace(Some(req), Respond(req, services(req)))
  }
}
