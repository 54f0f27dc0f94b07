/** Relations between the handlers: what each one reads of its input, and
    where the logger and authentication handlers, written alike, part ways. */
module Properties {
  import opened Envelope
  import opened Payloads
  import opened Downstream
  import opened Handlers

  /** Two write sequences agree on everything but the text of their
      success writes. */
  predicate AgreeBesideSuccessText(ws1: seq<Write>, ws2: seq<Write>)
  {
    && |ws1| == |ws2|
    && forall i :: 0 <= i < |ws1| ==>
         && ws1[i].status == ws2[i].status
         && ws1[i].error == ws2[i].error
         && ws1[i].data == ws2[i].data
         && (ws1[i].error ==> ws1[i].message == ws2[i].message)
  }

  /** Apart from 401, the logger handler answers exactly as the
      authentication handler does, its success message aside. */
  lemma LogMirrorsAuthentication(o: Outcome)
    requires !(o.Responded? && o.status == StatusUnauthorized)
    ensures AgreeBesideSuccessText(LogItemReply(o), AuthenticationReply(o))
  {
  }

  /** On 401 the two differ: only authentication reports bad credentials. */
  lemma UnauthorizedOnlyForAuthentication(body: Body)
    ensures AuthenticationReply(Responded(StatusUnauthorized, body))[0].message == Text("invalid credentials")
    ensures LogItemReply(Responded(StatusUnauthorized, body))[0].message == Text("something went wrong")
  {
  }

  /** The mail handler never reads the response body: two responses with
      the same status give the same writes. */
  lemma SendMailIgnoresBody(msg: MailPayload, status: int, b1: Body, b2: Body)
    ensures SendMailReply(msg, Responded(status, b1)) == SendMailReply(msg, Responded(status, b2))
  {
  }

  /** A downstream body flagged as an error is surfaced first, as a 401
      error write, and then answered with the ordinary success write
      carrying the downstream data. */
  lemma FlaggedReplyWritesTwice(reply: Reply)
    requires reply.error
    ensures AuthenticationReply(Responded(StatusAccepted, Decoded(reply))) ==
      [ ErrorJSON(NilError, Code(StatusUnauthorized))
      , Write(Code(StatusAccepted), false, Text("Authenticated!"), reply.data) ]
    ensures LogItemReply(Responded(StatusAccepted, Decoded(reply))) ==
      [ ErrorJSON(NilError, Code(StatusUnauthorized))
      , Write(Code(StatusAccepted), false, Text("Logged!"), reply.data) ]
  {
  }

  /** The dispatcher touches only the sub-payload the action names: the
      other two sub-payloads can be anything. */
  lemma DispatchReadsOnlyNamedPayload(p: RequestPayload, q: RequestPayload, services: Services)
    requires p.action == q.action
    requires p.action == "auth" ==> p.auth == q.auth
    requires p.action == "log" ==> p.log == q.log
    requires p.action == "mail" ==> p.mail == q.mail
    ensures HandleSubmission(Read(p), services) == HandleSubmission(Read(q), services)
  {
  }

  /** An unknown action dispatches to no handler: the trace is the same
      whatever the downstream services would have answered. */
  lemma UnknownActionCallsNothing(p: RequestPayload, s1: Services, s2: Services)
    requires p.action !in KnownActions
    ensures HandleSubmission(Read(p), s1) == HandleSubmission(Read(p), s2)
    ensures HandleSubmission(Read(p), s1).dispatched.None?
  {
  }
}
