/** The broker serving a series of inbound requests. The handlers keep no
    state between requests (each builds a fresh HTTP client and reads only
    its own request), so the trace of each request depends on that request
    and on what the downstream services answer it, and on nothing else. */
module Server {
  import opened Payloads
  import opened Downstream
  import opened Handlers

  /** One inbound request, with the downstream services as they behave
      while it is being handled. */
  datatype Submission = Submission(inbound: Inbound, services: Services)

  /** Handles each submission in turn; the i-th trace is exactly what
      `HandleSubmission` makes of the i-th submission alone. */
  function Serve(subs: seq<Submission>): (ts: seq<Trace>)
    ensures |ts| == |subs|
    ensures forall i :: 0 <= i < |subs| ==> ts[i] == HandleSubmission(subs[i].inbound, subs[i].services)
  {
    if |subs| == 0 then []
    else [HandleSubmission(subs[0].inbound, subs[0].services)] + Serve(subs[1..])
  }

  /** Serving two batches one after the other is serving them together:
      no request leaves anything behind for the next. */
  lemma ServeSplit(xs: seq<Submission>, ys: seq<Submission>)
    ensures Serve(xs + ys) == Serve(xs) + Serve(ys)
  {
  }

  /** Submitting the same request twice, against the same downstream
      behaviour, gives two identical, independent traces. */
  lemma Resubmission(s: Submission)
    ensures Serve([s, s]) == [HandleSubmission(s.inbound, s.services)] + [HandleSubmission(s.inbound, s.services)]
  {
  }
}
