# Broker action dispatch, modelled in Dafny

This project models the broker service of a small Go microservice system.
The broker receives one kind of inbound request, a JSON envelope
`{action, auth, log, mail}`. It dispatches on `action` to one of three
handlers: `authentication`, `logItem` or `sendMail`. Each handler makes one
HTTP call to its downstream service (authentication, logger or mail) and
turns the outcome into writes to the inbound response.

The model leaves HTTP out. A handler's downstream call is an `Outcome` value:
- building the request failed,
- the transport failed,
- or a response arrived with a status and a body that either decoded into
  the `{error, message, data}` record or failed to decode.

Each handler is a pure function from that outcome to the *sequence* of
writes it makes. A write is the record (status, error flag, message, data).
The broker's entry point `HandleSubmission` is a function from the inbound
read result and the downstream services to a `Trace`. A trace records which
handler was dispatched with which sub-payload (or none), and the writes
made. A dispatch does not mean a request was built or sent: building can
still fail (`BuildFailed`). The
downstream services are represented as a function from outbound request to
outcome.

Modules:
- `Envelope`: the write record and the reply record.
- `Payloads`: the inbound types, and the `Action` discriminator as a closed
  datatype.
- `Downstream`: the outbound request and the outcome of the call.
- `Handlers`: the three reply functions, the routing and `HandleSubmission`.
- `Properties`: relations between the handlers.
- `Server`: a series of requests handled independently. Its lemmas follow from `HandleSubmission` being a pure function of its request and the downstream answers. That modelling choice rests on the handlers using only locals and a fresh `http.Client` per call (handlers.go:76, 125, 178); the code itself never processes a series of requests.

The model follows the code as written in two places:
- In `authentication` and `logItem`, the branch taken when the downstream
  body reports `error: true` calls `errorJSON` with no `return`. Execution
  falls through to the success write, so such a response gets two writes: a
  401 error write, then the 202 success write carrying the downstream data.
- The error passed to that 401 write is the result of the body decode that
  just succeeded, so it is nil. The model records this as `NilError`. The
  resulting message is `OfNilError`, because `errorJSON` is not part of this
  model.

Two further facts about the code shape the model:
- `logItem` repeats the downstream error-flag check and its missing
  `return` (handlers.go:147-149), so it has the same two-write case as
  `authentication`.
- Every `errorJSON` call except those at lines 102 and 148 passes no
  status, so those writes carry the helper's default status, recorded as
  `DefaultErrorStatus`.

## Model

| member | source | states |
|---|---|---|
| Handlers.HandleSubmission | broker-service/cmd/api/handlers.go:44-63 | An unreadable inbound body gives exactly one error write carrying the decode error, and no handler is dispatched. An action outside {auth, log, mail} gives one "unknown action" error write and no downstream call. "auth", "log" and "mail" each invoke only the matching handler, with the matching sub-payload. A handler is dispatched exactly when the body was read and the action is known; the trace records the handler and its sub-payload, whether or not building the request then succeeds. |
| Handlers.Route | broker-service/cmd/api/handlers.go:53-62 | The switch picks the authentication request with the `Auth` sub-payload exactly for "auth", the logger request with `Log` exactly for "log", and the mail request with `Mail` exactly for "mail". It picks nothing exactly when the action is some other string. |
| Payloads.ParseAction | broker-service/cmd/api/handlers.go:53-61 | Every action string maps to one variant and spells back to itself. It maps to `Unknown` exactly when it is not one of the three known names. |
| Payloads.ParseActionName | broker-service/cmd/api/handlers.go:53-61 | The other half of the round trip: a well-formed action, spelled out and read back, is itself. |
| Handlers.AuthenticationReply | broker-service/cmd/api/handlers.go:65-111 | Build, transport or body-decode failure gives one error write carrying that error. 401 gives one "invalid credentials" error write. Any other status except 202 gives one "something went wrong" error write. A success write happens exactly on 202 with a decodable body, and it is the last write: status 202, error false, "Authenticated!", and the downstream data. There are two writes exactly when the downstream body reports an error: first a 401 error write with the nil error, then the success write. |
| Handlers.LogItemReply | broker-service/cmd/api/handlers.go:113-158 | As for authentication, with these differences. Every status other than 202, 401 included, gives one "something went wrong" error write. The success message is "Logged!". The downstream-error flag again gives a 401 error write followed by the success write. |
| Handlers.SendMailReply | broker-service/cmd/api/handlers.go:160-199 | There is always exactly one write. Build or transport failure gives an error write carrying that error. A status other than 202 gives an "error calling mail service" error write. 202 gives a success write with status 202, message "Message sent to " followed by the recipient, and no data. |
| Properties.SendMailIgnoresBody | broker-service/cmd/api/handlers.go:186-198 | The mail handler's writes depend only on the status, never on the response body. |
| Properties.FlaggedReplyWritesTwice | broker-service/cmd/api/handlers.go:101-110 | For a 202 whose body reports an error, authentication and logger each write a 401 error write and then their 202 success write with the downstream data, in that order. |
| Properties.LogMirrorsAuthentication | broker-service/cmd/api/handlers.go:113-156 | On every outcome except a 401 response, the logger's writes equal the authentication handler's writes in count, status, error flag, data and error messages. |
| Properties.UnauthorizedOnlyForAuthentication | broker-service/cmd/api/handlers.go:85-91 | On a 401 response, authentication reports "invalid credentials" while the logger reports "something went wrong". |
| Properties.DispatchReadsOnlyNamedPayload | broker-service/cmd/api/handlers.go:53-59 | Two inbound payloads with the same action and the same sub-payload for that action give the same trace, whatever the other sub-payloads hold. |
| Properties.UnknownActionCallsNothing | broker-service/cmd/api/handlers.go:60-61 | For an unknown action the trace does not depend on the downstream services, and no handler is dispatched. |
| Server.Serve | broker-service/cmd/api/handlers.go:44-63 | Handling a series of requests gives one trace per request. The i-th trace is exactly what handling the i-th request alone gives, because the handlers keep no state between requests. |
| Server.ServeSplit | broker-service/cmd/api/handlers.go:44-63 | Serving two batches in sequence gives the same traces as serving them together. |
| Server.Resubmission | broker-service/cmd/api/handlers.go:44-63 | The same request submitted twice, against the same downstream behaviour, gives two identical traces. |

## Left out

- HTTP transport (`http.NewRequest`, `client.Do`, response-body closing), URLs and headers: the downstream call is the abstract `Outcome`, and one `Services` function stands for the downstream services during one request.
- JSON encoding of the outbound payload (`json.MarshalIndent`, whose error the code discards) and JSON decoding of bodies: decode success or failure is part of the inbound read result or the `Outcome`. `Data` stands for the decoded `data` value, which `writeJSON` re-encodes; it is not the downstream's JSON text byte for byte.
- `readJSON`, `writeJSON`, `errorJSON`: their bodies are not part of this model. Each call is recorded as a write. `errorJSON` is assumed to set the error flag and send no data. Its default status is recorded as `DefaultErrorStatus` (see the line on it below). The message it derives from a nil error is the opaque `OfNilError`.
- What net/http does when a handler writes twice (the first status is kept and the two bodies are concatenated): the model stops at the sequence of writes.
- `Broker` (handlers.go:35-42): a constant "Hit the broker" reply.
- `log.Println` calls: logging only.
- The authentication and mail services' `main.go` files: server start-up, environment configuration, and the database connection retry loop. None of this is part of the dispatch logic.
- Round trip of the inbound envelope through JSON: this belongs to the JSON library, which is not modelled.
- Timeouts, cancellation and concurrency: the code has none, and the handlers share no state. `Server` models a series of requests, not concurrent ones.
- The two-write result for a flagged downstream body assumes that `errorJSON(w, err, 401)` returns normally when `err` is nil, which is what lines 102 and 148 pass. The body of `errorJSON` is not part of this model. If it builds its message with `err.Error()`, it panics on the nil error and the handler stops before the success write at line 110/156. In that case `AuthenticationReply`, `LogItemReply` and `FlaggedReplyWritesTwice` overstate what is written.
- `DefaultErrorStatus`: `errorJSON`'s default status is a constructor of its own, so the model treats it as different from every explicit code, 401 included. The real default is some HTTP code, possibly one the code also passes explicitly. No contract relies on the two being different.
