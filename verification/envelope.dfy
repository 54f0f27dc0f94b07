/** The broker's reply envelope and the writes a handler makes to the
    inbound response. The helpers that perform the writes (`writeJSON`,
    `errorJSON`) are not part of this model: each call to one of them is
    recorded as a `Write` value, in call order. */
module Envelope {

  /** A Go `error` value: nil, or an error carrying its text. */
  datatype GoError = NilError | Error(text: string)

  /** The decoded `data` value of an envelope, kept opaque; `Null` is Go's
      nil (nothing to send). */
  datatype Data = Null | Json(text: string)

  /** The HTTP status of a write: an explicit code, or the default that
      `errorJSON` picks when its caller passes none. */
  datatype Status = DefaultErrorStatus | Code(code: int)

  /** The message of a write: literal text, or whatever `errorJSON` makes
      of a nil error (its body is not part of this model). */
  datatype Message = Text(text: string) | OfNilError

  /** The `{error, message, data}` record every service of the system
      answers with, the downstream services included. */
  datatype Reply = Reply(error: bool, message: string, data: Data)

  /** One write to the inbound response: (status, error flag, message, data). */
  datatype Write = Write(status: Status, error: bool, message: Message, data: Data)

  /** The message an error value contributes to an error write. */
  function MessageOf(e: GoError): Message
  {
    match e
    case NilError => OfNilError
    case Error(t) => Text(t)
  }

  /** `errorJSON(w, err, status)`: an error write; `status` is
      `DefaultErrorStatus` when the caller passed none. */
  function ErrorJSON(e: GoError, status: Status): Write
  {
    Write(status, true, MessageOf(e), Null)
  }

  /** `errorJSON(w, err)` with no status: the most common failure write. */
  function Failure(e: GoError): Write
  {
    ErrorJSON(e, DefaultErrorStatus)
  }

  /** `writeJSON(w, code, payload)`. */
  function WriteJSON(code: int, payload: Reply): Write
  {
    Write(Code(code), payload.error, Text(payload.message), payload.data)
  }

  /** The number of success (error = false) writes in a sequence. */
  function SuccessCount(ws: seq<Write>): (n: nat)
    ensures n <= |ws|
    ensures n == 0 <==> forall i :: 0 <= i < |ws| ==> ws[i].error
  {
    if |ws| == 0 then 0
    else (if ws[0].error then 0 else 1) + SuccessCount(ws[1..])
  }

  /** Every write but the last reports an error: a success write, if any,
      is the final one. */
  predicate ErrorsBeforeLast(ws: seq<Write>)
  {
    forall i :: 0 <= i < |ws| - 1 ==> ws[i].error
  }
}
