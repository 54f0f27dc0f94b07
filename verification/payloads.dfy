/** The inbound request envelope and the per-service payloads it carries,
    with the `action` discriminator read as a closed set of variants. */
module Payloads {

  /** Credentials forwarded verbatim to the authentication service. */
  datatype AuthPayload = AuthPayload(email: string, password: string)

  /** A log record forwarded verbatim to the logger service. */
  datatype LogPayload = LogPayload(name: string, data: string)

  /** A message forwarded verbatim to the mail service. */
  datatype MailPayload = MailPayload(from: string, to: string, subject: string, message: string)

  /** The decoded inbound body. All three sub-payloads are always present:
      one missing from the JSON decodes to its zero value (empty strings). */
  datatype RequestPayload = RequestPayload(action: string, auth: AuthPayload, log: LogPayload, mail: MailPayload)

  /** The outcome of reading the inbound body: a decode error, or the payload. */
  datatype Inbound = Unreadable(err: string) | Read(payload: RequestPayload)

  /** The `action` discriminator: one of the three known names, or any
      other string. */
  datatype Action = Auth | Log | Mail | Unknown(name: string)

  /** The action names the broker dispatches on. */
  const KnownActions: set<string> := {"auth", "log", "mail"}

  /** An `Action` that `ParseAction` can produce: `Unknown` never holds a
      known name. */
  predicate WellFormed(a: Action)
  {
    a.Unknown? ==> a.name !in KnownActions
  }

  /** The string an action is spelled as on the wire. */
  function ActionName(a: Action): string
  {
    match a
    case Auth => "auth"
    case Log => "log"
    case Mail => "mail"
    case Unknown(s) => s
  }

  /** Reads the discriminator; every string maps to exactly one variant and
      back to itself. */
  function ParseAction(s: string): (a: Action)
    ensures WellFormed(a)
    ensures ActionName(a) == s
    ensures a.Unknown? <==> s !in KnownActions
  {
    if s == "auth" then Auth
    else if s == "log" then Log
    else if s == "mail" then Mail
    else Unknown(s)
  }

  /** The other direction of the round trip: a well-formed action survives
      being spelled out and read back. */
  lemma ParseActionName(a: Action)
    requires WellFormed(a)
    ensures ParseAction(ActionName(a)) == a
  {
  }
}
