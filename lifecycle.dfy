/**
 * How both gateways read a `connection.update` close event: the status code is
 * classified, and a restart is described by a record instead of a timer.
 */
module Lifecycle {
  import opened Wrappers

  /** `lastDisconnect.error.output.statusCode`, with Baileys' `DisconnectReason`
      values kept symbolic; `Status(n)` is any other code, and a missing code
      (`|| null`) is `None` at the use sites. Baileys' `loggedOut` is 401 and
      `restartRequired` is 515, so a close event never carries `Status(401)`;
      `Status(515)` stands for the literal `515` the handlers also test. */
  datatype CloseCode = LoggedOut | RestartRequired | Status(n: int)

  /** The three branches of the close handlers. */
  datatype CloseKind =
    | Terminal   // logged out: drop the session for good
    | Restart    // restart required (or code 515): restart the session
    | Reconnect  // anything else, including a missing code

  /** The branch a close code selects: `loggedOut` first, then
      `restartRequired || 515`, then everything else. */
  function Classify(code: Option<CloseCode>): (k: CloseKind)
    ensures k == Terminal <==> code == Some(LoggedOut)
    ensures k == Restart <==> code == Some(RestartRequired) || code == Some(Status(515))
    ensures code.None? ==> k == Reconnect
  {
    match code
    case Some(LoggedOut) => Terminal
    case Some(RestartRequired) => Restart
    case Some(Status(n)) => if n == 515 then Restart else Reconnect
    case None => Reconnect
  }

  /** The session id a scheduled start uses. */
  datatype IdChoice = FreshId | SameId(id: string)
}
