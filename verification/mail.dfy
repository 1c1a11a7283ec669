/** `MailService`: address checks, fallback chains and failure reasons of
    the welcome mail and the owner notification. The transport's answer to
    a send is a parameter; the template and the transport are not modelled. */
module Mail {
  import opened Base
  import opened Strings

  /** The fields of a transport error that the service inspects; an empty
      message is a falsy one. */
  datatype MailError = MailError(code: Option<string>, responseCode: Option<int>, message: string)

  /** What one send produces: a result with a message id (empty when
      missing), no result at all, or a thrown error. */
  datatype SendOutcome = Delivered(messageId: string) | NoResult | Failed(error: MailError)

  /** A send that the service hands to the transport. */
  datatype SendRequest = SendRequest(to: string, quizIdOrSubject: string)

  const FallbackQuizId: string := "divorce_conflict_v1"
  const WelcomePrefix: string := "Email sending failed: "
  const UnknownError: string := "Unknown error"
  const WelcomeNoMessageId: string := "Email sent but no messageId returned - email may not have been delivered"
  const OwnerNoMessageId: string := "Owner notification sent but no messageId returned"
  const WelcomeAuthReason: string := "SMTP authentication failed - check SMTP_USER and SMTP_PASS in .env file (password should have NO spaces)"
  const WelcomeConnectionReason: string := "SMTP connection failed - check internet connection and SMTP_HOST/port settings"
  const Gmail535Reason: string := "Gmail authentication failed - verify App Password is correct (16 chars, no spaces) and 2FA is enabled"
  const Rejected550Reason: string := "Email rejected by server - check sender email address and Gmail account settings"
  const OwnerAuthReason: string := "SMTP authentication failed - check SMTP credentials"
  const OwnerConnectionReason: string := "SMTP connection failed"

  /** `${to}` of an absent address. */
  function AddressText(to: Option<string>): string {
    if to.Some? then to.value else "undefined"
  }

  predicate ValidAddress(to: Option<string>) {
    to.Some? && |to.value| > 0 && Contains(to.value, "@")
  }

  /** `quizId || process.env.QUIZ_ID || 'divorce_conflict_v1'`. */
  function WelcomeQuizId(quizId: Option<string>, envQuizId: Option<string>): (r: string)
    ensures |r| > 0
    ensures quizId.Some? && quizId.value != "" ==> r == quizId.value
    ensures (quizId.None? || quizId.value == "") && envQuizId.Some? && envQuizId.value != "" ==> r == envQuizId.value
    ensures (quizId.None? || quizId.value == "") && (envQuizId.None? || envQuizId.value == "") ==> r == FallbackQuizId
  {
    if quizId.Some? && |quizId.value| > 0 then quizId.value
    else if envQuizId.Some? && |envQuizId.value| > 0 then envQuizId.value
    else FallbackQuizId
  }

  /** The welcome path's reason, checked in priority order. */
  function WelcomeReason(e: MailError): (r: string)
    ensures |r| > 0
  {
    if e.code == Some("EAUTH") then WelcomeAuthReason
    else if e.code == Some("ECONNECTION") || e.code == Some("ETIMEDOUT") then WelcomeConnectionReason
    else if e.responseCode == Some(535) then Gmail535Reason
    else if e.responseCode == Some(550) then Rejected550Reason
    else if |e.message| > 0 then e.message
    else UnknownError
  }

  /** The error an outcome raises inside the `try`, if any. */
  function RaisedError(outcome: SendOutcome, noIdMessage: string): Option<MailError> {
    match outcome
    case Delivered(id) => if |id| > 0 then None else Some(MailError(None, None, noIdMessage))
    case NoResult => Some(MailError(None, None, noIdMessage))
    case Failed(e) => Some(e)
  }

  datatype WelcomeResult = WelcomeResult(request: Option<SendRequest>, result: Result<string, string>)

  /** `sendWelcome({to, quizId, ...})`: the message id, or the error it
      rethrows; `request` is the send handed to the transport, if any. */
  function SendWelcome(to: Option<string>, quizId: Option<string>, envQuizId: Option<string>, outcome: SendOutcome): (r: WelcomeResult)
    ensures !ValidAddress(to) ==>
      r.request.None? && r.result == Err(WelcomePrefix + ("Invalid email address: " + AddressText(to)))
    ensures ValidAddress(to) ==> r.request == Some(SendRequest(to.value, WelcomeQuizId(quizId, envQuizId)))
    ensures r.result.Ok? <==> ValidAddress(to) && outcome.Delivered? && |outcome.messageId| > 0
    ensures r.result.Ok? ==> r.result.value == outcome.messageId
    ensures r.result.Err? ==> StartsWith(r.result.error, WelcomePrefix)
  {
    if !ValidAddress(to) then
      var e := MailError(None, None, "Invalid email address: " + AddressText(to));
      assert WelcomeReason(e) == e.message;
      WelcomeResult(None, Err(WelcomePrefix + WelcomeReason(e)))
    else
      var req := Some(SendRequest(to.value, WelcomeQuizId(quizId, envQuizId)));
      match RaisedError(outcome, WelcomeNoMessageId)
      case None => WelcomeResult(req, Ok(outcome.messageId))
      case Some(e) => WelcomeResult(req, Err(WelcomePrefix + WelcomeReason(e)))
  }

  /** An authentication failure is reported as such even when the server
      also answered 535. */
  lemma AuthBeatsResponseCode(m: string)
    ensures WelcomeReason(MailError(Some("EAUTH"), Some(535), m)) == WelcomeAuthReason
    ensures WelcomeReason(MailError(None, Some(535), m)) == Gmail535Reason
  {
  }

  /** A delivery without a message id is a failure with its own reason. */
  lemma WelcomeWithoutMessageIdFails(to: string, quizId: Option<string>, envQuizId: Option<string>)
    requires ValidAddress(Some(to))
    ensures SendWelcome(Some(to), quizId, envQuizId, Delivered("")).result == Err(WelcomePrefix + WelcomeNoMessageId)
    ensures SendWelcome(Some(to), quizId, envQuizId, NoResult).result == Err(WelcomePrefix + WelcomeNoMessageId)
  {
  }

  datatype OwnerResult = OwnerResult(request: Option<SendRequest>, messageId: Option<string>, reason: Option<string>)

  /** The owner path's reason: no special case for ETIMEDOUT or response codes. */
  function OwnerReason(e: MailError): (r: string)
    ensures |r| > 0
  {
    if e.code == Some("EAUTH") then OwnerAuthReason
    else if e.code == Some("ECONNECTION") then OwnerConnectionReason
    else if |e.message| > 0 then e.message
    else UnknownError
  }

  function Subject(studentEmail: string): string {
    "New quiz attempt: " + studentEmail
  }

  /** `sendOwnerNotification({to, student})`: sends to `to`, else to the
      configured owner address, else to nobody. It never fails: every error
      becomes a `null` result with a logged `reason`. */
  function SendOwnerNotification(to: Option<string>, ownerEmail: Option<string>, studentEmail: string, outcome: SendOutcome): (r: OwnerResult)
    ensures r.request.None? <==> (to.None? || to.value == "") && (ownerEmail.None? || ownerEmail.value == "")
    ensures r.request.Some? ==> r.request.value.quizIdOrSubject == Subject(studentEmail)
    ensures r.request.Some? && to.Some? && to.value != "" ==> r.request.value.to == to.value
    ensures r.request.Some? && (to.None? || to.value == "") ==> r.request.value.to == ownerEmail.value
    ensures r.messageId.Some? <==> r.request.Some? && outcome.Delivered? && |outcome.messageId| > 0
    ensures r.messageId.Some? ==> r.messageId.value == outcome.messageId && r.reason.None?
    ensures r.request.Some? && r.messageId.None? ==> r.reason.Some?
  {
    var recipient := if to.Some? && |to.value| > 0 then to else ownerEmail;
    if recipient.None? || |recipient.value| == 0 then OwnerResult(None, None, None)
    else
      var req := Some(SendRequest(recipient.value, Subject(studentEmail)));
      match RaisedError(outcome, OwnerNoMessageId)
      case None => OwnerResult(req, Some(outcome.messageId), None)
      case Some(e) => OwnerResult(req, None, Some(OwnerReason(e)))
  }

  /** A timeout gets the connection reason on the welcome path but only its
      own message on the owner path. */
  lemma TimeoutClassifiedDifferently(m: string)
    requires |m| > 0 && m != WelcomeConnectionReason
    ensures WelcomeReason(MailError(Some("ETIMEDOUT"), None, m)) == WelcomeConnectionReason
    ensures OwnerReason(MailError(Some("ETIMEDOUT"), None, m)) == m
    ensures OwnerReason(MailError(Some("ETIMEDOUT"), None, m)) != WelcomeReason(MailError(Some("ETIMEDOUT"), None, m))
  {
  }

  /** Both paths treat a missing message id as a failure. */
  lemma MissingMessageIdFailsBoth(to: string, quizId: Option<string>, envQuizId: Option<string>, studentEmail: string)
    requires ValidAddress(Some(to))
    ensures SendWelcome(Some(to), quizId, envQuizId, Delivered("")).result.Err?
    ensures SendOwnerNotification(Some(to), None, studentEmail, Delivered("")).messageId.None?
    ensures SendOwnerNotification(Some(to), None, studentEmail, Delivered("")).reason == Some(OwnerNoMessageId)
  {
  }
}
