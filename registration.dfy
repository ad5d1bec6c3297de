/** The registration form, static/js/register.js: two local password checks,
    in a fixed order, run before anything is sent; a confirmed reply sends the
    browser on to the login page. */
module Registration {
  import opened JsText

  const MinPasswordLength: nat := 8
  const MismatchText := "Passwords do not match."
  const TooShortText := "Password must be at least 8 characters long."
  const CreatedText := "Account created successfully! Redirecting to login..."
  const FailedText := "Registration failed."

  /** The body sent to /api/register: the confirmation field is not part of it. */
  datatype Account = Account(username: string, email: string, password: string)

  /** The part of the register reply the page reads. */
  datatype RegisterReply = RegisterReply(success: bool, message: Option<string>)

  /** The local checks: `None` when the form may be sent, otherwise the error
      shown. A mismatch is reported before the length, so a short mismatched
      pair gets the mismatch message. Username and e-mail are not checked. */
  function Validate(password: string, confirmation: string): (e: Option<string>)
    ensures e.None? <==> password == confirmation && |password| >= MinPasswordLength
    ensures password != confirmation ==> e == Some(MismatchText)
    ensures password == confirmation && |password| < MinPasswordLength ==> e == Some(TooShortText)
  {
    if password != confirmation then Some(MismatchText)
    else if |password| < MinPasswordLength then Some(TooShortText)
    else None
  }

  /** `response.ok && result.success`. */
  predicate Confirmed(reply: Reply<RegisterReply>)
  {
    reply.Answered? && reply.ok && reply.body.success
  }

  /** The message a sent form ends with. */
  function ReplyMessage(reply: Reply<RegisterReply>): (m: Message)
    ensures m.tone == Success <==> Confirmed(reply)
    ensures m.tone == Success ==> m.text == CreatedText
    ensures reply.Threw? ==> m.text == TryAgain
    ensures reply.Answered? && !Confirmed(reply) ==> m.text == OrElse(reply.body.message, FailedText)
  {
    match reply
    case Threw => Message(TryAgain, Error)
    case Answered(ok, body) =>
      if ok && body.success then Message(CreatedText, Success)
      else Message(OrElse(body.message, FailedText), Error)
  }

  class RegisterPage {
    /** The message box; None while hidden. */
    var message: Option<Message>
    /** A navigation a `setTimeout` will perform. */
    var scheduled: Option<string>
    /** The bodies sent to /api/register, in order. */
    var requests: seq<Account>

    constructor ()
      ensures message.None? && scheduled.None? && requests == []
    {
      message := None;
      scheduled := None;
      requests := [];
    }

    /** A submit of the form, with `reply` as the request's outcome when one is
        made. A form that fails a local check sends nothing. */
    method Submit(username: string, email: string, password: string, confirmation: string,
                  reply: Reply<RegisterReply>)
      modifies this
      ensures Validate(password, confirmation).Some? ==>
        && message == Some(Message(Validate(password, confirmation).value, Error))
        && requests == old(requests) && scheduled == old(scheduled)
      ensures Validate(password, confirmation).None? ==>
        && requests == old(requests) + [Account(username, email, password)]
        && message == Some(ReplyMessage(reply))
        && scheduled == (if Confirmed(reply) then Some("/login") else old(scheduled))
    {
      message := None;
      if password != confirmation {
        message := Some(Message(MismatchText, Error));
        return;
      }
      if |password| < MinPasswordLength {
        message := Some(Message(TooShortText, Error));
        return;
      }
      requests := requests + [Account(username, email, password)];
      match reply {
        case Threw =>
          message := Some(Message(TryAgain, Error));
        case Answered(ok, body) =>
          if ok && body.success {
            message := Some(Message(CreatedText, Success));
            scheduled := Some("/login");
          } else {
            message := Some(Message(OrElse(body.message, FailedText), Error));
          }
      }
    }
  }

  /** Every password that reaches the server has at least eight characters and
      was typed the same way twice. */
  lemma SentPasswordsValid(password: string, confirmation: string)
    requires Validate(password, confirmation).None?
    ensures |password| >= 8 && confirmation == password
  {
  }

  /** The two checks in their order: "short" alone is too short, while a short
      pair that also differs reports only the mismatch. */
  lemma CheckOrder()
    ensures Validate("short", "short") == Some(TooShortText)
    ensures Validate("short", "shorter") == Some(MismatchText)
    ensures Validate("longenough", "longenough").None?
  {
  }
}
