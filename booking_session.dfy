/** The booking draft of static/js/booking.js and the payment page of
    static/js/payment.js. The two pages hand the draft over through one
    browser-storage slot, "pendingBooking"; the payment page issues the ticket
    and clears the slot only when the issue is confirmed. */
module BookingSession {
  import opened JsText

  /** A JavaScript number as `parseFloat` returns it. Only its identity matters
      here: it is copied, never computed with. */
  datatype Number = NaN | Num(value: real)

  /** The query parameters booking.js reads; `URLSearchParams.get` gives null
      for an absent one. `baseFare` is already parsed. */
  datatype Query = Query(train: Option<string>, trainName: Option<string>, date: Option<string>,
                         baseFare: Number, seatClass: Option<string>)

  /** The passenger form's four values, as typed. */
  datatype Form = Form(name: string, age: string, gender: string, preference: string)

  /** `bookingDetails`: the nine fields stored in the slot and later sent as the
      body of the ticket request. */
  datatype Draft = Draft(trainNumber: Option<string>, trainName: string, journeyDate: Option<string>,
                         seatClass: Option<string>, totalFare: Number,
                         name: string, age: string, gender: string, preference: string)

  const DefaultTrainName := "Shatabdi Express"
  const NoDraftText := "No booking details found. Redirecting..."
  const ConfirmedText := "Payment Successful! Booking Confirmed."
  const IssueFailedText := "Booking failed after payment."

  /** The draft booking.js builds on submit: the train name falls back to
      "Shatabdi Express" when the parameter is missing or empty, the total fare
      is the base fare with no surcharge, and everything else is copied as is,
      the passenger fields unvalidated. */
  function MakeDraft(q: Query, f: Form): (d: Draft)
    ensures d.trainName != ""
    ensures d.trainName == DefaultTrainName <==> !Truthy(q.trainName) || q.trainName.value == DefaultTrainName
    ensures Truthy(q.trainName) ==> d.trainName == q.trainName.value
    ensures d.totalFare == q.baseFare
    ensures (d.trainNumber, d.journeyDate, d.seatClass) == (q.train, q.date, q.seatClass)
    ensures Form(d.name, d.age, d.gender, d.preference) == f
  {
    Draft(q.train, OrElse(q.trainName, DefaultTrainName), q.date, q.seatClass, q.baseFare,
          f.name, f.age, f.gender, f.preference)
  }

  /** The suffix payment.js appends to the class summary: nothing for an empty
      preference or exactly "ANY", otherwise the preference capitalised, in
      parentheses. */
  function PreferenceSuffix(preference: string): (s: string)
    ensures s == "" <==> preference == "" || preference == "ANY"
    ensures s != "" ==> |s| == |preference| + 3 && s[..2] == " (" && s[|s| - 1] == ')'
    ensures s != "" ==> s[2..|s| - 1] == Capitalized(preference)
  {
    if preference != "" && preference != "ANY" then " (" + Capitalized(preference) + ")" else ""
  }

  /** The class line of the order summary: a missing class shows as nothing. */
  function ClassSummary(d: Draft): string
  {
    (if d.seatClass.Some? then d.seatClass.value else "") + PreferenceSuffix(d.preference)
  }

  /** The part of the ticket-request reply payment.js reads. */
  datatype Issued = Issued(success: bool, pnr: string, message: Option<string>)

  /** `response.ok && result.success`. */
  predicate Confirmed(reply: Reply<Issued>)
  {
    reply.Answered? && reply.ok && reply.body.success
  }

  /** The message the pay handler ends with. */
  function PaymentMessage(reply: Reply<Issued>): (m: Message)
    ensures m.tone == Success <==> Confirmed(reply)
    ensures m.text != ""
    ensures reply.Threw? ==> m.text == TryAgain
    ensures reply.Answered? && !Confirmed(reply) ==> m.text == OrElse(reply.body.message, IssueFailedText)
  {
    match reply
    case Threw => Message(TryAgain, Error)
    case Answered(ok, body) =>
      if ok && body.success then Message(ConfirmedText, Success)
      else Message(OrElse(body.message, IssueFailedText), Error)
  }

  const TicketPrefix := "/seat-booking?pnr="

  /** Where a confirmed issue sends the browser: the PNR follows the prefix
      unencoded, so it can be read back off the address. */
  function TicketPage(pnr: string): (url: string)
    ensures |url| == |TicketPrefix| + |pnr|
    ensures url[..|TicketPrefix|] == TicketPrefix && url[|TicketPrefix|..] == pnr
  {
    TicketPrefix + pnr
  }

  /** The browser state the two pages touch. */
  class Browser {
    /** The "pendingBooking" slot; the JSON round trip is taken as exact. */
    var pending: Option<Draft>
    /** `window.location.href`. */
    var location: string
    /** A navigation a `setTimeout` will perform. */
    var scheduled: Option<string>
    /** The payment page's message box; None while hidden. */
    var message: Option<Message>
    /** The draft the payment page read when it loaded; the pay handler is
        installed exactly when there is one. */
    var details: Option<Draft>
    var summaryClass: string
    /** `payNowBtn.disabled`. */
    var payDisabled: bool
    /** How many simulated one-second payment delays have run. */
    var delays: nat
    /** The bodies sent to /api/book_ticket, in order. */
    var issued: seq<Draft>

    /** A browser whose storage already holds `stored`, before any page loads. */
    constructor (stored: Option<Draft>)
      ensures pending == stored && location == "/" && scheduled.None? && message.None?
      ensures details.None? && summaryClass == "" && !payDisabled && delays == 0 && issued == []
    {
      pending := stored;
      location := "/";
      scheduled := None;
      message := None;
      details := None;
      summaryClass := "";
      payDisabled := false;
      delays := 0;
      issued := [];
    }

    /** booking.js's submit handler: the draft replaces whatever the slot held,
        then the browser goes to the payment page. */
    method SubmitBooking(q: Query, f: Form)
      modifies this
      ensures pending == Some(MakeDraft(q, f)) && location == "/payment"
      ensures scheduled == old(scheduled) && message == old(message) && details == old(details)
      ensures summaryClass == old(summaryClass) && payDisabled == old(payDisabled)
      ensures delays == old(delays) && issued == old(issued)
    {
      pending := Some(MakeDraft(q, f));
      location := "/payment";
    }

    /** payment.js on load. With no draft stored it shows an error, schedules a
        return to "/" and installs no pay handler; otherwise it keeps the draft
        for the handler and fills in the summary. */
    method OpenPayment()
      modifies this
      ensures pending == old(pending) && location == old(location)
      ensures delays == old(delays) && issued == old(issued) && !payDisabled
      ensures details == old(pending)
      ensures old(pending).None? ==>
        message == Some(Message(NoDraftText, Error)) && scheduled == Some("/") && summaryClass == ""
      ensures old(pending).Some? ==>
        message.None? && scheduled.None? && summaryClass == ClassSummary(old(pending).value)
    {
      message := None;
      scheduled := None;
      payDisabled := false;
      summaryClass := "";
      details := None;
      if pending.None? {
        message := Some(Message(NoDraftText, Error));
        scheduled := Some("/");
        return;
      }
      var d := pending.value;
      details := Some(d);
      summaryClass := ClassSummary(d);
    }

    /** A press of "Pay Now", with the outcome of the ticket request as input.
        A disabled button or a page without the handler does nothing. Otherwise
        the button is disabled, the delay runs, the draft read at load is sent,
        and only a confirmed issue clears the slot and schedules the ticket page;
        every other outcome keeps the draft and enables the button again. */
    method PressPay(reply: Reply<Issued>)
      modifies this
      ensures location == old(location) && details == old(details) && summaryClass == old(summaryClass)
      ensures old(details).None? || old(payDisabled) ==>
        && pending == old(pending) && scheduled == old(scheduled) && message == old(message)
        && payDisabled == old(payDisabled) && delays == old(delays) && issued == old(issued)
      ensures old(details).Some? && !old(payDisabled) ==>
        && delays == old(delays) + 1
        && issued == old(issued) + [old(details).value]
        && message == Some(PaymentMessage(reply))
        && payDisabled == Confirmed(reply)
        && pending == (if Confirmed(reply) then None else old(pending))
        && scheduled == (if Confirmed(reply) then Some(TicketPage(reply.body.pnr)) else old(scheduled))
    {
      if details.None? || payDisabled {
        return;
      }
      payDisabled := true;
      delays := delays + 1;
      issued := issued + [details.value];
      match reply {
        case Threw =>
          message := Some(Message(TryAgain, Error));
          payDisabled := false;
        case Answered(ok, body) =>
          if ok && body.success {
            pending := None;
            message := Some(Message(ConfirmedText, Success));
            scheduled := Some(TicketPage(body.pnr));
          } else {
            message := Some(Message(OrElse(body.message, IssueFailedText), Error));
            payDisabled := false;
          }
      }
    }

    /** The scheduled `setTimeout` fires and the browser navigates. */
    method RunTimer()
      modifies this
      ensures old(scheduled).Some? ==> location == old(scheduled).value
      ensures old(scheduled).None? ==> location == old(location)
      ensures scheduled.None? && pending == old(pending) && message == old(message)
      ensures details == old(details) && summaryClass == old(summaryClass) && payDisabled == old(payDisabled)
      ensures delays == old(delays) && issued == old(issued)
    {
      if scheduled.Some? {
        location := scheduled.value;
      }
      scheduled := None;
    }
  }

  /** Different PNRs lead to different ticket pages. */
  lemma TicketPageInjective(a: string, b: string)
    requires TicketPage(a) == TicketPage(b)
    ensures a == b
  {
    assert a == TicketPage(a)[|TicketPrefix|..];
  }

  /** A preference is shown capitalised: "LOWER" as " (Lower)". */
  lemma LowerSuffix()
    ensures PreferenceSuffix("LOWER") == " (Lower)"
  {
    var c := Capitalized("LOWER");
    assert c[0] == 'L' && c[1] == 'o' && c[2] == 'w' && c[3] == 'e' && c[4] == 'r';
    assert c == "Lower";
  }

  /** The test for "ANY" is exact, so "any" is shown, as " (Any)". */
  lemma LowercaseAnyShown()
    ensures PreferenceSuffix("ANY") == "" && PreferenceSuffix("any") == " (Any)"
  {
    var c := Capitalized("any");
    assert c[0] == 'A' && c[1] == 'n' && c[2] == 'y';
    assert c == "Any";
  }

  /** Two preferences that differ only in case get the same suffix, unless one
      of them is exactly "ANY". */
  lemma SuffixIgnoresCase(p: string, r: string)
    requires |p| == |r| && p != "ANY" && r != "ANY"
    requires forall i :: 0 <= i < |p| ==> LowerChar(p[i]) == LowerChar(r[i])
    ensures PreferenceSuffix(p) == PreferenceSuffix(r)
  {
    CapitalizedIgnoresCase(p, r);
  }
}
