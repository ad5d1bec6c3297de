/** The PNR status page, static/js/pnr.js: a blank PNR is refused before any
    request; a confirmed reply is shown as a ticket with one numbered row per
    passenger, every status styled by a total mapping; everything else ends in
    an error message, and the spinner is hidden on every path. */
module PnrLookup {
  import opened JsText

  /** One element of the `details` array of the status reply: one per
      passenger, the booking's own fields repeated in each. */
  datatype Passenger = Passenger(passengerName: string, age: string, gender: string, ticketStatus: string,
                                 coachName: string, seatNumber: string,
                                 trainNumber: string, trainName: string, pnrNumber: string, bookingStatus: string)

  /** The part of the status reply the page reads. */
  datatype StatusReply = StatusReply(success: bool, details: seq<Passenger>, message: Option<string>)

  /** One row of the passenger table. */
  datatype Row = Row(serial: nat, name: string, age: string, gender: string,
                     status: string, statusClass: string, seat: string)

  /** The ticket the page shows: a header taken from the first passenger, then the rows. */
  datatype Ticket = Ticket(title: string, pnr: string, bookingStatus: string, bookingClass: string, rows: seq<Row>)

  const EnterPnrText := "Please enter a PNR number."
  const FetchFailedText := "An error occurred while fetching PNR status."
  const NotFoundText := "PNR not found."

  const Confirmed := "bg-green-500 text-white"
  const Waitlisted := "bg-orange-500 text-white"
  const Cancelled := "bg-red-500 text-white"
  const Other := "bg-gray-400 text-white"

  /** `getStatusClass`: three known statuses, each with its own colour, and one
      grey style for every other value. */
  function StatusClass(status: string): (c: string)
    ensures c == Confirmed <==> status == "CNF"
    ensures c == Waitlisted <==> status == "WL"
    ensures c == Cancelled <==> status == "CANCELLED"
    ensures c == Other <==> status !in {"CNF", "WL", "CANCELLED"}
  {
    if status == "CNF" then Confirmed
    else if status == "WL" then Waitlisted
    else if status == "CANCELLED" then Cancelled
    else Other
  }

  function RowOf(index: nat, p: Passenger): Row
  {
    Row(index + 1, p.passengerName, p.age, p.gender, p.ticketStatus, StatusClass(p.ticketStatus),
        p.coachName + " / " + p.seatNumber)
  }

  /** The passenger table: row `i` describes passenger `i` and is numbered `i + 1`. */
  function Rows(details: seq<Passenger>): (rows: seq<Row>)
    ensures |rows| == |details|
    ensures forall i :: 0 <= i < |details| ==>
      && rows[i].serial == i + 1
      && rows[i].name == details[i].passengerName
      && rows[i].age == details[i].age
      && rows[i].gender == details[i].gender
      && rows[i].status == details[i].ticketStatus
      && rows[i].statusClass == StatusClass(details[i].ticketStatus)
      && rows[i].seat == details[i].coachName + " / " + details[i].seatNumber
  {
    seq(|details|, i requires 0 <= i < |details| => RowOf(i, details[i]))
  }

  /** The `details.forEach` loop that accumulates the table. */
  method BuildRows(details: seq<Passenger>) returns (rows: seq<Row>)
    ensures rows == Rows(details)
  {
    rows := [];
    for i := 0 to |details|
      invariant rows == Rows(details[..i])
    {
      assert Rows(details[..i + 1]) == Rows(details[..i]) + [RowOf(i, details[i])];
      rows := rows + [RowOf(i, details[i])];
    }
    assert details[..|details|] == details;
  }

  function TicketOf(details: seq<Passenger>): Ticket
    requires details != []
  {
    var main := details[0];
    Ticket(main.trainNumber + " - " + main.trainName, main.pnrNumber, main.bookingStatus,
           StatusClass(main.bookingStatus), Rows(details))
  }

  /** What the page ends with after a request: a ticket, or an error text. */
  datatype View = Shown(ticket: Ticket) | Failed(text: string)

  /** The outcome of a request. A confirmed reply with no passengers has no
      first passenger to read, which throws inside the `try` and so ends like a
      failed request. */
  function Outcome(reply: Reply<StatusReply>): (v: View)
    ensures v.Shown? <==> reply.Answered? && reply.ok && reply.body.success && reply.body.details != []
    ensures v.Shown? ==> |v.ticket.rows| == |reply.body.details| > 0
    ensures v.Failed? ==> v.text != ""
    ensures v.Failed? && reply.Answered? && !(reply.ok && reply.body.success) ==>
      v.text == OrElse(reply.body.message, NotFoundText)
    ensures v.Failed? && !(reply.Answered? && !(reply.ok && reply.body.success)) ==> v.text == FetchFailedText
  {
    match reply
    case Threw => Failed(FetchFailedText)
    case Answered(ok, body) =>
      if ok && body.success then
        if body.details == [] then Failed(FetchFailedText) else Shown(TicketOf(body.details))
      else Failed(OrElse(body.message, NotFoundText))
  }

  class PnrPage {
    /** The message box; None while hidden. */
    var message: Option<Message>
    /** The result container; None while hidden and empty. */
    var ticket: Option<Ticket>
    var spinnerShown: bool
    /** The PNRs sent to /api/pnr_status, in order. */
    var requests: seq<string>

    constructor ()
      ensures message.None? && ticket.None? && !spinnerShown && requests == []
    {
      message := None;
      ticket := None;
      spinnerShown := false;
      requests := [];
    }

    /** A click on the search button with `input` in the PNR field and `reply`
        as the request's outcome. */
    method Search(input: string, reply: Reply<StatusReply>)
      modifies this
      ensures AllSpace(input) ==>
        && message == Some(Message(EnterPnrText, Error))
        && ticket == old(ticket) && spinnerShown == old(spinnerShown) && requests == old(requests)
      ensures !AllSpace(input) ==>
        && requests == old(requests) + [Trim(input)]
        && !spinnerShown
        && (Outcome(reply).Shown? ==> ticket == Some(Outcome(reply).ticket) && message.None?)
        && (Outcome(reply).Failed? ==> ticket.None? && message == Some(Message(Outcome(reply).text, Error)))
    {
      var pnr := Trim(input);
      TrimEmpty(input);
      if pnr == "" {
        message := Some(Message(EnterPnrText, Error));
        return;
      }
      ticket := None;
      message := None;
      spinnerShown := true;
      requests := requests + [pnr];
      Show(reply);
      spinnerShown := false;
    }

    /** The `try`/`catch` after the request: the ticket or the error message. */
    method Show(reply: Reply<StatusReply>)
      requires ticket.None? && message.None?
      modifies this
      ensures requests == old(requests) && spinnerShown == old(spinnerShown)
      ensures Outcome(reply).Shown? ==> ticket == Some(Outcome(reply).ticket) && message.None?
      ensures Outcome(reply).Failed? ==> ticket.None? && message == Some(Message(Outcome(reply).text, Error))
    {
      match reply {
        case Threw =>
          message := Some(Message(FetchFailedText, Error));
        case Answered(ok, body) =>
          if ok && body.success {
            if body.details == [] {
              message := Some(Message(FetchFailedText, Error));
            } else {
              var rows := BuildRows(body.details);
              var main := body.details[0];
              ticket := Some(Ticket(main.trainNumber + " - " + main.trainName, main.pnrNumber,
                                    main.bookingStatus, StatusClass(main.bookingStatus), rows));
            }
          } else {
            message := Some(Message(OrElse(body.message, NotFoundText), Error));
          }
      }
    }
  }

  /** The statuses the seat allocator writes, "CNF" and "WL", get the green and
      the orange style; a cancelled ticket gets red, anything else grey. */
  lemma StatusStyles()
    ensures StatusClass("CNF") == Confirmed && StatusClass("WL") == Waitlisted
    ensures StatusClass("CANCELLED") == Cancelled && StatusClass("cnf") == Other
  {
  }

  /** Each known status has a style of its own. */
  lemma StatusClassInjective(a: string, b: string)
    requires a in {"CNF", "WL", "CANCELLED"} && StatusClass(a) == StatusClass(b)
    ensures a == b
  {
  }

  /** A confirmed reply with passengers shows exactly as many rows as there are
      passengers, numbered 1, 2, 3, ... in the order the reply lists them. */
  lemma RowsNumbered(details: seq<Passenger>, i: int, j: int)
    requires 0 <= i < j < |details|
    ensures Rows(details)[i].serial < Rows(details)[j].serial
    ensures Rows(details)[|details| - 1].serial == |details|
  {
  }
}
