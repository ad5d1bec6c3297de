/** The cancel buttons of the manage-bookings page, static/js/manage-bookings.js:
    each button cancels one PNR, and the page marks that PNR cancelled and
    removes its button only when the server confirms. */
module Cancellation {
  import opened JsText

  /** The part of the cancel reply the page reads. */
  datatype CancelReply = CancelReply(success: bool, message: Option<string>)

  const CancelledStatus := "CANCELLED"

  /** `response.ok && result.success`. */
  predicate Confirmed(reply: Reply<CancelReply>)
  {
    reply.Answered? && reply.ok && reply.body.success
  }

  function CancelledText(pnr: string): string
  {
    "PNR " + pnr + " has been successfully cancelled."
  }

  function RefusedText(pnr: string): string
  {
    "Failed to cancel PNR " + pnr + "."
  }

  /** The message a click ends with. `hasSpan` says whether the page has the
      PNR's status element: without it, writing the new status throws after
      the success message is shown, and the catch replaces that message. */
  function CancelMessage(pnr: string, reply: Reply<CancelReply>, hasSpan: bool): (m: Message)
    ensures m.tone == Success <==> Confirmed(reply) && hasSpan
    ensures m.tone == Success ==> m.text == CancelledText(pnr)
    ensures reply.Answered? && !Confirmed(reply) ==> m == Message(OrElse(reply.body.message, RefusedText(pnr)), Error)
    ensures reply.Threw? || (Confirmed(reply) && !hasSpan) ==> m == Message(TryAgain, Error)
  {
    match reply
    case Threw => Message(TryAgain, Error)
    case Answered(ok, body) =>
      if ok && body.success then
        if hasSpan then Message(CancelledText(pnr), Success) else Message(TryAgain, Error)
      else Message(OrElse(body.message, RefusedText(pnr)), Error)
  }

  class ManageBookings {
    /** The text of each `status-<pnr>` element, by PNR. */
    var status: map<string, string>
    /** The PNRs whose row still has a cancel button. */
    var cancellable: set<string>
    /** The message box; None while hidden. */
    var message: Option<Message>
    /** The PNRs sent to /api/cancel_ticket, in order. */
    var requests: seq<string>
    /** The PNRs this page has marked cancelled. */
    ghost var cancelledHere: set<string>

    /** A PNR the page has marked cancelled shows "CANCELLED" and has no
        button left, so it cannot be sent again. */
    ghost predicate Valid()
      reads this
    {
      && cancelledHere !! cancellable
      && forall p :: p in cancelledHere ==> p in status && status[p] == CancelledStatus
    }

    /** The page as rendered: a status text per booking and a button for each
        PNR in `buttons`. */
    constructor (statuses: map<string, string>, buttons: set<string>)
      ensures Valid()
      ensures status == statuses && cancellable == buttons && message.None? && requests == []
      ensures cancelledHere == {}
    {
      status := statuses;
      cancellable := buttons;
      message := None;
      requests := [];
      cancelledHere := {};
    }

    /** A click on the cancel button of `pnr`, with `reply` as the outcome of
        the request. Only a confirmed cancellation of a PNR whose status element
        exists changes a status, and it changes that one alone. */
    method Cancel(pnr: string, reply: Reply<CancelReply>)
      requires Valid() && pnr in cancellable
      modifies this
      ensures Valid()
      ensures requests == old(requests) + [pnr]
      ensures message == Some(CancelMessage(pnr, reply, pnr in old(status)))
      ensures Confirmed(reply) && pnr in old(status) ==>
        && status == old(status)[pnr := CancelledStatus]
        && cancellable == old(cancellable) - {pnr}
        && cancelledHere == old(cancelledHere) + {pnr}
      ensures !(Confirmed(reply) && pnr in old(status)) ==>
        status == old(status) && cancellable == old(cancellable) && cancelledHere == old(cancelledHere)
    {
      requests := requests + [pnr];
      match reply {
        case Threw =>
          message := Some(Message(TryAgain, Error));
        case Answered(ok, body) =>
          if ok && body.success {
            message := Some(Message(CancelledText(pnr), Success));
            if pnr in status {
              status := status[pnr := CancelledStatus];
              cancellable := cancellable - {pnr};
              cancelledHere := cancelledHere + {pnr};
            } else {
              message := Some(Message(TryAgain, Error));
            }
          } else {
            message := Some(Message(OrElse(body.message, RefusedText(pnr)), Error));
          }
      }
    }
  }

  /** Different PNRs get different confirmation texts. */
  lemma CancelledTextInjective(a: string, b: string)
    requires CancelledText(a) == CancelledText(b)
    ensures a == b
  {
    var n := |"PNR "|;
    assert a == CancelledText(a)[n..n + |a|];
    assert |a| == |b|;
    assert b == CancelledText(b)[n..n + |b|];
  }

  /** The failure fallback names the PNR the click was for. */
  lemma RefusedTextNamesPnr(pnr: string)
    ensures var t := RefusedText(pnr); t[|"Failed to cancel PNR "|..|t| - 1] == pnr
  {
  }
}
