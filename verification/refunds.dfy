/**
 * The refund service (`RefundService`): a ticket sold for a screening that has not yet
 * started is taken back, its seat released and the ticket removed from the sold list.
 */
module Refunds {
  import opened Wrappers
  import opened Seats
  import opened ShowTimes
  import opened Tickets
  import opened Registry

  /** The seats of a list of sold tickets. */
  function SeatsOf(tickets: seq<Ticket>): set<Seat> {
    set t | t in tickets :: t.seat
  }

  /**
   * A ticket is refundable unless its screening started strictly before `now`: a screening
   * starting exactly now still counts.
   */
  predicate Refundable(t: Ticket, now: int): (ok: bool)
    ensures t.showTime.time == now ==> ok
    ensures ok ==> now <= t.showTime.time
  {
    !(t.showTime.time < now)
  }

  /** Once a ticket can no longer be refunded, it never can again. */
  lemma RefundWindowCloses(t: Ticket, now: int, later: int)
    requires now <= later && !Refundable(t, now)
    ensures !Refundable(t, later)
  {
  }

  /**
   * `processRefund`, with the clock reading `now` as a parameter: raises InvalidPNR for an
   * unknown code, answers false for a screening already started, and otherwise frees the
   * seat, removes the ticket and answers true. No other seat changes.
   */
  method ProcessRefund(sys: CinemaSystem, pnr: string, now: int) returns (r: Result<bool, InvalidPNR>)
    modifies sys`soldTickets, SeatsOf(sys.soldTickets)
    ensures match TicketByPnr(old(sys.soldTickets), pnr)
      case None =>
        r == Err(InvalidPNR(pnr)) && sys.soldTickets == old(sys.soldTickets)
      case Some(t) =>
        if !Refundable(t, now) then
          r == Ok(false) && sys.soldTickets == old(sys.soldTickets) && t.seat.status == old(t.seat.status)
        else
          r == Ok(true) && t.seat.status == Available &&
          sys.soldTickets == RemoveFirst(old(sys.soldTickets), t)
    ensures var found := TicketByPnr(old(sys.soldTickets), pnr);
      forall s :: s in SeatsOf(old(sys.soldTickets)) && (found.None? || s != found.value.seat) ==>
        s.status == old(s.status)
  {
    var ticket := SearchTicketByPNR(sys, pnr);
    if ticket.None? {
      return Err(InvalidPNR(pnr));
    }
    var t := ticket.value;
    if t.showTime.time < now {
      return Ok(false);
    }
    t.seat.CancelBooking();
    sys.soldTickets := RemoveFirst(sys.soldTickets, t);
    return Ok(true);
  }

  /**
   * With unique codes, a refunded code is gone for good: a second refund of it raises
   * InvalidPNR, and the remaining codes stay unique.
   */
  lemma RefundForgetsPnr(tickets: seq<Ticket>, pnr: string)
    requires UniquePnrs(tickets)
    requires TicketByPnr(tickets, pnr).Some?
    ensures var rest := RemoveFirst(tickets, TicketByPnr(tickets, pnr).value);
      UniquePnrs(rest) && TicketByPnr(rest, pnr).None? && |rest| == |tickets| - 1
  {
    RemovingFoundForgetsPnr(tickets, pnr);
  }
}
