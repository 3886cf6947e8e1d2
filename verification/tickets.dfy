/** Sold tickets: plain records that refer to the screening and the seat they were sold for. */
module Tickets {
  import opened Catalog
  import opened Seats
  import opened ShowTimes

  /**
   * A ticket. `creationDate` is the clock reading when the ticket was made;
   * `originalPrice` is the base price before discounts, `finalPrice` what was charged.
   */
  datatype Ticket = Ticket(
    pnrCode: string,
    creationDate: int,
    owner: Customer,
    showTime: ShowTime,
    seat: Seat,
    originalPrice: real,
    finalPrice: real)
}
