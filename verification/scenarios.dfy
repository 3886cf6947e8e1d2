/**
 * The booking and refund scenarios of `BookingManagerTest` and `RefundServiceTest`, replayed
 * against the contracts: each outcome below follows from the operations' `ensures` alone.
 * Times are minutes; the screenings are on day 10, "now" is the start of day 9.
 */
module Scenarios {
  import opened Wrappers
  import opened Catalog
  import opened Seats
  import opened Halls
  import opened ShowTimes
  import opened Pricing
  import opened Tickets
  import opened Registry
  import opened Payment
  import opened BookingEngine
  import opened Refunds

  const RICH_CARD: string := "1111111111111111"
  const POOR_CARD: string := "3333333333333333"
  const UNKNOWN_CARD: string := "9999999999999999"
  const NOW: int := 9 * MINUTES_PER_DAY
  const CURRENT_YEAR: int := 2026

  function TestMovie(): Movie {
    Movie(1, "Test Movie", 120, 100.0, Action, Plus13, TwoD)
  }

  function TestCustomer(): Customer {
    Customer("Test", "User", "test@mail.com", "5555555555", 2000)
  }

  /** A screening in a new 5x5 standard hall, with its seat at row 1, number 1. */
  method FiveByFiveShow(time: int, movie: Movie) returns (show: ShowTime, seat: Seat)
    ensures show.time == time && show.movie == movie && show.hall.kind == StandardHall
    ensures fresh(seat) && seat.status == Available && seat.kind == StandardSeat
    ensures seat.row == 1 && seat.number == 1
  {
    var hall := InitSeats(CinemaHall("Test Hall", 5, 5, StandardHall, []));
    show := new ShowTime(time, movie, hall);
    LayoutCovers(5, 5, 1, 1);
    assert Specs(show.seats)[0] == SpecOf(show.seats[0]);
    assert SeatAt(show.seats[0], 1, 1);
    var found := show.GetSeat(1, 1);
    ghost var k :| 0 <= k < |show.seats| && show.seats[k] == found && SeatAt(found, 1, 1);
    assert Specs(show.seats)[k] == SpecOf(found);
    LayoutAt(5, 5, k);
    seat := found;
  }

  method NewSystem(show: ShowTime) returns (sys: CinemaSystem)
    ensures fresh(sys) && sys.activeShowTimes == [show] && sys.soldTickets == []
    ensures sys.mockCardDB == map[RICH_CARD := 10000.0, POOR_CARD := 10.0]
  {
    sys := new CinemaSystem();
    sys.activeShowTimes := [show];
    sys.mockCardDB := map[RICH_CARD := 10000.0, POOR_CARD := 10.0];
  }

  /** The screening and system every booking scenario starts from; its only screening is a first session. */
  method Setup(movie: Movie) returns (sys: CinemaSystem, show: ShowTime, seat: Seat)
    ensures fresh(sys) && fresh(seat) && seat.status == Available && seat.kind == StandardSeat
    ensures show.movie == movie && show.hall.kind == StandardHall
    ensures sys.soldTickets == [] && sys.mockCardDB == map[RICH_CARD := 10000.0, POOR_CARD := 10.0]
    ensures IsFirstSessionAmong(sys.activeShowTimes, show)
  {
    show, seat := FiveByFiveShow(10 * MINUTES_PER_DAY + 14 * 60, movie);
    sys := NewSystem(show);
  }

  /** A standard booking: 100 less the first-session 10%; the seat is booked and a second try is refused. */
  method StandardBookingScenario() {
    var sys, show, seat := Setup(TestMovie());
    assert IsCardNumber(Some(RICH_CARD));
    var r := CreateTicket(sys, TestCustomer(), show, seat, StandardPriceStrategy, Some(RICH_CARD), CURRENT_YEAR, NOW, "PNR-1");
    assert r.Ok? && r.value.finalPrice == 90.0 && seat.status == Booked && sys.soldTickets == [r.value];

    var again := CreateTicket(sys, TestCustomer(), show, seat, StandardPriceStrategy, Some(RICH_CARD), CURRENT_YEAR, NOW, "PNR-2");
    assert again == Err(SeatOccupied(TAKEN_LABEL));
  }

  /** A student on a first session: 100 less 10% less 20%. */
  method StudentScenario() {
    var sys, show, seat := Setup(TestMovie());
    assert IsCardNumber(Some(RICH_CARD));
    var r := CreateTicket(sys, TestCustomer(), show, seat, StudentStrategy, Some(RICH_CARD), CURRENT_YEAR, NOW, "PNR-3");
    assert r.Ok? && r.value.finalPrice == 70.0;
  }

  /** A love seat costs double: 200 less 10%. */
  method LoveSeatScenario() {
    var sys, show, _ := Setup(TestMovie());
    assert IsCardNumber(Some(RICH_CARD));
    var loveSeat := new Seat(1, 2, LoveSeat);
    var r := CreateTicket(sys, TestCustomer(), show, loveSeat, StandardPriceStrategy, Some(RICH_CARD), CURRENT_YEAR, NOW, "PNR-4");
    assert r.Ok? && r.value.finalPrice == 180.0 && loveSeat.status == Booked;
  }

  /** An 11-year-old and an 18+ movie. */
  method AgeLimitScenario() {
    var sys, show, seat := Setup(Movie(2, "Adult Movie", 90, 100.0, Horror, Plus18, TwoD));
    var kid := Customer("Kid", "Boy", "kid@mail.com", "555", 2015);
    var r := CreateTicket(sys, kid, show, seat, StandardPriceStrategy, Some(RICH_CARD), CURRENT_YEAR, NOW, "PNR-5");
    assert r == Err(AgeLimit(11, 18)) && seat.status == Available;
  }

  /** A card without enough money, and a card the ledger does not know. */
  method PaymentFailureScenario() {
    var sys, show, seat := Setup(TestMovie());
    assert IsCardNumber(Some(POOR_CARD)) && IsCardNumber(Some(UNKNOWN_CARD));
    var poor := CreateTicket(sys, TestCustomer(), show, seat, StandardPriceStrategy, Some(POOR_CARD), CURRENT_YEAR, NOW, "PNR-6");
    assert poor == Err(PaymentFailed(InsufficientFunds(10.0, 90.0)));
    var unknown := CreateTicket(sys, TestCustomer(), show, seat, StandardPriceStrategy, Some(UNKNOWN_CARD), CURRENT_YEAR, NOW, "PNR-7");
    assert unknown == Err(PaymentFailed(CardNotFound)) && seat.status == Available && sys.soldTickets == [];
  }

  /** A sold ticket for tomorrow is refunded; an unknown code is refused. */
  method RefundScenarios() {
    var show, seat := FiveByFiveShow(10 * MINUTES_PER_DAY, TestMovie());
    var sys := NewSystem(show);
    seat.Reserve();
    var ticket := Ticket("PNR123", NOW, TestCustomer(), show, seat, 100.0, 100.0);
    sys.soldTickets := [ticket];

    var fake := ProcessRefund(sys, "PNR-99999999", NOW);
    assert fake == Err(InvalidPNR("PNR-99999999"));

    var done := ProcessRefund(sys, "PNR123", NOW);
    assert done == Ok(true) && seat.status == Available && sys.soldTickets == [];

    var twice := ProcessRefund(sys, "PNR123", NOW);
    assert twice.Err?;
  }

  /**
   * Two screenings of one hall get their own seats: booking a seat of one leaves the other
   * screening's seat and the hall's blueprint seat as they were.
   */
  method SeatIndependenceScenario() {
    var hall := InitSeats(CinemaHall("Hall 1", 5, 5, StandardHall, []));
    var morning := new ShowTime(10 * MINUTES_PER_DAY + 9 * 60, TestMovie(), hall);
    var evening := new ShowTime(10 * MINUTES_PER_DAY + 20 * 60, TestMovie(), hall);
    assert |morning.seats| == |evening.seats| == |hall.seats| == 25 by {
      LayoutSize(5, 5);
    }
    var blueprintStatus := hall.seats[0].status;
    morning.seats[0].Reserve();
    assert morning.seats[0].status == Booked;
    assert evening.seats[0].status == Available;
    assert hall.seats[0].status == blueprintStatus;
  }
}
