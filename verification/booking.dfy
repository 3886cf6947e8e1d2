/**
 * The booking engine (`BookingManager`, and its near twin `Booking`): seat check, age
 * check, base price, first-session and strategy discounts, payment, and only then the
 * commit (reserve the seat, register the ticket).
 */
module BookingEngine {
  import opened Wrappers
  import opened Catalog
  import opened Seats
  import opened Halls
  import opened ShowTimes
  import opened Pricing
  import opened Tickets
  import opened Registry
  import opened Payment

  datatype BookingError =
    | SeatOccupied(seatLabel: string)
    | AgeLimit(age: int, requiredAge: int)
    | PaymentFailed(reason: PaymentError)

  // ---------------------------------------------------------------------------
  // Age gate

  /** The minimum age each rating demands; a general-audience movie has none. */
  function RequiredAge(rating: AgeRating): Option<int> {
    match rating
    case GeneralAudience => None
    case Plus7 => Some(7)
    case Plus13 => Some(13)
    case Plus18 => Some(18)
  }

  /** `validateAge` on `age = currentYear - birthYear`: the threshold missed, if any. */
  function AgeGate(rating: AgeRating, age: int): (refusal: Option<int>)
    ensures refusal.Some? <==> RequiredAge(rating).Some? && age < RequiredAge(rating).value
    ensures refusal.Some? ==> refusal == RequiredAge(rating)
  {
    if rating == Plus18 && age < 18 then Some(18)
    else if rating == Plus13 && age < 13 then Some(13)
    else if rating == Plus7 && age < 7 then Some(7)
    else None
  }

  /** Whoever is admitted at some age is admitted when older. */
  lemma AgeGateMonotone(rating: AgeRating, younger: int, older: int)
    requires younger <= older && AgeGate(rating, younger).None?
    ensures AgeGate(rating, older).None?
  {
  }

  /** The ratings are nested: admission to a stricter rating implies admission to the milder ones. */
  lemma RatingsNested(age: int)
    ensures AgeGate(Plus18, age).None? ==> AgeGate(Plus13, age).None?
    ensures AgeGate(Plus13, age).None? ==> AgeGate(Plus7, age).None?
    ensures AgeGate(GeneralAudience, age).None?
  {
  }

  // ---------------------------------------------------------------------------
  // First session of the day

  /** `s` screens the same movie object on the same date, strictly earlier than `current`. */
  predicate EarlierSameDay(s: ShowTime, current: ShowTime) {
    s.movie == current.movie && Day(s.time) == Day(current.time) && s.time < current.time
  }

  /** No active screening of the same movie on the same date starts strictly earlier. */
  predicate IsFirstSessionAmong(shows: seq<ShowTime>, current: ShowTime) {
    forall i :: 0 <= i < |shows| ==> !EarlierSameDay(shows[i], current)
  }

  /** `isFirstSession`: scans the active screenings and stops at the first earlier one. */
  method IsFirstSession(sys: CinemaSystem, current: ShowTime) returns (first: bool)
    ensures first <==> IsFirstSessionAmong(sys.activeShowTimes, current)
  {
    for k := 0 to |sys.activeShowTimes|
      invariant forall i :: 0 <= i < k ==> !EarlierSameDay(sys.activeShowTimes[i], current)
    {
      var s := sys.activeShowTimes[k];
      if s.movie == current.movie && Day(s.time) == Day(current.time) {
        if s.time < current.time {
          return false;
        }
      }
    }
    return true;
  }

  /** The earliest screening, among `shows` and `s`, of `s`'s movie on `s`'s date. */
  function Earliest(shows: seq<ShowTime>, s: ShowTime): (e: ShowTime)
    ensures e == s || e in shows
    ensures e.movie == s.movie && Day(e.time) == Day(s.time) && e.time <= s.time
    ensures forall i :: 0 <= i < |shows| && shows[i].movie == s.movie && Day(shows[i].time) == Day(s.time) ==>
              e.time <= shows[i].time
  {
    if shows == [] then s
    else
      var rest := Earliest(shows[1..], s);
      assert forall i :: 1 <= i < |shows| ==> shows[i] == shows[1..][i - 1];
      if shows[0].movie == s.movie && Day(shows[0].time) == Day(s.time) && shows[0].time < rest.time
      then shows[0] else rest
  }

  /** Every movie that is screened on a date has a first session that date among the active screenings. */
  lemma FirstSessionExists(shows: seq<ShowTime>, s: ShowTime)
    requires s in shows
    ensures var e := Earliest(shows, s);
      e in shows && e.movie == s.movie && Day(e.time) == Day(s.time) && IsFirstSessionAmong(shows, e)
  {
  }

  /** Two first sessions of one movie on one date start at the same time. */
  lemma FirstSessionsStartTogether(shows: seq<ShowTime>, a: ShowTime, b: ShowTime)
    requires a in shows && b in shows
    requires a.movie == b.movie && Day(a.time) == Day(b.time)
    requires IsFirstSessionAmong(shows, a) && IsFirstSessionAmong(shows, b)
    ensures a.time == b.time
  {
    var i :| 0 <= i < |shows| && shows[i] == a;
    var j :| 0 <= j < |shows| && shows[j] == b;
    assert !EarlierSameDay(shows[i], b) && !EarlierSameDay(shows[j], a);
  }

  // ---------------------------------------------------------------------------
  // Price composition

  /** Movie price times seat multiplier times hall multiplier. */
  function BasePrice(movie: Movie, seatKind: SeatKind, hallKind: HallKind): (base: real)
    ensures movie.basePrice >= 0.0 ==> base >= CalculatePrice(movie) >= 0.0
  {
    CalculatePrice(movie) * SeatMultiplier(seatKind) * HallMultiplier(hallKind)
  }

  /** A standard seat's base price is the price a screening advertises (`getStandardPrice`). */
  lemma StandardSeatPaysStandardPrice(show: ShowTime)
    ensures BasePrice(show.movie, StandardSeat, show.hall.kind) == show.StandardPrice()
  {
  }

  /** `BookingManager`: 10% of the base on a first session, computed inline. */
  function FirstSessionDiscount(basePrice: real, first: bool): (amount: real)
    ensures !first ==> amount == 0.0
    ensures basePrice >= 0.0 ==> 0.0 <= amount <= basePrice
    ensures first && basePrice > 0.0 ==> 0.0 < amount < basePrice
  {
    if first then basePrice * 0.10 else 0.0
  }

  /** `Booking`: the same amount, taken as the base minus what FirstSessionStrategy charges. */
  function FirstSessionDiscountViaStrategy(basePrice: real, first: bool): (amount: real)
    ensures amount == FirstSessionDiscount(basePrice, first)
  {
    if first then basePrice - CalculateDiscount(FirstSessionStrategy, basePrice) else 0.0
  }

  /** Both discounts are subtracted from the same base; neither is applied to the other's result. */
  function FinalPrice(basePrice: real, first: bool, strategy: PriceStrategy): (price: real)
    ensures basePrice >= 0.0 ==> basePrice * 0.70 <= price <= basePrice
  {
    basePrice - (FirstSessionDiscount(basePrice, first) + DiscountAmount(strategy, basePrice))
  }

  /** The final price as `Booking.createTicket` composes it. */
  function FinalPriceViaStrategy(basePrice: real, first: bool, strategy: PriceStrategy): (price: real)
    ensures price == basePrice * PayableFraction(first, strategy)
  {
    basePrice - (FirstSessionDiscountViaStrategy(basePrice, first) + (basePrice - CalculateDiscount(strategy, basePrice)))
  }

  /** The two engine classes charge the same amount for every input. */
  lemma EnginesAgree(basePrice: real, first: bool, strategy: PriceStrategy)
    ensures FirstSessionDiscountViaStrategy(basePrice, first) == FirstSessionDiscount(basePrice, first)
    ensures FinalPriceViaStrategy(basePrice, first, strategy) == FinalPrice(basePrice, first, strategy)
  {
  }

  /** The fraction of the base that is paid, per strategy and first-session flag. */
  function PayableFraction(first: bool, strategy: PriceStrategy): real {
    match (strategy, first)
    case (StandardPriceStrategy, false) => 1.0
    case (StandardPriceStrategy, true) => 0.9
    case (StudentStrategy, false) => 0.8
    case (StudentStrategy, true) => 0.7
    case (FirstSessionStrategy, false) => 0.9
    case (FirstSessionStrategy, true) => 0.8
  }

  /** The final price is the base times the table's fraction; discounts add up rather than chain. */
  lemma FinalPriceIsFractionOfBase(basePrice: real, first: bool, strategy: PriceStrategy)
    ensures FinalPrice(basePrice, first, strategy) == basePrice * PayableFraction(first, strategy)
  {
  }

  /** A student on a first session pays 70%, not the 72% that chaining 90% and 80% would give. */
  lemma DiscountsDoNotChain(basePrice: real)
    requires basePrice != 0.0
    ensures FinalPrice(basePrice, true, StudentStrategy)
         != CalculateDiscount(StudentStrategy, CalculateDiscount(FirstSessionStrategy, basePrice))
  {
  }

  // ---------------------------------------------------------------------------
  // The booking decision

  datatype Decision =
    | Reject(error: BookingError)
    | Commit(basePrice: real, finalPrice: real, ledger: map<string, real>)

  /**
   * What `createTicket` does, as a function of what it reads: the seat's availability and
   * label, the customer's age, the screening's movie and hall, the seat's class, whether
   * the screening is a first session, the strategy, the ledger and the card.
   */
  function Decide(seatFree: bool, seatLabel: string, age: int, movie: Movie, seatKind: SeatKind,
                  hallKind: HallKind, first: bool, strategy: PriceStrategy,
                  ledger: map<string, real>, card: Option<string>): (d: Decision)
    ensures !seatFree ==> d == Reject(SeatOccupied(seatLabel))
    ensures seatFree && AgeGate(movie.ageRating, age).Some? ==>
              d == Reject(AgeLimit(age, AgeGate(movie.ageRating, age).value))
    ensures seatFree && AgeGate(movie.ageRating, age).None? &&
            Charge(ledger, FinalPrice(BasePrice(movie, seatKind, hallKind), first, strategy), card).Err? ==>
              d == Reject(PaymentFailed(Charge(ledger, FinalPrice(BasePrice(movie, seatKind, hallKind), first, strategy), card).error))
    ensures d.Reject? && d.error.PaymentFailed? ==>
              seatFree && AgeGate(movie.ageRating, age).None? &&
              Charge(ledger, FinalPrice(BasePrice(movie, seatKind, hallKind), first, strategy), card) == Err(d.error.reason)
    ensures d.Commit? <==>
              seatFree && AgeGate(movie.ageRating, age).None? &&
              Charge(ledger, FinalPrice(BasePrice(movie, seatKind, hallKind), first, strategy), card).Ok?
    ensures d.Commit? ==>
              d.basePrice == BasePrice(movie, seatKind, hallKind) &&
              d.finalPrice == FinalPrice(d.basePrice, first, strategy) &&
              d.ledger == Charge(ledger, d.finalPrice, card).value
  {
    if !seatFree then Reject(SeatOccupied(seatLabel))
    else match AgeGate(movie.ageRating, age)
      case Some(required) => Reject(AgeLimit(age, required))
      case None =>
        var basePrice := BasePrice(movie, seatKind, hallKind);
        var finalPrice := FinalPrice(basePrice, first, strategy);
        match Charge(ledger, finalPrice, card)
        case Err(e) => Reject(PaymentFailed(e))
        case Ok(debited) => Commit(basePrice, finalPrice, debited)
  }

  /**
   * A booking that goes through debits the card by exactly the final price and leaves every
   * other balance alone; a refused one was refused by the first failing check.
   */
  lemma CommitDebitsFinalPrice(seatFree: bool, seatLabel: string, age: int, movie: Movie, seatKind: SeatKind,
                               hallKind: HallKind, first: bool, strategy: PriceStrategy,
                               ledger: map<string, real>, card: Option<string>)
    requires Decide(seatFree, seatLabel, age, movie, seatKind, hallKind, first, strategy, ledger, card).Commit?
    ensures var d := Decide(seatFree, seatLabel, age, movie, seatKind, hallKind, first, strategy, ledger, card);
      card.Some? && card.value in ledger && ledger[card.value] >= d.finalPrice &&
      d.ledger[card.value] == ledger[card.value] - d.finalPrice &&
      d.ledger.Keys == ledger.Keys &&
      (forall c :: c in ledger && c != card.value ==> d.ledger[c] == ledger[c]) &&
      d.finalPrice == d.basePrice * PayableFraction(first, strategy)
  {
    var d := Decide(seatFree, seatLabel, age, movie, seatKind, hallKind, first, strategy, ledger, card);
    FinalPriceIsFractionOfBase(d.basePrice, first, strategy);
  }

  /** The occupied-seat error never names the seat: a taken seat's label is `[ X X ]`. */
  lemma OccupiedLabelIsAlwaysTaken(seat: Seat)
    requires !seat.IsAvailable()
    ensures seat.ToString() == TAKEN_LABEL
  {
  }

  // ---------------------------------------------------------------------------
  // The engine operations

  /**
   * `createTicket`. The current year, the clock reading stamped on the ticket and the new
   * PNR code are parameters. On a refusal nothing changes; on success the seat is booked,
   * the card debited, and the ticket appended to the sold tickets and returned.
   */
  method CreateTicket(sys: CinemaSystem, customer: Customer, showTime: ShowTime, seat: Seat,
                      strategy: PriceStrategy, cardInfo: Option<string>,
                      currentYear: int, now: int, pnr: string)
    returns (r: Result<Ticket, BookingError>)
    modifies seat, sys`soldTickets, sys`mockCardDB
    ensures match Decide(old(seat.IsAvailable()), old(seat.ToString()), currentYear - customer.birthYear,
                         showTime.movie, seat.kind, showTime.hall.kind,
                         IsFirstSessionAmong(sys.activeShowTimes, showTime), strategy,
                         old(sys.mockCardDB), cardInfo)
      case Reject(e) =>
        r == Err(e) && seat.status == old(seat.status) &&
        sys.soldTickets == old(sys.soldTickets) && sys.mockCardDB == old(sys.mockCardDB)
      case Commit(basePrice, finalPrice, ledger) =>
        r == Ok(Ticket(pnr, now, customer, showTime, seat, basePrice, finalPrice)) &&
        seat.status == Booked &&
        sys.soldTickets == old(sys.soldTickets) + [r.value] && sys.mockCardDB == ledger
  {
    ghost var first0 := IsFirstSessionAmong(sys.activeShowTimes, showTime);
    if !seat.IsAvailable() {
      return Err(SeatOccupied(seat.ToString()));
    }

    var age := currentYear - customer.birthYear;
    var refusal := AgeGate(showTime.movie.ageRating, age);
    if refusal.Some? {
      return Err(AgeLimit(age, refusal.value));
    }

    var basePrice := CalculatePrice(showTime.movie) * seat.PriceMultiplier() * HallMultiplier(showTime.hall.kind);
    assert basePrice == BasePrice(showTime.movie, seat.kind, showTime.hall.kind);
    var totalDiscountAmount := 0.0;
    var first := IsFirstSession(sys, showTime);
    if first {
      totalDiscountAmount := totalDiscountAmount + basePrice * 0.10;
    }
    assert totalDiscountAmount == FirstSessionDiscount(basePrice, first);
    var priceAfterStrategy := CalculateDiscount(strategy, basePrice);
    var strategyDiscountAmount := basePrice - priceAfterStrategy;
    totalDiscountAmount := totalDiscountAmount + strategyDiscountAmount;
    var finalPrice := basePrice - totalDiscountAmount;
    assert finalPrice == FinalPrice(basePrice, first0, strategy);

    var paid := ProcessPayment(sys, finalPrice, cardInfo);
    if paid.Fail? {
      return Err(PaymentFailed(paid.error));
    }

    seat.Reserve();
    var ticket := Ticket(pnr, now, customer, showTime, seat, basePrice, finalPrice);
    sys.soldTickets := sys.soldTickets + [ticket];
    return Ok(ticket);
  }

  /** A fresh PNR keeps the sold codes unique across a booking. */
  lemma BookingKeepsPnrsUnique(sold: seq<Ticket>, ticket: Ticket)
    requires UniquePnrs(sold) && TicketByPnr(sold, ticket.pnrCode).None?
    ensures UniquePnrs(sold + [ticket])
  {
    AppendFreshPnrKeepsUnique(sold, ticket);
  }

  /**
   * `cancelTicket`: removes the ticket with that code, or raises InvalidPNR. The seat is
   * not released: no seat status changes.
   */
  method CancelTicket(sys: CinemaSystem, pnr: string) returns (r: Result<bool, InvalidPNR>)
    modifies sys`soldTickets
    ensures match TicketByPnr(old(sys.soldTickets), pnr)
      case None => r == Err(InvalidPNR(pnr)) && sys.soldTickets == old(sys.soldTickets)
      case Some(t) => r == Ok(true) && sys.soldTickets == RemoveFirst(old(sys.soldTickets), t)
    ensures forall t :: t in old(sys.soldTickets) ==> t.seat.status == old(t.seat.status)
  {
    var ticket := SearchTicketByPNR(sys, pnr);
    if ticket.None? {
      return Err(InvalidPNR(pnr));
    }
    sys.soldTickets := RemoveFirst(sys.soldTickets, ticket.value);
    return Ok(true);
  }
}
