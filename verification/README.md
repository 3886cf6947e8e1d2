# Cinema ticket booking: a verified model of the booking engine

This project models the core of a cinema ticket system (package
`com.cnrasili.moviebooking`), covering:

- **Booking engine** (`BookingManager`, and its near twin `Booking`). A booking runs a
  fixed order of steps: seat check, age check, base price, first-session and strategy
  discounts, payment, and only then the commit, which reserves the seat and registers the
  ticket.
- **Mock credit-card gateway**: three checks, then a debit of the in-memory ledger.
- **Refund service** and the PNR lookup in the in-memory store `CinemaSystem`.
- **Seat, hall and screening state**:
  - a seat's status machine;
  - the seat and hall price multipliers;
  - the hall layout generator, whose last row holds love seats;
  - the deep copy of a hall's seats into each screening.
- **Pricing**: 2D and 3D movie prices, and the three price strategies.
- **Small helpers**: the student-id check and the `padCenter` cell formatter.

Modules, one per component:

| file | module | source component |
|---|---|---|
| `wrappers.dfy` | `Wrappers` | Option / Result / Outcome: Java's `null` and thrown exceptions |
| `text.dfy` | `Text` | Java's decimal rendering of an `int` in string concatenation |
| `catalog.dfy` | `Catalog` | `Movie`, `Movie2D`, `Movie3D`, `Customer`, the enums |
| `seats.dfy` | `Seats` | `Seat`, `StandardSeat`, `LoveSeat` (a `class` with a mutable `status`) |
| `halls.dfy` | `Halls` | `CinemaHall`, `StandardHall`, `IMAXHall`, `VIPHall`, `CinemaBranch` |
| `showtimes.dfy` | `ShowTimes` | `ShowTime` (a `class`) |
| `pricing.dfy` | `Pricing` | `StandardPriceStrategy`, `StudentStrategy`, `FirstSessionStrategy` |
| `tickets.dfy` | `Tickets` | `Ticket` |
| `registry.dfy` | `Registry` | `CinemaSystem` (a `class` holding the registries) |
| `payment.dfy` | `Payment` | `CreditCardPaymentService` |
| `students.dfy` | `Students` | `StudentService` |
| `booking.dfy` | `BookingEngine` | `BookingManager`, `Booking` |
| `refunds.dfy` | `Refunds` | `RefundService` |
| `console_helper.dfy` | `ConsoleHelper` | `ConsoleHelper.padCenter` |
| `scenarios.dfy` | `Scenarios` | the unit tests' scenarios, derived from the contracts |

Encoding choices:

- **Prices** are exact `real`s.
- **Times** are integer minutes. `Day(t) = t / 1440` stands for `toLocalDate()`.
- **Parameters** replace three hidden inputs:
  - the current year, which the age check reads;
  - the clock reading, which refunds and new tickets read;
  - the new PNR code.
- **Identity**: a movie carries an `id`, because `Movie.equals` is reference equality. Screenings and seats are objects.
- **State**:
  - Seats are objects with a mutable status.
  - The card ledger is a `map<string, real>`.
  - The sold tickets and active screenings are sequences held by a `CinemaSystem` object.
- **Exceptions** become error variants of a `Result`.
- **Subclasses**:
  - Hall subclasses become a `HallKind`.
  - Seat subclasses become a `SeatKind`.
  - 2D/3D movies become a `Format`.

Each state-changing operation is proved against a specification function of its inputs:

- **`CreateTicket`** is proved against `Decide`. That function fixes the order of the checks. It also fixes what a commit writes.
- **`ProcessPayment`** is proved against `Charge`.
- **Refund and cancellation** are proved against `TicketByPnr` and `RemoveFirst`.
- **`InitSeats`** is proved against `Layout`.
- **The screening constructor** is proved against `Specs(hall.seats)`, the positions and classes of the hall's current seats.

Facts about those specification functions are proved as lemmas. Among them:

- the price table, and that discounts add rather than chain;
- that the card ledger never goes negative;
- that PNR codes stay unique;
- that the layout covers every position exactly once.

A refund is granted when the screening's time is not strictly before `now`, because
`RefundService.java` tests it with `isBefore` (line 42). So a screening starting exactly
now is still refundable, although the method's own documentation (line 26) asks for a
screening in the future. The model follows the code.

`Booking.java` repeats `isFirstSession` (lines 108-120) and `validateAge` (lines 129-137)
of `BookingManager.java` word for word. `IsFirstSession` and `AgeGate` model both copies.
The two engines differ only in how they compute the first-session amount.
`EnginesAgree` proves that both forms give the same price in exact arithmetic. In Java's
`double` arithmetic they can differ by rounding; see "## Left out".

## Model

| member | source | states |
|---|---|---|
| BookingEngine.AgeGate | src/main/java/com/cnrasili/moviebooking/service/BookingManager.java:122-130 | a customer is refused exactly when the rating has a minimum age (18, 13, 7; none for general audience) and the age is strictly below it; the refusal carries that minimum |
| BookingEngine.AgeGateMonotone | src/main/java/com/cnrasili/moviebooking/service/BookingManager.java:127-129 | whoever is admitted at some age is admitted at every greater age |
| BookingEngine.RatingsNested | src/main/java/com/cnrasili/moviebooking/service/BookingManager.java:127-129 | admission to an 18+ movie implies admission to 13+, which implies admission to 7+; general audience admits everyone |
| BookingEngine.IsFirstSession | src/main/java/com/cnrasili/moviebooking/service/BookingManager.java:92-104 | answers true iff no active screening of the same movie on the same date starts strictly earlier (the screening itself and equal-time screenings never disqualify) |
| BookingEngine.Earliest | src/main/java/com/cnrasili/moviebooking/service/BookingManager.java:96-101 | the earliest same-movie, same-date screening: one of the candidates, no later than any other |
| BookingEngine.FirstSessionExists | src/main/java/com/cnrasili/moviebooking/service/BookingManager.java:92-104 | every movie screened on a date has, among the active screenings, a first session of that date |
| BookingEngine.FirstSessionsStartTogether | src/main/java/com/cnrasili/moviebooking/service/BookingManager.java:92-104 | two first sessions of one movie on one date start at the same time |
| BookingEngine.BasePrice | src/main/java/com/cnrasili/moviebooking/service/BookingManager.java:60 | movie price times seat multiplier times hall multiplier, never below the movie price when the movie's base is non-negative |
| BookingEngine.StandardSeatPaysStandardPrice | src/main/java/com/cnrasili/moviebooking/model/ShowTime.java:82-84 | a standard seat's base price equals the screening's advertised standard price |
| BookingEngine.FinalPrice | src/main/java/com/cnrasili/moviebooking/service/BookingManager.java:62-74 | for a non-negative base the final price lies between 70% of the base and the base |
| BookingEngine.FinalPriceIsFractionOfBase | src/main/java/com/cnrasili/moviebooking/service/BookingManager.java:62-74 | the final price is the base times 1.0/0.9 (standard), 0.8/0.7 (student), 0.9/0.8 (first-session strategy), without/with the first-session discount: the two discounts add up on the same base |
| BookingEngine.DiscountsDoNotChain | src/main/java/com/cnrasili/moviebooking/service/BookingManager.java:64-72 | a student on a first session pays 70% of the base, never the 72% that applying 90% and 80% one after the other would give |
| BookingEngine.EnginesAgree | src/main/java/com/cnrasili/moviebooking/service/Booking.java:69-86 | `Booking`'s first-session amount (base minus the first-session strategy's price) equals `BookingManager`'s inline 10%, so in exact arithmetic both engines charge the same final price |
| BookingEngine.FirstSessionDiscount | src/main/java/com/cnrasili/moviebooking/service/BookingManager.java:64-67 | no discount off a later session; on a first session a positive share of a positive base, never more than the base |
| BookingEngine.FirstSessionDiscountViaStrategy | src/main/java/com/cnrasili/moviebooking/service/Booking.java:71-79 | the base minus the first-session strategy's price is exactly `BookingManager`'s inline first-session amount |
| BookingEngine.FinalPriceViaStrategy | src/main/java/com/cnrasili/moviebooking/service/Booking.java:81-86 | `Booking.createTicket`'s final price is the base times the same fraction table as `FinalPrice` |
| BookingEngine.Decide | src/main/java/com/cnrasili/moviebooking/service/BookingManager.java:51-84 | checks in order: an occupied seat is refused first, then an under-age customer, then a failing payment; a booking commits iff all three pass, with the base price, the final price and the debited ledger |
| BookingEngine.CommitDebitsFinalPrice | src/main/java/com/cnrasili/moviebooking/service/BookingManager.java:74-76 | a committed booking debits exactly the final price (the table's fraction of the base) from a known, valid card holding at least that much, and leaves all other balances |
| BookingEngine.OccupiedLabelIsAlwaysTaken | src/main/java/com/cnrasili/moviebooking/service/BookingManager.java:54-56 | the occupied-seat error always names the seat `[ X X ]`, since an unavailable seat's label hides its position |
| BookingEngine.CreateTicket | src/main/java/com/cnrasili/moviebooking/service/BookingManager.java:51-84 | follows `Decide`: on any refusal no seat, ticket or ledger changes; on success the seat is BOOKED, the ledger debited, and exactly one ticket (base price as original, final price, given PNR and clock) appended and returned |
| BookingEngine.BookingKeepsPnrsUnique | src/main/java/com/cnrasili/moviebooking/service/BookingManager.java:79-81 | if the new PNR is not yet sold, the sold codes stay pairwise different after the booking |
| BookingEngine.CancelTicket | src/main/java/com/cnrasili/moviebooking/service/BookingManager.java:106-113 | an unknown code raises InvalidPNR and changes nothing; otherwise the found ticket is removed and true returned; no seat's status changes |
| Catalog.CalculatePrice | src/main/java/com/cnrasili/moviebooking/model/Movie3D.java:38-40 | a 2D movie costs its base price (Movie2D.java:35-37), a 3D one strictly more; a non-negative base gives a non-negative price |
| Catalog.ThreeDCostsSurchargeMore | src/main/java/com/cnrasili/moviebooking/model/Movie3D.java:16 | for the same base, 3D costs exactly the 50.0 surcharge more than 2D |
| Catalog.PriceIgnoresDescriptors | src/main/java/com/cnrasili/moviebooking/model/Movie2D.java:35-37 | the price depends only on base price and format, not on title, duration, genre or rating |
| ConsoleHelper.PadCenter | src/main/java/com/cnrasili/moviebooking/util/ConsoleHelper.java:86-99 | null gives null; a string at least `width` long comes back unchanged; otherwise the result is exactly `width` long: `(width - len) / 2` spaces, the text verbatim, then only spaces, at least as many as lead |
| Halls.HallMultiplier | src/main/java/com/cnrasili/moviebooking/model/IMAXHall.java:32-34 | 1.0 standard, 1.5 IMAX, 2.0 VIP (StandardHall.java and VIPHall.java, lines 32-34): between 1 and 2, and 1 only for a standard hall |
| Halls.LayoutSize | src/main/java/com/cnrasili/moviebooking/model/StandardHall.java:44-52 | the layout has exactly rows times columns seats (none for a non-positive dimension) |
| Halls.LayoutAt | src/main/java/com/cnrasili/moviebooking/model/StandardHall.java:44-52 | each layout seat is in range, sits at its row-major index, and is a love seat exactly when it is in the last row |
| Halls.LayoutCovers | src/main/java/com/cnrasili/moviebooking/model/StandardHall.java:44-50 | every in-range position occurs in the layout, at its row-major index, with the class its row dictates |
| Halls.LayoutPositionsUnique | src/main/java/com/cnrasili/moviebooking/model/StandardHall.java:44-45 | no position occurs twice in the layout |
| Halls.RowsCover | src/main/java/com/cnrasili/moviebooking/model/StandardHall.java:44-50 | after `k` rows, each position of those rows is at its row-major index |
| Halls.InitSeats | src/main/java/com/cnrasili/moviebooking/model/StandardHall.java:41-53 | refills the hall with new AVAILABLE, pairwise distinct seats whose positions and classes are the layout's, whatever the hall held before; nothing else of the hall changes |
| Payment.Charge | src/main/java/com/cnrasili/moviebooking/service/CreditCardPaymentService.java:51-72 | format, then existence, then balance: the first failing check decides the error; a balance equal to the amount succeeds; on success only the card's balance drops, by the amount |
| Payment.ChargeKeepsBalancesNonNegative | src/main/java/com/cnrasili/moviebooking/service/CreditCardPaymentService.java:61-68 | a ledger without negative balances has none after a charge |
| Payment.ProcessPayment | src/main/java/com/cnrasili/moviebooking/service/CreditCardPaymentService.java:51-72 | follows `Charge`: a failure leaves the ledger unchanged, a success stores the debited ledger |
| Pricing.CalculateDiscount | src/main/java/com/cnrasili/moviebooking/service/StudentStrategy.java:25-28 | standard is the identity (StandardPriceStrategy.java:22-24); for a non-negative base every strategy gives a price between 0 and the base; 0 maps to 0 |
| Pricing.DiscountRates | src/main/java/com/cnrasili/moviebooking/service/FirstSessionStrategy.java:25-27 | student pays 80%, first session 90%; the strategy discount is 0, 20% and 10% of the base |
| Pricing.StandardIdempotent | src/main/java/com/cnrasili/moviebooking/service/StandardPriceStrategy.java:22-24 | applying the standard strategy twice is applying it once |
| Pricing.DiscountBounded | src/main/java/com/cnrasili/moviebooking/service/StudentStrategy.java:27 | for a non-negative base, a strategy never takes off less than 0 or more than 20% of the base |
| Pricing.DiscountAmount | src/main/java/com/cnrasili/moviebooking/service/BookingManager.java:69-70 | the amount a strategy takes off: nothing for the standard strategy, between 0 and the base for a non-negative base |
| Refunds.ProcessRefund | src/main/java/com/cnrasili/moviebooking/service/RefundService.java:35-51 | unknown code: InvalidPNR, nothing changes; screening strictly before now: false, nothing changes; otherwise the seat becomes AVAILABLE whatever it was, the found ticket is removed and true returned; no other seat changes |
| Refunds.Refundable | src/main/java/com/cnrasili/moviebooking/service/RefundService.java:42-44 | a screening starting exactly now is still refundable, and a refundable screening does not start before now |
| Refunds.RefundWindowCloses | src/main/java/com/cnrasili/moviebooking/service/RefundService.java:42-44 | once a ticket can no longer be refunded, it cannot be at any later time |
| Refunds.RefundForgetsPnr | src/main/java/com/cnrasili/moviebooking/service/RefundService.java:48 | with unique codes, after the removal the code is unknown (a second refund raises InvalidPNR), the codes stay unique and one ticket fewer is sold |
| Registry.CinemaSystem.constructor | src/main/java/com/cnrasili/moviebooking/service/CinemaSystem.java:27-36 | every registry starts empty |
| Registry.FirstPnrIndex | src/main/java/com/cnrasili/moviebooking/service/CinemaSystem.java:44-51 | the position of the first ticket in list order carrying the code, absent iff no ticket carries it |
| Registry.SearchTicketByPNR | src/main/java/com/cnrasili/moviebooking/service/CinemaSystem.java:44-51 | returns the first sold ticket with that code, null iff none has it; reads only |
| Registry.RemoveFirst | src/main/java/com/cnrasili/moviebooking/service/RefundService.java:48 | `List.remove(Object)`: an element not in the list leaves it unchanged; otherwise the list gets exactly one shorter |
| Registry.RemoveFirstMultiset | src/main/java/com/cnrasili/moviebooking/service/RefundService.java:48 | what `remove` takes out is exactly one occurrence of the element; every other element stays |
| Registry.RemoveFirstAt | src/main/java/com/cnrasili/moviebooking/service/RefundService.java:48 | removing the first occurrence at position `i` keeps every other ticket, in order |
| Registry.RemoveFoundTicket | src/main/java/com/cnrasili/moviebooking/service/RefundService.java:36-48 | removing the ticket found by code removes precisely the first ticket with that code and keeps the others in order |
| Registry.AppendFreshPnrKeepsUnique | src/main/java/com/cnrasili/moviebooking/service/BookingManager.java:79-81 | appending a ticket whose code is unsold keeps the codes unique |
| Registry.RemovingFoundForgetsPnr | src/main/java/com/cnrasili/moviebooking/service/RefundService.java:48 | with unique codes, removing the found ticket leaves no ticket with that code and keeps the codes unique |
| Seats.SeatMultiplier | src/main/java/com/cnrasili/moviebooking/model/LoveSeat.java:31-33 | 2.0 for a love seat, 1.0 for a standard one (StandardSeat.java:31-33): never below 1, and 2.0 exactly for a love seat |
| Seats.LastOperationDecides | src/main/java/com/cnrasili/moviebooking/model/Seat.java:45-55 | after any non-empty sequence of reserve/cancel, the status is the last operation's: reserve is idempotent and cancel after reserve frees the seat |
| Seats.Seat.constructor | src/main/java/com/cnrasili/moviebooking/model/Seat.java:25-29 | a new seat has the given row, number and class, and is AVAILABLE |
| Seats.Seat.Reserve | src/main/java/com/cnrasili/moviebooking/model/Seat.java:45-47 | sets BOOKED whatever the status was |
| Seats.Seat.CancelBooking | src/main/java/com/cnrasili/moviebooking/model/Seat.java:53-55 | sets AVAILABLE whatever the status was |
| Seats.Seat.IsAvailable | src/main/java/com/cnrasili/moviebooking/model/Seat.java:62-64 | an available seat is neither BOOKED nor BLOCKED |
| Seats.Seat.BaseString | src/main/java/com/cnrasili/moviebooking/model/Seat.java:84-86 | `R<row>-N<number>`: starts with `R`, longer than three characters |
| Seats.Seat.ToString | src/main/java/com/cnrasili/moviebooking/model/LoveSeat.java:47-50 | an available seat shows `[L<row>-<number>]` or `[R<row>-<number>]` (StandardSeat.java:47-50), an unavailable one `[ X X ]` |
| Seats.FreeLabelInjective | src/main/java/com/cnrasili/moviebooking/model/StandardSeat.java:48-50 | two available seats with non-negative coordinates show the same label only if they have the same class, row and number |
| Seats.FreeLabelIsNotTaken | src/main/java/com/cnrasili/moviebooking/model/LoveSeat.java:49 | an available seat's label never reads `[ X X ]` |
| Seats.BaseStringInjective | src/main/java/com/cnrasili/moviebooking/model/Seat.java:84-86 | seats with non-negative coordinates have the same `R<row>-N<number>` text only if row and number agree |
| ShowTimes.CloneSeats | src/main/java/com/cnrasili/moviebooking/model/ShowTime.java:48-58 | one new AVAILABLE seat per blueprint seat, same order, same row, number and class; all fresh and pairwise distinct |
| ShowTimes.ShowTime.constructor | src/main/java/com/cnrasili/moviebooking/model/ShowTime.java:32-38 | keeps time, movie and hall, and gets its own fresh AVAILABLE copies of the hall's seats, so screenings never share seat state |
| ShowTimes.ShowTime.GetSeat | src/main/java/com/cnrasili/moviebooking/model/ShowTime.java:67-74 | the first seat with that row and number, or null iff there is none |
| ShowTimes.ShowTime.StandardPrice | src/main/java/com/cnrasili/moviebooking/model/ShowTime.java:82-84 | non-negative for a non-negative movie base (and equal to a standard seat's base price, see StandardSeatPaysStandardPrice) |
| Students.ValidateStudentId | src/main/java/com/cnrasili/moviebooking/service/StudentService.java:28-30 | true iff the id is non-null and equal to one of the registered ids (exact string equality, no trimming or case folding); reads only |
| Text.IntToString | src/main/java/com/cnrasili/moviebooking/model/Seat.java:85 | Java's decimal rendering of an `int`: a `-` for negatives, then digits without leading zeros |
| Text.DecimalRoundTrip | src/main/java/com/cnrasili/moviebooking/model/Seat.java:85 | reading back the decimal rendering of a natural number gives that number |
| Text.JoinedNatsInjective | src/main/java/com/cnrasili/moviebooking/model/StandardSeat.java:49 | two numbers joined by a separator that starts with a non-digit determine both numbers |

## Left out

- `Main.java`, the rest of `ConsoleHelper.java` (input loops, regex checks in them,
  `printSeatMap`), `DataInitializer.java` (CSV loading and the start-up schedule), all
  `System.out` logging and the `toString` methods built on `DateTimeFormatter`: I/O and
  display only. The loaded movies, branches, ledger and student ids are ordinary state.
- PNR generation (a truncated random UUID, `BookingManager.java:132-134`): the code is a
  parameter. `generatePNR` does not check for collisions, so PNR uniqueness is proved only
  for a code not yet sold (`BookingKeepsPnrsUnique`).
- `LocalDateTime.now()` in `validateAge`, `processRefund` and the `Ticket` constructor:
  the current year and the clock reading are parameters. Dates are whole minutes, and
  `Day` is a division by 1440 rather than a calendar.
- IEEE double rounding: prices are exact reals, so for instance `100 * 0.9` is exactly 90.
  In `double` arithmetic the two engines can also differ in the last bits: `basePrice * 0.10`
  (`BookingManager.java:66`) and `basePrice - basePrice * 0.90` (`Booking.java:76-78`) need not
  round to the same value, so `EnginesAgree` holds for exact reals only.
- Java `int` width: ages, birth years, rows, columns and widths are unbounded integers. So
  `currentYear - birthYear` (`BookingManager.java:124`) never wraps around, and `AgeGate`
  admits a customer with an extreme negative birth year whom the 32-bit code would refuse.
  Likewise the layout loops (`StandardHall.java:44-45`) always end, whereas the Java loop
  `row <= getTotalRows()` never ends for a dimension of `Integer.MAX_VALUE`.
- ConsoleHelper.PadCenter: lengths count characters. Java's `s.length()` counts UTF-16 code
  units, so a string with characters outside the Basic Multilingual Plane is padded
  differently in the source.
- Registry.SearchTicketByPNR, BookingEngine.CancelTicket, Refunds.ProcessRefund: the PNR is a
  non-null string. In the source a `null` code matches no ticket (`CinemaSystem.java:46`,
  `equals(null)` is false) and so ends in InvalidPNR; the model has no way to pass one.
- The `PaymentService` interface has a single implementation, `CreditCardPaymentService`, so
  `CreateTicket` calls `ProcessPayment` directly. The same holds for `PriceStrategy`,
  whose three implementations are a datatype.
- `Bookable.java`: `Seat` does not implement it, and its promise that reserving an
  occupied item fails is not what `Seat.reserve` does.
- `CinemaSystem.mockCardDB` and `validStudentIds` are used but not declared in
  `CinemaSystem.java`; the model declares them as a `map<string, real>` and a
  `set<string>` on `CinemaSystem`. `CinemaHall.getSeats()` and `initSeats()` are used
  but their declarations are not part of this model; a hall's seats are the
  `seats` sequence of the `CinemaHall` record, which `InitSeats` fills.
- The three hall classes share one `initSeats` body, so `Halls.InitSeats` and the `Layout`
  lemmas model `IMAXHall.java`, `VIPHall.java` and `StandardHall.java` (lines 41-53) at once.
- A `CinemaHall` is a record holding its blueprint seats, so `InitSeats` returns the
  refilled hall rather than clearing and refilling a list in place.
- Exception messages are reduced to their data (the seat label, the age and threshold,
  the payment error). A `Ticket`'s creation time is the clock parameter.
