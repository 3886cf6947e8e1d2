/**
 * The mock credit-card gateway (`CreditCardPaymentService`): three checks, each failing
 * fast, then a debit of the card's balance in the store's ledger.
 */
module Payment {
  import opened Wrappers
  import opened Text
  import opened Registry

  datatype PaymentError =
    | InvalidCardFormat
    | CardNotFound
    | InsufficientFunds(balance: real, required: real)

  const CARD_NUMBER_LENGTH: nat := 16

  /** A non-null string of exactly 16 ASCII digits (`^[0-9]{16}$`). */
  predicate IsCardNumber(card: Option<string>) {
    card.Some? && |card.value| == CARD_NUMBER_LENGTH && AllDigits(card.value)
  }

  /**
   * The ledger after charging `amount` to `card`, or the error of the first check that
   * fails, in the order format, existence, balance.
   */
  function Charge(ledger: map<string, real>, amount: real, card: Option<string>): (r: Result<map<string, real>, PaymentError>)
    ensures !IsCardNumber(card) ==> r == Err(InvalidCardFormat)
    ensures IsCardNumber(card) && card.value !in ledger ==> r == Err(CardNotFound)
    ensures IsCardNumber(card) && card.value in ledger && ledger[card.value] < amount ==>
              r == Err(InsufficientFunds(ledger[card.value], amount))
    ensures r.Ok? <==> IsCardNumber(card) && card.value in ledger && ledger[card.value] >= amount
    ensures r.Ok? ==> r.value.Keys == ledger.Keys && r.value[card.value] == ledger[card.value] - amount &&
                      forall c :: c in ledger && c != card.value ==> r.value[c] == ledger[c]
  {
    if !IsCardNumber(card) then Err(InvalidCardFormat)
    else if card.value !in ledger then Err(CardNotFound)
    else if ledger[card.value] < amount then Err(InsufficientFunds(ledger[card.value], amount))
    else Ok(ledger[card.value := ledger[card.value] - amount])
  }

  /** No card can be overdrawn: a ledger without negative balances keeps none after a charge. */
  lemma ChargeKeepsBalancesNonNegative(ledger: map<string, real>, amount: real, card: Option<string>)
    requires forall c :: c in ledger ==> ledger[c] >= 0.0
    requires Charge(ledger, amount, card).Ok?
    ensures forall c :: c in Charge(ledger, amount, card).value ==> Charge(ledger, amount, card).value[c] >= 0.0
  {
  }

  /** `processPayment`: checks the card against the store's ledger and debits it. */
  method ProcessPayment(sys: CinemaSystem, amount: real, cardInfo: Option<string>) returns (result: Outcome<PaymentError>)
    modifies sys`mockCardDB
    ensures match Charge(old(sys.mockCardDB), amount, cardInfo)
      case Err(e) => result == Fail(e) && sys.mockCardDB == old(sys.mockCardDB)
      case Ok(ledger) => result == Pass && sys.mockCardDB == ledger
  {
    if cardInfo.None? || !(|cardInfo.value| == CARD_NUMBER_LENGTH && AllDigits(cardInfo.value)) {
      return Fail(InvalidCardFormat);
    }
    var card := cardInfo.value;
    if card !in sys.mockCardDB {
      return Fail(CardNotFound);
    }
    var currentBalance := sys.mockCardDB[card];
    if currentBalance < amount {
      return Fail(InsufficientFunds(currentBalance, amount));
    }
    var newBalance := currentBalance - amount;
    sys.mockCardDB := sys.mockCardDB[card := newBalance];
    return Pass;
  }
}
