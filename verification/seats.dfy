/**
 * Seats: `Seat` with its two concrete kinds `StandardSeat` and `LoveSeat`.
 * Row and number never change; the status is changed in place by `Reserve` and
 * `CancelBooking`.
 */
module Seats {
  import opened Text

  datatype SeatStatus = Available | Booked | Blocked

  /** The concrete seat class; `Seat` itself is abstract. */
  datatype SeatKind = StandardSeat | LoveSeat

  /** `getPriceMultiplier` of each seat class. */
  function SeatMultiplier(kind: SeatKind): (factor: real)
    ensures factor >= 1.0
    ensures kind == LoveSeat <==> factor == 2.0
  {
    match kind
    case StandardSeat => 1.0
    case LoveSeat => 2.0
  }

  /** The two operations that change a seat's status. */
  datatype SeatOp = Reserve | CancelBooking

  /** The status after an operation; neither operation looks at the status it replaces. */
  function Apply(status: SeatStatus, op: SeatOp): SeatStatus {
    match op
    case Reserve => Booked
    case CancelBooking => Available
  }

  /** The status after a sequence of operations, applied from left to right. */
  function ApplyAll(status: SeatStatus, ops: seq<SeatOp>): SeatStatus
    decreases |ops|
  {
    if ops == [] then status else ApplyAll(Apply(status, ops[0]), ops[1..])
  }

  /**
   * Only the last operation matters: a seat is available after a non-empty sequence of
   * operations iff that sequence ends with CancelBooking. In particular reserve-then-cancel
   * releases the seat, and reserving twice is the same as reserving once.
   */
  lemma {:induction false} LastOperationDecides(status: SeatStatus, ops: seq<SeatOp>)
    requires ops != []
    ensures ApplyAll(status, ops) == Apply(status, ops[|ops| - 1])
    ensures ApplyAll(status, ops) == Available <==> ops[|ops| - 1] == CancelBooking
    decreases |ops|
  {
    if |ops| > 1 {
      LastOperationDecides(Apply(status, ops[0]), ops[1..]);
    }
  }

  /** The label a seat shows on the seat map while it is free (`[R1-2]`, `[L5-3]`). */
  function FreeLabel(kind: SeatKind, row: int, number: int): string {
    LabelPrefix(kind) + (IntToString(row) + "-" + IntToString(number)) + "]"
  }

  function LabelPrefix(kind: SeatKind): string {
    if kind == LoveSeat then "[L" else "[R"
  }

  /** The label every taken seat shows, whatever its kind or position. */
  const TAKEN_LABEL: string := "[ X X ]"

  class Seat {
    const row: int
    const number: int
    const kind: SeatKind
    var status: SeatStatus

    /** `new StandardSeat(row, number)` / `new LoveSeat(row, number)`. */
    constructor (row: int, number: int, kind: SeatKind)
      ensures this.row == row && this.number == number && this.kind == kind
      ensures status == Available
    {
      this.row := row;
      this.number := number;
      this.kind := kind;
      status := Available;
    }

    /** Books the seat; there is no availability check. */
    method Reserve()
      modifies this
      ensures status == Apply(old(status), SeatOp.Reserve)
    {
      status := Booked;
    }

    /** Frees the seat, whatever its previous status (also a BLOCKED one). */
    method CancelBooking()
      modifies this
      ensures status == Apply(old(status), SeatOp.CancelBooking)
    {
      status := Available;
    }

    predicate IsAvailable()
      reads this
      ensures IsAvailable() ==> status != Booked && status != Blocked
    {
      status == Available
    }

    function PriceMultiplier(): real {
      SeatMultiplier(kind)
    }

    /** `Seat.toString`, overridden by both seat kinds, so never the label a seat shows. */
    function BaseString(): (s: string)
      ensures |s| > 3 && s[0] == 'R'
    {
      "R" + (IntToString(row) + "-N" + IntToString(number))
    }

    /** The `toString` of `StandardSeat` and `LoveSeat`. */
    function ToString(): (s: string)
      reads this
      ensures IsAvailable() ==> s == FreeLabel(kind, row, number)
      ensures !IsAvailable() ==> s == TAKEN_LABEL
    {
      if IsAvailable() then FreeLabel(kind, row, number) else TAKEN_LABEL
    }
  }

  /**
   * Free seats with non-negative coordinates are told apart by their labels: equal labels
   * mean the same kind, row and number.
   */
  lemma FreeLabelInjective(k1: SeatKind, r1: int, n1: int, k2: SeatKind, r2: int, n2: int)
    requires r1 >= 0 && n1 >= 0 && r2 >= 0 && n2 >= 0
    requires FreeLabel(k1, r1, n1) == FreeLabel(k2, r2, n2)
    ensures k1 == k2 && r1 == r2 && n1 == n2
  {
    var body1 := NatToString(r1) + "-" + NatToString(n1);
    var body2 := NatToString(r2) + "-" + NatToString(n2);
    assert LabelPrefix(k1)[1] == FreeLabel(k1, r1, n1)[1] == FreeLabel(k2, r2, n2)[1] == LabelPrefix(k2)[1];
    SameFrameSameContent(LabelPrefix(k1), body1, "]", LabelPrefix(k2), body2, "]");
    JoinedNatsInjective(r1, n1, r2, n2, "-");
  }

  /** A free seat's label never coincides with the label of a taken seat. */
  lemma FreeLabelIsNotTaken(kind: SeatKind, row: int, number: int)
    ensures FreeLabel(kind, row, number) != TAKEN_LABEL
  {
    assert FreeLabel(kind, row, number)[1] != TAKEN_LABEL[1];
  }

  /** `Seat.toString` determines the position too. */
  lemma BaseStringInjective(s1: Seat, s2: Seat)
    requires s1.row >= 0 && s1.number >= 0 && s2.row >= 0 && s2.number >= 0
    requires s1.BaseString() == s2.BaseString()
    ensures s1.row == s2.row && s1.number == s2.number
  {
    var body1 := NatToString(s1.row) + "-N" + NatToString(s1.number);
    var body2 := NatToString(s2.row) + "-N" + NatToString(s2.number);
    SameFrameSameContent("R", body1, "", "R", body2, "");
    JoinedNatsInjective(s1.row, s1.number, s2.row, s2.number, "-N");
  }
}
