/**
 * Cinema halls: `StandardHall`, `IMAXHall` and `VIPHall`. A hall is a record whose
 * `seats` list is its blueprint; `InitSeats` (the same in all three hall classes) clears
 * that list and refills it row by row, with love seats in the last row.
 */
module Halls {
  import opened Seats

  datatype HallKind = StandardHall | IMAXHall | VIPHall

  /** `getPriceMultiplier` of each hall class. */
  function HallMultiplier(kind: HallKind): (factor: real)
    ensures 1.0 <= factor <= 2.0
    ensures factor == 1.0 <==> kind == StandardHall
  {
    match kind
    case StandardHall => 1.0
    case IMAXHall => 1.5
    case VIPHall => 2.0
  }

  datatype CinemaHall = CinemaHall(
    name: string,
    totalRows: int,
    totalCols: int,
    kind: HallKind,
    seats: seq<Seat>)

  /** A branch of the cinema chain and the halls it owns. */
  datatype CinemaBranch = CinemaBranch(
    name: string,
    city: string,
    district: string,
    halls: seq<CinemaHall>)

  /** What identifies a seat of a layout: its position and its concrete class. */
  datatype SeatSpec = SeatSpec(row: int, number: int, kind: SeatKind)

  function SpecOf(s: Seat): SeatSpec {
    SeatSpec(s.row, s.number, s.kind)
  }

  function Specs(seats: seq<Seat>): (r: seq<SeatSpec>)
    ensures |r| == |seats|
  {
    seq(|seats|, i requires 0 <= i < |seats| => SpecOf(seats[i]))
  }

  /** The class of the seat in `row`: the last row holds love seats. */
  function KindAt(row: int, totalRows: int): SeatKind {
    if row == totalRows then LoveSeat else StandardSeat
  }

  /** Row `row`, numbered 1 to `cols`. */
  function RowSpecs(row: int, totalRows: int, cols: nat): (r: seq<SeatSpec>)
    ensures |r| == cols
  {
    seq(cols, c => SeatSpec(row, c + 1, KindAt(row, totalRows)))
  }

  /** Rows 1 to `k`, one after the other. */
  function Rows(k: nat, totalRows: int, cols: nat): seq<SeatSpec> {
    if k == 0 then [] else Rows(k - 1, totalRows, cols) + RowSpecs(k, totalRows, cols)
  }

  function Clamp(n: int): nat {
    if n < 0 then 0 else n
  }

  /** The blueprint every hall class produces (a non-positive dimension gives no seats). */
  function Layout(totalRows: int, totalCols: int): seq<SeatSpec> {
    Rows(Clamp(totalRows), totalRows, Clamp(totalCols))
  }

  lemma {:induction false} RowsSize(k: nat, totalRows: int, cols: nat)
    ensures |Rows(k, totalRows, cols)| == k * cols
  {
    if k > 0 {
      RowsSize(k - 1, totalRows, cols);
    }
  }

  lemma {:induction false} RowsAt(k: nat, totalRows: int, cols: nat, i: nat)
    requires i < |Rows(k, totalRows, cols)|
    ensures var s := Rows(k, totalRows, cols)[i];
      1 <= s.row <= k && 1 <= s.number <= cols &&
      i == (s.row - 1) * cols + (s.number - 1) &&
      s.kind == KindAt(s.row, totalRows)
  {
    var prev := Rows(k - 1, totalRows, cols);
    if i < |prev| {
      RowsAt(k - 1, totalRows, cols, i);
    } else {
      RowsSize(k - 1, totalRows, cols);
    }
  }

  lemma {:induction false} RowsCover(k: nat, totalRows: int, cols: nat, row: int, number: int)
    requires 1 <= row <= k && 1 <= number <= cols
    ensures (row - 1) * cols + (number - 1) < |Rows(k, totalRows, cols)|
    ensures Rows(k, totalRows, cols)[(row - 1) * cols + (number - 1)] == SeatSpec(row, number, KindAt(row, totalRows))
  {
    RowsSize(k - 1, totalRows, cols);
    RowsSize(k, totalRows, cols);
    if row < k {
      RowsCover(k - 1, totalRows, cols, row, number);
    }
  }

  /** The blueprint has exactly rows times columns seats. */
  lemma LayoutSize(totalRows: int, totalCols: int)
    ensures |Layout(totalRows, totalCols)| == Clamp(totalRows) * Clamp(totalCols)
  {
    RowsSize(Clamp(totalRows), totalRows, Clamp(totalCols));
  }

  /**
   * Every seat of the blueprint is in range, sits at its row-major index, and is a love
   * seat exactly when it is in the last row.
   */
  lemma LayoutAt(totalRows: int, totalCols: int, i: nat)
    requires i < |Layout(totalRows, totalCols)|
    ensures var s := Layout(totalRows, totalCols)[i];
      1 <= s.row <= totalRows && 1 <= s.number <= totalCols &&
      i == (s.row - 1) * totalCols + (s.number - 1) &&
      (s.kind == LoveSeat <==> s.row == totalRows)
  {
    RowsAt(Clamp(totalRows), totalRows, Clamp(totalCols), i);
  }

  /** Every position in range occurs in the blueprint, at its row-major index. */
  lemma LayoutCovers(totalRows: int, totalCols: int, row: int, number: int)
    requires 1 <= row <= totalRows && 1 <= number <= totalCols
    ensures (row - 1) * totalCols + (number - 1) < |Layout(totalRows, totalCols)|
    ensures Layout(totalRows, totalCols)[(row - 1) * totalCols + (number - 1)]
         == SeatSpec(row, number, if row == totalRows then LoveSeat else StandardSeat)
  {
    RowsCover(Clamp(totalRows), totalRows, Clamp(totalCols), row, number);
  }

  /** No position occurs twice. */
  lemma LayoutPositionsUnique(totalRows: int, totalCols: int, i: nat, j: nat)
    requires i < |Layout(totalRows, totalCols)| && j < |Layout(totalRows, totalCols)|
    requires Layout(totalRows, totalCols)[i].row == Layout(totalRows, totalCols)[j].row
    requires Layout(totalRows, totalCols)[i].number == Layout(totalRows, totalCols)[j].number
    ensures i == j
  {
    LayoutAt(totalRows, totalCols, i);
    LayoutAt(totalRows, totalCols, j);
  }

  /**
   * `initSeats`: clears the hall's seat list and refills it with new seats, row by row and
   * column by column, both counted from 1.
   */
  method InitSeats(hall: CinemaHall) returns (filled: CinemaHall)
    ensures filled == hall.(seats := filled.seats)
    ensures Specs(filled.seats) == Layout(hall.totalRows, hall.totalCols)
    ensures forall i :: 0 <= i < |filled.seats| ==> fresh(filled.seats[i]) && filled.seats[i].status == Available
    ensures forall i, j :: 0 <= i < j < |filled.seats| ==> filled.seats[i] != filled.seats[j]
  {
    var cols := Clamp(hall.totalCols);
    var seats: seq<Seat> := [];
    var row := 1;
    while row <= hall.totalRows
      invariant 1 <= row <= Clamp(hall.totalRows) + 1
      invariant Specs(seats) == Rows(row - 1, hall.totalRows, cols)
      invariant forall i :: 0 <= i < |seats| ==> fresh(seats[i]) && seats[i].status == Available
      invariant forall i, j :: 0 <= i < j < |seats| ==> seats[i] != seats[j]
    {
      var col := 1;
      while col <= hall.totalCols
        invariant 1 <= col <= cols + 1
        invariant Specs(seats) == Rows(row - 1, hall.totalRows, cols) + RowSpecs(row, hall.totalRows, cols)[..col - 1]
        invariant forall i :: 0 <= i < |seats| ==> fresh(seats[i]) && seats[i].status == Available
        invariant forall i, j :: 0 <= i < j < |seats| ==> seats[i] != seats[j]
      {
        var seat := new Seat(row, col, if row == hall.totalRows then LoveSeat else StandardSeat);
        assert Specs(seats + [seat]) == Specs(seats) + [SpecOf(seat)];
        assert RowSpecs(row, hall.totalRows, cols)[..col] == RowSpecs(row, hall.totalRows, cols)[..col - 1] + [SpecOf(seat)];
        seats := seats + [seat];
        col := col + 1;
      }
      assert RowSpecs(row, hall.totalRows, cols)[..col - 1] == RowSpecs(row, hall.totalRows, cols);
      row := row + 1;
    }
    filled := hall.(seats := seats);
  }
}
