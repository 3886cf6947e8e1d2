/**
 * Screenings. A `ShowTime` takes a movie, a hall and a start time, and owns its own copy
 * of the hall's seats, so that booking one screening never touches another screening or
 * the hall's blueprint.
 */
module ShowTimes {
  import opened Catalog
  import opened Seats
  import opened Halls

  /** Times are minutes since an epoch; `Day` stands for `LocalDateTime.toLocalDate()`. */
  const MINUTES_PER_DAY: int := 1440

  function Day(t: int): int {
    t / MINUTES_PER_DAY
  }

  /**
   * `ShowTime.initSeats`: one new seat per blueprint seat, same position, same class
   * (a love seat stays a love seat, anything else becomes a standard seat), all AVAILABLE
   * whatever the blueprint seat's status.
   */
  method CloneSeats(blueprint: seq<Seat>) returns (clones: seq<Seat>)
    ensures Specs(clones) == Specs(blueprint)
    ensures forall i :: 0 <= i < |clones| ==> fresh(clones[i]) && clones[i].status == Available
    ensures forall i, j :: 0 <= i < j < |clones| ==> clones[i] != clones[j]
  {
    clones := [];
    for k := 0 to |blueprint|
      invariant Specs(clones) == Specs(blueprint[..k])
      invariant forall i :: 0 <= i < |clones| ==> fresh(clones[i]) && clones[i].status == Available
      invariant forall i, j :: 0 <= i < j < |clones| ==> clones[i] != clones[j]
    {
      var original := blueprint[k];
      var copy;
      if original.kind == LoveSeat {
        copy := new Seat(original.row, original.number, LoveSeat);
      } else {
        copy := new Seat(original.row, original.number, StandardSeat);
      }
      assert Specs(clones + [copy]) == Specs(clones) + [SpecOf(copy)];
      assert Specs(blueprint[..k + 1]) == Specs(blueprint[..k]) + [SpecOf(original)];
      clones := clones + [copy];
    }
    assert blueprint[..|blueprint|] == blueprint;
  }

  predicate SeatAt(s: Seat, row: int, number: int) {
    s.row == row && s.number == number
  }

  class ShowTime {
    const time: int
    const movie: Movie
    const hall: CinemaHall
    const seats: seq<Seat>

    constructor (time: int, movie: Movie, hall: CinemaHall)
      ensures this.time == time && this.movie == movie && this.hall == hall
      ensures Specs(seats) == Specs(hall.seats)
      ensures forall i :: 0 <= i < |seats| ==> fresh(seats[i]) && seats[i].status == Available
      ensures forall i, j :: 0 <= i < j < |seats| ==> seats[i] != seats[j]
    {
      this.time := time;
      this.movie := movie;
      this.hall := hall;
      var cloned := CloneSeats(hall.seats);
      this.seats := cloned;
    }

    /** The first seat at (`row`, `number`), or null when there is none. */
    method GetSeat(row: int, number: int) returns (found: Seat?)
      ensures found == null <==> forall i :: 0 <= i < |seats| ==> !SeatAt(seats[i], row, number)
      ensures found != null ==> exists k :: 0 <= k < |seats| && seats[k] == found && SeatAt(found, row, number) &&
                                           forall j :: 0 <= j < k ==> !SeatAt(seats[j], row, number)
    {
      for k := 0 to |seats|
        invariant forall j :: 0 <= j < k ==> !SeatAt(seats[j], row, number)
      {
        if seats[k].row == row && seats[k].number == number {
          return seats[k];
        }
      }
      return null;
    }

    /** The price of a standard seat before any discount. */
    function StandardPrice(): (price: real)
      ensures movie.basePrice >= 0.0 ==> price >= 0.0
    {
      CalculatePrice(movie) * HallMultiplier(hall.kind)
    }
  }
}
