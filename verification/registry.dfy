/**
 * `CinemaSystem`: the in-memory store of branches, movies, screenings, sold tickets,
 * the mock card ledger and the registered student ids, and the lookup of a sold ticket
 * by its PNR code.
 */
module Registry {
  import opened Wrappers
  import opened Catalog
  import opened Halls
  import opened ShowTimes
  import opened Tickets

  /** Raised when no sold ticket carries the given PNR code. */
  datatype InvalidPNR = InvalidPNR(pnrCode: string)

  class CinemaSystem {
    var branches: seq<CinemaBranch>
    var allMovies: seq<Movie>
    var soldTickets: seq<Ticket>
    var activeShowTimes: seq<ShowTime>
    /** Card number to balance; filled by the start-up loader. */
    var mockCardDB: map<string, real>
    var validStudentIds: set<string>

    /** Every registry starts empty. */
    constructor ()
      ensures branches == [] && allMovies == [] && soldTickets == [] && activeShowTimes == []
      ensures mockCardDB == map[] && validStudentIds == {}
    {
      branches := [];
      allMovies := [];
      soldTickets := [];
      activeShowTimes := [];
      mockCardDB := map[];
      validStudentIds := {};
    }
  }

  /** The position of the first ticket, in list order, whose code is `pnr`. */
  function FirstPnrIndex(tickets: seq<Ticket>, pnr: string): (r: Option<nat>)
    ensures r.Some? ==> r.value < |tickets| && tickets[r.value].pnrCode == pnr &&
                        forall j :: 0 <= j < r.value ==> tickets[j].pnrCode != pnr
    ensures r.None? <==> forall j :: 0 <= j < |tickets| ==> tickets[j].pnrCode != pnr
  {
    if tickets == [] then None
    else if tickets[0].pnrCode == pnr then Some(0)
    else match FirstPnrIndex(tickets[1..], pnr)
      case None => None
      case Some(i) => Some(i + 1)
  }

  function TicketByPnr(tickets: seq<Ticket>, pnr: string): (r: Option<Ticket>) {
    match FirstPnrIndex(tickets, pnr)
    case None => None
    case Some(i) => Some(tickets[i])
  }

  /** `searchTicketByPNR`: the first sold ticket with that code, or null. Reads only. */
  method SearchTicketByPNR(sys: CinemaSystem, pnr: string) returns (found: Option<Ticket>)
    ensures found == TicketByPnr(sys.soldTickets, pnr)
    ensures found.Some? ==> found.value in sys.soldTickets && found.value.pnrCode == pnr
    ensures found.None? <==> forall t :: t in sys.soldTickets ==> t.pnrCode != pnr
  {
    for k := 0 to |sys.soldTickets|
      invariant forall j :: 0 <= j < k ==> sys.soldTickets[j].pnrCode != pnr
    {
      if sys.soldTickets[k].pnrCode == pnr {
        return Some(sys.soldTickets[k]);
      }
    }
    return None;
  }

  /** `List.remove(Object)`: drops the first element equal to `x`, if any. */
  function RemoveFirst<T(==)>(xs: seq<T>, x: T): (r: seq<T>)
    ensures x !in xs ==> r == xs
    ensures x in xs ==> |r| == |xs| - 1
  {
    if xs == [] then []
    else if xs[0] == x then xs[1..]
    else [xs[0]] + RemoveFirst(xs[1..], x)
  }

  /** What is removed is exactly one occurrence of `x`; everything else stays. */
  lemma {:induction false} RemoveFirstMultiset<T>(xs: seq<T>, x: T)
    requires x in xs
    ensures multiset(RemoveFirst(xs, x)) == multiset(xs) - multiset{x}
  {
    assert xs == [xs[0]] + xs[1..];
    if xs[0] != x {
      RemoveFirstMultiset(xs[1..], x);
    }
  }

  /** Removing the first occurrence of the element at `i` cuts exactly position `i`. */
  lemma {:induction false} RemoveFirstAt<T>(xs: seq<T>, i: nat)
    requires i < |xs|
    requires forall j :: 0 <= j < i ==> xs[j] != xs[i]
    ensures RemoveFirst(xs, xs[i]) == xs[..i] + xs[i + 1..]
  {
    if i > 0 {
      var x, rest := xs[i], xs[1..];
      assert rest[i - 1] == x;
      RemoveFirstAt(rest, i - 1);
      assert RemoveFirst(xs, x) == [xs[0]] + RemoveFirst(rest, x);
      assert rest[..i - 1] == xs[1..i];
      assert rest[i..] == xs[i + 1..];
      assert xs[..i] == [xs[0]] + xs[1..i];
    }
  }

  /**
   * Removing the ticket found by code takes out that one ticket and keeps every other
   * sold ticket, in order.
   */
  lemma RemoveFoundTicket(tickets: seq<Ticket>, pnr: string)
    requires FirstPnrIndex(tickets, pnr).Some?
    ensures var i := FirstPnrIndex(tickets, pnr).value;
      RemoveFirst(tickets, tickets[i]) == tickets[..i] + tickets[i + 1..]
  {
    RemoveFirstAt(tickets, FirstPnrIndex(tickets, pnr).value);
  }

  /** Sold tickets carry pairwise different codes. */
  predicate UniquePnrs(tickets: seq<Ticket>) {
    forall i, j :: 0 <= i < j < |tickets| ==> tickets[i].pnrCode != tickets[j].pnrCode
  }

  /** Appending a ticket whose code is not yet sold keeps the codes unique. */
  lemma AppendFreshPnrKeepsUnique(tickets: seq<Ticket>, t: Ticket)
    requires UniquePnrs(tickets)
    requires FirstPnrIndex(tickets, t.pnrCode).None?
    ensures UniquePnrs(tickets + [t])
  {
  }

  /**
   * With unique codes, removing the ticket found by code keeps the codes unique and leaves
   * no ticket with that code.
   */
  lemma RemovingFoundForgetsPnr(tickets: seq<Ticket>, pnr: string)
    requires UniquePnrs(tickets)
    requires FirstPnrIndex(tickets, pnr).Some?
    ensures var rest := RemoveFirst(tickets, tickets[FirstPnrIndex(tickets, pnr).value]);
      UniquePnrs(rest) && FirstPnrIndex(rest, pnr).None?
  {
    var i := FirstPnrIndex(tickets, pnr).value;
    RemoveFoundTicket(tickets, pnr);
    var rest := tickets[..i] + tickets[i + 1..];
    forall k | 0 <= k < |rest|
      ensures rest[k] == tickets[Source(k, i)] && rest[k].pnrCode != pnr
    {
    }
    forall k, l | 0 <= k < l < |rest|
      ensures rest[k].pnrCode != rest[l].pnrCode
    {
      assert Source(k, i) < Source(l, i);
    }
  }

  /** The position in the original list of position `k` after position `i` was cut. */
  function Source(k: nat, i: nat): nat {
    if k < i then k else k + 1
  }
}
