/**
 * The client's copy of a show: the same seat vector as the server's, filled
 * from the server's snapshots through `updateSeatAvailability`.
 */
module ClientCinema {
  import opened Wire
  import opened Seats
  import opened CinemaData

  class Shows {
    const movie: string
    const dateTime: string
    const theater: string
    var seats: seq<bool>

    /** The vector always has 20 slots. */
    ghost predicate Valid()
      reads this
    {
      |seats| == MAX_SEATS
    }

    function View(): ShowView
      reads this
    {
      ShowView(movie, dateTime, theater, seats)
    }

    /** A new show has 20 seats, all free. */
    constructor(m: string, dt: string, t: string)
      ensures movie == m && dateTime == dt && theater == t
      ensures seats == AllFree()
      ensures Valid()
    {
      movie, dateTime, theater := m, dt, t;
      seats := AllFree();
    }

    /** The numbers of the free seats, in increasing order, each cast to `uint8_t`. */
    method GetAvailableSeats() returns (available: seq<Byte>)
      requires Valid()
      ensures available == AvailableOf(seats)
    {
      available := [];
      for i := 0 to |seats|
        invariant available == AvailableOf(seats[..i])
      {
        AvailableOfStep(seats, i);
        if !seats[i] {
          available := available + [(i + 1) % 256];
        }
      }
      assert seats[..|seats|] == seats;
    }

    /** Replaces the vector, but only by one of the same length. */
    method UpdateSeatAvailability(seatStatus: seq<bool>)
      requires Valid()
      modifies this`seats
      ensures Valid()
      ensures seats == if |seatStatus| == |old(seats)| then seatStatus else old(seats)
      ensures |seatStatus| == |old(seats)| ==>
        forall n :: n in AvailableOf(seats) <==> 1 <= n <= |seatStatus| && !seatStatus[n - 1]
    {
      if |seatStatus| == |seats| {
        seats := seatStatus;
      }
    }
  }

  /** What a vector of client shows looks like from outside. */
  function Views(shows: seq<Shows>): (vs: seq<ShowView>)
    reads shows
    ensures |vs| == |shows|
    ensures forall k :: 0 <= k < |shows| ==> vs[k] == shows[k].View()
  {
    seq(|shows|, k requires 0 <= k < |shows| reads shows => shows[k].View())
  }

  /**
   * After an update with a vector of the right length, the listed free seats
   * are exactly the positions, counted from 1, where the new vector is false;
   * after one with a vector of any other length they are the old ones.
   */
  lemma AvailableAfterUpdate(old_seats: seq<bool>, seatStatus: seq<bool>)
    requires |old_seats| == MAX_SEATS
    ensures var after := if |seatStatus| == |old_seats| then seatStatus else old_seats;
      (|seatStatus| == MAX_SEATS ==> forall n :: n in AvailableOf(after) <==> 1 <= n <= MAX_SEATS && !seatStatus[n - 1]) &&
      (|seatStatus| != MAX_SEATS ==> AvailableOf(after) == AvailableOf(old_seats))
  {
  }
}
