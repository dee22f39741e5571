/**
 * The seat vector of one show, as both the server and the client keep it:
 * `seats[i]` is true when seat `i + 1` is booked. This module states what
 * listing the free seats and booking a group of seats mean, independently
 * of the classes that hold the vector.
 */
module Seats {

  /** Every show has 20 seats, numbered 1 to 20. */
  const MAX_SEATS: nat := 20

  /** The vector of a show nobody has booked yet. */
  function AllFree(): (seats: seq<bool>)
    ensures |seats| == MAX_SEATS
  {
    seq(MAX_SEATS, i => false)
  }

  /** Seat number `n` exists in `seats` and is not booked. */
  predicate IsFree(seats: seq<bool>, n: int)
  {
    1 <= n <= |seats| && !seats[n - 1]
  }

  /** The numbers of the free seats, in increasing order. */
  function AvailableOf(seats: seq<bool>): (r: seq<nat>)
    ensures |r| <= |seats|
    ensures forall k :: 0 <= k < |r| ==> IsFree(seats, r[k])
    ensures forall n :: IsFree(seats, n) ==> n in r
    ensures forall k, l :: 0 <= k < l < |r| ==> r[k] < r[l]
  {
    if |seats| == 0 then []
    else
      var front := seats[..|seats| - 1];
      var p := AvailableOf(front);
      var r := if seats[|seats| - 1] then p else p + [|seats|];
      forall k | 0 <= k < |p| ensures IsFree(seats, p[k]) {
        assert IsFree(front, p[k]);
      }
      forall n | IsFree(seats, n) ensures n in r {
        if n < |seats| {
          assert IsFree(front, n);
        }
      }
      r
  }

  /** Scanning one more slot adds its number when the seat is free. */
  lemma AvailableOfStep(seats: seq<bool>, i: nat)
    requires i < |seats|
    ensures AvailableOf(seats[..i + 1]) == AvailableOf(seats[..i]) + (if seats[i] then [] else [i + 1])
  {
    assert seats[..i + 1][..i] == seats[..i];
  }

  /** Every seat of `request` exists in `seats` and is free: the condition `bookSeats` tests before it marks anything. */
  predicate CanBook(seats: seq<bool>, request: seq<int>)
  {
    forall k :: 0 <= k < |request| ==> IsFree(seats, request[k])
  }

  /** `seats` with every seat of `request` marked as booked. */
  function Booked(seats: seq<bool>, request: seq<int>): (r: seq<bool>)
    ensures |r| == |seats|
  {
    seq(|seats|, i requires 0 <= i < |seats| => seats[i] || i + 1 in request)
  }

  /** A group of seats can be booked exactly when each of them is among the listed free seats. */
  lemma CanBookIffListed(seats: seq<bool>, request: seq<int>)
    ensures CanBook(seats, request) <==> forall k :: 0 <= k < |request| ==> request[k] in AvailableOf(seats)
  {
  }

  /** After a booking the free seats are the ones that were free and were not requested. */
  lemma AvailableAfterBooking(seats: seq<bool>, request: seq<int>)
    ensures forall n :: n in AvailableOf(Booked(seats, request)) <==> n in AvailableOf(seats) && n !in request
  {
    var after := Booked(seats, request);
    forall n ensures n in AvailableOf(after) <==> n in AvailableOf(seats) && n !in request {
      assert IsFree(after, n) <==> IsFree(seats, n) && n !in request;
    }
  }

  /** Booking only ever adds bookings. */
  lemma BookedKeepsBookings(seats: seq<bool>, request: seq<int>, i: nat)
    requires i < |seats| && seats[i]
    ensures Booked(seats, request)[i]
  {
  }

  /** Once a group is booked, no later request that shares a seat with it can be booked. */
  lemma OverlapFails(seats: seq<bool>, first: seq<int>, second: seq<int>, n: int)
    requires CanBook(seats, first)
    requires n in first && n in second
    ensures !CanBook(Booked(seats, first), second)
  {
    var k :| 0 <= k < |second| && second[k] == n;
    assert !IsFree(Booked(seats, first), second[k]);
  }

  /** An empty request can always be booked and books nothing. */
  lemma EmptyRequest(seats: seq<bool>)
    ensures CanBook(seats, [])
    ensures Booked(seats, []) == seats
  {
    assert forall i :: 0 <= i < |seats| ==> Booked(seats, [])[i] == seats[i];
  }

  /** Naming a seat twice in one request books it once and is not an error. */
  lemma RepeatedSeat(seats: seq<bool>, request: seq<int>, n: int)
    requires n in request
    ensures CanBook(seats, request + [n]) == CanBook(seats, request)
    ensures Booked(seats, request + [n]) == Booked(seats, request)
  {
    var k :| 0 <= k < |request| && request[k] == n;
    assert (request + [n])[|request|] == request[k];
    assert CanBook(seats, request) ==> CanBook(seats, request + [n]) by {
      if CanBook(seats, request) {
        forall j | 0 <= j < |request| + 1 ensures IsFree(seats, (request + [n])[j]) {
          if j < |request| {
            assert (request + [n])[j] == request[j];
          }
        }
      }
    }
    assert CanBook(seats, request + [n]) ==> CanBook(seats, request) by {
      if CanBook(seats, request + [n]) {
        forall j | 0 <= j < |request| ensures IsFree(seats, request[j]) {
          assert (request + [n])[j] == request[j];
        }
      }
    }
    forall i | 0 <= i < |seats| ensures Booked(seats, request + [n])[i] == Booked(seats, request)[i] {
      assert i + 1 in request + [n] <==> i + 1 in request;
    }
  }

  // ---------------------------------------------------------------------
  // The "(Total: N/20)" count

  /** The set of free seat numbers. */
  function FreeSet(seats: seq<bool>): set<int>
  {
    set i | 0 <= i < |seats| && !seats[i] :: i + 1
  }

  /** The distinct values of a sequence. */
  function SetOf(r: seq<int>): set<int>
  {
    set n | n in r
  }

  /** A strictly increasing sequence has as many distinct values as elements. */
  lemma {:induction false} IncreasingCard(r: seq<int>)
    requires forall k, l :: 0 <= k < l < |r| ==> r[k] < r[l]
    ensures |SetOf(r)| == |r|
  {
    if |r| > 0 {
      var front := r[..|r| - 1];
      var last := r[|r| - 1];
      IncreasingCard(front);
      assert SetOf(r) == SetOf(front) + {last} by {
        assert r == front + [last];
      }
      assert last !in SetOf(front);
    }
  }

  /** The count printed after the seat list is the number of free seats. */
  lemma AvailableCount(seats: seq<bool>)
    ensures |AvailableOf(seats)| == |FreeSet(seats)|
  {
    var r := AvailableOf(seats);
    IncreasingCard(r);
    assert SetOf(r) == FreeSet(seats) by {
      forall n | n in FreeSet(seats) ensures n in SetOf(r) {
        assert IsFree(seats, n);
      }
    }
  }

  lemma FreeAfterBooking(seats: seq<bool>, request: seq<int>)
    ensures FreeSet(Booked(seats, request)) == FreeSet(seats) - SetOf(request)
  {
    var after := Booked(seats, request);
    forall n | n in FreeSet(seats) - SetOf(request) ensures n in FreeSet(after) {
      assert !after[n - 1];
    }
  }

  lemma SubsetCard(a: set<int>, b: set<int>)
    requires b <= a
    ensures |a - b| + |b| == |a|
  {
    assert a == (a - b) + b;
    assert (a - b) * b == {};
  }

  /**
   * A successful booking lowers the free-seat count by the number of distinct
   * seats requested.
   */
  lemma CountAfterBooking(seats: seq<bool>, request: seq<int>)
    requires CanBook(seats, request)
    ensures |AvailableOf(Booked(seats, request))| + |SetOf(request)| == |AvailableOf(seats)|
  {
    AvailableCount(seats);
    AvailableCount(Booked(seats, request));
    FreeAfterBooking(seats, request);
    assert SetOf(request) <= FreeSet(seats) by {
      forall n | n in SetOf(request) ensures n in FreeSet(seats) {
        var k :| 0 <= k < |request| && request[k] == n;
        assert IsFree(seats, request[k]);
      }
    }
    SubsetCard(FreeSet(seats), SetOf(request));
  }

  // ---------------------------------------------------------------------
  // Free and booked seats together

  /** The set of booked seat numbers. */
  function BookedSet(seats: seq<bool>): set<int>
  {
    set i | 0 <= i < |seats| && seats[i] :: i + 1
  }

  /** Every seat is listed as free or counted as booked, never both. */
  lemma AvailablePlusBooked(seats: seq<bool>)
    ensures |AvailableOf(seats)| + |BookedSet(seats)| == |seats|
  {
    AvailableCount(seats);
    var f, b := FreeSet(seats), BookedSet(seats);
    var numbers := seq(|seats|, i => i + 1);
    assert f * b == {};
    assert f + b == SetOf(numbers) by {
      forall n | n in SetOf(numbers) ensures n in f + b {
        var i :| 0 <= i < |numbers| && numbers[i] == n;
        if seats[i] {
          assert n in b;
        } else {
          assert n in f;
        }
      }
      forall n | n in f + b ensures n in SetOf(numbers) {
        assert numbers[n - 1] == n;
      }
    }
    IncreasingCard(numbers);
  }

  /** A show nobody has booked lists every seat from 1 to 20. */
  lemma AllFreeAvailable()
    ensures AvailableOf(AllFree()) == seq(MAX_SEATS, i => i + 1)
  {
    NoneBookedAvailable(MAX_SEATS);
    assert AllFree() == seq(MAX_SEATS, i => false);
  }

  lemma {:induction false} NoneBookedAvailable(n: nat)
    ensures AvailableOf(seq(n, i => false)) == seq(n, i => i + 1)
  {
    if n > 0 {
      NoneBookedAvailable(n - 1);
      assert seq(n, i => false)[..n - 1] == seq(n - 1, i => false);
      assert seq(n, i => i + 1) == seq(n - 1, i => i + 1) + [n];
    }
  }
}
