/**
 * The server's show inventory: the `Shows` class with its seat vector, and
 * `CinemaService`, which writes the snapshot text of a list of shows.
 */
module ServerCinema {
  import opened Wire
  import opened Seats
  import opened CinemaData

  /** One show on the server: its names are fixed, its seat vector is updated by bookings. */
  class Shows {
    const movie: string
    const dateTime: string
    const theater: string
    var seats: seq<bool>

    /** The vector always has one slot per seat. */
    ghost predicate Valid()
      reads this
    {
      |seats| == MAX_SEATS
    }

    /** What the show looks like from outside. */
    function View(): ShowView
      reads this
    {
      ShowView(movie, dateTime, theater, seats)
    }

    /** A new show has 20 seats, all free. */
    constructor(m: string, dt: string, t: string)
      ensures movie == m && dateTime == dt && theater == t
      ensures seats == AllFree()
      ensures Valid()
    {
      movie, dateTime, theater := m, dt, t;
      seats := AllFree();
    }

    /** The numbers of the free seats, in increasing order, each cast to `uint8_t`. */
    method GetAvailableSeats() returns (available: seq<Byte>)
      requires Valid()
      ensures available == AvailableOf(seats)
    {
      available := [];
      var i := 0;
      while i < |seats|
        invariant 0 <= i <= |seats|
        invariant available == AvailableOf(seats[..i])
      {
        AvailableOfStep(seats, i);
        if !seats[i] {
          available := available + [(i + 1) % 256];
        }
        i := i + 1;
      }
      assert seats[..|seats|] == seats;
    }

    /**
     * Books every seat of `seatNumbers`, or none of them: the first loop
     * rejects the request if a seat is out of range or taken, and only then
     * the second loop marks the seats.
     */
    method BookSeats(seatNumbers: seq<Byte>) returns (ok: bool)
      modifies this
      ensures ok == CanBook(old(seats), seatNumbers)
      ensures seats == if ok then Booked(old(seats), seatNumbers) else old(seats)
    {
      for i := 0 to |seatNumbers|
        invariant CanBook(seats, seatNumbers[..i])
      {
        var seat := seatNumbers[i];
        if seat < 1 || seat > |seats| || seats[seat - 1] {
          assert !IsFree(seats, seatNumbers[i]);
          return false;
        }
        assert seatNumbers[..i + 1] == seatNumbers[..i] + [seat];
      }
      assert seatNumbers[..|seatNumbers|] == seatNumbers;
      ghost var before := seats;
      for i := 0 to |seatNumbers|
        invariant seats == Booked(before, seatNumbers[..i])
      {
        seats := seats[seatNumbers[i] - 1 := true];
        assert seatNumbers[..i + 1] == seatNumbers[..i] + [seatNumbers[i]];
      }
      return true;
    }
  }

  /** What a vector of shows looks like from outside. */
  function Views(shows: seq<Shows>): (vs: seq<ShowView>)
    reads shows
    ensures |vs| == |shows|
    ensures forall k :: 0 <= k < |shows| ==> vs[k] == shows[k].View()
  {
    seq(|shows|, k requires 0 <= k < |shows| reads shows => shows[k].View())
  }

  lemma JoinLinesSnoc(lines: seq<string>, line: string)
    ensures JoinLines(lines + [line]) == JoinLines(lines) + line + "\n"
  {
    JoinLinesAppend(lines, [line]);
    assert [line][1..] == [];
  }

  /** Writes the seat line of one show. */
  method WriteSeatsLine(show: Shows) returns (line: string)
    requires show.Valid()
    ensures line == SeatsLine(show.View())
  {
    line := SEATS_PREFIX;
    var available := show.GetAvailableSeats();
    if |available| == 0 {
      line := line + SOLD_OUT;
    } else {
      line := WriteCommaList(line, available);
    }
    line := line + " (Total: " + NatToString(|available|) + "/20)";
  }

  /** Writes the two lines of one show. */
  method WriteEntry(text: string, show: Shows) returns (r: string)
    requires show.Valid()
    ensures r == text + JoinLines(EntryLines(show.View()))
  {
    var movieLine := MOVIE_PREFIX + show.movie + " (" + show.dateTime + ")";
    var seatsLine := WriteSeatsLine(show);
    assert EntryLines(show.View()) == [movieLine, seatsLine];
    JoinTwoLines(movieLine, seatsLine);
    r := text + (movieLine + "\n" + (seatsLine + "\n"));
  }

  /** The loop that collects each theater name once, in order of first appearance. */
  method CollectTheaters(shows: seq<Shows>) returns (theaters: seq<string>)
    ensures theaters == Theaters(Views(shows))
  {
    ghost var views := Views(shows);
    theaters := [];
    for i := 0 to |shows|
      invariant theaters == Theaters(views[..i])
    {
      assert views[..i + 1][..i] == views[..i];
      if shows[i].theater !in theaters {
        theaters := theaters + [shows[i].theater];
      }
    }
    assert views[..|shows|] == views;
  }

  lemma AppendJoined(text: string, done: seq<string>, more: seq<string>)
    ensures text + JoinLines(done) + JoinLines(more) == text + JoinLines(done + more)
  {
    JoinLinesAppend(done, more);
  }

  lemma TheaterEntriesStep(name: string, views: seq<ShowView>, i: nat)
    requires i < |views|
    ensures TheaterEntries(name, views[..i + 1])
         == TheaterEntries(name, views[..i]) + (if views[i].theater == name then EntryLines(views[i]) else [])
  {
    assert views[..i + 1][..i] == views[..i];
  }

  /** Writes the block of theater `name`: its name line, the entries of its shows, an empty line. */
  method WriteTheater(text: string, name: string, shows: seq<Shows>, ghost views: seq<ShowView>) returns (r: string)
    requires forall k :: 0 <= k < |shows| ==> shows[k].Valid()
    requires views == Views(shows)
    ensures r == text + JoinLines(BlockLines(name, views))
  {
    ghost var lines := [THEATER_PREFIX + name];
    r := text + THEATER_PREFIX + name + "\n";
    assert [THEATER_PREFIX + name][1..] == [];
    for i := 0 to |shows|
      invariant lines == [THEATER_PREFIX + name] + TheaterEntries(name, views[..i])
      invariant r == text + JoinLines(lines)
    {
      TheaterEntriesStep(name, views, i);
      if shows[i].theater == name {
        r := WriteEntry(r, shows[i]);
        AppendJoined(text, lines, EntryLines(views[i]));
        lines := lines + EntryLines(views[i]);
      } else {
        assert TheaterEntries(name, views[..i]) + [] == TheaterEntries(name, views[..i]);
      }
    }
    assert views[..|shows|] == views;
    JoinLinesSnoc(lines, "");
    r := r + "\n";
  }

  /**
   * The body `formatCinemaData` and `formatUpdateData` share: the header
   * lines, one block per theater in order of first appearance listing that
   * theater's shows, and the footer line.
   */
  method FormatData(header: seq<string>, footer: string, shows: seq<Shows>) returns (text: string)
    requires forall k :: 0 <= k < |shows| ==> shows[k].Valid()
    ensures text == JoinLines(DataLines(header, footer, Views(shows)))
  {
    ghost var views := Views(shows);
    var theaters := CollectTheaters(shows);
    var body := "";
    for j := 0 to |theaters|
      invariant body == JoinLines(Blocks(theaters[..j], views))
    {
      BlocksStep(theaters, views, j);
      JoinLinesAppend(Blocks(theaters[..j], views), BlockLines(theaters[j], views));
      body := WriteTheater(body, theaters[j], shows, views);
    }
    assert theaters[..|theaters|] == theaters;
    DataLinesJoined(header, Blocks(theaters, views), footer);
    text := JoinLines(header) + body + footer + "\n";
  }

  lemma BlocksStep(ts: seq<string>, views: seq<ShowView>, j: nat)
    requires j < |ts|
    ensures Blocks(ts[..j + 1], views) == Blocks(ts[..j], views) + BlockLines(ts[j], views)
  {
    assert ts[..j + 1][..j] == ts[..j];
  }

  lemma DataLinesJoined(header: seq<string>, blocks: seq<string>, footer: string)
    ensures JoinLines(header + blocks + [footer]) == JoinLines(header) + JoinLines(blocks) + footer + "\n"
  {
    JoinLinesSnoc(blocks, footer);
    JoinLinesAppend(header, blocks + [footer]);
    assert header + blocks + [footer] == header + (blocks + [footer]);
  }

  /** `formatCinemaData`: the snapshot sent on connection and in every reply. */
  method FormatCinemaData(shows: seq<Shows>) returns (text: string)
    requires forall k :: 0 <= k < |shows| ==> shows[k].Valid()
    ensures text == CinemaDataText(Views(shows))
  {
    text := FormatData(CINEMA_HEADER, END_CINEMA_DATA, shows);
  }

  /** `formatUpdateData`: the snapshot broadcast after a booking. */
  method FormatUpdateData(shows: seq<Shows>) returns (text: string)
    requires forall k :: 0 <= k < |shows| ==> shows[k].Valid()
    ensures text == UpdateDataText(Views(shows))
  {
    text := FormatData(UPDATE_HEADER, END_UPDATED_DATA, shows);
  }
}
