/**
 * The client's side of the protocol: `CinemaClient`, which keeps the last
 * responses and a cache of the shows rebuilt from every snapshot the server
 * sends. The functions state what parsing a snapshot gives, line by line;
 * the methods run the same loops on `ClientCinema.Shows` objects and are
 * proved to agree with them.
 */
module WebSocketClient {
  import opened Wire
  import opened Seats
  import opened CinemaData
  import ClientCinema

  // The client's protocol constants; the prefixes and headers are shared with the server.
  const THEATER_PREFIX_LEN: nat := 9
  const MOVIE_PREFIX_LEN: nat := 9
  const SEATS_MARKER: string := "    Available seats:"
  const TOTAL_MARKER: string := "(Total:"

  /** The lengths the parser skips are the lengths of the prefixes it matched. */
  lemma PrefixLengths()
    ensures |THEATER_PREFIX| == THEATER_PREFIX_LEN && |MOVIE_PREFIX| == MOVIE_PREFIX_LEN
  {
  }

  /** `isCinemaDataStream`: the text carries one of the two snapshot headers. */
  predicate IsCinemaDataStream(response: string)
  {
    Contains(response, CINEMA_DATA_STREAM) || Contains(response, UPDATED_CINEMA_DATA)
  }

  /** The test `processMessage` makes first: the text is an answer to a booking request. */
  predicate IsBookingResponse(response: string)
  {
    Contains(response, "SUCCESS:") || Contains(response, "ERROR:")
  }

  // ---------------------------------------------------------------------
  // Movie lines

  /** `movieLine.find("(") + 1`, where `npos + 1` wraps around to 0. */
  function DateStart(movieLine: string): (k: nat)
    ensures k <= |movieLine|
  {
    match Find(movieLine, "(")
    case None => 0
    case Some(p) => p + 1
  }

  /**
   * The movie name and the time of a movie line, after its prefix: the name
   * is what precedes the first " (", the time what lies between the first
   * "(" and the first ")" (or the end of the line when there is no ")").
   * `None` when the line makes no show.
   */
  function MovieFields(movieLine: string): Option<(string, string)>
  {
    match Find(movieLine, " (")
    case None => None
    case Some(datePos) =>
      var startDate := DateStart(movieLine);
      match Find(movieLine, ")")
      case None => Some((movieLine[..datePos], movieLine[startDate..]))
      case Some(endDate) =>
        if startDate < endDate then Some((movieLine[..datePos], movieLine[startDate..endDate])) else None
  }

  /** A movie line whose first ')' comes before any '(' makes no show. */
  lemma CloseBeforeOpen(movieLine: string, e: nat)
    requires Find(movieLine, ")") == Some(e)
    requires forall i :: 0 <= i < e ==> movieLine[i] != '('
    ensures MovieFields(movieLine) == None
  {
    var l := movieLine;
    match Find(l, " (")
    case None =>
    case Some(d) =>
      assert l[d..d + 2] == " (";
      assert l[d + 1..d + 2] == "(";
      assert MatchAt(l, "(", d + 1);
      var p := Find(l, "(").value;
      assert l[p..p + 1] == "(";
      assert l[e..e + 1] == ")";
      assert e < p;
  }

  /**
   * A line that holds " (" holds a '(' no later than that one, so
   * `MovieFields` never takes the `npos + 1` branch of `DateStart`: the time
   * starts just after the first '(' and no later than just after the " (".
   */
  lemma OpenBeforeDate(movieLine: string, datePos: nat)
    requires Find(movieLine, " (") == Some(datePos)
    ensures Find(movieLine, "(").Some? && Find(movieLine, "(").value <= datePos + 1
    ensures 1 <= DateStart(movieLine) <= datePos + 2
  {
    var l := movieLine;
    assert l[datePos..datePos + 2] == " (";
    assert l[datePos + 1..datePos + 2] == "(";
    assert MatchAt(l, "(", datePos + 1);
  }

  // ---------------------------------------------------------------------
  // Seat lines

  /** The part of a seat line that lists seats: after the first ':' and before "(Total:". */
  function SeatsText(line: string): string
  {
    var afterColon := match Find(line, ":") case None => line case Some(k) => line[k + 1..];
    match Find(afterColon, TOTAL_MARKER)
    case None => afterColon
    case Some(t) => afterColon[..t]
  }

  /** The token with one trailing ',' removed. */
  function StripComma(token: string): string
  {
    if |token| > 0 && token[|token| - 1] == ',' then token[..|token| - 1] else token
  }

  /** The seat a token names, if `std::stoi` reads it as a number from 1 to 20. */
  function TokenSeat(token: string): Option<int>
  {
    match Stoi(StripComma(token))
    case None => None
    case Some(n) => if 1 <= n <= MAX_SEATS then Some(n) else None
  }

  /** `status` with seat `seat` marked free, when there is one. */
  function MarkSeat(status: seq<bool>, seat: Option<int>): (r: seq<bool>)
    requires |status| == MAX_SEATS
    requires seat.Some? ==> 1 <= seat.value <= MAX_SEATS
    ensures |r| == MAX_SEATS
  {
    match seat
    case None => status
    case Some(n) => status[n - 1 := false]
  }

  /** The seat each token names, if any. */
  function TokenSeats(tokens: seq<string>): (r: seq<Option<int>>)
    ensures |r| == |tokens|
    ensures forall k :: 0 <= k < |tokens| ==> r[k] == TokenSeat(tokens[k])
  {
    seq(|tokens|, k requires 0 <= k < |tokens| => TokenSeat(tokens[k]))
  }

  /** Every seat named is a seat of the show. */
  ghost predicate SeatsInRange(seats: seq<Option<int>>)
  {
    forall k :: 0 <= k < |seats| && seats[k].Some? ==> 1 <= seats[k].value <= MAX_SEATS
  }

  /** `status` with every seat of `seats` marked free. */
  function MarkSeats(status: seq<bool>, seats: seq<Option<int>>): (r: seq<bool>)
    requires |status| == MAX_SEATS && SeatsInRange(seats)
    ensures |r| == MAX_SEATS
  {
    if |seats| == 0 then status
    else MarkSeat(MarkSeats(status, seats[..|seats| - 1]), seats[|seats| - 1])
  }

  lemma MarkSeatsStep(status: seq<bool>, seats: seq<Option<int>>, j: nat)
    requires |status| == MAX_SEATS && SeatsInRange(seats) && j < |seats|
    ensures MarkSeats(status, seats[..j + 1]) == MarkSeat(MarkSeats(status, seats[..j]), seats[j])
  {
    assert seats[..j + 1][..j] == seats[..j];
  }

  /** All 20 seats booked: where the seat loop starts. */
  function AllBooked(): (status: seq<bool>)
    ensures |status| == MAX_SEATS
  {
    seq(MAX_SEATS, i => true)
  }

  /** The vector a seat line gives. */
  function SeatStatus(line: string): (status: seq<bool>)
    ensures |status| == MAX_SEATS
  {
    MarkSeats(AllBooked(), TokenSeats(Words(SeatsText(line))))
  }

  /** A seat is free after marking exactly when it was free before or is one of `seats`. */
  lemma {:induction false} MarkSeatsFree(status: seq<bool>, seats: seq<Option<int>>, n: int)
    requires |status| == MAX_SEATS && SeatsInRange(seats) && 1 <= n <= MAX_SEATS
    ensures !MarkSeats(status, seats)[n - 1] <==> !status[n - 1] || Some(n) in seats
  {
    if |seats| > 0 {
      var front := seats[..|seats| - 1];
      MarkSeatsFree(status, front, n);
      assert seats == front + [seats[|seats| - 1]];
    }
  }

  /** The seats a seat line marks free are exactly the seats its tokens name. */
  lemma SeatStatusFree(line: string, n: int)
    requires 1 <= n <= MAX_SEATS
    ensures !SeatStatus(line)[n - 1] <==> Some(n) in TokenSeats(Words(SeatsText(line)))
  {
    MarkSeatsFree(AllBooked(), TokenSeats(Words(SeatsText(line))), n);
  }

  // ---------------------------------------------------------------------
  // The line loop

  /**
   * What the loop of `parseAndUpdateShows` carries from line to line:
   * `currentTheater`, the shows parsed so far, and whether `currentShow`
   * points at a show (it always points at the last one).
   */
  datatype ParseState = ParseState(theater: string, shows: seq<ShowView>, hasCurrent: bool)
  {
    predicate Consistent()
    {
      hasCurrent ==> |shows| > 0
    }
  }

  /** The state before the first line: the cache has just been cleared. */
  const START: ParseState := ParseState("", [], false)

  /** A movie line whose fields could be read starts a show of the current theater, all seats free. */
  function WithMovie(st: ParseState, fields: Option<(string, string)>): (r: ParseState)
    requires st.Consistent()
    ensures r.Consistent()
  {
    match fields
    case None => st
    case Some((movie, dateTime)) =>
      ParseState(st.theater, st.shows + [ShowView(movie, dateTime, st.theater, AllFree())], true)
  }

  /** A seat line replaces the seats of the current show, the last one, when the lengths agree. */
  function WithSeats(st: ParseState, status: seq<bool>): (r: ParseState)
    requires st.Consistent() && st.hasCurrent
    ensures r.Consistent()
  {
    var last := st.shows[|st.shows| - 1];
    var seats := if |status| == |last.seats| then status else last.seats;
    st.(shows := st.shows[|st.shows| - 1 := last.(seats := seats)])
  }

  /** One pass of the loop of `parseAndUpdateShows`. */
  function ParseLine(st: ParseState, line: string): (r: ParseState)
    requires st.Consistent()
    ensures r.Consistent()
  {
    if Find(line, THEATER_PREFIX) == Some(0) then
      ParseState(line[THEATER_PREFIX_LEN..], st.shows, false)
    else if Find(line, MOVIE_PREFIX) == Some(0) && st.theater != "" then
      WithMovie(st, MovieFields(line[MOVIE_PREFIX_LEN..]))
    else if Contains(line, SEATS_MARKER) && st.hasCurrent then
      WithSeats(st, SeatStatus(line))
    else st
  }

  lemma ParseLineTheater(st: ParseState, line: string)
    requires st.Consistent() && Find(line, THEATER_PREFIX) == Some(0)
    ensures ParseLine(st, line) == ParseState(line[THEATER_PREFIX_LEN..], st.shows, false)
  {
  }

  lemma ParseLineMovie(st: ParseState, line: string)
    requires st.Consistent() && Find(line, THEATER_PREFIX) != Some(0)
    requires Find(line, MOVIE_PREFIX) == Some(0) && st.theater != ""
    ensures ParseLine(st, line) == WithMovie(st, MovieFields(line[MOVIE_PREFIX_LEN..]))
  {
  }

  lemma ParseLineSeats(st: ParseState, line: string)
    requires st.Consistent() && Find(line, THEATER_PREFIX) != Some(0)
    requires !(Find(line, MOVIE_PREFIX) == Some(0) && st.theater != "")
    requires Contains(line, SEATS_MARKER) && st.hasCurrent
    ensures ParseLine(st, line) == WithSeats(st, SeatStatus(line))
  {
  }

  lemma ParseLineOther(st: ParseState, line: string)
    requires st.Consistent() && Find(line, THEATER_PREFIX) != Some(0)
    requires !(Find(line, MOVIE_PREFIX) == Some(0) && st.theater != "")
    requires !(Contains(line, SEATS_MARKER) && st.hasCurrent)
    ensures ParseLine(st, line) == st
  {
  }

  /** The loop over `lines`, from state `st`. */
  function ParseLines(st: ParseState, lines: seq<string>): (r: ParseState)
    requires st.Consistent()
    ensures r.Consistent()
  {
    if |lines| == 0 then st else ParseLine(ParseLines(st, lines[..|lines| - 1]), lines[|lines| - 1])
  }

  /** The shows `parseAndUpdateShows(text)` leaves in the cache. */
  function ParseShows(text: string): seq<ShowView>
  {
    ParseLines(START, Split(text, '\n')).shows
  }

  /** Parsing two runs of lines is parsing the first and then the second. */
  lemma {:induction false} ParseLinesAppend(st: ParseState, a: seq<string>, b: seq<string>)
    requires st.Consistent()
    ensures ParseLines(st, a + b) == ParseLines(ParseLines(st, a), b)
  {
    if |b| == 0 {
      assert a + b == a;
    } else {
      assert (a + b)[..|a + b| - 1] == a + b[..|b| - 1];
      ParseLinesAppend(st, a, b[..|b| - 1]);
    }
  }

  /** A parsed show always has 20 seats and a non-empty theater name. */
  ghost predicate ParsedShows(shows: seq<ShowView>)
  {
    forall k :: 0 <= k < |shows| ==> |shows[k].seats| == MAX_SEATS && shows[k].theater != ""
  }

  lemma {:induction false} ParseLinesShows(st: ParseState, lines: seq<string>)
    requires st.Consistent() && ParsedShows(st.shows)
    ensures ParsedShows(ParseLines(st, lines).shows)
  {
    if |lines| > 0 {
      ParseLinesShows(st, lines[..|lines| - 1]);
    }
  }

  // ---------------------------------------------------------------------
  // The client

  class CinemaClient {
    /** `shows_`: the cache of shows. */
    var shows: seq<ClientCinema.Shows>
    /** `lastResponse_`: the last text received. */
    var lastResponse: string
    /** `lastBookingResponse_`: the last answer to a booking request. */
    var lastBookingResponse: string

    ghost predicate Valid()
      reads this, shows
    {
      (forall k :: 0 <= k < |shows| ==> shows[k].Valid()) &&
      (lastBookingResponse == "" || IsBookingResponse(lastBookingResponse))
    }

    /** A new client has an empty cache and no responses. */
    constructor()
      ensures shows == [] && lastResponse == "" && lastBookingResponse == ""
      ensures Valid()
    {
      shows, lastResponse, lastBookingResponse := [], "", "";
    }

    /** `getShows`: a copy of the cache. */
    method GetShows() returns (r: seq<ShowView>)
      ensures r == ClientCinema.Views(shows)
    {
      r := [];
      for i := 0 to |shows|
        invariant r == ClientCinema.Views(shows[..i])
      {
        r := r + [shows[i].View()];
      }
    }

    /** `getLastBookingResponse`. */
    function LastBookingResponse(): (r: string)
      reads this, shows
      requires Valid()
      ensures r == "" || IsBookingResponse(r)
    {
      lastBookingResponse
    }

    /**
     * The loop variables of `parseAndUpdateShows` and the cache stand for the
     * parse state `st`: same theater, same shows, and `currentShow` points at
     * the last show exactly when the state has a current show.
     */
    ghost predicate Tracks(st: ParseState, theater: string, current: ClientCinema.Shows?)
      reads this, shows
    {
      st.Consistent() && st == ParseState(theater, ClientCinema.Views(shows), current != null) &&
      (current != null ==> |shows| > 0 && current == shows[|shows| - 1]) &&
      (forall k :: 0 <= k < |shows| ==> shows[k].Valid()) &&
      (forall j, k :: 0 <= j < k < |shows| ==> shows[j] != shows[k])
    }

    /**
     * `parseAndUpdateShows`: clears the cache and rebuilds it from the lines
     * of `response`; afterwards the cache holds exactly what the text says.
     */
    method ParseAndUpdateShows(response: string)
      requires Valid()
      modifies this`shows
      ensures Valid()
      ensures ClientCinema.Views(shows) == ParseShows(response)
    {
      shows := [];
      var lines := GetLines(response, '\n');
      var currentTheater := "";
      var currentShow: ClientCinema.Shows? := null;
      for i := 0 to |lines|
        invariant Tracks(ParseLines(START, lines[..i]), currentTheater, currentShow)
        invariant forall k :: 0 <= k < |shows| ==> fresh(shows[k])
      {
        assert lines[..i + 1][..i] == lines[..i];
        ghost var st := ParseLines(START, lines[..i]);
        ghost var before := shows;
        currentTheater, currentShow := ParseOneLine(lines[i], st, currentTheater, currentShow);
        assert forall k :: 0 <= k < |shows| ==> shows[k] in before || fresh(shows[k]);
      }
      assert lines[..|lines|] == lines;
    }

    /** One pass of the loop of `parseAndUpdateShows`, on the cache and the two loop variables. */
    method ParseOneLine(line: string, ghost st: ParseState, theater: string, current: ClientCinema.Shows?)
      returns (newTheater: string, newCurrent: ClientCinema.Shows?)
      requires Tracks(st, theater, current)
      modifies this`shows, current
      ensures Tracks(ParseLine(st, line), newTheater, newCurrent)
      ensures forall k :: 0 <= k < |shows| ==> shows[k] in old(shows) || fresh(shows[k])
    {
      if Find(line, THEATER_PREFIX) == Some(0) {
        ParseLineTheater(st, line);
        newTheater, newCurrent := line[THEATER_PREFIX_LEN..], null;
      } else if Find(line, MOVIE_PREFIX) == Some(0) && theater != "" {
        newTheater, newCurrent := ParseMovieLine(line, st, theater, current);
      } else if Contains(line, SEATS_MARKER) && current != null {
        newTheater, newCurrent := ParseSeatsLine(line, st, theater, current);
      } else {
        ParseLineOther(st, line);
        newTheater, newCurrent := theater, current;
      }
    }

    /** A movie line under a theater line. */
    method ParseMovieLine(line: string, ghost st: ParseState, theater: string, current: ClientCinema.Shows?)
      returns (newTheater: string, newCurrent: ClientCinema.Shows?)
      requires Tracks(st, theater, current)
      requires Find(line, THEATER_PREFIX) != Some(0)
      requires Find(line, MOVIE_PREFIX) == Some(0) && theater != ""
      modifies this`shows, current
      ensures Tracks(ParseLine(st, line), newTheater, newCurrent)
      ensures forall k :: 0 <= k < |shows| ==> shows[k] in old(shows) || fresh(shows[k])
    {
      ParseLineMovie(st, line);
      newTheater, newCurrent := theater, current;
      var added := AddShow(line[MOVIE_PREFIX_LEN..], theater);
      if added != null {
        newCurrent := added;
      }
    }

    /** A seat line while a show is current. */
    method ParseSeatsLine(line: string, ghost st: ParseState, theater: string, current: ClientCinema.Shows?)
      returns (newTheater: string, newCurrent: ClientCinema.Shows?)
      requires Tracks(st, theater, current)
      requires Find(line, THEATER_PREFIX) != Some(0)
      requires !(Find(line, MOVIE_PREFIX) == Some(0) && theater != "")
      requires Contains(line, SEATS_MARKER) && current != null
      modifies this`shows, current
      ensures Tracks(ParseLine(st, line), newTheater, newCurrent)
      ensures forall k :: 0 <= k < |shows| ==> shows[k] in old(shows) || fresh(shows[k])
    {
      ParseLineSeats(st, line);
      newTheater, newCurrent := theater, current;
      ghost var before := ClientCinema.Views(shows);
      UpdateSeats(line, current);
      assert ClientCinema.Views(shows) == before[|before| - 1 := current.View()] by {
        forall k | 0 <= k < |shows| ensures ClientCinema.Views(shows)[k] == before[|before| - 1 := current.View()][k] {
          if k != |shows| - 1 {
            assert shows[k] != current;
          }
        }
      }
    }

    /** A movie line whose name and time can be read adds a show of `theater` with all seats free. */
    method AddShow(movieLine: string, theater: string) returns (added: ClientCinema.Shows?)
      modifies this`shows
      ensures MovieFields(movieLine).None? ==> added == null && shows == old(shows)
      ensures MovieFields(movieLine).Some? ==>
        added != null && fresh(added) && added.Valid() && shows == old(shows) + [added] &&
        added.View() == ShowView(MovieFields(movieLine).value.0, MovieFields(movieLine).value.1, theater, AllFree())
    {
      var fields := MovieFields(movieLine);
      added := null;
      if fields.Some? {
        added := new ClientCinema.Shows(fields.value.0, fields.value.1, theater);
        shows := shows + [added];
      }
    }

    /** A seat line replaces the seat vector of the current show. */
    static method UpdateSeats(line: string, current: ClientCinema.Shows)
      requires current.Valid()
      modifies current`seats
      ensures current.Valid()
      ensures current.seats == SeatStatus(line)
    {
      var status := ReadSeatStatus(line);
      current.UpdateSeatAvailability(status);
    }

    /** The seat loop: the line's tokens, one trailing comma stripped, mark the seats they name free. */
    static method ReadSeatStatus(line: string) returns (status: seq<bool>)
      ensures status == SeatStatus(line)
    {
      var seatsLine := SeatsText(line);
      status := AllBooked();
      var tokens := Words(seatsLine);
      ghost var seats := TokenSeats(tokens);
      for j := 0 to |tokens|
        invariant status == MarkSeats(AllBooked(), seats[..j])
      {
        MarkSeatsStep(AllBooked(), seats, j);
        var seatNum := ReadTokenSeat(tokens[j]);
        if seatNum.Some? {
          status := status[seatNum.value - 1 := false];
        }
      }
      assert seats[..|tokens|] == seats;
    }

    /** One token of the seat loop: strip one trailing comma, then `std::stoi`, kept when it is a seat. */
    static method ReadTokenSeat(token: string) returns (seat: Option<int>)
      ensures seat == TokenSeat(token)
    {
      var text := token;
      if |text| > 0 && text[|text| - 1] == ',' {
        text := text[..|text| - 1];
      }
      var seatNum := Stoi(text);
      seat := if seatNum.Some? && 1 <= seatNum.value <= MAX_SEATS then seatNum else None;
    }

    /**
     * `processMessage`: an answer to a booking request is kept as the last
     * booking response; any text with a snapshot header replaces the cache;
     * a booking update is also kept as the last response; anything else is
     * only displayed.
     */
    method ProcessMessage(response: string)
      requires Valid()
      modifies this`shows, this`lastBookingResponse, this`lastResponse
      ensures Valid()
      ensures ClientCinema.Views(shows) == if IsCinemaDataStream(response) then ParseShows(response) else old(ClientCinema.Views(shows))
      ensures lastBookingResponse == if IsBookingResponse(response) then response else old(lastBookingResponse)
      ensures lastResponse ==
        if !IsBookingResponse(response) && IsCinemaDataStream(response) && Contains(response, BOOKING_UPDATE) then response
        else old(lastResponse)
    {
      if Contains(response, "SUCCESS:") || Contains(response, "ERROR:") {
        lastBookingResponse := response;
        if IsCinemaDataStream(response) {
          ParseAndUpdateShows(response);
        }
        return;
      }
      if IsCinemaDataStream(response) {
        ParseAndUpdateShows(response);
        if Contains(response, BOOKING_UPDATE) {
          lastResponse := response;
        }
        return;
      }
    }

    /** One pass of the listener loop: the text read is kept as the last response, then processed. */
    method Receive(response: string)
      requires Valid()
      modifies this`shows, this`lastBookingResponse, this`lastResponse
      ensures Valid()
      ensures lastResponse == response
      ensures ClientCinema.Views(shows) == if IsCinemaDataStream(response) then ParseShows(response) else old(ClientCinema.Views(shows))
      ensures lastBookingResponse == if IsBookingResponse(response) then response else old(lastBookingResponse)
    {
      lastResponse := response;
      ProcessMessage(response);
    }
  }
}
