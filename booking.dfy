/**
 * Booking requests and message dispatch on the server:
 * `BookingService::processBooking` and `MessageHandler::handleMessage`.
 * The functions state what a request does to the list of shows and what
 * text it is answered with; the methods run the same steps on `Shows`
 * objects and are proved to agree with the functions.
 */
module Booking {
  import opened Wire
  import opened Seats
  import opened CinemaData
  import opened ServerCinema

  /** `BookingService::BookingResult`. */
  datatype BookingResult = BookingResult(success: bool, message: string, shouldBroadcast: bool)

  const ERROR_PREFIX: string := "ERROR: "
  const SUCCESS_PREFIX: string := "SUCCESS: "
  const FORMAT_ERROR: string := ERROR_PREFIX + "Invalid booking format." + " Use: theater,movie," + "seat1,seat2,..."
  const SEATS_TAKEN: string := ERROR_PREFIX + "One or more seats" + " are already booked" + " or invalid"

  function NotANumberError(token: string): string
  {
    ERROR_PREFIX + "Invalid seat number format: " + token
  }

  function OutOfRangeError(token: string): string
  {
    ERROR_PREFIX + "Invalid seat number " + token + ". Must be 1-20."
  }

  function NotFoundError(theater: string, movie: string): string
  {
    ERROR_PREFIX + "Show not found - " + movie + " at " + theater
  }

  function SuccessText(numbers: seq<nat>, theater: string, movie: string): string
  {
    SUCCESS_PREFIX + "Booked seats " + CommaList(numbers) + " for " + movie + " at " + theater
  }

  // ---------------------------------------------------------------------
  // Seat tokens

  /** A value `std::stoi` returned that is a seat number, from 1 to 20. */
  predicate InSeatRange(value: Option<int>)
  {
    value.Some? && 0 < value.value <= 20
  }

  /** What `std::stoi` makes of each token. */
  function StoiAll(tokens: seq<string>): (values: seq<Option<int>>)
    ensures |values| == |tokens|
    ensures forall k :: 0 <= k < |tokens| ==> values[k] == Stoi(tokens[k])
  {
    seq(|tokens|, k requires 0 <= k < |tokens| => Stoi(tokens[k]))
  }

  /** Every value is a seat number. */
  predicate AllInSeatRange(values: seq<Option<int>>)
  {
    forall k :: 0 <= k < |values| ==> InSeatRange(values[k])
  }

  /** What reading the seat tokens gives: the seat numbers, or the first token that is refused and why. */
  datatype SeatParse = SeatNumbers(numbers: seq<Byte>) | NotANumber(token: string) | OutOfRange(token: string)

  /** One step of the seat loop: the token `token`, which `std::stoi` read as `value`, after the seats `numbers`. */
  function ReadSeat(numbers: seq<Byte>, token: string, value: Option<int>): (r: SeatParse)
    ensures r.SeatNumbers? <==> InSeatRange(value)
    ensures r.SeatNumbers? ==> r.numbers == numbers + [value.value]
    ensures r.NotANumber? ==> r.token == token && value.None?
    ensures r.OutOfRange? ==> r.token == token && value.Some? && !InSeatRange(value)
  {
    match value
    case None => NotANumber(token)
    case Some(n) => if 0 < n <= 20 then SeatNumbers(numbers + [n]) else OutOfRange(token)
  }

  /**
   * The seat loop over `tokens`, whose values under `std::stoi` are `values`:
   * each must be from 1 to 20, and the first that is not stops the loop.
   */
  function ParseSeats(tokens: seq<string>, values: seq<Option<int>>): SeatParse
    requires |values| == |tokens|
  {
    if |tokens| == 0 then SeatNumbers([])
    else
      match ParseSeats(tokens[..|tokens| - 1], values[..|values| - 1])
      case SeatNumbers(numbers) => ReadSeat(numbers, tokens[|tokens| - 1], values[|values| - 1])
      case failed => failed
  }

  /** The seat loop of `processBooking` over the tokens after the theater and the movie. */
  function ParseSeatTokens(tokens: seq<string>): SeatParse
  {
    ParseSeats(tokens, StoiAll(tokens))
  }

  /** The seat numbers that the values stand for, when all are in range. */
  function SeatValues(values: seq<Option<int>>): (numbers: seq<int>)
    requires AllInSeatRange(values)
    ensures |numbers| == |values|
    ensures forall k :: 0 <= k < |values| ==> values[k] == Some(numbers[k]) && 0 < numbers[k] <= 20
  {
    seq(|values|, k requires 0 <= k < |values| => values[k].value)
  }

  /** The seats are all accepted exactly when each value is from 1 to 20, and then they are those values. */
  lemma {:induction false} ParseSeatsAccepts(tokens: seq<string>, values: seq<Option<int>>)
    requires |values| == |tokens|
    ensures ParseSeats(tokens, values).SeatNumbers? <==> AllInSeatRange(values)
    ensures ParseSeats(tokens, values).SeatNumbers? ==> ParseSeats(tokens, values).numbers == SeatValues(values)
  {
    if |tokens| > 0 {
      var front := values[..|values| - 1];
      ParseSeatsAccepts(tokens[..|tokens| - 1], front);
      assert forall k :: 0 <= k < |front| ==> front[k] == values[k];
      if AllInSeatRange(values) {
        assert SeatValues(values) == SeatValues(front) + [values[|values| - 1].value];
      }
    }
  }

  /** One more token of the seat loop. */
  lemma ParseSeatsStep(tokens: seq<string>, values: seq<Option<int>>, i: nat)
    requires |values| == |tokens| && i < |tokens|
    ensures ParseSeats(tokens[..i + 1], values[..i + 1]) ==
      match ParseSeats(tokens[..i], values[..i])
      case SeatNumbers(numbers) => ReadSeat(numbers, tokens[i], values[i])
      case failed => failed
  {
    assert tokens[..i + 1][..i] == tokens[..i];
    assert values[..i + 1][..i] == values[..i];
  }

  /** A refused request names the first refused token, and why it was refused. */
  lemma {:induction false} ParseSeatsRefuses(tokens: seq<string>, values: seq<Option<int>>)
    requires |values| == |tokens|
    requires !ParseSeats(tokens, values).SeatNumbers?
    ensures var r := ParseSeats(tokens, values);
      exists k :: 0 <= k < |tokens| && tokens[k] == r.token && AllInSeatRange(values[..k]) &&
        (if r.NotANumber? then values[k].None? else values[k].Some? && !InSeatRange(values[k]))
  {
    var ftokens, fvalues := tokens[..|tokens| - 1], values[..|values| - 1];
    ParseSeatsAccepts(ftokens, fvalues);
    if ParseSeats(ftokens, fvalues).SeatNumbers? {
      assert values[..|values| - 1] == fvalues;
    } else {
      ParseSeatsRefuses(ftokens, fvalues);
      var r := ParseSeats(ftokens, fvalues);
      var k :| 0 <= k < |ftokens| && ftokens[k] == r.token && AllInSeatRange(fvalues[..k]) &&
        (if r.NotANumber? then fvalues[k].None? else fvalues[k].Some? && !InSeatRange(fvalues[k]));
      assert fvalues[..k] == values[..k];
    }
  }

  // ---------------------------------------------------------------------
  // Show lookup

  predicate IsShow(v: ShowView, theater: string, movie: string)
  {
    v.theater == theater && v.movie == movie
  }

  /** The first show at or after `from` with exactly this theater and movie. */
  function FindShowFrom(views: seq<ShowView>, theater: string, movie: string, from: nat): (r: Option<nat>)
    requires from <= |views|
    ensures r.Some? ==> from <= r.value < |views| && IsShow(views[r.value], theater, movie)
    ensures r.Some? ==> forall j :: from <= j < r.value ==> !IsShow(views[j], theater, movie)
    ensures r.None? ==> forall j :: from <= j < |views| ==> !IsShow(views[j], theater, movie)
    decreases |views| - from
  {
    if from == |views| then None
    else if IsShow(views[from], theater, movie) then Some(from)
    else FindShowFrom(views, theater, movie, from + 1)
  }

  function FindShow(views: seq<ShowView>, theater: string, movie: string): Option<nat>
  {
    FindShowFrom(views, theater, movie, 0)
  }

  /** `views` with the seats of show `i` booked. */
  function BookAt(views: seq<ShowView>, i: nat, numbers: seq<Byte>): seq<ShowView>
    requires i < |views|
  {
    views[i := views[i].(seats := Booked(views[i].seats, numbers))]
  }

  // ---------------------------------------------------------------------
  // processBooking and handleMessage

  /** What a booking request decides: whether it succeeded, the first line of the reply, and the shows afterwards. */
  datatype Outcome = Outcome(success: bool, head: string, after: seq<ShowView>)

  /** The branches of `processBooking`, in the order it takes them. */
  function BookingOutcome(message: string, views: seq<ShowView>): Outcome
  {
    var parts := Split(message, ',');
    if |parts| < 3 then Outcome(false, FORMAT_ERROR, views)
    else
      var theater := parts[0];
      var movie := parts[1];
      match ParseSeatTokens(parts[2..])
      case NotANumber(t) => Outcome(false, NotANumberError(t), views)
      case OutOfRange(t) => Outcome(false, OutOfRangeError(t), views)
      case SeatNumbers(numbers) => ShowOutcome(views, theater, movie, numbers)
  }

  /** The branches of `processBooking` once the seat numbers are read: the lookup and the booking. */
  function ShowOutcome(views: seq<ShowView>, theater: string, movie: string, numbers: seq<Byte>): Outcome
  {
    match FindShow(views, theater, movie)
    case None => Outcome(false, NotFoundError(theater, movie), views)
    case Some(i) =>
      if CanBook(views[i].seats, numbers) then Outcome(true, SuccessText(numbers, theater, movie), BookAt(views, i, numbers))
      else Outcome(false, SEATS_TAKEN, views)
  }

  /** The reply to an outcome: its first line, an empty line and the snapshot of the shows afterwards. */
  function Reply(o: Outcome): BookingResult
  {
    BookingResult(o.success, o.head + "\n\n" + CinemaDataText(o.after), o.success)
  }

  /**
   * `processBooking(message, shows)`: the result, and the shows afterwards.
   * Every reply is its first line, an empty line and the snapshot of the
   * shows as they are after the request.
   */
  function ProcessBookingSpec(message: string, views: seq<ShowView>): (BookingResult, seq<ShowView>)
  {
    var o := BookingOutcome(message, views);
    (Reply(o), o.after)
  }

  /** `handleMessage(received, shows, shouldBroadcast)`: the reply, the flag, and the shows afterwards. */
  function HandleMessageSpec(received: string, views: seq<ShowView>): (string, bool, seq<ShowView>)
  {
    if received == "get_data" || received == "refresh" then (CinemaDataText(views), false, views)
    else if Contains(received, ",") then
      var (result, after) := ProcessBookingSpec(received, views);
      (result.message, result.shouldBroadcast, after)
    else ("Echo: " + received + "\n\n" + CinemaDataText(views), false, views)
  }

  // ---------------------------------------------------------------------
  // Properties of a booking request

  /** Every path of `processBooking` sets `shouldBroadcast` to `success`. */
  lemma BroadcastIsSuccess(message: string, views: seq<ShowView>)
    ensures ProcessBookingSpec(message, views).0.shouldBroadcast == ProcessBookingSpec(message, views).0.success
  {
  }

  /** A request succeeds exactly when it is well formed, names an existing show and asks only for free seats. */
  lemma SuccessIff(message: string, views: seq<ShowView>)
    ensures ProcessBookingSpec(message, views).0.success <==>
      var parts := Split(message, ',');
      |parts| >= 3 && AllInSeatRange(StoiAll(parts[2..])) && FindShow(views, parts[0], parts[1]).Some? &&
      CanBook(views[FindShow(views, parts[0], parts[1]).value].seats, SeatValues(StoiAll(parts[2..])))
  {
    var parts := Split(message, ',');
    if |parts| >= 3 {
      ParseSeatsAccepts(parts[2..], StoiAll(parts[2..]));
    }
  }

  /** A request that fails changes no show. */
  lemma FailureChangesNothing(message: string, views: seq<ShowView>)
    requires !ProcessBookingSpec(message, views).0.success
    ensures ProcessBookingSpec(message, views).1 == views
  {
    var parts := Split(message, ',');
    if |parts| >= 3 && ParseSeatTokens(parts[2..]).SeatNumbers? {
      OutcomeOfSeats(message, views);
      ShowFailureChangesNothing(views, parts[0], parts[1], ParseSeatTokens(parts[2..]).numbers);
    } else if |parts| >= 3 {
      OutcomeOfSeatError(message, views);
    } else {
      OutcomeOfFormatError(message, views);
    }
  }

  lemma ShowFailureChangesNothing(views: seq<ShowView>, theater: string, movie: string, numbers: seq<Byte>)
    requires !ShowOutcome(views, theater, movie, numbers).success
    ensures ShowOutcome(views, theater, movie, numbers).after == views
  {
  }

  /** The branch a request with fewer than three items takes. */
  lemma OutcomeOfFormatError(message: string, views: seq<ShowView>)
    requires |Split(message, ',')| < 3
    ensures BookingOutcome(message, views) == Outcome(false, FORMAT_ERROR, views)
  {
  }

  /** The branch a request with a refused seat token takes. */
  lemma OutcomeOfSeatError(message: string, views: seq<ShowView>)
    requires var parts := Split(message, ','); |parts| >= 3 && !ParseSeatTokens(parts[2..]).SeatNumbers?
    ensures var r := ParseSeatTokens(Split(message, ',')[2..]);
      BookingOutcome(message, views) ==
        Outcome(false, if r.NotANumber? then NotANumberError(r.token) else OutOfRangeError(r.token), views)
  {
  }

  /** The branch a request whose seats are all read takes: the lookup and the booking. */
  lemma OutcomeOfSeats(message: string, views: seq<ShowView>)
    requires var parts := Split(message, ','); |parts| >= 3 && ParseSeatTokens(parts[2..]).SeatNumbers?
    ensures var parts := Split(message, ',');
      BookingOutcome(message, views) == ShowOutcome(views, parts[0], parts[1], ParseSeatTokens(parts[2..]).numbers)
  {
  }

  /**
   * `after` is `views` with the seats `numbers` booked in the first show with
   * this theater and movie, which lists afterwards the seats it listed before
   * less the requested ones; no other show changes.
   */
  ghost predicate BooksFirstMatch(views: seq<ShowView>, after: seq<ShowView>, theater: string, movie: string, numbers: seq<Byte>)
  {
      exists i :: 0 <= i < |views| && IsShow(views[i], theater, movie) &&
        (forall j :: 0 <= j < i ==> !IsShow(views[j], theater, movie)) &&
        |after| == |views| &&
        after[i] == views[i].(seats := Booked(views[i].seats, numbers)) &&
        (forall j :: 0 <= j < |views| && j != i ==> after[j] == views[j]) &&
        (forall n :: n in AvailableOf(after[i].seats) <==> n in AvailableOf(views[i].seats) && n !in numbers)
  }

  /**
   * A request that succeeds books the requested seats of the first matching
   * show, and nothing else changes.
   */
  lemma SuccessBooksFirstMatch(message: string, views: seq<ShowView>)
    requires ProcessBookingSpec(message, views).0.success
    ensures var parts := Split(message, ',');
      BooksFirstMatch(views, ProcessBookingSpec(message, views).1, parts[0], parts[1], ParseSeatTokens(parts[2..]).numbers)
  {
    var parts := Split(message, ',');
    SuccessfulOutcome(message, views);
    ShowSuccessBooks(views, parts[0], parts[1], ParseSeatTokens(parts[2..]).numbers);
  }

  /** A request that succeeds has three items or more, all its seat tokens are read, and the lookup decides the rest. */
  lemma SuccessfulOutcome(message: string, views: seq<ShowView>)
    requires ProcessBookingSpec(message, views).0.success
    ensures var parts := Split(message, ',');
      |parts| >= 3 && ParseSeatTokens(parts[2..]).SeatNumbers? &&
      BookingOutcome(message, views) == ShowOutcome(views, parts[0], parts[1], ParseSeatTokens(parts[2..]).numbers)
  {
  }

  lemma ShowSuccessBooks(views: seq<ShowView>, theater: string, movie: string, numbers: seq<Byte>)
    requires ShowOutcome(views, theater, movie, numbers).success
    ensures BooksFirstMatch(views, ShowOutcome(views, theater, movie, numbers).after, theater, movie, numbers)
  {
    var i := FindShow(views, theater, movie).value;
    AvailableAfterBooking(views[i].seats, numbers);
  }

  /** Fewer than three items: the format error, with nothing changed and nothing to broadcast. */
  lemma FormatErrorReply(message: string, views: seq<ShowView>)
    requires |Split(message, ',')| < 3
    ensures ProcessBookingSpec(message, views) == (BookingResult(false, FORMAT_ERROR + "\n\n" + CinemaDataText(views), false), views)
  {
  }

  /** An empty request, "theater,movie" and "theater,movie," all have fewer than three items. */
  lemma ShortRequests(theater: string, movie: string)
    requires ',' !in theater && ',' !in movie && movie != []
    ensures |Split([], ',')| < 3
    ensures |Split(theater + [','] + movie, ',')| < 3
    ensures |Split(theater + [','] + movie + [','], ',')| < 3
  {
    PairItems(theater, movie);
    PairTrailingItems(theater, movie);
  }

  lemma PairItems(theater: string, movie: string)
    requires ',' !in theater && ',' !in movie && movie != []
    ensures Split(theater + [','] + movie, ',') == [theater, movie]
  {
    SplitItem(theater, ',', movie);
    SplitLast(movie, ',');
  }

  lemma PairTrailingItems(theater: string, movie: string)
    requires ',' !in theater && ',' !in movie
    ensures Split(theater + [','] + movie + [','], ',') == [theater, movie]
  {
    SplitItem(theater, ',', movie + [',']);
    assert theater + [','] + movie + [','] == theater + [','] + (movie + [',']);
    SplitTrailing(movie, ',');
  }

  /** Two adjacent commas after the movie give an empty seat item, which `std::stoi` refuses. */
  lemma EmptySeatToken(theater: string, movie: string, rest: string, views: seq<ShowView>)
    requires ',' !in theater && ',' !in movie
    ensures var message := theater + [','] + movie + [',', ','] + rest;
      ProcessBookingSpec(message, views) ==
        (BookingResult(false, NotANumberError("") + "\n\n" + CinemaDataText(views), false), views)
  {
    var message := theater + [','] + movie + [',', ','] + rest;
    EmptySeatItems(theater, movie, rest);
    EmptyFirstToken(Split(rest, ','));
    OutcomeOfSeatError(message, views);
  }

  lemma EmptySeatItems(theater: string, movie: string, rest: string)
    requires ',' !in theater && ',' !in movie
    ensures var parts := Split(theater + [','] + movie + [',', ','] + rest, ',');
      |parts| >= 3 && parts[2..] == [[]] + Split(rest, ',')
  {
    var message := theater + [','] + movie + [',', ','] + rest;
    assert message == theater + [','] + (movie + [',', ','] + rest);
    SplitItem(theater, ',', movie + [',', ','] + rest);
    SplitAdjacent(movie, ',', rest);
    ThirdOn(Split(message, ','), theater, Split(movie + [',', ','] + rest, ','), movie, Split(rest, ','));
  }

  lemma ThirdOn(parts: seq<string>, x: string, tail: seq<string>, y: string, ys: seq<string>)
    requires parts == [x] + tail && tail == [y, []] + ys
    ensures |parts| >= 3 && parts[2..] == [[]] + ys
  {
    assert parts == [x, y, []] + ys;
  }

  /** An empty first seat token is refused as not a number. */
  lemma EmptyFirstToken(ts: seq<string>)
    ensures ParseSeatTokens([[]] + ts) == NotANumber([])
  {
    var tokens := [[]] + ts;
    var values := StoiAll(tokens);
    assert tokens[..1] == [[]] && values[..1] == [None];
    ParsePrefixError(tokens, values, 1);
  }

  /** A bad seat token is reported before the show is looked up: the answer does not depend on the shows. */
  lemma SeatErrorBeforeLookup(message: string, views: seq<ShowView>)
    requires var parts := Split(message, ','); |parts| >= 3 && !AllInSeatRange(StoiAll(parts[2..]))
    ensures var parts := Split(message, ',');
      var r := ParseSeatTokens(parts[2..]);
      var text := ProcessBookingSpec(message, views).0.message;
      !r.SeatNumbers? &&
      text == (if r.NotANumber? then NotANumberError(r.token) else OutOfRangeError(r.token)) + "\n\n" + CinemaDataText(views)
    ensures !ProcessBookingSpec(message, views).0.success
    ensures ProcessBookingSpec(message, views).1 == views
  {
    var parts := Split(message, ',');
    ParseSeatsAccepts(parts[2..], StoiAll(parts[2..]));
  }

  /** "PVR,Inception,3" books seat 3 of the one show of that name, and is broadcast. */
  lemma BookingExample()
    ensures var views := [ShowView("Inception", "19:30", "PVR", AllFree())];
      ProcessBookingSpec("PVR,Inception,3", views).0.success &&
      HandleMessageSpec("PVR,Inception,3", views).1
  {
    var views := [ShowView("Inception", "19:30", "PVR", AllFree())];
    var message := "PVR,Inception,3";
    ExampleItems();
    assert Split(message, ',')[2..] == ["3"];
    ExampleSeat();
    OutcomeOfSeats(message, views);
    ExampleShow(views);
    ExampleComma(message);
    SuccessBroadcast(message, views);
  }

  /** A booking request other than the two data requests is broadcast when its outcome is a success. */
  lemma SuccessBroadcast(received: string, views: seq<ShowView>)
    requires Contains(received, ",") && received != "get_data" && received != "refresh"
    requires BookingOutcome(received, views).success
    ensures ProcessBookingSpec(received, views).0.success && HandleMessageSpec(received, views).1
  {
  }

  /** The example request splits into its three items. */
  lemma ExampleItems()
    ensures Split("PVR,Inception,3", ',') == ["PVR", "Inception", "3"]
  {
    var a, b, c := ['P', 'V', 'R'], ['I', 'n', 'c', 'e', 'p', 't', 'i', 'o', 'n'], ['3'];
    assert "PVR,Inception,3" == a + [','] + (b + [','] + c);
    ThreeItems(a, b, c);
  }

  /** The example show is found and seat 3 of it is free. */
  lemma ExampleShow(views: seq<ShowView>)
    requires views == [ShowView("Inception", "19:30", "PVR", AllFree())]
    ensures ShowOutcome(views, "PVR", "Inception", [3]).success
  {
    assert FindShow(views, "PVR", "Inception") == Some(0);
    assert CanBook(views[0].seats, [3]);
  }

  /** The example request holds a comma. */
  lemma ExampleComma(message: string)
    requires message == "PVR,Inception,3"
    ensures Contains(message, ",")
  {
    assert message[3..4] == ",";
    assert MatchAt(message, ",", 3);
  }

  /** The example's seat token reads as seat 3. */
  lemma ExampleSeat()
    ensures ParseSeatTokens(["3"]) == SeatNumbers([3])
  {
    StoiDigitsThen(3, "");
    assert NatToString(3) + "" == "3";
  }

  /** Three comma-free items joined by commas split back into those items. */
  lemma ThreeItems(a: string, b: string, c: string)
    requires ',' !in a && ',' !in b && ',' !in c && c != []
    ensures Split(a + [','] + (b + [','] + c), ',') == [a, b, c]
  {
    SplitItem(a, ',', b + [','] + c);
    SplitItem(b, ',', c);
    SplitLast(c, ',');
  }

  /** Repeating a successful request fails: its seats are now taken. */
  lemma RepeatFails(message: string, views: seq<ShowView>)
    requires ProcessBookingSpec(message, views).0.success
    ensures !ProcessBookingSpec(message, ProcessBookingSpec(message, views).1).0.success
  {
    var parts := Split(message, ',');
    ParseSeatsAccepts(parts[2..], StoiAll(parts[2..]));
    ShowRepeatFails(views, parts[0], parts[1], ParseSeatTokens(parts[2..]).numbers);
  }

  /** Booking the same seats of the same show twice: the second attempt finds the show again and fails. */
  lemma ShowRepeatFails(views: seq<ShowView>, theater: string, movie: string, numbers: seq<Byte>)
    requires |numbers| > 0
    requires ShowOutcome(views, theater, movie, numbers).success
    ensures !ShowOutcome(ShowOutcome(views, theater, movie, numbers).after, theater, movie, numbers).success
  {
    var i := FindShow(views, theater, movie).value;
    var after := BookAt(views, i, numbers);
    FindShowAfterBooking(views, theater, movie, i, numbers);
    OverlapFails(views[i].seats, numbers, numbers, numbers[0]);
  }

  /** Booking seats changes no theater or movie name, so the lookup finds the same show afterwards. */
  lemma FindShowAfterBooking(views: seq<ShowView>, theater: string, movie: string, i: nat, numbers: seq<Byte>)
    requires FindShow(views, theater, movie) == Some(i)
    ensures FindShow(BookAt(views, i, numbers), theater, movie) == Some(i)
  {
    var after := BookAt(views, i, numbers);
    assert forall j :: 0 <= j < |views| ==> IsShow(after[j], theater, movie) == IsShow(views[j], theater, movie);
    var r := FindShow(after, theater, movie);
    assert r.Some? && r.value <= i;
  }

  /** A successful request always changes the shows. */
  lemma SuccessChanges(message: string, views: seq<ShowView>)
    requires ProcessBookingSpec(message, views).0.success
    ensures ProcessBookingSpec(message, views).1 != views
  {
    var parts := Split(message, ',');
    ParseSeatsAccepts(parts[2..], StoiAll(parts[2..]));
    ShowSuccessChanges(views, parts[0], parts[1], ParseSeatTokens(parts[2..]).numbers);
  }

  lemma ShowSuccessChanges(views: seq<ShowView>, theater: string, movie: string, numbers: seq<Byte>)
    requires |numbers| > 0
    requires ShowOutcome(views, theater, movie, numbers).success
    ensures ShowOutcome(views, theater, movie, numbers).after != views
  {
    var i := FindShow(views, theater, movie).value;
    var after := BookAt(views, i, numbers);
    var n := numbers[0];
    assert IsFree(views[i].seats, n);
    assert after[i].seats[n - 1];
  }

  /** Text that starts with `p` still starts with `p` after more text is appended. */
  lemma StartsWith(a: string, b: string, n: nat)
    requires n <= |a|
    ensures (a + b)[..n] == a[..n]
  {
  }

  lemma TextStartsWith(p: string, a: string, b: string, c: string, d: string)
    ensures (p + a + b + c + d)[..|p|] == p
  {
    StartsWith(p + a + b + c, d, |p|);
    StartsWith(p + a + b, c, |p|);
    StartsWith(p + a, b, |p|);
    StartsWith(p, a, |p|);
  }

  /** The first line of the reply says "SUCCESS: " exactly when the booking was made, and "ERROR: " otherwise. */
  lemma HeadPrefix(message: string, views: seq<ShowView>)
    ensures var o := BookingOutcome(message, views);
      (o.success ==> |o.head| >= 9 && o.head[..9] == SUCCESS_PREFIX) &&
      (!o.success ==> |o.head| >= 7 && o.head[..7] == ERROR_PREFIX)
  {
    var parts := Split(message, ',');
    if |parts| < 3 {
      TextStartsWith(ERROR_PREFIX, "Invalid booking format.", " Use: theater,movie,", "seat1,seat2,...", "");
    } else {
      match ParseSeatTokens(parts[2..])
      case NotANumber(t) =>
        TextStartsWith(ERROR_PREFIX, "Invalid seat number format: ", t, "", "");
      case OutOfRange(t) =>
        TextStartsWith(ERROR_PREFIX, "Invalid seat number ", t, ". Must be 1-20.", "");
      case SeatNumbers(numbers) =>
        ShowHeadPrefix(views, parts[0], parts[1], numbers);
    }
  }

  lemma ShowHeadPrefix(views: seq<ShowView>, theater: string, movie: string, numbers: seq<Byte>)
    ensures var o := ShowOutcome(views, theater, movie, numbers);
      (o.success ==> |o.head| >= 9 && o.head[..9] == SUCCESS_PREFIX) &&
      (!o.success ==> |o.head| >= 7 && o.head[..7] == ERROR_PREFIX)
  {
    var o := ShowOutcome(views, theater, movie, numbers);
    if o.success {
      SuccessTextPrefix(numbers, theater, movie);
    } else if FindShow(views, theater, movie).None? {
      TextStartsWith(ERROR_PREFIX, "Show not found - ", movie, " at ", theater);
    } else {
      TextStartsWith(ERROR_PREFIX, "One or more seats", " are already booked", " or invalid", "");
    }
  }

  lemma SuccessTextPrefix(numbers: seq<Byte>, theater: string, movie: string)
    ensures |SuccessText(numbers, theater, movie)| >= 9 && SuccessText(numbers, theater, movie)[..9] == SUCCESS_PREFIX
  {
    TextStartsWith(SUCCESS_PREFIX, "Booked seats " + CommaList(numbers), " for ", movie, " at " + theater);
    assert SuccessText(numbers, theater, movie) == SUCCESS_PREFIX + ("Booked seats " + CommaList(numbers)) + " for " + movie + (" at " + theater);
  }

  /** Every reply to a booking request starts with "SUCCESS: " when the booking was made and with "ERROR: " otherwise. */
  lemma ReplyPrefix(message: string, views: seq<ShowView>)
    ensures var r := ProcessBookingSpec(message, views).0;
      (r.success ==> r.message[..9] == "SUCCESS: ") && (!r.success ==> r.message[..7] == "ERROR: ")
  {
    var o := BookingOutcome(message, views);
    HeadPrefix(message, views);
    StartsWith(o.head, "\n\n" + CinemaDataText(o.after), if o.success then 9 else 7);
    assert o.head + "\n\n" + CinemaDataText(o.after) == o.head + ("\n\n" + CinemaDataText(o.after));
  }

  // ---------------------------------------------------------------------
  // Properties of message dispatch

  /** The shows change exactly when the reply is to be broadcast. */
  lemma ChangeIffBroadcast(received: string, views: seq<ShowView>)
    ensures HandleMessageSpec(received, views).2 != views <==> HandleMessageSpec(received, views).1
  {
    if !(received == "get_data" || received == "refresh") && Contains(received, ",") {
      if ProcessBookingSpec(received, views).0.success {
        SuccessChanges(received, views);
      } else {
        FailureChangesNothing(received, views);
      }
    }
  }

  /** Only a successful booking request is broadcast. */
  lemma BroadcastOnlyOnBooking(received: string, views: seq<ShowView>)
    requires HandleMessageSpec(received, views).1
    ensures Contains(received, ",") && ProcessBookingSpec(received, views).0.success
  {
  }

  /** Data requests and other text without a comma are answered with the snapshot and change nothing. */
  lemma NoCommaNoChange(received: string, views: seq<ShowView>)
    requires !Contains(received, ",") || received == "get_data" || received == "refresh"
    ensures HandleMessageSpec(received, views).2 == views
    ensures !HandleMessageSpec(received, views).1
    ensures var reply := HandleMessageSpec(received, views).0;
      reply == CinemaDataText(views) || reply == "Echo: " + received + "\n\n" + CinemaDataText(views)
  {
  }

  // ---------------------------------------------------------------------
  // The methods

  /** No show object appears twice: the C++ vector holds its shows by value. */
  ghost predicate Distinct(shows: seq<Shows>)
  {
    forall j, k :: 0 <= j < k < |shows| ==> shows[j] != shows[k]
  }

  /** The shows are valid and no two entries of the vector are the same object. */
  ghost predicate ShowsValid(shows: seq<Shows>)
    reads shows
  {
    (forall k :: 0 <= k < |shows| ==> shows[k].Valid()) && Distinct(shows)
  }

  /** The seat loop of `processBooking`: reads each token with `std::stoi` and stops at the first that is not a seat number. */
  method ReadSeatNumbers(tokens: seq<string>) returns (r: SeatParse)
    ensures r == ParseSeatTokens(tokens)
  {
    ghost var values := StoiAll(tokens);
    var seatNumbers: seq<Byte> := [];
    for i := 0 to |tokens|
      invariant ParseSeats(tokens[..i], values[..i]) == SeatNumbers(seatNumbers)
    {
      ParseSeatsStep(tokens, values, i);
      var seatNum := Stoi(tokens[i]);
      assert seatNum == values[i];
      if seatNum.None? {
        ParsePrefixError(tokens, values, i + 1);
        return NotANumber(tokens[i]);
      } else if 0 < seatNum.value <= 20 {
        seatNumbers := seatNumbers + [seatNum.value];
      } else {
        ParsePrefixError(tokens, values, i + 1);
        return OutOfRange(tokens[i]);
      }
    }
    assert tokens[..|tokens|] == tokens;
    assert values[..|tokens|] == values;
    return SeatNumbers(seatNumbers);
  }

  /** A token that stops the seat loop decides its outcome, whatever follows it. */
  lemma {:induction false} ParsePrefixError(tokens: seq<string>, values: seq<Option<int>>, n: nat)
    requires |values| == |tokens| && 0 < n <= |tokens|
    requires !ParseSeats(tokens[..n], values[..n]).SeatNumbers?
    ensures ParseSeats(tokens, values) == ParseSeats(tokens[..n], values[..n])
    decreases |tokens| - n
  {
    if n < |tokens| {
      assert tokens[..n + 1][..n] == tokens[..n];
      assert values[..n + 1][..n] == values[..n];
      ParsePrefixError(tokens, values, n + 1);
    } else {
      assert tokens[..n] == tokens;
      assert values[..n] == values;
    }
  }

  /** The lookup loop of `processBooking`: the first show with this theater and movie. */
  method FindShowIndex(shows: seq<Shows>, theater: string, movie: string) returns (found: Option<nat>)
    ensures found == FindShow(Views(shows), theater, movie)
  {
    ghost var views := Views(shows);
    for i := 0 to |shows|
      invariant forall j :: 0 <= j < i ==> !IsShow(views[j], theater, movie)
    {
      if shows[i].theater == theater && shows[i].movie == movie {
        return Some(i);
      }
    }
    return None;
  }

  method ProcessBooking(message: string, shows: seq<Shows>) returns (result: BookingResult)
    requires ShowsValid(shows)
    modifies shows
    ensures ShowsValid(shows)
    ensures (result, Views(shows)) == ProcessBookingSpec(message, old(Views(shows)))
  {
    ghost var before := Views(shows);
    var parts := GetLines(message, ',');
    if |parts| < 3 {
      var snapshot := FormatCinemaData(shows);
      OutcomeOfFormatError(message, before);
      return BookingResult(false, FORMAT_ERROR + "\n\n" + snapshot, false);
    }
    var theaterName := parts[0];
    var movieName := parts[1];
    result := BookTokens(shows, message, theaterName, movieName, parts[2..]);
  }

  /** The rest of `processBooking` once the request has three items or more: read the seat numbers, then book them. */
  method BookTokens(shows: seq<Shows>, ghost message: string, theaterName: string, movieName: string, tokens: seq<string>)
    returns (result: BookingResult)
    requires ShowsValid(shows)
    requires var parts := Split(message, ',');
      |parts| >= 3 && parts[0] == theaterName && parts[1] == movieName && parts[2..] == tokens
    modifies shows
    ensures ShowsValid(shows)
    ensures var o := BookingOutcome(message, old(Views(shows)));
      result == Reply(o) && Views(shows) == o.after
  {
    ghost var before := Views(shows);
    var seats := ReadSeatNumbers(tokens);
    if seats.NotANumber? || seats.OutOfRange? {
      var snapshot := FormatCinemaData(shows);
      var text := if seats.NotANumber? then NotANumberError(seats.token) else OutOfRangeError(seats.token);
      OutcomeOfSeatError(message, before);
      return BookingResult(false, text + "\n\n" + snapshot, false);
    }
    OutcomeOfSeats(message, before);
    result := BookRequested(shows, theaterName, movieName, seats.numbers);
  }

  /** The rest of `processBooking` once the seat numbers are read: find the show and book the seats. */
  method BookRequested(shows: seq<Shows>, theaterName: string, movieName: string, seatNumbers: seq<Byte>)
    returns (result: BookingResult)
    requires ShowsValid(shows)
    modifies shows
    ensures ShowsValid(shows)
    ensures var o := ShowOutcome(old(Views(shows)), theaterName, movieName, seatNumbers);
      result == Reply(o) && Views(shows) == o.after
  {
    ghost var before := Views(shows);
    var found := FindShowIndex(shows, theaterName, movieName);
    if found.None? {
      var snapshot := FormatCinemaData(shows);
      assert ShowOutcome(before, theaterName, movieName, seatNumbers) == Outcome(false, NotFoundError(theaterName, movieName), before);
      return BookingResult(false, NotFoundError(theaterName, movieName) + "\n\n" + snapshot, false);
    }
    result := BookFound(shows, found.value, theaterName, movieName, seatNumbers);
  }

  /** The show was found at `i`: book the seats there, or report them taken. */
  method BookFound(shows: seq<Shows>, i: nat, theaterName: string, movieName: string, seatNumbers: seq<Byte>)
    returns (result: BookingResult)
    requires ShowsValid(shows) && FindShow(Views(shows), theaterName, movieName) == Some(i)
    modifies shows
    ensures ShowsValid(shows)
    ensures var o := ShowOutcome(old(Views(shows)), theaterName, movieName, seatNumbers);
      result == Reply(o) && Views(shows) == o.after
  {
    ghost var before := Views(shows);
    var ok := BookShow(shows, i, seatNumbers);
    if ok {
      var response := WriteSuccess(seatNumbers, theaterName, movieName);
      var snapshot := FormatCinemaData(shows);
      ghost var head := SuccessText(seatNumbers, theaterName, movieName);
      assert ShowOutcome(before, theaterName, movieName, seatNumbers) == Outcome(true, head, Views(shows));
      assert response + snapshot == head + "\n\n" + CinemaDataText(Views(shows));
      return BookingResult(true, response + snapshot, true);
    } else {
      var snapshot := FormatCinemaData(shows);
      assert ShowOutcome(before, theaterName, movieName, seatNumbers) == Outcome(false, SEATS_TAKEN, before);
      return BookingResult(false, SEATS_TAKEN + "\n\n" + snapshot, false);
    }
  }

  /** `shows[i].bookSeats(seatNumbers)`, seen from the whole vector: only show `i` can change. */
  method BookShow(shows: seq<Shows>, i: nat, seatNumbers: seq<Byte>) returns (ok: bool)
    requires ShowsValid(shows) && i < |shows|
    modifies shows[i]
    ensures ShowsValid(shows)
    ensures ok == CanBook(old(Views(shows))[i].seats, seatNumbers)
    ensures Views(shows) == if ok then BookAt(old(Views(shows)), i, seatNumbers) else old(Views(shows))
  {
    ghost var before := Views(shows);
    ok := shows[i].BookSeats(seatNumbers);
    assert forall k :: 0 <= k < |shows| && k != i ==> shows[k] != shows[i];
    assert Views(shows) == if ok then BookAt(before, i, seatNumbers) else before by {
      forall k | 0 <= k < |shows| ensures Views(shows)[k] == (if ok then BookAt(before, i, seatNumbers) else before)[k] {
        if k != i {
          assert shows[k] != shows[i];
        }
      }
    }
  }

  /** The first line of a success reply and the empty line after it. */
  method WriteSuccess(seatNumbers: seq<Byte>, theaterName: string, movieName: string) returns (response: string)
    ensures response == SuccessText(seatNumbers, theaterName, movieName) + "\n\n"
  {
    response := SUCCESS_PREFIX + "Booked seats ";
    response := WriteCommaList(response, seatNumbers);
    response := response + (" for " + movieName + " at " + theaterName + "\n\n");
  }

  method HandleMessage(received: string, shows: seq<Shows>) returns (response: string, shouldBroadcast: bool)
    requires ShowsValid(shows)
    modifies shows
    ensures ShowsValid(shows)
    ensures (response, shouldBroadcast, Views(shows)) == HandleMessageSpec(received, old(Views(shows)))
  {
    shouldBroadcast := false;
    if received == "get_data" || received == "refresh" {
      response := FormatCinemaData(shows);
    } else if Contains(received, ",") {
      var result := ProcessBooking(received, shows);
      shouldBroadcast := result.shouldBroadcast;
      response := result.message;
    } else {
      var snapshot := FormatCinemaData(shows);
      response := "Echo: " + received + "\n\n" + snapshot;
    }
  }
}
