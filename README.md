# Cinema booking service: a Dafny model

This project models the core of a small cinema booking system. A C++ server
keeps, for every show, a vector of 20 seats. Clients connect over WebSocket.
On connection, and in every reply, a client receives a text snapshot of all
shows. It books seats by sending `theater,movie,seat1,seat2,...`. After a
successful booking the server broadcasts an updated snapshot to every
connected client. The client rebuilds its cache of shows from each snapshot.

The model has four parts:

- **Seat inventory.** `Seats` states what listing the free seats and booking
  a group of seats mean. `ServerCinema.Shows` and `ClientCinema.Shows` are
  the classes that hold a seat vector. Their methods are proved against
  those functions.
- **Snapshots and requests.** `CinemaData` gives the snapshot text
  (`formatCinemaData`, `formatUpdateData`) as functions of the shows, which
  are grouped by theater in order of first appearance. `Booking` gives
  `processBooking` and `handleMessage`, branch by branch, as functions. The
  methods `Booking.ProcessBooking` and `Booking.HandleMessage` run the C++
  loops on the show objects and are proved to agree with those functions.
  `Wire` holds the text primitives both sides use: `std::getline`
  splitting, `std::string::find`, `std::stoi`, `operator>>` words and the
  printing of numbers.
- **Sessions and broadcast.** `WebSocketServer.Session` has the outgoing
  FIFO queue and its `writing` flag. Each asynchronous completion
  (`on_accept`, `on_write`, `on_read`) is a method that the transport calls
  while that operation is pending. A session's `Valid()` states that:
  - what was handed to the transport, followed by what is queued, is exactly
    what was submitted, in order;
  - at most one write is in flight;
  - the session sends nothing of its own before its handshake.

  `WebSocketServer.Server` keeps the set of registered sessions. It queues
  one update text on each of them.
- **Client cache.** `WebSocketClient` gives the line-by-line parser of
  `parseAndUpdateShows` as functions on a parse state.
  `WebSocketClient.CinemaClient` runs the same loop on `ClientCinema.Shows`
  objects.

`Sync` joins the two sides. Take shows whose names the line format can
carry, and the text the server writes for them. The client parses it back to
exactly those shows (names, times and seat vectors), grouped by theater.
This holds for:

- the snapshot sent on connection;
- every reply to a request without a line break;
- the broadcast update.

`WebSocketServer.Session.Run` registers the session before its handshake
starts, as `run` does. So a broadcast can reach a session's queue before its
initial snapshot does.

Where the comments in the headers and the code disagree, the model follows
the code:

- `server/lib/cinema.hpp:173` says unknown messages get an error response.
  The code answers them with `"Echo: "`, the message and a snapshot.
- `server/lib/cinema.hpp:142-144` lists the show lookup before the seat
  validation. The code reads every seat token first. A bad token is reported
  even when the show does not exist (`Booking.SeatErrorBeforeLookup`).

The model also follows these edge cases of the client's movie-line parser
(`client/lib/websocket_client.cpp:206-218`), which no comment describes:

- A movie line without `)` still makes a show. Its time runs to the end of
  the line (the `npos` that `find(")")` returns is larger than any start).
- The start of the time is `find("(") + 1`. `DateStart` writes out the
  `size_t` wrap of `npos + 1` to 0, but that case never arises: this code is
  reached only when the line holds `" ("`, so it holds a `(`
  (`WebSocketClient.OpenBeforeDate`).

## Model

| member | source | states |
|---|---|---|
| Wire.SplitCut | server/lib/cinema.cpp:114-116 | an item ends at the first delimiter and the items of the rest follow it |
| Wire.SplitItem | server/lib/cinema.cpp:114-116 | a delimiter-free item followed by the delimiter is the first item, then the items of what follows |
| Wire.SplitLast | server/lib/cinema.cpp:114-116 | non-empty text without the delimiter is one item |
| Wire.SplitTrailing | server/lib/cinema.cpp:114-116 | a trailing delimiter yields no empty item after the last one |
| Wire.SplitLeading | server/lib/cinema.cpp:114-116 | a leading delimiter yields an empty first item |
| Wire.SplitAdjacent | server/lib/cinema.cpp:114-116 | two adjacent delimiters yield an empty item between them |
| Wire.GetLines | client/lib/websocket_client.cpp:193-198 | the `getline` loop collects exactly the items of `Split` |
| Wire.FindFrom | client/lib/websocket_client.cpp:199-224 | `find` returns the first match at or after the start, and `None` (npos) exactly when there is none |
| Wire.FindAt | client/lib/websocket_client.cpp:199 | a match with none before it is what `find` returns |
| Wire.FindAfter | client/lib/websocket_client.cpp:221-223 | prepending text that lacks the pattern's first character shifts `find` by its length |
| Wire.SkipSpace | server/lib/cinema.cpp:128 | the rest is a suffix, starts with a non-space, and everything dropped before it is white space |
| Wire.DigitRun | server/lib/cinema.cpp:128 | the length of the leading run of decimal digits |
| Wire.NatToString | server/lib/cinema.cpp:58 | a number prints as a non-empty run of digits |
| Wire.NatToStringValue | server/lib/cinema.cpp:58 | the printed digits have the printed value |
| Wire.StoiNatToString | client/lib/websocket_client.cpp:241 | `std::stoi` reads back every printed number that fits an `int` |
| Wire.StoiDigitsThen | server/lib/cinema.cpp:128 | `std::stoi` of a number followed by a non-digit is that number, or an error when it exceeds `INT_MAX` |
| Wire.StoiNegative | server/lib/cinema.cpp:128 | a leading `-` negates the value, which must still fit an `int` |
| Wire.StoiSkipsSpace | server/lib/cinema.cpp:128 | `std::stoi` skips leading white space |
| Wire.WriteCommaList | server/lib/cinema.cpp:57-60 | the print loop writes the numbers separated by ", " |
| Wire.WordLen | client/lib/websocket_client.cpp:235 | the length of the leading run of non-space characters |
| Wire.WordsCons | client/lib/websocket_client.cpp:235 | a word followed by white space, or by the end, is the next `>>` token |
| Wire.WordsSpace | client/lib/websocket_client.cpp:235 | `>>` skips leading white space |
| Seats.AllFree | server/lib/cinema.cpp:6-9 | a new show has 20 seats |
| Seats.AvailableOf | server/lib/cinema.cpp:11-20 | the free seat numbers: each is free, every free seat is listed, and they are increasing |
| Seats.AvailableOfStep | server/lib/cinema.cpp:14-18 | scanning one more slot appends its number exactly when the seat is free |
| Seats.CanBookIffListed | server/lib/cinema.hpp:52-66 | a group can be booked exactly when each of its seats is among the listed free seats |
| Seats.AvailableAfterBooking | server/lib/cinema.cpp:22-34 | after a booking the free seats are those that were free and not requested |
| Seats.BookedKeepsBookings | server/lib/cinema.cpp:30-32 | booking never frees a seat |
| Seats.OverlapFails | server/lib/cinema.cpp:25-29 | after a booking, a request that shares a seat with it cannot be booked |
| Seats.EmptyRequest | server/lib/cinema.cpp:22-34 | an empty request succeeds and changes nothing |
| Seats.RepeatedSeat | server/lib/cinema.cpp:22-34 | naming a seat twice neither fails nor changes what is booked |
| Seats.AvailableCount | server/lib/cinema.cpp:62 | the printed total is the number of free seats |
| Seats.FreeAfterBooking | server/lib/cinema.cpp:30-32 | the free set afterwards is the free set less the requested seats |
| Seats.CountAfterBooking | server/lib/cinema.cpp:22-34 | a successful booking lowers the free count by the number of distinct seats requested |
| Seats.AvailablePlusBooked | client/lib/cinema_Client.hpp:34-36 | free seats plus booked seats make up the whole vector |
| Seats.AllFreeAvailable | server/lib/cinema.hpp:48 | a new show lists every seat from 1 to 20 |
| CinemaData.Theaters | server/lib/cinema.cpp:40-45 | each theater once, every show's theater listed, and only those |
| CinemaData.FirstShow | server/lib/cinema.cpp:40-45 | the index of a theater's first show: it is that theater's, no earlier show is, and the length when there is none |
| CinemaData.TheatersInOrder | server/lib/cinema.cpp:40-45 | the theaters are listed in the order of their first show |
| CinemaData.OfTheater | server/lib/cinema.cpp:49-50 | exactly the shows of a theater: each of them is kept, nothing else is, and none is added |
| CinemaData.OfTheaterAppend | server/lib/cinema.cpp:49-50 | the shows of a theater in a concatenation are its shows in the first part followed by its shows in the second, so their original order is kept |
| CinemaData.OfTheaterSnoc | server/lib/cinema.cpp:49-50 | one more show joins its theater's list and no other |
| CinemaData.GroupedSnoc | server/lib/cinema.cpp:47-66 | one more show joins exactly one group, its theater's, when that theater is listed |
| CinemaData.GroupedPermutes | server/lib/cinema.cpp:47-66 | grouping by a set of theaters that covers every show loses or repeats no show |
| CinemaData.GroupByTheaterPermutes | server/lib/cinema.cpp:36-70 | the snapshot lists every show exactly once: its order is a permutation of the shows |
| CinemaData.JoinLinesAppend | server/lib/cinema.cpp:37-69 | writing two runs of lines is writing one after the other |
| CinemaData.SplitJoinLines | client/lib/websocket_client.cpp:193-198 | lines without a line break come back from `getline` exactly as they were written |
| CinemaData.CommaListChars | server/lib/cinema.cpp:57-60 | a printed seat list is made only of digits, commas and spaces |
| CinemaData.SoldOutIffFull | server/lib/cinema.cpp:54-55 | "SOLD OUT" is printed exactly when every seat is booked |
| CinemaData.SeatListChars | server/lib/cinema.cpp:52-62 | a seat list holds no line break and no `(` |
| ServerCinema.Shows.constructor | server/lib/cinema.cpp:6-9 | a new show keeps its three names and has 20 free seats |
| ServerCinema.Shows.GetAvailableSeats | server/lib/cinema.cpp:11-20 | the loop returns exactly the free seat numbers, in increasing order |
| ServerCinema.Shows.BookSeats | server/lib/cinema.cpp:22-34 | succeeds exactly when every seat exists and is free; then marks exactly those, otherwise changes nothing |
| ServerCinema.WriteSeatsLine | server/lib/cinema.cpp:52-62 | writes the seat line of the show |
| ServerCinema.WriteEntry | server/lib/cinema.cpp:51-62 | appends the movie line and the seat line of the show |
| ServerCinema.CollectTheaters | server/lib/cinema.cpp:40-45 | the loop collects exactly `Theaters` of the views: each theater once, in order of first appearance (`CinemaData.TheatersInOrder`) |
| ServerCinema.WriteTheater | server/lib/cinema.cpp:48-65 | appends the theater line, the entries of that theater's shows in order, and an empty line |
| ServerCinema.FormatData | server/lib/cinema.cpp:36-70 | writes the header lines, the block of every theater, then the footer |
| ServerCinema.FormatCinemaData | server/lib/cinema.cpp:36-70 | returns the snapshot text of the shows |
| ServerCinema.FormatUpdateData | server/lib/cinema.cpp:72-107 | returns the update text of the shows: the same blocks between the update header and footer |
| Booking.ReadSeat | server/lib/cinema.cpp:127-136 | one token: accepted exactly when its value is from 1 to 20, otherwise refused as not a number or out of range |
| Booking.ParseSeatsAccepts | server/lib/cinema.cpp:125-137 | the seats are all accepted exactly when every value is from 1 to 20, and then they are those values in request order |
| Booking.ParseSeatsRefuses | server/lib/cinema.cpp:125-137 | a refusal names the first refused token and why; every token before it was accepted |
| Booking.FindShowFrom | server/lib/cinema.cpp:139-140 | the first show with exactly this theater and movie, or none |
| Booking.BroadcastIsSuccess | server/lib/cinema.cpp:118-156 | helper, one step of the definition: on every path `shouldBroadcast` equals `success` |
| Booking.SuccessIff | server/lib/cinema.hpp:141-145 | a request succeeds exactly when it has three items, all seats are from 1 to 20, the show exists and the seats are free |
| Booking.FailureChangesNothing | server/lib/cinema.hpp:134-135 | a failed request changes no show |
| Booking.ShowFailureChangesNothing | server/lib/cinema.cpp:150-156 | a booking refused by the lookup or by `bookSeats` changes no show |
| Booking.OutcomeOfFormatError | server/lib/cinema.cpp:118-120 | helper, one branch of the definition: fewer than three items give the format error and change nothing |
| Booking.OutcomeOfSeatError | server/lib/cinema.cpp:126-137 | helper, one branch of the definition: a refused token gives its error message and changes nothing |
| Booking.OutcomeOfSeats | server/lib/cinema.cpp:139-156 | helper, one branch of the definition: once all seats are read, the lookup and the booking decide the outcome |
| Booking.SuccessBooksFirstMatch | server/lib/cinema.cpp:139-149 | a success books the requested seats in the first matching show, which then lists its old free seats less those; no other show changes |
| Booking.FormatErrorReply | server/lib/cinema.cpp:118-120 | fewer than three items: the format error, an empty line and the snapshot; nothing changes and nothing is broadcast |
| Booking.ShortRequests | server/lib/cinema.cpp:110-120 | "", "theater,movie" and "theater,movie," have fewer than three items |
| Booking.EmptySeatToken | server/lib/cinema.cpp:126-136 | an empty seat item (",,") is refused as not a number |
| Booking.EmptyFirstToken | server/lib/cinema.cpp:134-135 | an empty first seat token stops the loop as not a number |
| Booking.SeatErrorBeforeLookup | server/lib/cinema.cpp:125-140 | a bad seat token is reported whatever the shows are, and changes nothing |
| Booking.BookingExample | server/lib/cinema.cpp:139-149 | "PVR,Inception,3" on one free show of that name succeeds and is broadcast, so the lemmas about successful requests apply to real requests |
| Booking.SuccessBroadcast | server/lib/cinema.cpp:164-167 | a request with a comma other than the data requests is broadcast when its booking succeeds |
| Booking.RepeatFails | server/lib/cinema.cpp:139-152 | repeating a successful request fails, because its seats are now taken |
| Booking.ShowRepeatFails | server/lib/cinema.cpp:139-152 | booking the same non-empty group twice in the same show fails the second time |
| Booking.FindShowAfterBooking | server/lib/cinema.cpp:139-141 | booking changes no name, so the lookup finds the same show afterwards |
| Booking.SuccessChanges | server/lib/cinema.cpp:141-149 | a success always changes the shows |
| Booking.HeadPrefix | server/lib/cinema.cpp:118-156 | the first line starts with "SUCCESS: " exactly on success and with "ERROR: " otherwise |
| Booking.SuccessTextPrefix | server/lib/cinema.cpp:142-147 | the success message starts with "SUCCESS: " |
| Booking.ReplyPrefix | server/lib/cinema.cpp:118-156 | every reply starts with "SUCCESS: " on success and with "ERROR: " on failure |
| Booking.ChangeIffBroadcast | server/lib/cinema.cpp:159-171 | `handleMessage` changes the shows exactly when it asks for a broadcast |
| Booking.BroadcastOnlyOnBooking | server/lib/cinema.hpp:175-178 | only a successful booking request is broadcast |
| Booking.NoCommaNoChange | server/lib/cinema.cpp:162-170 | data requests and text without a comma get the snapshot or the echo, change nothing and are not broadcast |
| Booking.ReadSeatNumbers | server/lib/cinema.cpp:125-137 | the seat loop returns what the seat parse specifies |
| Booking.ParsePrefixError | server/lib/cinema.cpp:131-135 | a token that stops the loop decides the outcome, whatever follows it |
| Booking.FindShowIndex | server/lib/cinema.cpp:139-140 | the lookup loop finds the first matching show |
| Booking.ProcessBooking | server/lib/cinema.cpp:109-157 | the result and the shows afterwards are those of the branch specification |
| Booking.BookTokens | server/lib/cinema.cpp:122-156 | with three items or more: the reply and the shows of the outcome |
| Booking.BookRequested | server/lib/cinema.cpp:139-156 | once the seats are read: the reply and the shows of the lookup and booking outcome |
| Booking.BookFound | server/lib/cinema.cpp:141-152 | the show found books the seats, or reports them taken |
| Booking.BookShow | server/lib/cinema.cpp:141 | only show `i` can change, and it changes exactly as `bookSeats` says |
| Booking.WriteSuccess | server/lib/cinema.cpp:142-147 | writes the success line and the empty line after it |
| Booking.HandleMessage | server/lib/cinema.cpp:159-171 | the reply, the flag and the shows afterwards are those of the dispatch specification |
| WebSocketServer.ProtocolAgrees | server/lib/websocket_server.hpp:55-62 | the server's headers and footers are the lines the writer prints and the client looks for |
| WebSocketServer.Session.constructor | server/lib/websocket_server.cpp:6-7 | a new session is not writing and has an empty queue |
| WebSocketServer.Session.DoWrite | server/lib/websocket_server.cpp:30-45 | an empty queue clears the flag; otherwise exactly the front is written and popped |
| WebSocketServer.Session.SendMessage | server/lib/websocket_server.cpp:22-28 | the message goes to the back of the queue and a write starts only when none is going on. What the transport has been handed only grows, and nothing more is handed to it after a write error (`LogGrows`). |
| WebSocketServer.Session.SendBroadcastMessage | server/lib/websocket_server.cpp:18-20 | a broadcast message is queued like any other. What the transport has been handed only grows, and nothing more is handed to it after a write error (`LogGrows`). |
| WebSocketServer.Session.DoRead | server/lib/websocket_server.cpp:47-53 | one read is started |
| WebSocketServer.Session.Run | server/lib/websocket_server.cpp:9-16 | the session is registered and only then the handshake starts |
| WebSocketServer.Session.OnAccept | server/lib/websocket_server.cpp:55-64 | a handshake error only unregisters the session: its queue, write state and messages stay as they were; on success the snapshot is the session's first own message and reading starts after it. What the transport has been handed only grows, and nothing more is handed to it after a write error (`LogGrows`). |
| WebSocketServer.Session.SendInitialData | server/lib/websocket_server.cpp:62 | queues the snapshot as the session's first own message. What the transport has been handed only grows, and nothing more is handed to it after a write error (`LogGrows`). |
| WebSocketServer.Session.OnWrite | server/lib/websocket_server.cpp:66-76 | a write error unregisters the session; otherwise the next queued message is written |
| WebSocketServer.Session.OnRead | server/lib/websocket_server.cpp:78-107 | a close or an error only unregisters the session: its own queue and write state, every other session's queue, log and write state, and the shows stay as they were. Otherwise exactly one reply is queued, the update goes to every session after a success, the sender's reply precedes its copy, and the next read starts. On every path the log of this session and of every other session it knew only grows, and a failed one grows no more |
| WebSocketServer.Session.Close | server/lib/websocket_server.cpp:81-90 | a closed connection or a read error removes exactly this session from the registry and leaves the shows as they were |
| WebSocketServer.Session.Serve | server/lib/websocket_server.cpp:92-106 | the reply of `handleMessage` is this session's one new own message, the update follows after a success on every registered session, and the next read starts. No log shrinks, and a failed one grows no more |
| WebSocketServer.Session.Respond | server/lib/websocket_server.cpp:97-104 | the answer and the shows are those of `handleMessage`; the reply is the one own message added; after a success the update of the new shows follows the reply on this session and is added to every other registered session. No session's log shrinks, and a failed one grows no more |
| WebSocketServer.Session.PassOn | server/lib/websocket_server.cpp:102-104 | the update of the current shows is added to every registered session, this one included, and the shows stay as they were. No log shrinks, and a failed one grows no more |
| WebSocketServer.Session.Reply | server/lib/websocket_server.cpp:98-100 | the answer and the new shows are those of `handleMessage`, and exactly that reply is queued. What the transport has been handed only grows, and nothing more is handed to it after a write error (`LogGrows`). |
| WebSocketServer.Session.SendReply | server/lib/websocket_server.cpp:100 | the reply is submitted and counted as the session's own. What the transport has been handed only grows, and nothing more is handed to it after a write error (`LogGrows`). |
| WebSocketServer.Server.constructor | server/lib/websocket_server.cpp:109-116 | a new server has no sessions and is not yet accepting |
| WebSocketServer.Server.Run | server/lib/websocket_server.cpp:144-153 | one accept is started |
| WebSocketServer.Server.OnAccept | server/lib/websocket_server.cpp:155-163 | a connection adds one new running session; accepting is re-armed either way |
| WebSocketServer.Server.AddSession | server/lib/websocket_server.cpp:165-168 | set insertion: adding twice registers once |
| WebSocketServer.Server.RemoveSession | server/lib/websocket_server.cpp:170-173 | set erasure: a removed session receives no later broadcast |
| WebSocketServer.Server.BroadcastUpdate | server/lib/websocket_server.cpp:175-182 | the update text of the current shows is queued on every registered session, and the shows stay as they were. On every session the log only grows, and a failed one grows no more |
| WebSocketServer.Server.SendToAll | server/lib/websocket_server.cpp:179-181 | every target receives the same message exactly once and stays valid; each target's log only grows, and a failed one grows no more |
| WebSocketServer.Server.HandleMessage | server/lib/websocket_server.cpp:184-186 | the message callback: `handleMessage` on the server's shows |
| WebSocketServer.Server.GetInitialData | server/lib/websocket_server.cpp:188-190 | the initial data callback: the snapshot of the shows |
| ClientCinema.Shows.constructor | client/lib/cinema_Client.cpp:5-8 | a new show keeps its names and has 20 free seats |
| ClientCinema.Shows.GetAvailableSeats | client/lib/cinema_Client.cpp:10-19 | the loop returns exactly the free seat numbers, in increasing order |
| ClientCinema.Shows.UpdateSeatAvailability | client/lib/cinema_Client.cpp:21-26 | the vector is replaced only by one of the same length, otherwise left as it was; after a replacement the free seats are exactly the false positions of the new vector |
| ClientCinema.AvailableAfterUpdate | client/lib/cinema_Client.hpp:80-89 | after an update by a 20-seat vector the free seats are exactly its false positions; after one by a vector of another length they are the old free seats |
| WebSocketClient.PrefixLengths | client/lib/websocket_client.hpp:36-42 | the lengths skipped are the lengths of the prefixes matched |
| WebSocketClient.DateStart | client/lib/websocket_client.cpp:210 | the start of the time lies within the movie line, with `npos + 1` wrapping around to 0 (a case `MovieFields` never reaches) |
| WebSocketClient.OpenBeforeDate | client/lib/websocket_client.cpp:206-210 | a line that holds `" ("` holds a `(` no later, so the time starts just after the first `(` and the wrap to 0 is never taken |
| WebSocketClient.CloseBeforeOpen | client/lib/websocket_client.cpp:210-212 | a `)` before any `(` makes no show |
| WebSocketClient.MarkSeat | client/lib/websocket_client.cpp:242-243 | marking a seat free keeps the 20 slots |
| WebSocketClient.MarkSeatsFree | client/lib/websocket_client.cpp:228-249 | a seat is free after marking exactly when it was free before or is named |
| WebSocketClient.SeatStatusFree | client/lib/websocket_client.cpp:220-249 | the seats a line marks free are exactly the seats its tokens name |
| WebSocketClient.ParseLineTheater | client/lib/websocket_client.cpp:199-202 | helper, one branch of the definition: a theater line sets the theater and clears the current show |
| WebSocketClient.ParseLineMovie | client/lib/websocket_client.cpp:203-219 | helper, one branch of the definition: a movie line under a theater adds the show its name and time give, with all seats free, or changes nothing when they cannot be read |
| WebSocketClient.ParseLineSeats | client/lib/websocket_client.cpp:220-252 | helper, one branch of the definition: a seat line with a current show replaces that show's seats by the vector the line gives |
| WebSocketClient.ParseLineOther | client/lib/websocket_client.cpp:198-253 | helper, one branch of the definition: any other line changes nothing |
| WebSocketClient.ParseLinesAppend | client/lib/websocket_client.cpp:198-253 | parsing two runs of lines is parsing one, then the other |
| WebSocketClient.ParseLinesShows | client/lib/websocket_client.cpp:198-253 | every parsed show has 20 seats and a non-empty theater |
| WebSocketClient.CinemaClient.constructor | client/lib/websocket_client.cpp:8-10 | a new client has an empty cache and no responses |
| WebSocketClient.CinemaClient.GetShows | client/lib/websocket_client.cpp:256-259 | returns a copy of the cache |
| WebSocketClient.CinemaClient.LastBookingResponse | client/lib/websocket_client.hpp:135-141 | the last booking response is empty or contains "SUCCESS:" or "ERROR:" |
| WebSocketClient.CinemaClient.ParseAndUpdateShows | client/lib/websocket_client.cpp:187-254 | clears the cache and rebuilds it to exactly what the text's lines say |
| WebSocketClient.CinemaClient.ParseOneLine | client/lib/websocket_client.cpp:199-252 | one pass on the cache and the loop variables follows the parse state |
| WebSocketClient.CinemaClient.ParseMovieLine | client/lib/websocket_client.cpp:203-219 | a movie line under a theater follows the parse state |
| WebSocketClient.CinemaClient.ParseSeatsLine | client/lib/websocket_client.cpp:220-252 | a seat line follows the parse state |
| WebSocketClient.CinemaClient.AddShow | client/lib/websocket_client.cpp:206-217 | a readable movie line appends a fresh show with all seats free; otherwise nothing changes |
| WebSocketClient.CinemaClient.UpdateSeats | client/lib/websocket_client.cpp:228-251 | the current show's vector becomes the vector the line gives |
| WebSocketClient.CinemaClient.ReadSeatStatus | client/lib/websocket_client.cpp:228-249 | the token loop computes the vector the line specifies |
| WebSocketClient.CinemaClient.ReadTokenSeat | client/lib/websocket_client.cpp:236-245 | strips one trailing comma, then keeps a `std::stoi` value from 1 to 20 |
| WebSocketClient.CinemaClient.ProcessMessage | client/lib/websocket_client.cpp:143-167 | booking answers become the last booking response; any text with a snapshot header rebuilds the cache; a booking update also becomes the last response |
| WebSocketClient.CinemaClient.Receive | client/lib/websocket_client.cpp:105-118 | the text read is kept as the last response, then processed |
| Sync.FrameLine | client/lib/websocket_client.cpp:198-253 | a header or footer line leaves the parse state as it is |
| Sync.MovieFieldsRoundTrip | client/lib/websocket_client.cpp:206-213 | the name and time the server prints are the ones the client reads |
| Sync.ParseMovie | client/lib/websocket_client.cpp:203-219 | a server movie line adds that show with all seats free |
| Sync.NumberToken | client/lib/websocket_client.cpp:236-245 | a printed seat number, with or without its comma, is read back as that seat |
| Sync.CommaListTokens | client/lib/websocket_client.cpp:235-249 | the tokens of a printed seat list name exactly its seats |
| Sync.SoldOutTokens | client/lib/websocket_client.cpp:235-249 | the words of "SOLD OUT" name no seat |
| Sync.SeatsTextOfLine | client/lib/websocket_client.cpp:221-226 | the client reads exactly the list between the colon and "(Total:" |
| Sync.SeatsLineStatus | client/lib/websocket_client.cpp:220-251 | the vector the client reads from a server seat line is the server's vector |
| Sync.ParseSeatsLine | client/lib/websocket_client.cpp:220-252 | a server seat line sets the seats of the show its movie line started |
| Sync.SeatsLineKind | server/lib/cinema.cpp:52-62 | a seat line is neither a theater nor a movie line and carries the seat marker |
| Sync.ParseEntry | server/lib/cinema.cpp:51-62 | the two lines of a show add that show to the cache |
| Sync.ParseEntries | server/lib/cinema.cpp:49-64 | a theater's entries add its shows in order |
| Sync.ParseBlock | server/lib/cinema.cpp:48-65 | a theater's block adds its shows |
| Sync.ParseBlocks | server/lib/cinema.cpp:47-66 | the blocks add the shows theater by theater |
| Sync.ParsePreamble | client/lib/websocket_client.cpp:198-202 | lines before the first theater line change nothing |
| Sync.ParseDataLines | client/lib/websocket_client.cpp:187-254 | parsing a written snapshot gives the shows grouped by theater |
| Sync.CinemaDataRoundTrip | server/lib/cinema.cpp:36-70 | the client parses the snapshot text back to the shows, grouped by theater |
| Sync.CinemaDataRecognised | client/lib/websocket_client.cpp:169-172 | the client recognises the snapshot text |
| Sync.UpdateDataRoundTrip | server/lib/cinema.cpp:72-107 | the client parses the update text back to the shows, grouped by theater |
| Sync.UpdateDataRecognised | client/lib/websocket_client.cpp:169-172 | the client recognises the update text as a snapshot |
| Sync.UpdateDataIsBookingUpdate | client/lib/websocket_client.cpp:160-161 | the update text carries the booking-update marker |
| Sync.ReplyText | server/lib/cinema.cpp:147-148 | a reply is its first line, an empty line and the snapshot |
| Sync.ReplyRoundTrip | server/lib/cinema.cpp:118-156 | a reply whose first line is a single line and not a theater line parses back to the shows |
| Sync.ReplyRecognised | client/lib/websocket_client.cpp:151-153 | every reply is recognised as a snapshot |
| Sync.SplitLacks | server/lib/cinema.cpp:114-116 | items cut from text lack every character the text lacks |
| Sync.HeadNoNewline | server/lib/cinema.cpp:118-156 | the first line of the reply to a request without a line break holds none |
| Sync.HeadNotTheater | client/lib/websocket_client.cpp:199 | a reply's first line is never a theater line |
| Sync.BookAtWellFormed | server/lib/cinema.cpp:141 | booking keeps the shows in a form the snapshot can carry |
| Sync.OutcomeWellFormed | server/lib/cinema.cpp:109-157 | every request outcome keeps the shows in that form |
| Sync.HandleMessageRoundTrip | server/lib/cinema.cpp:159-171 | every reply is recognised and parses back to the shows after the request |
| Sync.EchoRoundTrip | server/lib/cinema.cpp:168-169 | the echo reply is recognised and parses back to the shows |
| Sync.BroadcastRoundTrip | server/lib/websocket_server.cpp:175-182 | after a successful booking, every client rebuilds its cache from the update to the shows afterwards |

## Left out

- Transport. Socket accept, read and write are abstract; each completion is a method that can be called while its operation is pending. Also abstract:
  - acceptor setup (`server/lib/websocket_server.cpp:109-142`);
  - the client's connect, disconnect and send;
  - buffer contents.
- `do_write` (`server/lib/websocket_server.cpp:37-44`) is defective as written: `net::buffer(message)` refers to a local string that is destroyed when `do_write` returns, before `async_write` has finished with it. The model's `transmitted` log records the strings handed to `async_write`, not the bytes that reach the wire. So the first-in first-out property of `QueueValid` is about what the session submits; it is no guarantee about what a client receives.
- Threads, mutexes and the client's listener thread. Every handler is a sequential step; lock scopes are not modelled.
- The terminal UI, both `main` functions and console output. Error paths that only print are modelled by their effect on the state.
- The three server callbacks are fixed to what `main` passes: `handleMessage`, `formatCinemaData` and `formatUpdateData` on the server's shows.
- The client `Shows::bookSeats` has no definition in the source, so it is not modelled.
- `handleServerMessage` only prints, so it is not modelled.
- `getLastResponse` is the `lastResponse` field and has no separate member.
- `parsedSeats` in `parseAndUpdateShows` is filled but never read, so it is not modelled.
- `formatCinemaData` and `formatUpdateData` are one method, `ServerCinema.FormatData`. They differ only in their header and footer lines, which are its parameters.
- The server's shows are held by reference, in a vector of distinct objects (`ShowsValid`). The C++ vector holds them by value.
- Methods take the views of the shows as ghost parameters so that their contracts can name the state before the call.
- A C++ `std::string` holds bytes; the model's strings are `seq<char>`. Every delimiter, prefix and marker the code looks for is ASCII, so `find`, `substr`, `getline` and `>>` give the same results on UTF-8 text read either way.
- `std::stoi`: white space is the C-locale ASCII set. Overflow is an error, as `std::out_of_range` is.
- `uint8_t` casts of seat numbers are exact, because only values from 1 to 20 are cast.
- The client's `currentShow` is a flag, because it always refers to the last show of the cache.
- Sync.CinemaDataRoundTrip: the round trip lemmas need names the line format can carry (`Sync.WellFormedShow`): a non-empty theater, a non-empty time, and no line breaks, parentheses in the movie name or `)` in the time. For other names the client does something else:
  - shows under an empty theater name are dropped;
  - a `" ("` in a movie name cuts the name there;
  - any other `(` in a movie name moves the start of the time to just after it, so the time comes back garbled;
  - a `)` in a movie name before the date's `(` drops the show (`WebSocketClient.CloseBeforeOpen`);
  - an empty time, as in `"  Movie: X ()"`, drops the show, because the time's start is then not before its end (client/lib/websocket_client.cpp:212);
  - a `)` inside the time cuts the time at that `)`, because the end of the time is the first `)` of the line.
- Sync.HandleMessageRoundTrip: a request that holds a line break is left out. Its reply's first line is then several lines.
