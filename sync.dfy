/**
 * The server and the client agree: the client's parser, run on a snapshot
 * the server wrote, gives back the server's shows, grouped by theater, with
 * their names, their times and their free seats. The statements need names
 * that the line format can carry (see `WellFormedShow`).
 */
module Sync {
  import opened Wire
  import opened Seats
  import opened CinemaData
  import opened WebSocketClient
  import Booking

  /**
   * A show the snapshot format can carry: 20 seats, a non-empty theater, no
   * line breaks, no parentheses in the movie name, and a non-empty time
   * without ')'.
   */
  predicate WellFormedShow(v: ShowView)
  {
    |v.seats| == MAX_SEATS && v.theater != "" && '\n' !in v.theater &&
    '\n' !in v.movie && '(' !in v.movie && ')' !in v.movie &&
    v.dateTime != "" && '\n' !in v.dateTime && ')' !in v.dateTime
  }

  predicate WellFormed(views: seq<ShowView>)
  {
    forall k :: 0 <= k < |views| ==> WellFormedShow(views[k])
  }

  /** No line holds a line break. */
  ghost predicate NoNewline(lines: seq<string>)
  {
    forall k :: 0 <= k < |lines| ==> '\n' !in lines[k]
  }

  /** No line starts with the theater prefix. */
  ghost predicate NoTheaterLine(lines: seq<string>)
  {
    forall k :: 0 <= k < |lines| ==> Find(lines[k], THEATER_PREFIX) != Some(0)
  }

  // ---------------------------------------------------------------------
  // Text facts

  /** A pattern holding a character the text lacks does not occur in it. */
  lemma AbsentChar(s: string, p: string, j: nat)
    requires j < |p| && p[j] !in s
    ensures Find(s, p) == None
  {
    forall i: nat ensures !MatchAt(s, p, i) {
      if i + |p| <= |s| {
        assert s[i..i + |p|][j] == s[i + j];
      }
    }
    FindNone(s, p);
  }

  /** A line of the header or the footer leaves the parse state as it is. */
  lemma FrameLine(st: ParseState, line: string)
    requires st.Consistent() && |line| > 0 && line[0] == '=' && 'v' !in line
    ensures ParseLine(st, line) == st
  {
    FindNotAtStart(line, THEATER_PREFIX, 0);
    FindNotAtStart(line, MOVIE_PREFIX, 0);
    AbsentChar(line, SEATS_MARKER, 5);
  }

  lemma FooterLines(st: ParseState)
    requires st.Consistent()
    ensures ParseLine(st, END_CINEMA_DATA) == st
    ensures ParseLine(st, END_UPDATED_DATA) == st
  {
    FrameLine(st, END_CINEMA_DATA);
    FrameLine(st, END_UPDATED_DATA);
  }

  // ---------------------------------------------------------------------
  // Movie lines

  /** The first occurrence of a character the text before it lacks. */
  lemma FindChar(u: string, c: char, w: string)
    requires c !in u
    ensures Find(u + [c] + w, [c]) == Some(|u|)
  {
    assert u + [c] + w == u + ([c] + w);
    FindPrefix([c] + w, [c]);
    FindAfter(u, [c] + w, [c]);
  }

  /** The first occurrence of a two-character pattern whose second character the text before it lacks. */
  lemma FindPair(u: string, a: char, b: char, w: string)
    requires a != b && b !in u
    ensures Find(u + [a, b] + w, [a, b]) == Some(|u|)
  {
    var s := u + [a, b] + w;
    forall i: nat | i < |u| ensures !MatchAt(s, [a, b], i) {
      assert s[i..i + 2][1] == s[i + 1];
      assert s[i + 1] == if i + 1 < |u| then u[i + 1] else a;
    }
    assert s[|u|..|u| + 2] == [a, b];
    FindAt(s, [a, b], |u|);
  }

  /** The movie name and time a server movie line carries are the ones the client reads. */
  lemma MovieFieldsRoundTrip(movie: string, dateTime: string)
    requires '(' !in movie && ')' !in movie && dateTime != "" && ')' !in dateTime
    ensures MovieFields(movie + " (" + dateTime + ")") == Some((movie, dateTime))
  {
    var ml := movie + " (" + dateTime + ")";
    var m := |movie|;
    assert ml == movie + [' ', '('] + (dateTime + ")");
    FindPair(movie, ' ', '(', dateTime + ")");
    assert ml == (movie + " ") + ['('] + (dateTime + ")");
    FindChar(movie + " ", '(', dateTime + ")");
    assert DateStart(ml) == m + 2;
    assert ml == (movie + " (" + dateTime) + [')'] + [];
    FindChar(movie + " (" + dateTime, ')', []);
    assert ml[..m] == movie;
    assert ml[m + 2..m + 2 + |dateTime|] == dateTime;
  }

  /** A movie line starts a show of the current theater with all seats free. */
  lemma ParseMovie(st: ParseState, v: ShowView)
    requires st.Consistent() && st.theater == v.theater && WellFormedShow(v)
    ensures ParseLine(st, MovieLine(v)) ==
      ParseState(v.theater, st.shows + [ShowView(v.movie, v.dateTime, v.theater, AllFree())], true)
  {
    var line := MovieLine(v);
    var rest := v.movie + " (" + v.dateTime + ")";
    assert line == MOVIE_PREFIX + rest;
    FindNotAtStart(line, THEATER_PREFIX, 0);
    FindPrefix(line, MOVIE_PREFIX);
    assert line[MOVIE_PREFIX_LEN..] == rest;
    MovieFieldsRoundTrip(v.movie, v.dateTime);
    ParseLineMovie(st, line);
  }

  // ---------------------------------------------------------------------
  // Seat lines

  /** A printed seat number, with or without the comma after it, is read back as that seat. */
  lemma NumberToken(x: nat, comma: bool)
    requires 1 <= x <= MAX_SEATS
    ensures TokenSeat(NatToString(x) + (if comma then "," else "")) == Some(x)
  {
    var s := NatToString(x);
    var w := s + (if comma then "," else "");
    assert StripComma(w) == s by {
      if comma {
        assert w[..|w| - 1] == s;
      } else {
        assert w == s;
        assert IsDigit(s[|s| - 1]);
      }
    }
    StoiNatToString(x);
  }

  lemma TokenSeatsCons(w: string, ws: seq<string>)
    ensures TokenSeats([w] + ws) == [TokenSeat(w)] + TokenSeats(ws)
  {
    var a, b := TokenSeats([w] + ws), [TokenSeat(w)] + TokenSeats(ws);
    forall k | 0 <= k < |a| ensures a[k] == b[k] {
      if k > 0 {
        assert ([w] + ws)[k] == ws[k - 1];
      }
    }
  }

  /** A printed number followed by a space is one token. */
  lemma LastNumberWords(x: nat)
    ensures Words(NatToString(x) + " ") == [NatToString(x)]
  {
    WordsCons(NatToString(x), " ");
    WordsSpace(' ', "");
    assert [' '] + "" == " ";
  }

  /** A printed number with its comma, then the rest of the list. */
  lemma NumberCommaWords(x: nat, rest: string)
    ensures Words(NatToString(x) + ", " + rest + " ") == [NatToString(x) + ","] + Words(rest + " ")
  {
    var s := NatToString(x);
    var w := s + ",";
    forall i | 0 <= i < |w| ensures !IsSpace(w[i]) {
      if i < |s| {
        assert w[i] == s[i];
      }
    }
    var tail := rest + " ";
    assert s + ", " + rest + " " == w + ([' '] + tail);
    WordsCons(w, [' '] + tail);
    WordsSpace(' ', tail);
  }

  /** The tokens of a one-number list. */
  lemma OneNumberTokens(x: nat)
    requires 1 <= x <= MAX_SEATS
    ensures TokenSeats(Words(NatToString(x) + " ")) == [Some(x)]
  {
    var s := NatToString(x);
    LastNumberWords(x);
    NumberToken(x, false);
    assert s + "" == s;
    TokenSeatsCons(s, []);
    assert [s] + [] == [s];
  }

  /** The tokens of a longer list: its first number, then the tokens of the rest. */
  lemma CommaTokensStep(xs: seq<nat>)
    requires |xs| > 1 && 1 <= xs[0] <= MAX_SEATS
    ensures TokenSeats(Words(CommaList(xs) + " ")) == [Some(xs[0])] + TokenSeats(Words(CommaList(xs[1..]) + " "))
  {
    var s := NatToString(xs[0]);
    NumberCommaWords(xs[0], CommaList(xs[1..]));
    TokenSeatsCons(s + ",", Words(CommaList(xs[1..]) + " "));
    NumberToken(xs[0], true);
  }

  /** The tokens of a printed list of seats name exactly the seats of the list. */
  lemma {:induction false} CommaListTokens(xs: seq<nat>)
    requires |xs| > 0 && forall k :: 0 <= k < |xs| ==> 1 <= xs[k] <= MAX_SEATS
    ensures forall n :: Some(n) in TokenSeats(Words(CommaList(xs) + " ")) <==> n in xs
  {
    if |xs| == 1 {
      OneNumberTokens(xs[0]);
      assert xs == [xs[0]];
    } else {
      var rest := xs[1..];
      CommaTokensStep(xs);
      CommaListTokens(rest);
      assert xs == [xs[0]] + rest;
    }
  }

  lemma NoSpace(w: string)
    requires |w| > 0 && forall i :: 0 <= i < |w| ==> 'A' <= w[i] <= 'Z'
    ensures forall i :: 0 <= i < |w| ==> !IsSpace(w[i])
  {
  }

  /** Two words, each followed by a space. */
  lemma TwoWords(a: string, b: string)
    requires |a| > 0 && forall i :: 0 <= i < |a| ==> 'A' <= a[i] <= 'Z'
    requires |b| > 0 && forall i :: 0 <= i < |b| ==> 'A' <= b[i] <= 'Z'
    ensures Words(a + ([' '] + (b + [' ']))) == [a, b]
  {
    NoSpace(a);
    NoSpace(b);
    WordsSpace(' ', []);
    assert [' '] + [] == [' '];
    WordsCons(b, [' ']);
    WordsSpace(' ', b + [' ']);
    WordsCons(a, [' '] + (b + [' ']));
  }

  /** The words of "SOLD OUT" followed by a space. */
  lemma SoldOutWords(a: string, b: string)
    requires a == "SOLD" && b == "OUT"
    ensures Words(SOLD_OUT + " ") == [a, b]
  {
    assert SOLD_OUT + " " == a + ([' '] + (b + [' ']));
    TwoWords(a, b);
  }

  /** A token that starts with a letter and has no trailing comma names no seat. */
  lemma WordToken(w: string)
    requires |w| > 0 && 'A' <= w[0] <= 'Z' && w[|w| - 1] != ','
    ensures TokenSeat(w) == None
  {
    assert StripComma(w) == w;
    StoiNotDigit(w);
  }

  /** Text that starts with a character other than a space, a sign or a digit is not a number. */
  lemma StoiNotDigit(s: string)
    requires |s| > 0 && !IsSpace(s[0]) && !IsDigit(s[0]) && s[0] != '-' && s[0] != '+'
    ensures Stoi(s) == None
  {
    assert SkipSpace(s) == s;
    assert DigitRun(s) == 0;
  }

  /** Neither word of "SOLD OUT" is a number. */
  lemma SoldOutNoSeat(a: string, b: string)
    requires a == "SOLD" && b == "OUT"
    ensures TokenSeats([a, b]) == [None, None]
  {
    WordToken(a);
    WordToken(b);
    TokenSeatsCons(b, []);
    TokenSeatsCons(a, [b]);
  }

  /** The words of "SOLD OUT" name no seat. */
  lemma SoldOutTokens()
    ensures forall n :: Some(n) !in TokenSeats(Words(SOLD_OUT + " "))
  {
    SoldOutWords("SOLD", "OUT");
    SoldOutNoSeat("SOLD", "OUT");
  }

  /** The first ':' of a seat line is the one that ends its marker. */
  lemma ColonOfLine(list: string, count: string)
    ensures Find(SEATS_PREFIX + list + " (Total: " + count + "/20)", ":") == Some(|SEATS_MARKER| - 1)
  {
    var u := "    Available seats";
    var rest := ":" + (" " + list + " (Total: " + count + "/20)");
    assert SEATS_PREFIX + list + " (Total: " + count + "/20)" == u + rest;
    FindPrefix(rest, ":");
    FindAfter(u, rest, ":");
  }

  /** In what follows the colon, "(Total:" comes right after the list. */
  lemma TotalOfLine(list: string, count: string)
    requires '(' !in list
    ensures Find(" " + list + " (Total: " + count + "/20)", TOTAL_MARKER) == Some(|list| + 2)
  {
    var before := " " + list + " ";
    var rest := "(Total: " + count + "/20)";
    assert " " + list + " (Total: " + count + "/20)" == before + rest;
    FindPrefix(rest, TOTAL_MARKER);
    FindAfter(before, rest, TOTAL_MARKER);
  }

  /** What the client reads between the colon and "(Total:" of a server seat line. */
  lemma SeatsTextOfLine(list: string, count: string)
    requires '(' !in list
    ensures SeatsText(SEATS_PREFIX + list + " (Total: " + count + "/20)") == " " + list + " "
  {
    var line := SEATS_PREFIX + list + " (Total: " + count + "/20)";
    var afterColon := " " + list + " (Total: " + count + "/20)";
    ColonOfLine(list, count);
    assert line[|SEATS_MARKER|..] == afterColon;
    TotalOfLine(list, count);
    assert afterColon[..|list| + 2] == " " + list + " ";
  }

  /** The seat vector the client reads from a server seat line is the server's vector. */
  lemma SeatsLineStatus(v: ShowView)
    requires |v.seats| == MAX_SEATS
    ensures SeatStatus(SeatsLine(v)) == v.seats
  {
    var available := AvailableOf(v.seats);
    var line := SeatsLine(v);
    var tokens := TokenSeats(Words(SeatsText(line)));
    SeatListChars(available);
    assert line == SEATS_PREFIX + SeatList(available) + " (Total: " + NatToString(|available|) + "/20)";
    SeatsTextOfLine(SeatList(available), NatToString(|available|));
    WordsSpace(' ', SeatList(available) + " ");
    assert " " + SeatList(available) + " " == [' '] + (SeatList(available) + " ");
    assert forall n :: Some(n) in tokens <==> n in available by {
      if |available| == 0 {
        SoldOutTokens();
      } else {
        CommaListTokens(available);
      }
    }
    forall i | 0 <= i < MAX_SEATS ensures SeatStatus(line)[i] == v.seats[i] {
      SeatStatusFree(line, i + 1);
      assert IsFree(v.seats, i + 1) <==> i + 1 in available;
    }
  }

  /** A seat line sets the seats of the show its movie line started. */
  lemma ParseSeatsLine(st: ParseState, v: ShowView)
    requires st.Consistent() && st.hasCurrent && |st.shows[|st.shows| - 1].seats| == MAX_SEATS
    requires st.theater != "" && |v.seats| == MAX_SEATS
    ensures ParseLine(st, SeatsLine(v)) ==
      st.(shows := st.shows[|st.shows| - 1 := st.shows[|st.shows| - 1].(seats := v.seats)])
  {
    SeatsLineKind(v);
    SeatsLineStatus(v);
    SeatsLineSets(st, SeatsLine(v), v.seats);
  }

  lemma SeatsLineSets(st: ParseState, line: string, seats: seq<bool>)
    requires st.Consistent() && st.hasCurrent && |st.shows[|st.shows| - 1].seats| == MAX_SEATS
    requires st.theater != "" && |seats| == MAX_SEATS
    requires Find(line, THEATER_PREFIX) != Some(0) && Find(line, MOVIE_PREFIX) != Some(0)
    requires Contains(line, SEATS_MARKER) && SeatStatus(line) == seats
    ensures ParseLine(st, line) == st.(shows := st.shows[|st.shows| - 1 := st.shows[|st.shows| - 1].(seats := seats)])
  {
    ParseLineSeats(st, line);
  }

  /** A seat line is neither a theater line nor a movie line, and carries the seat marker. */
  lemma SeatsLineKind(v: ShowView)
    ensures Find(SeatsLine(v), THEATER_PREFIX) != Some(0) && Find(SeatsLine(v), MOVIE_PREFIX) != Some(0)
    ensures Contains(SeatsLine(v), SEATS_MARKER)
  {
    var line := SeatsLine(v);
    var rest := SeatList(AvailableOf(v.seats)) + " (Total: " + NatToString(|AvailableOf(v.seats)|) + "/20)";
    assert line == SEATS_MARKER + (" " + rest);
    FindNotAtStart(line, THEATER_PREFIX, 0);
    FindNotAtStart(line, MOVIE_PREFIX, 2);
    FindPrefix(line, SEATS_MARKER);
  }

  // ---------------------------------------------------------------------
  // Entries, blocks and whole snapshots

  lemma Append3(a: seq<ShowView>, b: seq<ShowView>, c: seq<ShowView>)
    ensures a + b + c == a + (b + c)
  {
  }

  lemma ParseOne(st: ParseState, line: string)
    requires st.Consistent()
    ensures ParseLines(st, [line]) == ParseLine(st, line)
  {
    assert [line][..0] == [];
  }

  /** The two lines of a show add that show to the cache. */
  lemma ParseEntry(st: ParseState, v: ShowView)
    requires st.Consistent() && st.theater == v.theater && WellFormedShow(v)
    ensures ParseLines(st, EntryLines(v)) == ParseState(v.theater, st.shows + [v], true)
  {
    var lines := EntryLines(v);
    assert lines[..1] == [MovieLine(v)];
    ParseOne(st, MovieLine(v));
    ParseMovie(st, v);
    var mid := ParseState(v.theater, st.shows + [ShowView(v.movie, v.dateTime, v.theater, AllFree())], true);
    ParseSeatsLine(mid, v);
  }

  /** The entries of theater `t` add its shows, in order, to the cache. */
  lemma {:induction false} ParseEntries(st: ParseState, t: string, views: seq<ShowView>)
    requires st.Consistent() && st.theater == t && WellFormed(views)
    ensures ParseLines(st, TheaterEntries(t, views)).theater == t
    ensures ParseLines(st, TheaterEntries(t, views)).shows == st.shows + OfTheater(t, views)
  {
    if |views| == 0 {
      assert ParseLines(st, []) == st;
    } else {
      var front := views[..|views| - 1];
      var last := views[|views| - 1];
      assert WellFormed(front) by {
        assert forall k :: 0 <= k < |front| ==> front[k] == views[k];
      }
      ParseEntries(st, t, front);
      var mid := ParseLines(st, TheaterEntries(t, front));
      var more := if last.theater == t then EntryLines(last) else [];
      ParseLinesAppend(st, TheaterEntries(t, front), more);
      if last.theater == t {
        ParseEntry(mid, last);
        Append3(st.shows, OfTheater(t, front), [last]);
      } else {
        assert ParseLines(mid, []) == mid;
        assert OfTheater(t, views) == OfTheater(t, front) + [];
      }
    }
  }

  /** The block of theater `t` adds its shows to the cache. */
  lemma ParseBlock(st: ParseState, t: string, views: seq<ShowView>)
    requires st.Consistent() && t != "" && WellFormed(views)
    ensures ParseLines(st, BlockLines(t, views)).shows == st.shows + OfTheater(t, views)
  {
    var head := THEATER_PREFIX + t;
    var entries := TheaterEntries(t, views);
    FindPrefix(head, THEATER_PREFIX);
    assert head[THEATER_PREFIX_LEN..] == t;
    ParseOne(st, head);
    var st1 := ParseState(t, st.shows, false);
    ParseLinesAppend(st, [head], entries);
    ParseEntries(st1, t, views);
    var st2 := ParseLines(st1, entries);
    ParseLinesAppend(st, [head] + entries, [""]);
    ParseOne(st2, "");
  }

  lemma BlocksStep(st: ParseState, ts: seq<string>, views: seq<ShowView>)
    requires st.Consistent() && |ts| > 0
    ensures ParseLines(st, Blocks(ts, views)) ==
      ParseLines(ParseLines(st, Blocks(ts[..|ts| - 1], views)), BlockLines(ts[|ts| - 1], views))
  {
    ParseLinesAppend(st, Blocks(ts[..|ts| - 1], views), BlockLines(ts[|ts| - 1], views));
  }

  /** The blocks of the theaters `ts` add their shows, theater by theater. */
  lemma {:induction false} ParseBlocks(st: ParseState, ts: seq<string>, views: seq<ShowView>)
    requires st.Consistent() && WellFormed(views)
    requires forall k :: 0 <= k < |ts| ==> ts[k] != ""
    ensures ParseLines(st, Blocks(ts, views)).shows == st.shows + Grouped(ts, views)
  {
    if |ts| == 0 {
      assert ParseLines(st, []) == st;
    } else {
      var fts := ts[..|ts| - 1];
      var t := ts[|ts| - 1];
      assert forall k :: 0 <= k < |fts| ==> fts[k] == ts[k];
      ParseBlocks(st, fts, views);
      var mid := ParseLines(st, Blocks(fts, views));
      BlocksStep(st, ts, views);
      ParseBlock(mid, t, views);
      Append3(st.shows, Grouped(fts, views), OfTheater(t, views));
    }
  }

  /** Lines that never start with the theater prefix leave the state before the first line as it is. */
  lemma {:induction false} ParsePreamble(lines: seq<string>)
    requires NoTheaterLine(lines)
    ensures ParseLines(START, lines) == START
  {
    if |lines| > 0 {
      ParsePreamble(lines[..|lines| - 1]);
      ParseLineOther(START, lines[|lines| - 1]);
    }
  }

  lemma TheatersNonEmpty(views: seq<ShowView>)
    requires WellFormed(views)
    ensures forall k :: 0 <= k < |Theaters(views)| ==> Theaters(views)[k] != ""
  {
  }

  lemma NoNewlineAppend(a: seq<string>, b: seq<string>)
    requires NoNewline(a) && NoNewline(b)
    ensures NoNewline(a + b)
  {
    assert forall k :: |a| <= k < |a + b| ==> (a + b)[k] == b[k - |a|];
  }

  lemma EntryNoNewline(v: ShowView)
    requires WellFormedShow(v)
    ensures NoNewline(EntryLines(v))
  {
    var available := AvailableOf(v.seats);
    SeatListChars(available);
    assert '\n' !in SeatList(available);
    assert '\n' !in NatToString(|available|);
    assert '\n' !in MovieLine(v);
    assert '\n' !in SeatsLine(v);
  }

  lemma {:induction false} EntriesNoNewline(t: string, views: seq<ShowView>)
    requires WellFormed(views)
    ensures NoNewline(TheaterEntries(t, views))
  {
    if |views| > 0 {
      var front := views[..|views| - 1];
      var last := views[|views| - 1];
      assert WellFormed(front) by {
        assert forall k :: 0 <= k < |front| ==> front[k] == views[k];
      }
      EntriesNoNewline(t, front);
      if last.theater == t {
        EntryNoNewline(last);
        NoNewlineAppend(TheaterEntries(t, front), EntryLines(last));
      } else {
        assert TheaterEntries(t, views) == TheaterEntries(t, front);
      }
    }
  }

  lemma {:induction false} BlocksNoNewline(ts: seq<string>, views: seq<ShowView>)
    requires WellFormed(views)
    requires forall k :: 0 <= k < |ts| ==> '\n' !in ts[k]
    ensures NoNewline(Blocks(ts, views))
  {
    if |ts| > 0 {
      var fts := ts[..|ts| - 1];
      var t := ts[|ts| - 1];
      BlocksNoNewline(fts, views);
      EntriesNoNewline(t, views);
      assert '\n' !in THEATER_PREFIX + t;
      NoNewlineAppend([THEATER_PREFIX + t], TheaterEntries(t, views));
      NoNewlineAppend([THEATER_PREFIX + t] + TheaterEntries(t, views), [""]);
      NoNewlineAppend(Blocks(fts, views), BlockLines(t, views));
    }
  }

  /**
   * The general round trip: a snapshot with any header lines that are not
   * theater lines and a footer made of '=' and letters other than 'v'.
   */
  lemma ParseDataLines(header: seq<string>, footer: string, views: seq<ShowView>)
    requires WellFormed(views) && NoNewline(header) && NoTheaterLine(header)
    requires |footer| > 0 && footer[0] == '=' && 'v' !in footer && '\n' !in footer
    ensures ParseShows(JoinLines(DataLines(header, footer, views))) == GroupByTheater(views)
  {
    var ts := Theaters(views);
    var blocks := Blocks(ts, views);
    forall k | 0 <= k < |ts| ensures '\n' !in ts[k] {
      assert ts[k] in ts;
      var j :| 0 <= j < |views| && views[j].theater == ts[k];
      assert WellFormedShow(views[j]);
    }
    BlocksNoNewline(ts, views);
    NoNewlineAppend(header, blocks);
    NoNewlineAppend(header + blocks, [footer]);
    SplitJoinLines(DataLines(header, footer, views));
    ParsePreamble(header);
    ParseLinesAppend(START, header, blocks);
    TheatersNonEmpty(views);
    ParseBlocks(START, ts, views);
    var st := ParseLines(START, header + blocks);
    ParseLinesAppend(START, header + blocks, [footer]);
    ParseOne(st, footer);
    FrameLine(st, footer);
  }

  // ---------------------------------------------------------------------
  // What the client makes of the server's texts

  /** The lines after the header of a snapshot. */
  function Body(footer: string, views: seq<ShowView>): seq<string>
  {
    Blocks(Theaters(views), views) + [footer]
  }

  lemma JoinHeader(header: seq<string>, footer: string, views: seq<ShowView>)
    ensures JoinLines(DataLines(header, footer, views)) == JoinLines(header) + JoinLines(Body(footer, views))
  {
    assert DataLines(header, footer, views) == header + Body(footer, views);
    JoinLinesAppend(header, Body(footer, views));
  }

  /** Text found in `s` is found in `s` with more text before it. */
  lemma ContainsAfter(u: string, s: string, p: string)
    requires Contains(s, p)
    ensures Contains(u + s, p)
  {
    var k := Find(s, p).value;
    assert (u + s)[|u| + k..|u| + k + |p|] == s[k..k + |p|];
    assert MatchAt(u + s, p, |u| + k);
  }

  lemma JoinOne(a: string)
    ensures JoinLines([a]) == a + "\n"
  {
    assert [a][1..] == [];
  }

  /** A text starts with what is put in front of it. */
  lemma FindFront(h: string, rest: string)
    ensures Find(h + rest, h) == Some(0)
  {
    assert (h + rest)[..|h|] == h;
    FindPrefix(h + rest, h);
  }

  /** The text of a snapshot with a header of one line. */
  lemma OneLineHeader(h: string, footer: string, views: seq<ShowView>)
    ensures JoinLines(DataLines([h], footer, views)) == h + ("\n" + JoinLines(Body(footer, views)))
  {
    JoinHeader([h], footer, views);
    JoinOne(h);
  }

  /** The text of a snapshot with a header of two lines. */
  lemma TwoLineHeader(h1: string, h2: string, footer: string, views: seq<ShowView>)
    ensures JoinLines(DataLines([h1, h2], footer, views)) == h1 + ("\n" + (h2 + ("\n" + JoinLines(Body(footer, views)))))
  {
    JoinHeader([h1, h2], footer, views);
    JoinTwoLines(h1, h2);
  }

  /** The header lines of the snapshot `formatCinemaData` writes. */
  lemma CinemaHeader()
    ensures NoNewline(CINEMA_HEADER) && NoTheaterLine(CINEMA_HEADER)
  {
    FindNotAtStart(CINEMA_DATA_STREAM, THEATER_PREFIX, 0);
  }

  /** The footer line of the snapshot `formatCinemaData` writes. */
  lemma CinemaFooter()
    ensures |END_CINEMA_DATA| > 0 && END_CINEMA_DATA[0] == '=' && 'v' !in END_CINEMA_DATA && '\n' !in END_CINEMA_DATA
  {
  }

  /** The header lines of the snapshot `formatUpdateData` writes. */
  lemma UpdateHeader()
    ensures NoNewline(UPDATE_HEADER)
    ensures NoTheaterLine(UPDATE_HEADER)
  {
    assert '\n' !in BOOKING_UPDATE;
    assert '\n' !in UPDATED_CINEMA_DATA;
    FindNotAtStart(BOOKING_UPDATE, THEATER_PREFIX, 0);
    FindNotAtStart(UPDATED_CINEMA_DATA, THEATER_PREFIX, 0);
  }

  /** The footer line of the snapshot `formatUpdateData` writes. */
  lemma UpdateFooter()
    ensures |END_UPDATED_DATA| > 0 && END_UPDATED_DATA[0] == '=' && 'v' !in END_UPDATED_DATA && '\n' !in END_UPDATED_DATA
  {
  }

  /**
   * Parsing the text `formatCinemaData` writes gives back every show with its
   * theater, movie, time and free seats, grouped by theater.
   */
  lemma CinemaDataRoundTrip(views: seq<ShowView>)
    requires WellFormed(views)
    ensures ParseShows(CinemaDataText(views)) == GroupByTheater(views)
  {
    CinemaHeader();
    CinemaFooter();
    ParseDataLines(CINEMA_HEADER, END_CINEMA_DATA, views);
  }

  /** The client takes the text `formatCinemaData` writes for a snapshot. */
  lemma CinemaDataRecognised(views: seq<ShowView>)
    ensures IsCinemaDataStream(CinemaDataText(views))
  {
    OneLineHeader(CINEMA_DATA_STREAM, END_CINEMA_DATA, views);
    FindFront(CINEMA_DATA_STREAM, "\n" + JoinLines(Body(END_CINEMA_DATA, views)));
  }

  /** The same round trip for the text `formatUpdateData` writes. */
  lemma UpdateDataRoundTrip(views: seq<ShowView>)
    requires WellFormed(views)
    ensures ParseShows(UpdateDataText(views)) == GroupByTheater(views)
  {
    UpdateHeader();
    UpdateFooter();
    ParseDataLines(UPDATE_HEADER, END_UPDATED_DATA, views);
  }

  /** The client takes the text `formatUpdateData` writes for a snapshot. */
  lemma UpdateDataRecognised(views: seq<ShowView>)
    ensures IsCinemaDataStream(UpdateDataText(views))
  {
    TwoLineHeader(BOOKING_UPDATE, UPDATED_CINEMA_DATA, END_UPDATED_DATA, views);
    var rest := UPDATED_CINEMA_DATA + ("\n" + JoinLines(Body(END_UPDATED_DATA, views)));
    FindFront(UPDATED_CINEMA_DATA, "\n" + JoinLines(Body(END_UPDATED_DATA, views)));
    ContainsAfter("\n", rest, UPDATED_CINEMA_DATA);
    ContainsAfter(BOOKING_UPDATE, "\n" + rest, UPDATED_CINEMA_DATA);
  }

  /** ... and for a booking update. */
  lemma UpdateDataIsBookingUpdate(views: seq<ShowView>)
    ensures Contains(UpdateDataText(views), BOOKING_UPDATE)
  {
    TwoLineHeader(BOOKING_UPDATE, UPDATED_CINEMA_DATA, END_UPDATED_DATA, views);
    var rest := UPDATED_CINEMA_DATA + ("\n" + JoinLines(Body(END_UPDATED_DATA, views)));
    FindFront(BOOKING_UPDATE, "\n" + rest);
  }

  /** The lines of a reply: its first line, an empty line, then the snapshot. */
  lemma ReplyText(head: string, views: seq<ShowView>)
    ensures JoinLines(DataLines([head, ""] + CINEMA_HEADER, END_CINEMA_DATA, views)) == head + "\n\n" + CinemaDataText(views)
  {
    var header := [head, ""] + CINEMA_HEADER;
    JoinHeader(header, END_CINEMA_DATA, views);
    JoinHeader(CINEMA_HEADER, END_CINEMA_DATA, views);
    JoinLinesAppend([head, ""], CINEMA_HEADER);
    JoinTwoLines(head, "");
  }

  /**
   * A reply is a first line, an empty line and the snapshot: when the first
   * line holds no line break and is not a theater line, parsing the reply
   * gives back the snapshot's shows.
   */
  lemma ReplyRoundTrip(head: string, views: seq<ShowView>)
    requires WellFormed(views) && '\n' !in head && Find(head, THEATER_PREFIX) != Some(0)
    ensures ParseShows(head + "\n\n" + CinemaDataText(views)) == GroupByTheater(views)
  {
    CinemaHeader();
    CinemaFooter();
    var header := [head, ""] + CINEMA_HEADER;
    assert NoTheaterLine(header) by {
      assert header == [head, ""] + [CINEMA_HEADER[0]];
    }
    ParseDataLines(header, END_CINEMA_DATA, views);
    ReplyText(head, views);
  }

  /** The client takes a reply for a snapshot, whatever its first line. */
  lemma ReplyRecognised(head: string, views: seq<ShowView>)
    ensures IsCinemaDataStream(head + "\n\n" + CinemaDataText(views))
  {
    CinemaDataRecognised(views);
    ContainsAfter(head + "\n\n", CinemaDataText(views), CINEMA_DATA_STREAM);
    assert head + "\n\n" + CinemaDataText(views) == (head + "\n\n") + CinemaDataText(views);
  }

  // ---------------------------------------------------------------------
  // From a request to the client's cache

  /** Every item `getline` cuts from a text lacks the characters the text lacks. */
  lemma {:induction false} SplitLacks(s: string, d: char, c: char)
    requires c !in s
    ensures forall k :: 0 <= k < |Split(s, d)| ==> c !in Split(s, d)[k]
    decreases |s|
  {
    if s != [] {
      var k := IndexFrom(s, d, 0);
      if k < |s| {
        var item, tail := s[..k], s[k + 1..];
        assert c !in item && c !in tail by {
          forall i | 0 <= i < |item| ensures item[i] != c {
            assert item[i] == s[i];
          }
          forall i | 0 <= i < |tail| ensures tail[i] != c {
            assert tail[i] == s[k + 1 + i];
          }
        }
        SplitLacks(tail, d, c);
        var rest := Split(tail, d);
        assert Split(s, d) == [item] + rest;
        forall j | 0 < j < |rest| + 1 ensures c !in ([item] + rest)[j] {
          assert ([item] + rest)[j] == rest[j - 1];
        }
      }
    }
  }

  lemma Joined3NoNewline(p: string, q: string, t: string)
    requires '\n' !in p && '\n' !in q && '\n' !in t
    ensures '\n' !in p + q + t
  {
  }

  lemma FormatErrorHead()
    ensures '\n' !in Booking.FORMAT_ERROR
  {
  }

  lemma SeatsTakenHead()
    ensures '\n' !in Booking.SEATS_TAKEN
  {
  }

  /** A refused seat token is one of the tokens. */
  lemma RefusedToken(tokens: seq<string>)
    requires !Booking.ParseSeatTokens(tokens).SeatNumbers?
    ensures Booking.ParseSeatTokens(tokens).token in tokens
  {
    Booking.ParseSeatsRefuses(tokens, Booking.StoiAll(tokens));
  }

  lemma SuccessHeadNoNewline(numbers: seq<Byte>, theater: string, movie: string)
    requires '\n' !in theater && '\n' !in movie
    ensures '\n' !in Booking.SuccessText(numbers, theater, movie)
  {
    CommaListChars(numbers);
    assert '\n' !in CommaList(numbers);
    Joined3NoNewline(Booking.SUCCESS_PREFIX, "Booked seats ", CommaList(numbers));
    Joined3NoNewline(Booking.SUCCESS_PREFIX + "Booked seats " + CommaList(numbers), " for ", movie);
    Joined3NoNewline(Booking.SUCCESS_PREFIX + "Booked seats " + CommaList(numbers) + " for " + movie, " at ", theater);
  }

  lemma NotFoundHeadNoNewline(theater: string, movie: string)
    requires '\n' !in theater && '\n' !in movie
    ensures '\n' !in Booking.NotFoundError(theater, movie)
  {
    Joined3NoNewline(Booking.ERROR_PREFIX, "Show not found - ", movie);
    Joined3NoNewline(Booking.ERROR_PREFIX + "Show not found - " + movie, " at ", theater);
  }

  /** The first line of a reply to a request found: it holds no line break when the names do not. */
  lemma ShowHeadNoNewline(views: seq<ShowView>, theater: string, movie: string, numbers: seq<Byte>)
    requires '\n' !in theater && '\n' !in movie
    ensures '\n' !in Booking.ShowOutcome(views, theater, movie, numbers).head
  {
    SuccessHeadNoNewline(numbers, theater, movie);
    NotFoundHeadNoNewline(theater, movie);
    SeatsTakenHead();
  }

  lemma TokenHeadsNoNewline(t: string)
    requires '\n' !in t
    ensures '\n' !in Booking.NotANumberError(t) && '\n' !in Booking.OutOfRangeError(t)
  {
    Joined3NoNewline(Booking.ERROR_PREFIX, "Invalid seat number format: ", t);
    Joined3NoNewline(Booking.ERROR_PREFIX + "Invalid seat number ", t, ". Must be 1-20.");
  }

  /** The first line of the reply to a request without a line break holds none either. */
  lemma HeadNoNewline(message: string, views: seq<ShowView>)
    requires '\n' !in message
    ensures '\n' !in Booking.BookingOutcome(message, views).head
  {
    var parts := Split(message, ',');
    SplitLacks(message, ',', '\n');
    if |parts| < 3 {
      FormatErrorHead();
    } else {
      var tokens := parts[2..];
      var r := Booking.ParseSeatTokens(tokens);
      if r.SeatNumbers? {
        ShowHeadNoNewline(views, parts[0], parts[1], r.numbers);
      } else {
        RefusedToken(tokens);
        TokenHeadsNoNewline(r.token);
      }
    }
  }

  /** A reply's first line is never a theater line: it starts with "SUCCESS: " or "ERROR: ". */
  lemma HeadNotTheater(message: string, views: seq<ShowView>)
    ensures Find(Booking.BookingOutcome(message, views).head, THEATER_PREFIX) != Some(0)
  {
    Booking.HeadPrefix(message, views);
    var head := Booking.BookingOutcome(message, views).head;
    assert head[0] == head[..7][0];
    FindNotAtStart(head, THEATER_PREFIX, 0);
  }

  /** Booking seats keeps the shows in the form the snapshot can carry. */
  lemma BookAtWellFormed(views: seq<ShowView>, i: nat, numbers: seq<Byte>)
    requires WellFormed(views) && i < |views|
    ensures WellFormed(Booking.BookAt(views, i, numbers))
  {
  }

  lemma OutcomeWellFormed(message: string, views: seq<ShowView>)
    requires WellFormed(views)
    ensures WellFormed(Booking.BookingOutcome(message, views).after)
  {
    var parts := Split(message, ',');
    if |parts| >= 3 && Booking.ParseSeatTokens(parts[2..]).SeatNumbers? {
      var numbers := Booking.ParseSeatTokens(parts[2..]).numbers;
      match Booking.FindShow(views, parts[0], parts[1])
      case None =>
      case Some(i) => BookAtWellFormed(views, i, numbers);
    }
  }

  /**
   * What the client's cache holds after the reply to a request: the shows
   * the server has after handling it, grouped by theater. The reply is
   * always taken for a snapshot.
   */
  lemma HandleMessageRoundTrip(received: string, views: seq<ShowView>)
    requires WellFormed(views) && '\n' !in received
    ensures IsCinemaDataStream(Booking.HandleMessageSpec(received, views).0)
    ensures WellFormed(Booking.HandleMessageSpec(received, views).2)
    ensures ParseShows(Booking.HandleMessageSpec(received, views).0) == GroupByTheater(Booking.HandleMessageSpec(received, views).2)
  {
    if received == "get_data" || received == "refresh" {
      CinemaDataRoundTrip(views);
      CinemaDataRecognised(views);
    } else if Contains(received, ",") {
      var o := Booking.BookingOutcome(received, views);
      HeadNoNewline(received, views);
      HeadNotTheater(received, views);
      OutcomeWellFormed(received, views);
      ReplyRoundTrip(o.head, o.after);
      ReplyRecognised(o.head, o.after);
    } else {
      EchoRoundTrip(received, views);
    }
  }

  /** The reply to text that is neither a data request nor a booking request. */
  lemma EchoRoundTrip(received: string, views: seq<ShowView>)
    requires WellFormed(views) && '\n' !in received
    ensures var reply := "Echo: " + received + "\n\n" + CinemaDataText(views);
      IsCinemaDataStream(reply) && ParseShows(reply) == GroupByTheater(views)
  {
    var head := "Echo: " + received;
    assert head[0] == 'E';
    FindNotAtStart(head, THEATER_PREFIX, 0);
    ReplyRoundTrip(head, views);
    ReplyRecognised(head, views);
  }

  /**
   * What every client's cache holds after the broadcast that follows a
   * successful booking: the shows after the booking, grouped by theater.
   */
  lemma BroadcastRoundTrip(received: string, views: seq<ShowView>)
    requires WellFormed(views) && Booking.HandleMessageSpec(received, views).1
    ensures var after := Booking.HandleMessageSpec(received, views).2;
      IsCinemaDataStream(UpdateDataText(after)) && Contains(UpdateDataText(after), BOOKING_UPDATE) &&
      ParseShows(UpdateDataText(after)) == GroupByTheater(after)
  {
    var after := Booking.HandleMessageSpec(received, views).2;
    OutcomeWellFormed(received, views);
    UpdateDataRoundTrip(after);
    UpdateDataRecognised(after);
    UpdateDataIsBookingUpdate(after);
  }
}
