/**
 * The cinema snapshot: the text the server sends after every request and
 * broadcasts after every booking, and which the client parses back into its
 * list of shows. The text is specified as a sequence of lines joined with
 * '\n'.
 */
module CinemaData {
  import opened Wire
  import opened Seats

  /** What one show looks like from outside: its three names and its seat vector. */
  datatype ShowView = ShowView(movie: string, dateTime: string, theater: string, seats: seq<bool>)

  // Line shapes and markers of the snapshot protocol.
  const THEATER_PREFIX: string := "Theater: "
  const MOVIE_PREFIX: string := "  Movie: "
  const SEATS_PREFIX: string := "    Available seats: "
  const SOLD_OUT: string := "SOLD OUT"
  const CINEMA_DATA_STREAM: string := "=== CINEMA DATA STREAM ==="
  const END_CINEMA_DATA: string := "=== END CINEMA DATA ==="
  const BOOKING_UPDATE: string := "BOOKING_UPDATE:"
  const UPDATED_CINEMA_DATA: string := "=== UPDATED CINEMA DATA ==="
  const END_UPDATED_DATA: string := "=== END UPDATED DATA ==="

  // ---------------------------------------------------------------------
  // Theaters in order of first appearance

  /** The theater names of `views`, each once, in the order they first appear. */
  function Theaters(views: seq<ShowView>): (ts: seq<string>)
    ensures forall i, j :: 0 <= i < j < |ts| ==> ts[i] != ts[j]
    ensures forall k :: 0 <= k < |views| ==> views[k].theater in ts
    ensures forall t :: t in ts ==> exists k :: 0 <= k < |views| && views[k].theater == t
  {
    if |views| == 0 then []
    else
      var front := views[..|views| - 1];
      var last := views[|views| - 1];
      var p := Theaters(front);
      assert forall k :: 0 <= k < |front| ==> front[k] == views[k];
      if last.theater in p then p else p + [last.theater]
  }

  /** The index of the first show of theater `t`, or `|views|` when it has none. */
  function FirstShow(views: seq<ShowView>, t: string): (r: nat)
    ensures r <= |views|
    ensures r < |views| ==> views[r].theater == t
    ensures forall m :: 0 <= m < r ==> views[m].theater != t
  {
    if |views| == 0 then 0
    else
      var front := views[..|views| - 1];
      var f := FirstShow(front, t);
      assert forall m :: 0 <= m < |front| ==> front[m] == views[m];
      if f < |front| then f else if views[|views| - 1].theater == t then |front| else |views|
  }

  /** `Theaters` lists each theater before every theater whose first show comes later. */
  lemma {:induction false} TheatersInOrder(views: seq<ShowView>)
    ensures forall i, j :: 0 <= i < j < |Theaters(views)| ==>
      FirstShow(views, Theaters(views)[i]) < FirstShow(views, Theaters(views)[j])
  {
    if |views| > 0 {
      var front := views[..|views| - 1];
      var p := Theaters(front);
      TheatersInOrder(front);
      assert forall i, j :: 0 <= i < j < |p| ==> FirstShow(front, p[i]) < FirstShow(front, p[j]);
      TheatersHaveShows(front);
      var last := views[|views| - 1];
      assert Theaters(views) == if last.theater in p then p else p + [last.theater];
      TheatersOrderStep(views, front, p, Theaters(views));
    }
  }

  /** One step of `Theaters`: appending a show keeps the theaters in order of their first show. */
  lemma TheatersOrderStep(views: seq<ShowView>, front: seq<ShowView>, p: seq<string>, ts: seq<string>)
    requires |views| > 0 && front == views[..|views| - 1]
    requires ts == if views[|views| - 1].theater in p then p else p + [views[|views| - 1].theater]
    requires forall k :: 0 <= k < |front| ==> front[k].theater in p
    requires forall i :: 0 <= i < |p| ==> FirstShow(front, p[i]) < |front|
    requires forall i, j :: 0 <= i < j < |p| ==> FirstShow(front, p[i]) < FirstShow(front, p[j])
    ensures forall i, j :: 0 <= i < j < |ts| ==> FirstShow(views, ts[i]) < FirstShow(views, ts[j])
  {
    if views[|views| - 1].theater in p {
      OrderKept(views, front, p);
    } else {
      OrderWithNew(views, front, p);
    }
  }

  /** Appending a show of a listed theater leaves the first shows, and so their order, as they were. */
  lemma OrderKept(views: seq<ShowView>, front: seq<ShowView>, p: seq<string>)
    requires |views| > 0 && front == views[..|views| - 1]
    requires forall i :: 0 <= i < |p| ==> FirstShow(front, p[i]) < |front|
    requires forall i, j :: 0 <= i < j < |p| ==> FirstShow(front, p[i]) < FirstShow(front, p[j])
    ensures forall i, j :: 0 <= i < j < |p| ==> FirstShow(views, p[i]) < FirstShow(views, p[j])
  {
    forall i, j | 0 <= i < j < |p| ensures FirstShow(views, p[i]) < FirstShow(views, p[j]) {
      FirstShowKept(views, front, p[i]);
      FirstShowKept(views, front, p[j]);
    }
  }

  /** Appending a show of a new theater lists it last, after every older theater's first show. */
  lemma OrderWithNew(views: seq<ShowView>, front: seq<ShowView>, p: seq<string>)
    requires |views| > 0 && front == views[..|views| - 1]
    requires forall k :: 0 <= k < |front| ==> front[k].theater in p
    requires views[|views| - 1].theater !in p
    requires forall i :: 0 <= i < |p| ==> FirstShow(front, p[i]) < |front|
    requires forall i, j :: 0 <= i < j < |p| ==> FirstShow(front, p[i]) < FirstShow(front, p[j])
    ensures var ts := p + [views[|views| - 1].theater];
      forall i, j :: 0 <= i < j < |ts| ==> FirstShow(views, ts[i]) < FirstShow(views, ts[j])
  {
    var ts := p + [views[|views| - 1].theater];
    FirstShowNew(views, front, p);
    forall i, j | 0 <= i < j < |ts| ensures FirstShow(views, ts[i]) < FirstShow(views, ts[j]) {
      assert ts[i] == p[i];
      FirstShowKept(views, front, p[i]);
      if j < |p| {
        assert ts[j] == p[j];
        FirstShowKept(views, front, p[j]);
      }
    }
  }

  /** A theater with a show among the older shows keeps its first show when one more is appended. */
  lemma FirstShowKept(views: seq<ShowView>, front: seq<ShowView>, t: string)
    requires |views| > 0 && front == views[..|views| - 1]
    requires FirstShow(front, t) < |front|
    ensures FirstShow(views, t) == FirstShow(front, t)
  {
  }

  /** Every listed theater has a first show. */
  lemma TheatersHaveShows(views: seq<ShowView>)
    ensures forall i :: 0 <= i < |Theaters(views)| ==> FirstShow(views, Theaters(views)[i]) < |views|
  {
    var ts := Theaters(views);
    forall i | 0 <= i < |ts| ensures FirstShow(views, ts[i]) < |views| {
      assert ts[i] in ts;
      var k :| 0 <= k < |views| && views[k].theater == ts[i];
    }
  }

  /** A theater whose first show is the appended one has its first show at the end. */
  lemma FirstShowNew(views: seq<ShowView>, front: seq<ShowView>, p: seq<string>)
    requires |views| > 0 && front == views[..|views| - 1]
    requires forall k :: 0 <= k < |front| ==> front[k].theater in p
    requires views[|views| - 1].theater !in p
    ensures FirstShow(views, views[|views| - 1].theater) == |front|
  {
  }

  /** The shows of theater `t`, in their original order. */
  function OfTheater(t: string, views: seq<ShowView>): (r: seq<ShowView>)
    ensures forall k :: 0 <= k < |r| ==> r[k].theater == t && r[k] in views
    ensures forall v :: v in views && v.theater == t ==> v in r
  {
    if |views| == 0 then []
    else
      var front := views[..|views| - 1];
      var last := views[|views| - 1];
      OfTheater(t, front) + (if last.theater == t then [last] else [])
  }

  /** The shows of the theaters `ts`, theater by theater. */
  function Grouped(ts: seq<string>, views: seq<ShowView>): seq<ShowView>
  {
    if |ts| == 0 then [] else Grouped(ts[..|ts| - 1], views) + OfTheater(ts[|ts| - 1], views)
  }

  /** The order in which a snapshot lists the shows: grouped by theater, theaters in order of first appearance. */
  function GroupByTheater(views: seq<ShowView>): seq<ShowView>
  {
    Grouped(Theaters(views), views)
  }

  lemma OfTheaterSnoc(t: string, front: seq<ShowView>, v: ShowView)
    ensures OfTheater(t, front + [v]) == OfTheater(t, front) + (if v.theater == t then [v] else [])
  {
    assert (front + [v])[..|front|] == front;
  }

  /** Filtering keeps order: the shows of `t` in `a + b` are those in `a`, then those in `b`. */
  lemma {:induction false} OfTheaterAppend(t: string, a: seq<ShowView>, b: seq<ShowView>)
    ensures OfTheater(t, a + b) == OfTheater(t, a) + OfTheater(t, b)
  {
    if |b| > 0 {
      var front, last := b[..|b| - 1], b[|b| - 1];
      assert b == front + [last];
      assert a + b == (a + front) + [last];
      OfTheaterAppend(t, a, front);
      OfTheaterSnoc(t, a + front, last);
      OfTheaterSnoc(t, front, last);
    } else {
      assert a + b == a;
    }
  }

  /** One more show joins exactly one group, the group of its theater, when that theater is listed. */
  lemma {:induction false} GroupedSnoc(ts: seq<string>, front: seq<ShowView>, v: ShowView)
    requires forall i, j :: 0 <= i < j < |ts| ==> ts[i] != ts[j]
    ensures multiset(Grouped(ts, front + [v])) == multiset(Grouped(ts, front)) + (if v.theater in ts then multiset{v} else multiset{})
  {
    if |ts| > 0 {
      var fts, t := ts[..|ts| - 1], ts[|ts| - 1];
      GroupedSnoc(fts, front, v);
      OfTheaterSnoc(t, front, v);
      assert v.theater in ts <==> v.theater in fts || v.theater == t;
      assert !(v.theater in fts && v.theater == t);
      MultisetSnocStep(Grouped(fts, front), Grouped(fts, front + [v]), OfTheater(t, front), OfTheater(t, front + [v]),
        v, v.theater in fts, v.theater == t);
    }
  }

  /** The multiset arithmetic of one step of `GroupedSnoc`. */
  lemma MultisetSnocStep(a0: seq<ShowView>, a1: seq<ShowView>, b0: seq<ShowView>, b1: seq<ShowView>, v: ShowView, inA: bool, here: bool)
    requires multiset(a1) == multiset(a0) + (if inA then multiset{v} else multiset{})
    requires b1 == b0 + (if here then [v] else [])
    requires !(inA && here)
    ensures multiset(a1 + b1) == multiset(a0 + b0) + (if inA || here then multiset{v} else multiset{})
  {
  }

  /** Grouping by theater reorders the shows and loses or repeats none. */
  lemma {:induction false} GroupedPermutes(ts: seq<string>, views: seq<ShowView>)
    requires forall i, j :: 0 <= i < j < |ts| ==> ts[i] != ts[j]
    requires forall k :: 0 <= k < |views| ==> views[k].theater in ts
    ensures multiset(Grouped(ts, views)) == multiset(views)
  {
    if |views| == 0 {
      GroupedNothing(ts);
    } else {
      var front := views[..|views| - 1];
      var v := views[|views| - 1];
      assert views == front + [v];
      GroupedPermutes(ts, front);
      GroupedSnoc(ts, front, v);
      assert multiset(views) == multiset(front) + multiset{v};
    }
  }

  lemma {:induction false} GroupedNothing(ts: seq<string>)
    ensures Grouped(ts, []) == []
  {
    if |ts| > 0 {
      GroupedNothing(ts[..|ts| - 1]);
    }
  }

  lemma GroupByTheaterPermutes(views: seq<ShowView>)
    ensures multiset(GroupByTheater(views)) == multiset(views)
  {
    GroupedPermutes(Theaters(views), views);
  }

  // ---------------------------------------------------------------------
  // The lines of a snapshot

  /** "  Movie: <movie> (<dateTime>)" */
  function MovieLine(v: ShowView): string
  {
    MOVIE_PREFIX + v.movie + " (" + v.dateTime + ")"
  }

  /** The seat list of a show: the free seat numbers separated by ", ", or "SOLD OUT". */
  function SeatList(available: seq<nat>): string
  {
    if |available| == 0 then SOLD_OUT else CommaList(available)
  }

  /** "    Available seats: <list> (Total: <count>/20)" */
  function SeatsLine(v: ShowView): string
  {
    var available := AvailableOf(v.seats);
    SEATS_PREFIX + SeatList(available) + " (Total: " + NatToString(|available|) + "/20)"
  }

  /** The two lines of one show. */
  function EntryLines(v: ShowView): seq<string>
  {
    [MovieLine(v), SeatsLine(v)]
  }

  /** The entries of the shows of theater `t`, in their original order. */
  function TheaterEntries(t: string, views: seq<ShowView>): seq<string>
  {
    if |views| == 0 then []
    else
      var last := views[|views| - 1];
      TheaterEntries(t, views[..|views| - 1]) + (if last.theater == t then EntryLines(last) else [])
  }

  /** The block of a theater: its name line, its entries and an empty line. */
  function BlockLines(t: string, views: seq<ShowView>): seq<string>
  {
    [THEATER_PREFIX + t] + TheaterEntries(t, views) + [""]
  }

  /** The blocks of the theaters `ts`, in that order. */
  function Blocks(ts: seq<string>, views: seq<ShowView>): seq<string>
  {
    if |ts| == 0 then [] else Blocks(ts[..|ts| - 1], views) + BlockLines(ts[|ts| - 1], views)
  }

  /** All lines of a snapshot with the given header lines and footer line. */
  function DataLines(header: seq<string>, footer: string, views: seq<ShowView>): seq<string>
  {
    header + Blocks(Theaters(views), views) + [footer]
  }

  /** The lines, each followed by '\n'. */
  function JoinLines(lines: seq<string>): string
  {
    if |lines| == 0 then "" else lines[0] + "\n" + JoinLines(lines[1..])
  }

  lemma {:induction false} JoinLinesAppend(a: seq<string>, b: seq<string>)
    ensures JoinLines(a + b) == JoinLines(a) + JoinLines(b)
  {
    if |a| == 0 {
      assert a + b == b;
    } else {
      assert (a + b)[1..] == a[1..] + b;
      JoinLinesAppend(a[1..], b);
      assert (a + b)[0] == a[0];
    }
  }

  lemma JoinTwoLines(a: string, b: string)
    ensures JoinLines([a, b]) == a + "\n" + (b + "\n")
  {
    assert [a, b][1..] == [b];
    assert [b][1..] == [];
    assert JoinLines([b]) == b + "\n" + JoinLines([]);
    assert JoinLines([b]) == b + "\n";
  }

  /** Lines free of '\n' come back from `getline` exactly as they were joined. */
  lemma {:induction false} SplitJoinLines(lines: seq<string>)
    requires forall k :: 0 <= k < |lines| ==> '\n' !in lines[k]
    ensures Split(JoinLines(lines), '\n') == lines
  {
    if |lines| > 0 {
      SplitJoinLines(lines[1..]);
      SplitItem(lines[0], '\n', JoinLines(lines[1..]));
      assert JoinLines(lines) == lines[0] + ['\n'] + JoinLines(lines[1..]);
      assert lines == [lines[0]] + lines[1..];
    }
  }

  const CINEMA_HEADER: seq<string> := [CINEMA_DATA_STREAM]
  const UPDATE_HEADER: seq<string> := [BOOKING_UPDATE, UPDATED_CINEMA_DATA]

  /** The text `formatCinemaData` produces for the shows `views`. */
  function CinemaDataText(views: seq<ShowView>): string
  {
    JoinLines(DataLines(CINEMA_HEADER, END_CINEMA_DATA, views))
  }

  /** The text `formatUpdateData` produces for the shows `views`. */
  function UpdateDataText(views: seq<ShowView>): string
  {
    JoinLines(DataLines(UPDATE_HEADER, END_UPDATED_DATA, views))
  }

  // ---------------------------------------------------------------------
  // Character-level facts about the lines

  /** Characters that a printed number list is made of. */
  predicate ListChar(c: char)
  {
    IsDigit(c) || c == ',' || c == ' '
  }

  lemma {:induction false} CommaListChars(xs: seq<nat>)
    ensures forall i :: 0 <= i < |CommaList(xs)| ==> ListChar(CommaList(xs)[i])
  {
    if |xs| > 1 {
      CommaListChars(xs[1..]);
      var a := NatToString(xs[0]);
      var b := CommaList(xs[1..]);
      assert CommaList(xs) == a + ", " + b;
      forall i | 0 <= i < |CommaList(xs)| ensures ListChar(CommaList(xs)[i]) {
        if i >= |a| + 2 {
          assert CommaList(xs)[i] == b[i - |a| - 2];
        }
      }
    }
  }

  /** A show is listed as "SOLD OUT" exactly when every one of its seats is booked. */
  lemma SoldOutIffFull(seats: seq<bool>)
    ensures SeatList(AvailableOf(seats)) == SOLD_OUT <==> forall i :: 0 <= i < |seats| ==> seats[i]
  {
    var r := AvailableOf(seats);
    if |r| > 0 {
      CommaListChars(r);
      assert !ListChar(SOLD_OUT[0]);
      assert IsFree(seats, r[0]);
      assert !seats[r[0] - 1];
    } else {
      forall i | 0 <= i < |seats| ensures seats[i] {
        assert i + 1 !in r;
      }
    }
  }

  lemma SeatListChars(available: seq<nat>)
    ensures forall i :: 0 <= i < |SeatList(available)| ==> SeatList(available)[i] != '\n' && SeatList(available)[i] != '('
  {
    if |available| > 0 {
      CommaListChars(available);
    }
  }
}
