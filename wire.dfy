/**
 * Text-level building blocks shared by the server and the client: the
 * behaviour of the C++ library calls the cinema code relies on
 * (`std::getline` with a delimiter, `std::stoi`, `std::string::find`,
 * `operator>>` on a string stream, integer printing).
 */
module Wire {

  datatype Option<T> = None | Some(value: T)

  /** The range of `uint8_t`, the element type of the seat-number vectors. */
  type Byte = x: int | 0 <= x < 256

  /** Range of a 32-bit `int`, which `std::stoi` must fit its result into. */
  const INT_MIN: int := -0x8000_0000
  const INT_MAX: int := 0x7fff_ffff

  // ---------------------------------------------------------------------
  // std::getline(stream, item, delim), repeated until it fails

  /** Index of the first `d` in `s` at or after `from`, or `|s|` when there is none. */
  function IndexFrom(s: string, d: char, from: nat): (k: nat)
    requires from <= |s|
    ensures from <= k <= |s|
    ensures forall i :: from <= i < k ==> s[i] != d
    ensures k < |s| ==> s[k] == d
    decreases |s| - from
  {
    if from == |s| then from else if s[from] == d then from else IndexFrom(s, d, from + 1)
  }

  lemma {:induction false} IndexFromIs(s: string, d: char, from: nat, k: nat)
    requires from <= k <= |s|
    requires forall i :: from <= i < k ==> s[i] != d
    requires k < |s| ==> s[k] == d
    ensures IndexFrom(s, d, from) == k
    decreases |s| - from
  {
    if from < k {
      IndexFromIs(s, d, from + 1, k);
    }
  }

  /**
   * The items successive `std::getline(ss, item, d)` calls yield on `s`: an
   * empty text yields nothing, a trailing delimiter yields no empty last
   * item, and two adjacent delimiters yield an empty item between them.
   */
  function Split(s: string, d: char): seq<string>
    decreases |s|
  {
    if |s| == 0 then []
    else
      var k := IndexFrom(s, d, 0);
      if k == |s| then [s] else [s[..k]] + Split(s[k + 1..], d)
  }

  /** An item that ends at the first delimiter, at `k`, and the items after it. */
  lemma SplitCut(s: string, d: char, k: nat)
    requires k < |s| && s[k] == d
    requires forall i :: 0 <= i < k ==> s[i] != d
    ensures Split(s, d) == [s[..k]] + Split(s[k + 1..], d)
  {
    IndexFromIs(s, d, 0, k);
  }

  lemma SplitItem(u: string, d: char, rest: string)
    requires d !in u
    ensures Split(u + [d] + rest, d) == [u] + Split(rest, d)
  {
    var s := u + [d] + rest;
    SplitCut(s, d, |u|);
    assert s[..|u|] == u;
    assert s[|u| + 1..] == rest;
  }

  lemma SplitLast(u: string, d: char)
    requires d !in u && u != []
    ensures Split(u, d) == [u]
  {
    IndexFromIs(u, d, 0, |u|);
  }

  /** A trailing delimiter ends the last item and yields no empty item after it. */
  lemma SplitTrailing(u: string, d: char)
    requires d !in u
    ensures Split(u + [d], d) == [u]
  {
    SplitItem(u, d, []);
    assert u + [d] + [] == u + [d];
  }

  /** A leading delimiter yields an empty first item. */
  lemma SplitLeading(d: char, rest: string)
    ensures Split([d] + rest, d) == [[]] + Split(rest, d)
  {
    SplitCut([d] + rest, d, 0);
    assert ([d] + rest)[1..] == rest;
  }

  /** Two adjacent delimiters yield an empty item between them. */
  lemma SplitAdjacent(u: string, d: char, rest: string)
    requires d !in u
    ensures Split(u + [d, d] + rest, d) == [u, []] + Split(rest, d)
  {
    var t := [d] + rest;
    assert u + [d, d] + rest == u + [d] + t;
    SplitItem(u, d, t);
    SplitLeading(d, rest);
    TwoItems(Split(u + [d] + t, d), Split(t, d), u, [], Split(rest, d));
  }

  lemma TwoItems(whole: seq<string>, rest: seq<string>, x: string, y: string, ys: seq<string>)
    requires whole == [x] + rest && rest == [y] + ys
    ensures whole == [x, y] + ys
  {
  }

  /**
   * The `while (std::getline(ss, item, d)) parts.push_back(item);` loop:
   * each `getline` reads from `start` up to the next delimiter, or to the end.
   */
  method GetLines(s: string, d: char) returns (parts: seq<string>)
    ensures parts == Split(s, d)
  {
    parts := [];
    var start := 0;
    assert s[start..] == s;
    while start < |s|
      invariant start <= |s|
      invariant parts + Split(s[start..], d) == Split(s, d)
      decreases |s| - start
    {
      var k := IndexFrom(s, d, start);
      ReadItem(s, d, start, k, parts);
      parts := parts + [s[start..k]];
      start := if k < |s| then k + 1 else |s|;
    }
    assert s[start..] == [];
  }

  /** One `getline` call: the item from `start` to the delimiter at `k`, or to the end, moves to `parts`. */
  lemma ReadItem(s: string, d: char, start: nat, k: nat, parts: seq<string>)
    requires start < |s| && k == IndexFrom(s, d, start)
    requires parts + Split(s[start..], d) == Split(s, d)
    ensures (parts + [s[start..k]]) + Split(s[if k < |s| then k + 1 else |s|..], d) == Split(s, d)
  {
    if k < |s| {
      SplitUnread(s, d, start, k);
      MoveItem(Split(s, d), parts, Split(s[start..], d), s[start..k], Split(s[k + 1..], d));
    } else {
      SplitEnd(s, d, start);
      assert s[start..k] == s[start..];
      assert s[|s|..] == [];
    }
  }

  /** The unread text, cut at the delimiter at `i`. */
  lemma SplitUnread(s: string, d: char, start: nat, i: nat)
    requires start <= i < |s| && s[i] == d
    requires forall j :: start <= j < i ==> s[j] != d
    ensures Split(s[start..], d) == [s[start..i]] + Split(s[i + 1..], d)
  {
    var t := s[start..];
    SplitCut(t, d, i - start);
    assert t[..i - start] == s[start..i];
    assert t[i - start + 1..] == s[i + 1..];
  }

  lemma MoveItem(whole: seq<string>, parts: seq<string>, rest: seq<string>, x: string, ys: seq<string>)
    requires whole == parts + rest && rest == [x] + ys
    ensures whole == (parts + [x]) + ys
  {
  }

  /** What is left after the last delimiter is one last item, or nothing. */
  lemma SplitEnd(s: string, d: char, start: nat)
    requires start <= |s|
    requires forall j :: start <= j < |s| ==> s[j] != d
    ensures Split(s[start..], d) == if start < |s| then [s[start..]] else []
  {
    if start < |s| {
      IndexFromIs(s[start..], d, 0, |s| - start);
    } else {
      assert s[start..] == [];
    }
  }

  // ---------------------------------------------------------------------
  // std::string::find

  /** `p` occurs in `s` at position `i`. */
  ghost predicate MatchAt(s: string, p: string, i: nat)
  {
    i + |p| <= |s| && s[i..i + |p|] == p
  }

  /** `s.find(p, from)`: the first position at or after `from` where `p` occurs. */
  function FindFrom(s: string, p: string, from: nat): (r: Option<nat>)
    ensures r.Some? ==> from <= r.value && MatchAt(s, p, r.value)
    ensures r.Some? ==> forall i: nat :: from <= i < r.value ==> !MatchAt(s, p, i)
    ensures r.None? ==> forall i: nat :: from <= i ==> !MatchAt(s, p, i)
    decreases |s| - from
  {
    if from + |p| > |s| then None
    else if s[from..from + |p|] == p then Some(from)
    else FindFrom(s, p, from + 1)
  }

  /** `s.find(p)`: the first position where `p` occurs, `None` for `npos`. */
  function Find(s: string, p: string): Option<nat>
  {
    FindFrom(s, p, 0)
  }

  /** `s.find(p) != npos`. */
  function Contains(s: string, p: string): bool
  {
    Find(s, p).Some?
  }

  lemma FindAt(s: string, p: string, k: nat)
    requires MatchAt(s, p, k)
    requires forall i: nat :: i < k ==> !MatchAt(s, p, i)
    ensures Find(s, p) == Some(k)
  {
  }

  lemma FindNone(s: string, p: string)
    requires forall i: nat :: !MatchAt(s, p, i)
    ensures Find(s, p) == None
  {
  }

  lemma FindPrefix(s: string, p: string)
    requires |p| <= |s| && s[..|p|] == p
    ensures Find(s, p) == Some(0)
  {
    assert s[0..|p|] == s[..|p|];
    FindAt(s, p, 0);
  }

  lemma FindNotAtStart(s: string, p: string, j: nat)
    requires j < |p| && j < |s| && s[j] != p[j]
    ensures Find(s, p) != Some(0)
  {
  }

  /**
   * When the first character of `p` does not occur in `u`, searching `u + v`
   * finds what searching `v` finds, shifted by `|u|`.
   */
  lemma FindAfter(u: string, v: string, p: string)
    requires p != [] && p[0] !in u
    ensures Find(v, p).Some? ==> Find(u + v, p) == Some(|u| + Find(v, p).value)
    ensures Find(v, p).None? ==> Find(u + v, p).None?
  {
    var s := u + v;
    forall i: nat | MatchAt(s, p, i) ensures i >= |u| && MatchAt(v, p, i - |u|) {
      assert s[i..i + |p|] == v[i - |u|..i - |u| + |p|];
    }
    if Find(v, p).Some? {
      var k := Find(v, p).value;
      assert s[|u| + k..|u| + k + |p|] == v[k..k + |p|];
      FindAt(s, p, |u| + k);
    }
  }

  // ---------------------------------------------------------------------
  // std::stoi (base 10)

  /** `isspace` in the C locale. */
  predicate IsSpace(c: char)
  {
    c == ' ' || ('\t' <= c <= '\r')
  }

  predicate IsDigit(c: char)
  {
    '0' <= c <= '9'
  }

  function DigitValue(c: char): nat
    requires IsDigit(c)
  {
    c as int - '0' as int
  }

  function DigitChar(n: nat): (c: char)
    requires n < 10
    ensures IsDigit(c) && DigitValue(c) == n
  {
    (n + '0' as int) as char
  }

  /** Drops leading white space, as `strtol` does. */
  function SkipSpace(s: string): (t: string)
    ensures |t| <= |s| && t == s[|s| - |t|..]
    ensures |t| > 0 ==> !IsSpace(t[0])
    ensures forall i :: 0 <= i < |s| - |t| ==> IsSpace(s[i])
  {
    if |s| > 0 && IsSpace(s[0]) then
      var t := SkipSpace(s[1..]);
      assert forall i :: 1 <= i < |s| ==> s[i] == s[1..][i - 1];
      t
    else s
  }

  /** Length of the run of decimal digits that starts `s`. */
  function DigitRun(s: string): (n: nat)
    ensures n <= |s|
    ensures forall i :: 0 <= i < n ==> IsDigit(s[i])
    ensures n < |s| ==> !IsDigit(s[n])
  {
    if |s| > 0 && IsDigit(s[0]) then 1 + DigitRun(s[1..]) else 0
  }

  function DigitsValue(s: string): nat
    requires forall i :: 0 <= i < |s| ==> IsDigit(s[i])
  {
    if |s| == 0 then 0 else DigitsValue(s[..|s| - 1]) * 10 + DigitValue(s[|s| - 1])
  }

  /**
   * `std::stoi(s)`: leading white space, an optional sign, then the longest
   * run of digits; anything after the digits is ignored. `None` stands for the
   * exceptions: no digits (`invalid_argument`) or a value outside `int`
   * (`out_of_range`).
   */
  function Stoi(s: string): Option<int>
  {
    StoiNumber(SkipSpace(s))
  }

  /** `std::stoi` once the leading white space is skipped: an optional sign, then the digits. */
  function StoiNumber(t: string): Option<int>
  {
    var signed := |t| > 0 && (t[0] == '-' || t[0] == '+');
    var u := if signed then t[1..] else t;
    var n := DigitRun(u);
    if n == 0 then None
    else
      var magnitude: int := DigitsValue(u[..n]);
      var v: int := if signed && t[0] == '-' then -magnitude else magnitude;
      if INT_MIN <= v <= INT_MAX then Some(v) else None
  }

  // ---------------------------------------------------------------------
  // Printing numbers: `ss << int` and `std::to_string`

  function NatToString(n: nat): (s: string)
    ensures |s| > 0
    ensures forall i :: 0 <= i < |s| ==> IsDigit(s[i])
  {
    if n < 10 then [DigitChar(n)] else NatToString(n / 10) + [DigitChar(n % 10)]
  }

  lemma {:induction false} NatToStringValue(n: nat)
    ensures DigitsValue(NatToString(n)) == n
  {
    var s := NatToString(n);
    if n >= 10 {
      NatToStringValue(n / 10);
      assert s[..|s| - 1] == NatToString(n / 10);
    }
  }

  /** Printing a number and reading it back with `std::stoi` is the identity. */
  lemma StoiNatToString(n: nat)
    requires n <= INT_MAX
    ensures Stoi(NatToString(n)) == Some(n)
  {
    var s := NatToString(n);
    assert SkipSpace(s) == s;
    assert DigitRun(s) == |s| by { AllDigitsRun(s); }
    assert s[..|s|] == s;
    NatToStringValue(n);
  }

  /** A run of digits stops at the first character that is not one. */
  lemma {:induction false} DigitRunThen(w: string, rest: string)
    requires forall i :: 0 <= i < |w| ==> IsDigit(w[i])
    requires rest == [] || !IsDigit(rest[0])
    ensures DigitRun(w + rest) == |w|
  {
    if |w| > 0 {
      assert (w + rest)[1..] == w[1..] + rest;
      DigitRunThen(w[1..], rest);
    }
  }

  /**
   * `std::stoi` reads the leading digits and ignores what follows them, so
   * "3x" reads as 3; a value beyond `int` is refused (`out_of_range`).
   */
  lemma StoiDigitsThen(n: nat, rest: string)
    requires rest == [] || !IsDigit(rest[0])
    ensures Stoi(NatToString(n) + rest) == if n <= INT_MAX then Some(n) else None
  {
    var w := NatToString(n);
    var s := w + rest;
    assert s[0] == w[0];
    SkipNoSpace(s);
    DigitRunThen(w, rest);
    assert s[..|w|] == w;
    NatToStringValue(n);
    StoiUnsigned(s, n);
  }

  lemma SkipNoSpace(s: string)
    requires |s| > 0 && !IsSpace(s[0])
    ensures SkipSpace(s) == s
  {
  }

  lemma StoiUnsigned(t: string, m: nat)
    requires |t| > 0 && IsDigit(t[0])
    requires DigitsValue(t[..DigitRun(t)]) == m
    ensures StoiNumber(t) == if m <= INT_MAX then Some(m) else None
  {
  }

  lemma StoiSigned(t: string, u: string, m: nat)
    requires |t| > 0 && t[0] == '-' && t[1..] == u
    requires DigitRun(u) > 0 && DigitsValue(u[..DigitRun(u)]) == m
    ensures StoiNumber(t) == if m <= -INT_MIN then Some(-(m as int)) else None
  {
  }

  /** A leading minus sign negates the value, which must still fit an `int`. */
  lemma StoiNegative(n: nat, rest: string)
    requires rest == [] || !IsDigit(rest[0])
    ensures Stoi("-" + NatToString(n) + rest) == if n <= -INT_MIN then Some(-(n as int)) else None
  {
    var w := NatToString(n);
    var s := "-" + w + rest;
    assert s[0] == '-';
    SkipNoSpace(s);
    assert s[1..] == w + rest;
    DigitRunThen(w, rest);
    assert (w + rest)[..|w|] == w;
    NatToStringValue(n);
    StoiSigned(s, w + rest, n);
  }

  /** `std::stoi` skips leading white space. */
  lemma StoiSkipsSpace(c: char, s: string)
    requires IsSpace(c)
    ensures Stoi([c] + s) == Stoi(s)
  {
    assert ([c] + s)[1..] == s;
  }

  lemma {:induction false} AllDigitsRun(s: string)
    requires forall i :: 0 <= i < |s| ==> IsDigit(s[i])
    ensures DigitRun(s) == |s|
  {
    if |s| > 0 {
      AllDigitsRun(s[1..]);
    }
  }

  // ---------------------------------------------------------------------
  // Seat lists written as "1, 2, 3"

  /** The numbers of `xs` in decimal, separated by ", ". */
  function CommaList(xs: seq<nat>): string
  {
    if |xs| == 0 then ""
    else if |xs| == 1 then NatToString(xs[0])
    else NatToString(xs[0]) + ", " + CommaList(xs[1..])
  }

  /** Every number of `xs` followed by ", ": what the print loop has written before the last number. */
  function Separated(xs: seq<nat>): string
  {
    if |xs| == 0 then "" else Separated(xs[..|xs| - 1]) + NatToString(xs[|xs| - 1]) + ", "
  }

  lemma {:induction false} SeparatedThenLast(xs: seq<nat>)
    requires |xs| > 0
    ensures Separated(xs[..|xs| - 1]) + NatToString(xs[|xs| - 1]) == CommaList(xs)
  {
    if |xs| > 1 {
      var ys := xs[1..];
      SeparatedThenLast(ys);
      SeparatedCons(xs[0], ys[..|ys| - 1]);
      assert xs[..|xs| - 1] == [xs[0]] + ys[..|ys| - 1];
      assert ys[|ys| - 1] == xs[|xs| - 1];
    }
  }

  lemma {:induction false} SeparatedCons(x: nat, ys: seq<nat>)
    ensures Separated([x] + ys) == NatToString(x) + ", " + Separated(ys)
    decreases |ys|
  {
    if |ys| > 0 {
      SeparatedCons(x, ys[..|ys| - 1]);
      assert ([x] + ys)[..|ys|] == [x] + ys[..|ys| - 1];
    }
  }

  /**
   * The loop `for i: out << xs[i]; if (i < n - 1) out << ", ";` that both
   * the snapshot writer and the booking confirmation use.
   */
  method WriteCommaList(out: string, xs: seq<nat>) returns (r: string)
    ensures r == out + CommaList(xs)
  {
    r := out;
    var i := 0;
    while i < |xs|
      invariant 0 <= i <= |xs|
      invariant i < |xs| || |xs| == 0 ==> r == out + Separated(xs[..i])
      invariant i == |xs| && |xs| > 0 ==> r == out + CommaList(xs)
    {
      r := r + NatToString(xs[i]);
      if i < |xs| - 1 {
        r := r + ", ";
        assert xs[..i + 1][..i] == xs[..i];
      } else {
        assert xs[..i] == xs[..|xs| - 1];
        SeparatedThenLast(xs);
      }
      i := i + 1;
    }
    if |xs| == 0 {
      assert r == out;
    }
  }

  // ---------------------------------------------------------------------
  // `stream >> token`: white-space separated words

  /** Length of the run of non-space characters that starts `s`. */
  function WordLen(s: string): (n: nat)
    ensures n <= |s|
    ensures forall i :: 0 <= i < n ==> !IsSpace(s[i])
    ensures n < |s| ==> IsSpace(s[n])
  {
    if |s| > 0 && !IsSpace(s[0]) then 1 + WordLen(s[1..]) else 0
  }

  /** The tokens successive `seatStream >> token` extractions yield. */
  function Words(s: string): seq<string>
    decreases |s|
  {
    if |s| == 0 then []
    else if IsSpace(s[0]) then Words(s[1..])
    else
      var n := WordLen(s);
      [s[..n]] + Words(s[n..])
  }

  lemma {:induction false} WordLenWhole(w: string, rest: string)
    requires forall i :: 0 <= i < |w| ==> !IsSpace(w[i])
    requires |rest| == 0 || IsSpace(rest[0])
    ensures WordLen(w + rest) == |w|
    decreases |w|
  {
    if |w| > 0 {
      assert (w + rest)[1..] == w[1..] + rest;
      WordLenWhole(w[1..], rest);
    }
  }

  /** A word followed by white space (or the end) is the next token. */
  lemma WordsCons(w: string, rest: string)
    requires |w| > 0 && forall i :: 0 <= i < |w| ==> !IsSpace(w[i])
    requires |rest| == 0 || IsSpace(rest[0])
    ensures Words(w + rest) == [w] + Words(rest)
  {
    WordLenWhole(w, rest);
    var s := w + rest;
    assert s[..|w|] == w;
    assert s[|w|..] == rest;
  }

  lemma WordsSpace(c: char, rest: string)
    requires IsSpace(c)
    ensures Words([c] + rest) == Words(rest)
  {
    assert ([c] + rest)[1..] == rest;
  }
}
