/**
 The benchmark series of a portfolio: sorted, deduplicated bars merged with the portfolio's
 points by one cursor that only moves forward.
 */
module Benchmark {
  import opened Wrappers
  import opened Arithmetic
  import opened Ordering

  // A closing price at an instant.
  datatype Bar = Bar(timestamp: int, close: Int64)

  // The portfolio's equity at an instant.
  datatype Point = Point(timestamp: int, equity: Int64)

  // A provider's row; either field may fail to parse.
  datatype Row = Row(timestamp: Option<int>, close: Option<Int64>)

  datatype BarError = MissingBars | BadTimestamp | BadClose | NonPositiveClose | Empty

  // --- Parsing ---

  // The first element at an instant.
  function FirstAt(bars: seq<Bar>, t: int): Option<Bar> {
    if bars == [] then None
    else if bars[0].timestamp == t then Some(bars[0])
    else FirstAt(bars[1..], t)
  }

  const EARLIER: (Bar, Bar) -> bool := (a: Bar, b: Bar) => a.timestamp <= b.timestamp

  ghost predicate Chronological(bars: seq<Bar>) {
    forall i, j :: 0 <= i < j < |bars| ==> bars[i].timestamp <= bars[j].timestamp
  }

  ghost predicate StrictlyIncreasing(bars: seq<Bar>) {
    forall i, j :: 0 <= i < j < |bars| ==> bars[i].timestamp < bars[j].timestamp
  }

  // Keeps the first bar of each run with one timestamp.
  function DedupTimes(bars: seq<Bar>): seq<Bar>
    decreases |bars|
  {
    if |bars| <= 1 then bars
    else if bars[0].timestamp == bars[1].timestamp then DedupTimes([bars[0]] + bars[2..])
    else [bars[0]] + DedupTimes(bars[1..])
  }

  lemma {:induction false} InsertStable(x: Bar, s: seq<Bar>, t: int)
    ensures FirstAt(Insert(x, s, EARLIER), t) == FirstAt([x] + s, t)
  {
    assert ([x] + s)[1..] == s;
    if s != [] && !EARLIER(x, s[0]) {
      InsertStable(x, s[1..], t);
      assert ([x] + s[1..])[1..] == s[1..];
      assert ([s[0]] + Insert(x, s[1..], EARLIER))[1..] == Insert(x, s[1..], EARLIER);
    }
  }

  lemma {:induction false} SortStable(s: seq<Bar>, t: int)
    ensures FirstAt(Sort(s, EARLIER), t) == FirstAt(s, t)
  {
    if s != [] {
      SortStable(s[1..], t);
      InsertStable(s[0], Sort(s[1..], EARLIER), t);
      assert ([s[0]] + Sort(s[1..], EARLIER))[1..] == Sort(s[1..], EARLIER);
    }
  }

  lemma {:induction false} InsertChronological(x: Bar, s: seq<Bar>)
    requires Chronological(s)
    ensures Chronological(Insert(x, s, EARLIER))
  {
    if s != [] && !EARLIER(x, s[0]) {
      var rest := Insert(x, s[1..], EARLIER);
      InsertChronological(x, s[1..]);
      InsertHolds(x, s[1..]);
      forall j | 0 <= j < |rest| ensures s[0].timestamp <= rest[j].timestamp {
        assert rest[j] in rest;
      }
    }
  }

  lemma InsertHolds(x: Bar, s: seq<Bar>)
    ensures forall y :: y in Insert(x, s, EARLIER) ==> y == x || y in s
  {
    forall y | y in Insert(x, s, EARLIER) ensures y == x || y in s {
      assert y in multiset(Insert(x, s, EARLIER));
    }
  }

  lemma {:induction false} SortChronological(s: seq<Bar>)
    ensures Chronological(Sort(s, EARLIER))
  {
    if s != [] {
      SortChronological(s[1..]);
      InsertChronological(s[0], Sort(s[1..], EARLIER));
    }
  }

  lemma {:induction false} DedupFirst(s: seq<Bar>, t: int)
    ensures FirstAt(DedupTimes(s), t) == FirstAt(s, t)
    decreases |s|
  {
    if |s| > 1 {
      if s[0].timestamp == s[1].timestamp {
        DedupFirst([s[0]] + s[2..], t);
        assert ([s[0]] + s[2..])[1..] == s[2..] && s[1..][1..] == s[2..];
      } else {
        DedupFirst(s[1..], t);
        assert ([s[0]] + DedupTimes(s[1..]))[1..] == DedupTimes(s[1..]);
      }
    }
  }

  lemma {:induction false} DedupIncreasing(s: seq<Bar>)
    requires Chronological(s)
    ensures StrictlyIncreasing(DedupTimes(s))
    ensures s != [] ==> DedupTimes(s) != [] && DedupTimes(s)[0] == s[0]
    decreases |s|
  {
    if |s| > 1 {
      DedupIncreasing(if s[0].timestamp == s[1].timestamp then [s[0]] + s[2..] else s[1..]);
    }
  }

  lemma SortLength(s: seq<Bar>)
    ensures |Sort(s, EARLIER)| == |s|
  {
    assert |multiset(Sort(s, EARLIER))| == |multiset(s)|;
  }

  function Parsed(row: Row): Result<Bar, BarError> {
    if row.timestamp.None? then Failure(BadTimestamp)
    else if row.close.None? then Failure(BadClose)
    else if row.close.value <= 0 then Failure(NonPositiveClose)
    else Success(Bar(row.timestamp.value, row.close.value))
  }

  function Good(rows: seq<Row>): seq<Bar>
    requires AllParse(rows)
  {
    seq(|rows|, i requires 0 <= i < |rows| => Parsed(rows[i]).value)
  }

  lemma {:induction false} FirstIsMember(s: seq<Bar>, t: int)
    ensures FirstAt(s, t).Some? ==> FirstAt(s, t).value in s && FirstAt(s, t).value.timestamp == t
    ensures FirstAt(s, t).Some? <==> exists i :: 0 <= i < |s| && s[i].timestamp == t
  {
    if s != [] {
      FirstIsMember(s[1..], t);
      if i :| 0 <= i < |s| && s[i].timestamp == t {
        assert i > 0 ==> s[1..][i - 1].timestamp == t;
      }
    }
  }

  lemma {:induction false} DedupMembers(s: seq<Bar>)
    ensures forall b :: b in DedupTimes(s) ==> b in s
    decreases |s|
  {
    if |s| > 1 {
      DedupMembers(if s[0].timestamp == s[1].timestamp then [s[0]] + s[2..] else s[1..]);
    }
  }

  lemma ClosesKept(points: seq<Bar>, sorted: seq<Bar>, kept: seq<Bar>)
    requires forall j :: 0 <= j < |points| ==> points[j].close > 0
    requires multiset(sorted) == multiset(points) && kept == DedupTimes(sorted)
    ensures forall i :: 0 <= i < |kept| ==> kept[i].close > 0
  {
    DedupMembers(sorted);
    forall i | 0 <= i < |kept| ensures kept[i].close > 0 {
      assert kept[i] in sorted;
      assert kept[i] in multiset(sorted);
      assert kept[i] in points;
    }
  }

  lemma Tidies(points: seq<Bar>)
    requires forall j :: 0 <= j < |points| ==> points[j].close > 0
    ensures var kept := DedupTimes(Sort(points, EARLIER));
            && StrictlyIncreasing(kept) && (kept == [] <==> points == [])
            && (forall i :: 0 <= i < |kept| ==> kept[i].close > 0)
            && forall t :: FirstAt(kept, t) == FirstAt(points, t)
  {
    var sorted := Sort(points, EARLIER);
    SortLength(points);
    SortChronological(points);
    DedupIncreasing(sorted);
    ClosesKept(points, sorted, DedupTimes(sorted));
    forall t ensures FirstAt(DedupTimes(sorted), t) == FirstAt(points, t) {
      SortStable(points, t);
      DedupFirst(sorted, t);
    }
  }

  /** A strictly increasing series is determined by the bar it has at each instant. */
  lemma {:induction false} SeriesUnique(a: seq<Bar>, b: seq<Bar>)
    requires StrictlyIncreasing(a) && StrictlyIncreasing(b)
    requires forall t :: FirstAt(a, t) == FirstAt(b, t)
    ensures a == b
    decreases |a|
  {
    if b != [] {
      FirstIsMember(a, b[0].timestamp);
      FirstIsMember(b, b[0].timestamp);
    }
    if a != [] {
      FirstIsMember(a, a[0].timestamp);
      FirstIsMember(b, a[0].timestamp);
      assert a[0].timestamp <= b[0].timestamp && b[0].timestamp <= a[0].timestamp;
      forall t ensures FirstAt(a[1..], t) == FirstAt(b[1..], t) {
        assert FirstAt(a, t) == FirstAt(b, t);
        FirstIsMember(a[1..], t);
        FirstIsMember(b[1..], t);
      }
      SeriesUnique(a[1..], b[1..]);
      assert a == [a[0]] + a[1..] && b == [b[0]] + b[1..];
    }
  }

  predicate AllParse(rows: seq<Row>) {
    forall i :: 0 <= i < |rows| ==> Parsed(rows[i]).Success?
  }

  // The bar is that of the first row with its timestamp.
  ghost predicate FromFirstRow(rows: seq<Row>, bar: Bar) {
    exists j :: 0 <= j < |rows| && rows[j] == Row(Some(bar.timestamp), Some(bar.close))
                && forall k :: 0 <= k < j ==> rows[k].timestamp != Some(bar.timestamp)
  }

  lemma {:induction false} FirstAtWhere(s: seq<Bar>, t: int)
    requires FirstAt(s, t).Some?
    ensures exists j :: 0 <= j < |s| && s[j] == FirstAt(s, t).value && forall k :: 0 <= k < j ==> s[k].timestamp != t
  {
    if s[0].timestamp != t {
      FirstAtWhere(s[1..], t);
      var j :| 0 <= j < |s[1..]| && s[1..][j] == FirstAt(s[1..], t).value && forall k :: 0 <= k < j ==> s[1..][k].timestamp != t;
      assert s[j + 1] == s[1..][j];
      assert forall k :: 0 < k < j + 1 ==> s[k] == s[1..][k - 1];
    }
  }

  lemma KeepsFirstRow(rows: seq<Row>, bars: seq<Bar>, i: nat)
    requires AllParse(rows) && i < |bars| && StrictlyIncreasing(bars)
    requires FirstAt(bars, bars[i].timestamp) == FirstAt(Good(rows), bars[i].timestamp)
    ensures FromFirstRow(rows, bars[i])
  {
    var t, good := bars[i].timestamp, Good(rows);
    FirstIsMember(bars, t);
    FirstAtWhere(bars, t);
    FirstAtWhere(good, t);
    var j :| 0 <= j < |good| && good[j] == FirstAt(good, t).value && forall k :: 0 <= k < j ==> good[k].timestamp != t;
    forall k | 0 <= k < j ensures rows[k].timestamp != Some(t) {
      assert good[k].timestamp != t;
    }
  }

  // The first malformed row decides the error.
  method CollectBars(rows: seq<Row>) returns (r: Result<seq<Bar>, BarError>)
    ensures r.Success? <==> AllParse(rows)
    ensures r.Success? ==> r.value == Good(rows)
    ensures r.Failure? ==>
              exists i :: 0 <= i < |rows| && Parsed(rows[i]) == Failure(r.error)
                          && forall j :: 0 <= j < i ==> Parsed(rows[j]).Success?
  {
    var points: seq<Bar> := [];
    for i := 0 to |rows|
      invariant |points| == i
      invariant forall j :: 0 <= j < i ==> Parsed(rows[j]) == Success(points[j])
    {
      var bar := Parsed(rows[i]);
      if bar.Failure? {
        return Failure(bar.error);
      }
      points := points + [bar.value];
    }
    return Success(points);
  }

  /**
   Accepts exactly the nonempty lists of well-formed rows with positive closes, and returns
   the strictly increasing series that keeps, for each timestamp, the row listed first.
   */
  method ParseBarSeries(rows: Option<seq<Row>>) returns (r: Result<seq<Bar>, BarError>)
    ensures r.Success? <==> rows.Some? && rows.value != [] && AllParse(rows.value)
    ensures r.Success? ==>
              && StrictlyIncreasing(r.value) && r.value != []
              && (forall i :: 0 <= i < |r.value| ==> r.value[i].close > 0 && FromFirstRow(rows.value, r.value[i]))
              && forall t :: FirstAt(r.value, t) == FirstAt(Good(rows.value), t)
    ensures r.Success? <==>
              rows.Some? && rows.value != []
              && forall i :: 0 <= i < |rows.value| ==>
                   rows.value[i].timestamp.Some? && rows.value[i].close.Some? && rows.value[i].close.value > 0
    ensures r.Failure? && rows.Some? && rows.value != [] ==>
              exists i :: 0 <= i < |rows.value| && Parsed(rows.value[i]) == Failure(r.error)
                          && forall j :: 0 <= j < i ==> Parsed(rows.value[j]).Success?
  {
    if rows.None? {
      return Failure(MissingBars);
    }
    var points := CollectBars(rows.value);
    if points.Failure? {
      return points;
    }
    Tidies(points.value);
    var kept := DedupTimes(Sort(points.value, EARLIER));
    if kept == [] {
      return Failure(Empty);
    }
    forall i | 0 <= i < |kept| ensures FromFirstRow(rows.value, kept[i]) {
      KeepsFirstRow(rows.value, kept, i);
    }
    return Success(kept);
  }

  // --- The merge ---

  // The opening equity scaled by a close relative to the first close; absent when it leaves 64 bits.
  function Scaled(opening: Int64, close: Int64, first: Int64): Option<Int64> {
    if first == 0 then None
    else
      var value := TruncDiv(opening * close, first);
      if IsI64(value) then Some(value) else None
  }

  // Bar k is the last one at or before the instant.
  ghost predicate LastBy(bars: seq<Bar>, t: int, k: int) {
    && 0 <= k < |bars| && bars[k].timestamp <= t
    && forall j :: k < j < |bars| ==> bars[j].timestamp > t
  }

  ghost predicate NoneBy(bars: seq<Bar>, t: int) {
    forall j :: 0 <= j < |bars| ==> bars[j].timestamp > t
  }

  // The plain lookup: absent when no bar is at or before the instant, else the last such bar scaled.
  ghost predicate LooksUp(portfolio: seq<Point>, bars: seq<Bar>, i: nat, entry: Option<Int64>)
    requires i < |portfolio|
  {
    && (NoneBy(bars, portfolio[i].timestamp) ==> entry == None)
    && (forall k :: LastBy(bars, portfolio[i].timestamp, k) ==>
          entry == Scaled(portfolio[0].equity, bars[k].close, bars[0].close))
  }

  // Any value comes from a bar no later than its point.
  ghost predicate NoLaterBar(portfolio: seq<Point>, bars: seq<Bar>, i: nat, entry: Option<Int64>)
    requires i < |portfolio|
  {
    entry.Some? ==>
      exists k :: 0 <= k < |bars| && bars[k].timestamp <= portfolio[i].timestamp
                  && entry == Scaled(portfolio[0].equity, bars[k].close, bars[0].close)
  }

  ghost predicate Ordered(portfolio: seq<Point>) {
    forall i, j :: 0 <= i < j < |portfolio| ==> portfolio[i].timestamp <= portfolio[j].timestamp
  }

  // The quotient with its fraction dropped: the largest multiple toward the dividend, on its side of zero.
  predicate DropsFraction(n: int, d: int, q: int)
    requires d != 0
  {
    Magnitude(q * d) <= Magnitude(n) < Magnitude(q * d) + Magnitude(d) && (q * d == 0 || (q * d < 0 <==> n < 0))
  }

  lemma MagnitudeOfProduct(a: int, b: int)
    ensures Magnitude(a * b) == Magnitude(a) * Magnitude(b)
  {
    var m: int, n: int := Magnitude(a), Magnitude(b);
    assert a == m || a == -m;
    assert (-m) * n == -(m * n) && m * (-n) == -(m * n) && (-m) * (-n) == m * n;
  }

  lemma ProductSign(a: int, b: int)
    ensures a * b == 0 <==> a == 0 || b == 0
    ensures a * b != 0 ==> (a * b < 0 <==> (a < 0) != (b < 0))
  {
    if a != 0 && b != 0 {
      MulMonotone(1, Magnitude(a), Magnitude(b));
      MagnitudeOfProduct(a, b);
    }
  }

  lemma SmallProduct(x: int, d: int)
    requires Magnitude(x * d) < Magnitude(d)
    ensures x == 0
  {
    MagnitudeOfProduct(x, d);
    if x != 0 {
      MulMonotone(1, Magnitude(x), Magnitude(d));
    }
  }

  // Two multiples of the divisor as close to the dividend, on its side of zero, are less than it apart.
  lemma CloseTogether(n: int, d: int, t: int, u: int)
    requires Magnitude(t) <= Magnitude(n) < Magnitude(t) + Magnitude(d) && (t == 0 || (t < 0 <==> n < 0))
    requires Magnitude(u) <= Magnitude(n) < Magnitude(u) + Magnitude(d) && (u == 0 || (u < 0 <==> n < 0))
    ensures Magnitude(t - u) < Magnitude(d)
  {
  }

  lemma DropsOnce(n: int, d: int, p: int, q: int)
    requires d != 0 && DropsFraction(n, d, p) && DropsFraction(n, d, q)
    ensures p == q
  {
    CloseTogether(n, d, p * d, q * d);
    assert p * d - q * d == (p - q) * d;
    SmallProduct(p - q, d);
  }

  lemma TruncDrops(n: int, d: int)
    requires d != 0
    ensures DropsFraction(n, d, TruncDiv(n, d))
  {
    var m, e, q := Magnitude(n), Magnitude(d), TruncDiv(n, d);
    var k := m / e;
    assert m == k * e + m % e;
    assert Magnitude(q) == k;
    MagnitudeOfProduct(q, d);
    ProductSign(q, d);
  }

  /** The scaled equity is opening times close over the first close, its fraction dropped, unless that leaves 64 bits. */
  lemma ScaledExactly(opening: Int64, close: Int64, first: Int64)
    ensures Scaled(opening, close, first).Some? ==>
              first != 0 && DropsFraction(opening * close, first, Scaled(opening, close, first).value)
    ensures Scaled(opening, close, first).None? ==>
              first == 0 || forall q: Int64 :: !DropsFraction(opening * close, first, q)
  {
    if first != 0 {
      var q := TruncDiv(opening * close, first);
      TruncDrops(opening * close, first);
      forall p: Int64 | DropsFraction(opening * close, first, p) ensures p == q {
        DropsOnce(opening * close, first, p, q);
      }
    }
  }

  lemma ScaledFits(opening: Int64, close: Int64, first: Int64)
    ensures -TWO_126 <= opening * close <= TWO_126
    ensures first != 0 ==> IsI128(TruncDiv(opening * close, first))
  {
    ProductFits(opening, close);
    if first != 0 {
      var m, d := Magnitude(opening * close), Magnitude(first);
      MulMonotone(1, d, m);
      DivBetween(m, d, 0, m);
    }
  }

  method ScaledEquity(opening: Int64, close: Int64, first: Int64) returns (value: Option<Int64>)
    ensures value == Scaled(opening, close, first)
  {
    ScaledFits(opening, close, first);
    assert IsI64(opening) && IsI64(close) && IsI64(first);
    var quotient := CheckedDiv(SaturatingMul(opening, close), first);
    if quotient.Some? && IsI64(quotient.value) {
      return Some(quotient.value);
    }
    return None;
  }

  // Moves the cursor to the last bar at or before the instant, never back.
  method Advance(bars: seq<Bar>, t: int, from: nat) returns (to: nat)
    requires from < |bars|
    ensures from <= to < |bars|
    ensures to > from ==> bars[to].timestamp <= t
    ensures to + 1 < |bars| ==> bars[to + 1].timestamp > t
  {
    to := from;
    while to + 1 < |bars| && bars[to + 1].timestamp <= t
      invariant from <= to < |bars|
      invariant to > from ==> bars[to].timestamp <= t
    {
      to := to + 1;
    }
  }

  /**
   One pass computes the lookup for every point of an ordered portfolio over strictly
   increasing bars, and in any order never uses a bar later than its point.
   */
  method EquitySeries(portfolio: seq<Point>, bars: seq<Bar>) returns (series: seq<Option<Int64>>)
    ensures |series| == |portfolio|
    ensures forall i :: 0 <= i < |portfolio| ==> NoLaterBar(portfolio, bars, i, series[i])
    ensures Ordered(portfolio) && StrictlyIncreasing(bars) ==>
              forall i :: 0 <= i < |portfolio| ==> LooksUp(portfolio, bars, i, series[i])
  {
    if portfolio == [] {
      return [];
    }
    if bars == [] {
      series := seq(|portfolio|, i => None);
      return;
    }
    var opening, first := portfolio[0].equity, bars[0].close;
    var cursor := 0;
    series := [];
    for i := 0 to |portfolio|
      invariant |series| == i && SoFar(portfolio, bars, series)
      invariant cursor < |bars| && CursorAt(portfolio, bars, i, cursor)
    {
      var t := portfolio[i].timestamp;
      var from := cursor;
      cursor := Advance(bars, t, from);
      var entry := None;
      if bars[cursor].timestamp <= t {
        entry := ScaledEquity(opening, bars[cursor].close, first);
      }
      CursorMoves(portfolio, bars, i, from, cursor);
      CursorLooksUp(portfolio, bars, i, cursor, entry);
      EntryKept(portfolio, bars, series, entry);
      series := series + [entry];
    }
  }

  // The entries computed so far.
  ghost predicate SoFar(portfolio: seq<Point>, bars: seq<Bar>, series: seq<Option<Int64>>) {
    && |series| <= |portfolio|
    && (forall j :: 0 <= j < |series| ==> NoLaterBar(portfolio, bars, j, series[j]))
    && (Ordered(portfolio) && StrictlyIncreasing(bars) ==>
          forall j :: 0 <= j < |series| ==> LooksUp(portfolio, bars, j, series[j]))
  }

  // The cursor has not passed the points seen so far.
  ghost predicate CursorAt(portfolio: seq<Point>, bars: seq<Bar>, i: nat, cursor: nat)
    requires i <= |portfolio| && cursor < |bars|
  {
    cursor > 0 ==> i > 0 && (Ordered(portfolio) && StrictlyIncreasing(bars) ==>
                               bars[cursor].timestamp <= portfolio[i - 1].timestamp)
  }

  lemma CursorMoves(portfolio: seq<Point>, bars: seq<Bar>, i: nat, from: nat, to: nat)
    requires i < |portfolio| && from <= to < |bars| && CursorAt(portfolio, bars, i, from)
    requires to > from ==> bars[to].timestamp <= portfolio[i].timestamp
    ensures CursorAt(portfolio, bars, i + 1, to)
  {
  }

  lemma EntryKept(portfolio: seq<Point>, bars: seq<Bar>, series: seq<Option<Int64>>, entry: Option<Int64>)
    requires SoFar(portfolio, bars, series) && |series| < |portfolio|
    requires NoLaterBar(portfolio, bars, |series|, entry)
    requires Ordered(portfolio) && StrictlyIncreasing(bars) ==> LooksUp(portfolio, bars, |series|, entry)
    ensures SoFar(portfolio, bars, series + [entry])
  {
    var more := series + [entry];
    assert more[|series|] == entry;
    forall i | 0 <= i < |more| ensures NoLaterBar(portfolio, bars, i, more[i]) {
      assert i < |series| ==> more[i] == series[i];
    }
    if Ordered(portfolio) && StrictlyIncreasing(bars) {
      forall i | 0 <= i < |more| ensures LooksUp(portfolio, bars, i, more[i]) {
        assert i < |series| ==> more[i] == series[i];
      }
    }
  }

  // The entry at the cursor is the lookup, and in any order never looks ahead.
  lemma CursorLooksUp(portfolio: seq<Point>, bars: seq<Bar>, i: nat, cursor: nat, entry: Option<Int64>)
    requires i < |portfolio| && cursor < |bars| && CursorAt(portfolio, bars, i + 1, cursor)
    requires cursor + 1 < |bars| ==> bars[cursor + 1].timestamp > portfolio[i].timestamp
    requires entry == if bars[cursor].timestamp <= portfolio[i].timestamp
                      then Scaled(portfolio[0].equity, bars[cursor].close, bars[0].close) else None
    ensures NoLaterBar(portfolio, bars, i, entry)
    ensures Ordered(portfolio) && StrictlyIncreasing(bars) ==> LooksUp(portfolio, bars, i, entry)
  {
    if Ordered(portfolio) && StrictlyIncreasing(bars) {
      if bars[cursor].timestamp <= portfolio[i].timestamp {
        CursorIsLast(bars, portfolio[i].timestamp, cursor);
        LastUnique(bars, portfolio[i].timestamp, cursor);
      } else {
        assert cursor == 0;
        AllLater(bars, portfolio[i].timestamp);
      }
    }
  }

  lemma CursorIsLast(bars: seq<Bar>, t: int, cursor: nat)
    requires cursor < |bars| && StrictlyIncreasing(bars) && bars[cursor].timestamp <= t
    requires cursor + 1 < |bars| ==> bars[cursor + 1].timestamp > t
    ensures LastBy(bars, t, cursor)
  {
    forall j | cursor < j < |bars| ensures bars[j].timestamp > t {
      assert bars[cursor + 1].timestamp <= bars[j].timestamp;
    }
  }

  lemma AllLater(bars: seq<Bar>, t: int)
    requires bars != [] && StrictlyIncreasing(bars) && bars[0].timestamp > t
    ensures NoneBy(bars, t) && forall k :: !LastBy(bars, t, k)
  {
  }

  lemma LastUnique(bars: seq<Bar>, t: int, k: int)
    requires LastBy(bars, t, k)
    ensures forall l :: LastBy(bars, t, l) ==> l == k
  {
    forall l | LastBy(bars, t, l) ensures l == k {
      assert bars[l].timestamp <= t && bars[k].timestamp <= t;
    }
  }

  /** The lookup determines the series: at every instant either no bar qualifies or exactly one is last. */
  lemma {:induction false} LookupTotal(bars: seq<Bar>, t: int)
    ensures NoneBy(bars, t) || exists k :: LastBy(bars, t, k)
    ensures forall k, l :: LastBy(bars, t, k) && LastBy(bars, t, l) ==> k == l
    decreases |bars|
  {
    if bars != [] && bars[|bars| - 1].timestamp > t {
      var init := bars[..|bars| - 1];
      LookupTotal(init, t);
      if k :| LastBy(init, t, k) {
        assert LastBy(bars, t, k);
      }
    } else if bars != [] {
      assert LastBy(bars, t, |bars| - 1);
    }
  }
}
