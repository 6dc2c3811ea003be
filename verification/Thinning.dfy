/** QueryHistory's interval thinning: a greedy filter run in place over the slice it reads from. */
module Thinning {
  import opened Timestamps

  const MAX_DURATION: int := 0x7fff_ffff_ffff_ffff

  /** A fetched row: its instant in nanoseconds and what is drawn from it. */
  datatype Point = Point(at: int, shape: string)

  /** time.Time.Sub: the difference, saturated to the range of a Duration. */
  function Sub(t: int, u: int): int {
    if t - u > MAX_DURATION then MAX_DURATION
    else if t - u < -MAX_DURATION - 1 then -MAX_DURATION - 1
    else t - u
  }

  /** Greedy thinning of the rows in the order given. */
  function Thinned(rows: seq<Point>, gap: int): seq<Point> {
    if rows == [] then []
    else
      var kept, p := Thinned(rows[..|rows| - 1], gap), rows[|rows| - 1];
      if kept == [] || Sub(p.at, kept[|kept| - 1].at) >= gap then kept + [p] else kept
  }

  /** Each point is at least gap after every earlier one. */
  ghost predicate Spaced(s: seq<Point>, gap: int) {
    forall i, j :: 0 <= i < j < |s| ==> s[j].at - s[i].at >= gap
  }

  ghost predicate Chronological(s: seq<Point>) {
    forall i, j :: 0 <= i < j < |s| ==> s[i].at <= s[j].at
  }

  ghost predicate Subsequence(sub: seq<Point>, rows: seq<Point>)
    decreases |rows|
  {
    if sub == [] then true
    else if rows == [] then false
    else
      var init, last := rows[..|rows| - 1], rows[|rows| - 1];
      Subsequence(sub, init) || (sub[|sub| - 1] == last && Subsequence(sub[..|sub| - 1], init))
  }

  /**
    Theorem: whatever the row order, thinning keeps a subsequence that starts with the first row and
    whose points are at least the interval after one another; saturation of Sub never matters.
   */
  lemma {:induction false} ThinnedIsSpaced(rows: seq<Point>, gap: int)
    requires 0 < gap <= MAX_DURATION
    ensures Subsequence(Thinned(rows, gap), rows) && Spaced(Thinned(rows, gap), gap)
    ensures rows != [] ==> Thinned(rows, gap) != [] && Thinned(rows, gap)[0] == rows[0]
    ensures |Thinned(rows, gap)| <= |rows|
  {
    if rows != [] {
      ThinnedIsSpaced(rows[..|rows| - 1], gap);
      var t := Thinned(rows, gap);
      var kept := Thinned(rows[..|rows| - 1], gap);
      if t != kept { assert t[..|t| - 1] == kept; }
      if kept == [] || Sub(rows[|rows| - 1].at, kept[|kept| - 1].at) >= gap {
        SpacedGrows(kept, rows[|rows| - 1], gap);
      }
    }
  }

  lemma SpacedGrows(kept: seq<Point>, p: Point, gap: int)
    requires 0 < gap <= MAX_DURATION && Spaced(kept, gap)
    requires kept == [] || Sub(p.at, kept[|kept| - 1].at) >= gap
    ensures Spaced(kept + [p], gap)
  {
  }

  /** A subsequence of chronological rows ends no later than they do. */
  lemma {:induction false} EndsInRows(sub: seq<Point>, rows: seq<Point>)
    requires Subsequence(sub, rows) && sub != []
    ensures exists i :: 0 <= i < |rows| && rows[i] == sub[|sub| - 1]
    decreases |rows|
  {
    var init := rows[..|rows| - 1];
    if Subsequence(sub, init) {
      EndsInRows(sub, init);
      var i :| 0 <= i < |init| && init[i] == sub[|sub| - 1];
      assert rows[i] == sub[|sub| - 1];
    } else {
      assert rows[|rows| - 1] == sub[|sub| - 1];
    }
  }

  /** Greedy stays ahead: no spaced subsequence is longer, and none as long ends earlier. */
  lemma {:induction false} GreedyStaysAhead(rows: seq<Point>, sub: seq<Point>, gap: int)
    requires 0 < gap <= MAX_DURATION && Chronological(rows) && Subsequence(sub, rows) && Spaced(sub, gap)
    ensures |sub| <= |Thinned(rows, gap)|
    ensures sub != [] && |sub| == |Thinned(rows, gap)| ==> Thinned(rows, gap)[|sub| - 1].at <= sub[|sub| - 1].at
    decreases |rows|
  {
    if rows != [] && sub != [] {
      var init, x := rows[..|rows| - 1], rows[|rows| - 1];
      ThinnedIsSpaced(rows, gap);
      EndsInRows(Thinned(rows, gap), rows);
      if Subsequence(sub, init) {
        GreedyStaysAhead(init, sub, gap);
      } else {
        GreedyStaysAhead(init, sub[..|sub| - 1], gap);
      }
    }
  }

  /** Theorem: for rows in time order the result is as long as any spaced subsequence can be. */
  lemma ThinnedIsMaximum(rows: seq<Point>, sub: seq<Point>, gap: int)
    requires 0 < gap <= MAX_DURATION && Chronological(rows) && Subsequence(sub, rows) && Spaced(sub, gap)
    ensures |sub| <= |Thinned(rows, gap)|
  {
    GreedyStaysAhead(rows, sub, gap);
  }

  /** The thinning loop of QueryHistory, in place, followed by the limit; n is the length of the returned slice. */
  method ThinInPlace(all: array<Point>, gap: int, limit: int) returns (n: nat)
    requires gap <= MAX_DURATION
    modifies all
    ensures n <= all.Length
    ensures var out := if gap > 0 then Thinned(old(all[..]), gap) else old(all[..]);
            all[..n] == if 0 < limit < |out| then out[..limit] else out
  {
    n := all.Length;
    if gap > 0 {
      n := Compact(all, gap);
    }
    if limit > 0 && n > limit {
      n := limit;
    }
  }

  /** The write index n never passes the read index r, so every row is read before it is overwritten. */
  method Compact(all: array<Point>, gap: int) returns (n: nat)
    requires 0 < gap <= MAX_DURATION
    modifies all
    ensures n <= all.Length && all[..n] == Thinned(old(all[..]), gap)
  {
    ghost var rows := all[..];
    n := 0;
    var last := 0;
    for r := 0 to all.Length
      invariant Compacted(all, n, last, rows, r, gap)
    {
      n, last := Read(all, n, last, rows, r, gap);
    }
    assert rows[..all.Length] == rows;
  }

  /** The first r rows have been thinned into the first n places, the last of them at last; the rest is intact. */
  ghost predicate Compacted(all: array<Point>, n: nat, last: int, rows: seq<Point>, r: nat, gap: int)
    reads all
  {
    && n <= r <= all.Length == |rows|
    && all[r..] == rows[r..]
    && all[..n] == Thinned(rows[..r], gap)
    && (n > 0 ==> last == all[n - 1].at)
  }

  method Read(all: array<Point>, n: nat, last: int, ghost rows: seq<Point>, r: nat, gap: int)
    returns (n': nat, last': int)
    requires r < all.Length && Compacted(all, n, last, rows, r, gap)
    modifies all
    ensures Compacted(all, n', last', rows, r + 1, gap)
  {
    ThinnedNext(rows, r, gap);
    var p := all[r];
    assert p == rows[r] && all[r + 1..] == rows[r + 1..];
    if n == 0 || Sub(p.at, last) >= gap {
      Place(all, n, p);
      return n + 1, p.at;
    }
    return n, last;
  }

  method Place(all: array<Point>, n: nat, p: Point)
    requires n < all.Length
    modifies all
    ensures all[..n + 1] == old(all[..n]) + [p]
    ensures all[n + 1..] == old(all[n + 1..])
  {
    all[n] := p;
  }

  lemma ThinnedNext(rows: seq<Point>, r: nat, gap: int)
    requires r < |rows|
    ensures var kept := Thinned(rows[..r], gap);
            Thinned(rows[..r + 1], gap) ==
            if kept == [] || Sub(rows[r].at, kept[|kept| - 1].at) >= gap then kept + [rows[r]] else kept
  {
    assert rows[..r + 1][..r] == rows[..r];
  }

  // ---- ORDER BY recorded_at is by text ------------------------------------------------------

  ghost predicate TextSorted(ts: seq<Instant>) {
    && (forall i :: 0 <= i < |ts| ==> Valid(ts[i]))
    && (forall i, j :: 0 <= i < j < |ts| ==> InOrder(ts[i], ts[j]))
  }

  predicate InOrder(a: Instant, b: Instant) {
    TextLeq(Utc(a), Utc(b))
  }

  predicate Clash(a: Instant, b: Instant) {
    Seconds(a) == Seconds(b)
        && (ProperPrefix(Fraction(a.nano), Fraction(b.nano)) || ProperPrefix(Fraction(b.nano), Fraction(a.nano)))
  }

  ghost predicate TimeSorted(ts: seq<Instant>) {
    forall i, j :: 0 <= i < j < |ts| ==> Nanos(ts[i]) <= Nanos(ts[j])
  }

  lemma PairOrder(a: Instant, b: Instant)
    requires Valid(a) && Valid(b) && TextLeq(Utc(a), Utc(b))
    ensures Nanos(a) <= Nanos(b) <==> !Clash(a, b)
  {
    if Utc(a) == Utc(b) {
      UtcInjective(a, b);
    } else if Seconds(a) != Seconds(b) {
      TextOrderAcrossSeconds(a, b);
    } else {
      SecondsOrder(a, b);
      TextOrderWithinSecond(a, b);
    }
  }

  /**
    Theorem: the fetched rows, sorted by their stored text, are in time order if and only if no two of
    them fall in one second with one printed fraction a proper prefix of the other.
   */
  lemma FetchedInTimeOrder(ts: seq<Instant>)
    requires TextSorted(ts)
    ensures TimeSorted(ts) <==> forall i, j :: 0 <= i < j < |ts| ==> !Clash(ts[i], ts[j])
  {
    forall i, j | 0 <= i < j < |ts| ensures Nanos(ts[i]) <= Nanos(ts[j]) <==> !Clash(ts[i], ts[j]) {
      PairOrder(ts[i], ts[j]);
    }
  }

  function PointOf(t: Instant): Point {
    Point(Nanos(t), Utc(t))
  }

  /** The points a query thins: the fetched rows, in the order of their texts. */
  function Fetched(ts: seq<Instant>): seq<Point> {
    seq(|ts|, i requires 0 <= i < |ts| => PointOf(ts[i]))
  }

  /** No spaced subsequence of the rows is longer than what thinning keeps. */
  ghost predicate ThinsToMaximum(rows: seq<Point>, gap: int) {
    forall sub :: Subsequence(sub, rows) && Spaced(sub, gap) ==> |sub| <= |Thinned(rows, gap)|
  }

  /** Theorem: thinning what a query fetches keeps as many points as possible if no two of them clash. */
  lemma FetchedThinsToMaximum(ts: seq<Instant>, gap: int)
    requires 0 < gap <= MAX_DURATION && TextSorted(ts)
    requires forall i, j :: 0 <= i < j < |ts| ==> !Clash(ts[i], ts[j])
    ensures ThinsToMaximum(Fetched(ts), gap)
  {
    FetchedInTimeOrder(ts);
    forall sub | Subsequence(sub, Fetched(ts)) && Spaced(sub, gap) ensures |sub| <= |Thinned(Fetched(ts), gap)| {
      ThinnedIsMaximum(Fetched(ts), sub, gap);
    }
  }

  /** The condition is not necessary: two clashing rows alone are thinned as well as they can be, at any interval. */
  lemma ClashAloneThinsToMaximum(a: Instant, b: Instant, gap: int)
    requires Valid(a) && Valid(b) && Clash(a, b) && InOrder(a, b) && 0 < gap <= MAX_DURATION
    ensures ThinsToMaximum([PointOf(a), PointOf(b)], gap)
  {
    PairOrder(a, b);
    var rows := [PointOf(a), PointOf(b)];
    forall sub | Subsequence(sub, rows) && Spaced(sub, gap) ensures |sub| <= |Thinned(rows, gap)| {
      TwoRows(rows, sub, gap);
    }
  }

  lemma TwoRows(rows: seq<Point>, sub: seq<Point>, gap: int)
    requires |rows| == 2 && rows[1].at < rows[0].at && 0 < gap <= MAX_DURATION
    requires Subsequence(sub, rows) && Spaced(sub, gap)
    ensures |sub| <= |Thinned(rows, gap)|
  {
    ThinnedIsSpaced(rows, gap);
    NoLongerThanRows(sub, rows);
  }

  lemma {:induction false} NoLongerThanRows(sub: seq<Point>, rows: seq<Point>)
    requires Subsequence(sub, rows)
    ensures |sub| <= |rows| && (|sub| == |rows| ==> sub == rows)
    decreases |rows|
  {
    if sub != [] {
      var init := rows[..|rows| - 1];
      if Subsequence(sub, init) {
        NoLongerThanRows(sub, init);
      } else {
        NoLongerThanRows(sub[..|sub| - 1], init);
        assert sub == sub[..|sub| - 1] + [rows[|rows| - 1]];
      }
    }
  }

  /**
    Rows at t + 0.5 s, t and t + 1 s, fetched in that order for every whole second t: thinned to one-second
    spacing they leave one point although two of them are a second apart.
   */
  lemma ThinningMissesOnClash(t: Instant)
    requires Valid(t) && t.nano == 0 && t.second < 59
    ensures var half, next := t.(nano := 500_000_000), t.(second := t.second + 1);
            && InOrder(half, t) && InOrder(t, next) && Clash(half, t)
            && !ThinsToMaximum([PointOf(half), PointOf(t), PointOf(next)], 1_000_000_000)
  {
    var half, next := t.(nano := 500_000_000), t.(second := t.second + 1);
    ClashingTexts(t);
    ClashingTimes(t);
    PairOrder(half, t);
    MissedOne(PointOf(half), PointOf(t), PointOf(next), 1_000_000_000);
  }

  lemma MissedOne(a: Point, b: Point, c: Point, gap: int)
    requires Sub(b.at, a.at) < gap && Sub(c.at, a.at) < gap && c.at - b.at >= gap
    ensures !ThinsToMaximum([a, b, c], gap)
  {
    OnlyTheFirst(a, b, c, gap);
    TwoOfThree(a, b, c, gap);
  }

  lemma ClashingTexts(t: Instant)
    requires Valid(t) && t.nano == 0 && t.second < 59
    ensures InOrder(t.(nano := 500_000_000), t) && InOrder(t, t.(second := t.second + 1))
  {
    WholeSecondSortsLast(t, 500_000_000);
    TextOrderAcrossSeconds(t, t.(second := t.second + 1));
  }

  lemma ClashingTimes(t: Instant)
    requires Valid(t) && t.nano == 0
    ensures Nanos(t.(nano := 500_000_000)) == Nanos(t) + 500_000_000
    ensures Nanos(t.(second := t.second + 1)) == Nanos(t) + 1_000_000_000
  {
  }

  lemma TwoOfThree(a: Point, b: Point, c: Point, gap: int)
    requires c.at - b.at >= gap
    ensures Subsequence([b, c], [a, b, c]) && Spaced([b, c], gap)
  {
    assert [b, c][..1] == [b] && [b][..0] == [] && [a, b, c][..2] == [a, b];
    assert Subsequence([b], [a, b]);
  }

  lemma OnlyTheFirst(a: Point, b: Point, c: Point, gap: int)
    requires Sub(b.at, a.at) < gap && Sub(c.at, a.at) < gap
    ensures Thinned([a, b, c], gap) == [a]
  {
    assert [a][..0] == [] && [a, b][..1] == [a] && [a, b, c][..2] == [a, b];
    assert Thinned([a], gap) == [a];
    assert Thinned([a, b], gap) == [a];
  }
}
