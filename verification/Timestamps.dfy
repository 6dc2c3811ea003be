/**
  The text the store writes for an instant (RFC 3339 with a trimmed nanosecond fraction, always UTC)
  and SQLite's binary collation on it. Every ordering decision of the store (which row is due, which
  row is oldest, which history point survives) is made on this text, not on the instant.
 */
module Timestamps {
  import opened Decimals

  // ---- instants -----------------------------------------------------------------------------

  datatype Instant = Instant(year: nat, month: nat, day: nat, hour: nat, minute: nat, second: nat, nano: nat)

  predicate Leap(y: nat) {
    y % 4 == 0 && (y % 100 != 0 || y % 400 == 0)
  }

  function DaysIn(y: nat, m: nat): nat {
    if m == 2 then (if Leap(y) then 29 else 28)
    else if m in {4, 6, 9, 11} then 30
    else 31
  }

  /** A UTC calendar reading with a four-digit year. */
  predicate Valid(t: Instant) {
    && t.year <= 9999
    && 1 <= t.month <= 12
    && 1 <= t.day <= DaysIn(t.year, t.month)
    && t.hour < 24 && t.minute < 60 && t.second < 60
    && t.nano < 1_000_000_000
  }

  /** Days from 0000-01-01 to the first day of year y. */
  function DaysBeforeYear(y: nat): nat {
    if y == 0 then 0 else DaysBeforeYear(y - 1) + (if Leap(y - 1) then 366 else 365)
  }

  /** Days from the first day of year y to the first day of month m of that year. */
  function DaysBeforeMonth(y: nat, m: nat): nat {
    if m <= 1 then 0 else DaysBeforeMonth(y, m - 1) + DaysIn(y, m - 1)
  }

  /** Whole seconds since 0000-01-01T00:00:00Z (proleptic Gregorian, no leap seconds). */
  function Seconds(t: Instant): int {
    (((DaysBeforeYear(t.year) + DaysBeforeMonth(t.year, t.month) + t.day - 1) * 24 + t.hour) * 60 + t.minute) * 60 +
        t.second
  }

  /** Nanoseconds since 0000-01-01T00:00:00Z: the instant itself. */
  function Nanos(t: Instant): int {
    Seconds(t) * 1_000_000_000 + t.nano
  }

  // ---- text ---------------------------------------------------------------------------------

  /** n in decimal, zero-padded to exactly w digits (the low w digits of n). */
  function Padded(w: nat, n: nat): (s: string)
    ensures |s| == w
    ensures forall i :: 0 <= i < w ==> '0' <= s[i] <= '9'
    decreases w
  {
    if w == 0 then "" else Padded(w - 1, n / 10) + [('0' as int + n % 10) as char]
  }

  function TrimZeros(s: string): (r: string)
    ensures r <= s
    ensures forall i :: |r| <= i < |s| ==> s[i] == '0'
    ensures r == [] || r[|r| - 1] != '0'
  {
    if s != [] && s[|s| - 1] == '0' then TrimZeros(s[..|s| - 1]) else s
  }

  /** Fraction digits as printed: nine digits with trailing zeros removed, nothing for a whole second. */
  function Fraction(nano: nat): string {
    TrimZeros(Padded(9, nano))
  }

  function Tail(nano: nat): string {
    (if Fraction(nano) == "" then "" else "." + Fraction(nano)) + "Z"
  }

  /** Three numbers of fixed width with a mark between them. */
  function Joined(w: nat, mark: string, a: nat, b: nat, c: nat): string {
    Padded(w, a) + (mark + (Padded(2, b) + (mark + Padded(2, c))))
  }

  function DateText(t: Instant): string {
    Joined(4, "-", t.year, t.month, t.day)
  }

  function ClockText(t: Instant): string {
    Joined(2, ":", t.hour, t.minute, t.second)
  }

  /** utc(): time.RFC3339Nano in UTC. */
  function Utc(t: Instant): string {
    DateText(t) + ("T" + (ClockText(t) + Tail(t.nano)))
  }

  /** SQLite's BINARY collation on TEXT: bytewise, a proper prefix sorts first. */
  predicate TextLess(a: string, b: string) {
    if b == "" then false
    else if a == "" then true
    else a[0] < b[0] || (a[0] == b[0] && TextLess(a[1..], b[1..]))
  }

  predicate TextLeq(a: string, b: string) {
    a == b || TextLess(a, b)
  }

  predicate ProperPrefix(a: string, b: string) {
    a < b
  }

  // ---- the collation is a strict total order ------------------------------------------------

  lemma {:induction false} TextTotal(a: string, b: string)
    ensures TextLess(a, b) || TextLess(b, a) || a == b
    ensures !(TextLess(a, b) && TextLess(b, a))
    ensures !TextLess(a, a)
  {
    if a != "" {
      TextTotal(a[1..], if b == "" then "" else b[1..]);
      assert a == [a[0]] + a[1..];
      assert b == "" || b == [b[0]] + b[1..];
    }
  }

  lemma {:induction false} TextTransitive(a: string, b: string, c: string)
    requires TextLeq(a, b) && TextLeq(b, c)
    ensures TextLeq(a, c)
    ensures TextLess(a, b) || TextLess(b, c) ==> TextLess(a, c)
  {
    if TextLess(a, b) && TextLess(b, c) && a != "" {
      if a[0] == b[0] == c[0] {
        TextTransitive(a[1..], b[1..], c[1..]);
        TextTotal(a[1..], c[1..]);
        TextTotal(a[1..], b[1..]);
      }
    }
  }

  /** A common-length first field decides, and only a tie looks further. */
  lemma {:induction false} TextFirstField(p: string, x: string, q: string, y: string)
    requires |p| == |q|
    ensures TextLess(p + x, q + y) <==> TextLess(p, q) || (p == q && TextLess(x, y))
  {
    if p == "" {
      assert p + x == x && q + y == y;
    } else {
      TextFirstField(p[1..], x, q[1..], y);
      assert (p + x)[1..] == p[1..] + x && (q + y)[1..] == q[1..] + y;
      assert p == [p[0]] + p[1..] && q == [q[0]] + q[1..];
    }
  }

  function Pow10(w: nat): (p: nat)
    ensures p > 0
  {
    if w == 0 then 1 else 10 * Pow10(w - 1)
  }

  /** Zero-padded numbers of one width sort as numbers, and distinct ones print differently. */
  lemma {:induction false} PaddedOrder(w: nat, a: nat, b: nat)
    requires a < Pow10(w) && b < Pow10(w)
    ensures TextLess(Padded(w, a), Padded(w, b)) <==> a < b
    ensures Padded(w, a) == Padded(w, b) <==> a == b
  {
    if w > 0 {
      PaddedOrder(w - 1, a / 10, b / 10);
      var p, q := Padded(w - 1, a / 10), Padded(w - 1, b / 10);
      var x, y := [('0' as int + a % 10) as char], [('0' as int + b % 10) as char];
      TextFirstField(p, x, q, y);
      assert x[1..] == "" && y[1..] == "";
      assert TextLess(x, y) <==> a % 10 < b % 10;
      assert Padded(w, a)[..w - 1] == p && Padded(w, b)[..w - 1] == q;
      assert Padded(w, a)[w - 1] == x[0] && Padded(w, b)[w - 1] == y[0];
    }
  }

  lemma {:induction false} PaddedReads(w: nat, n: nat)
    requires n < Pow10(w)
    ensures Digits(Padded(w, n)) && |Padded(w, n)| == w && Decimal(Padded(w, n)) == n
  {
    if w > 0 {
      PaddedReads(w - 1, n / 10);
      assert Padded(w, n)[..w - 1] == Padded(w - 1, n / 10);
    }
  }

  lemma TenTimes(d: nat, n: nat)
    ensures d * Pow10(n + 1) == 10 * (d * Pow10(n))
  {
    assert Pow10(n + 1) == 10 * Pow10(n);
  }

  /** Trailing zeros of a fraction do not count. */
  lemma {:induction false} TrimmedReads(s: string)
    requires Digits(s)
    ensures Digits(TrimZeros(s)) && Decimal(s) == Decimal(TrimZeros(s)) * Pow10(|s| - |TrimZeros(s)|)
  {
    if s != [] && s[|s| - 1] == '0' {
      TrimmedReads(s[..|s| - 1]);
      TenTimes(Decimal(TrimZeros(s)), |s| - 1 - |TrimZeros(s)|);
    }
  }

  /** The fields of a text; frac is empty when there is no point. */
  datatype Reading = Reading(year: string, month: string, day: string, hour: string, minute: string, second: string,
                             frac: string)
  {
    function Text(): string {
      (year + ("-" + (month + ("-" + day)))) + ("T" + ((hour + (":" + (minute + (":" + second)))) + Ending()))
    }

    function Ending(): string {
      (if frac == "" then "" else "." + frac) + "Z"
    }
  }

  /** w digits that stand for n. */
  predicate Reads(s: string, w: nat, n: nat) {
    Digits(s) && |s| == w && Decimal(s) == n
  }

  /** Up to nine fraction digits that stand for n nanoseconds, the last of them not zero. */
  predicate ReadsFraction(s: string, n: nat) {
    && Digits(s) && |s| <= 9 && Decimal(s) * Pow10(9 - |s|) == n
    && (s != "" ==> s[|s| - 1] != '0')
  }

  /**
    Theorem: the stored text is the RFC 3339 reading of the instant, field by field, with as many of nine
    fraction digits as are needed and no point without one.
   */
  lemma UtcReads(t: Instant) returns (r: Reading)
    requires Valid(t)
    ensures Utc(t) == r.Text()
    ensures Reads(r.year, 4, t.year) && Reads(r.month, 2, t.month) && Reads(r.day, 2, t.day)
    ensures Reads(r.hour, 2, t.hour) && Reads(r.minute, 2, t.minute) && Reads(r.second, 2, t.second)
    ensures ReadsFraction(r.frac, t.nano)
  {
    var year, month, day := JoinedReads(4, "-", t.year, t.month, t.day);
    var hour, minute, second := JoinedReads(2, ":", t.hour, t.minute, t.second);
    var frac := FractionReads(t.nano);
    r := Reading(year, month, day, hour, minute, second, frac);
  }

  lemma JoinedReads(w: nat, mark: string, a: nat, b: nat, c: nat) returns (x: string, y: string, z: string)
    requires w in {2, 4} && a < (if w == 2 then 100 else 10000) && b < 100 && c < 100
    ensures Joined(w, mark, a, b, c) == x + (mark + (y + (mark + z)))
    ensures Reads(x, w, a) && Reads(y, 2, b) && Reads(z, 2, c)
  {
    Widths();
    PaddedReads(w, a);
    PaddedReads(2, b);
    PaddedReads(2, c);
    x, y, z := Padded(w, a), Padded(2, b), Padded(2, c);
  }

  lemma FractionReads(nano: nat) returns (frac: string)
    requires nano < 1_000_000_000
    ensures Tail(nano) == (if frac == "" then "" else "." + frac) + "Z"
    ensures ReadsFraction(frac, nano)
  {
    NanoWidth();
    PaddedReads(9, nano);
    TrimmedReads(Padded(9, nano));
    frac := Fraction(nano);
  }

  // ---- calendar order -----------------------------------------------------------------------

  lemma {:induction false} YearsAdvance(y: nat, z: nat)
    requires y < z
    ensures DaysBeforeYear(y) + (if Leap(y) then 366 else 365) <= DaysBeforeYear(z)
  {
    if y + 1 < z { YearsAdvance(y, z - 1); }
  }

  lemma {:induction false} MonthsAdvance(y: nat, m: nat, n: nat)
    requires 1 <= m < n
    ensures DaysBeforeMonth(y, m) + DaysIn(y, m) <= DaysBeforeMonth(y, n)
  {
    if m + 1 < n { MonthsAdvance(y, m, n - 1); }
  }

  lemma YearLength(y: nat)
    ensures DaysBeforeMonth(y, 13) == if Leap(y) then 366 else 365
  {
    assert DaysBeforeMonth(y, 2) == 31;
    assert DaysBeforeMonth(y, 3) == 31 + DaysIn(y, 2);
    assert DaysBeforeMonth(y, 5) == 92 + DaysIn(y, 2);
    assert DaysBeforeMonth(y, 7) == 153 + DaysIn(y, 2);
    assert DaysBeforeMonth(y, 9) == 215 + DaysIn(y, 2);
    assert DaysBeforeMonth(y, 11) == 276 + DaysIn(y, 2);
  }

  /** Theorem: years are Gregorian, a leap day every fourth but for centuries not divisible by 400. */
  lemma {:induction false} YearsExact(y: nat)
    ensures DaysBeforeYear(y) == 365 * y + (y + 3) / 4 - (y + 99) / 100 + (y + 399) / 400
  {
    if y > 0 {
      YearsExact(y - 1);
      MultiplesBelow(y - 1, 4);
      MultiplesBelow(y - 1, 100);
      MultiplesBelow(y - 1, 400);
      if (y - 1) % 400 == 0 { FourCenturiesAreCenturies(y - 1); }
      if (y - 1) % 100 == 0 { CenturiesAreFourths(y - 1); }
    }
  }

  /** Rounding up counts the multiples of d below. */
  lemma MultiplesBelow(x: nat, d: nat)
    requires d == 4 || d == 100 || d == 400
    ensures (x + d) / d == (x + d - 1) / d + if x % d == 0 then 1 else 0
  {
    if d == 4 {
      assert (x + 4) / 4 == (x + 3) / 4 + if x % 4 == 0 then 1 else 0;
    } else if d == 100 {
      assert (x + 100) / 100 == (x + 99) / 100 + if x % 100 == 0 then 1 else 0;
    }
  }

  lemma CenturiesAreFourths(y: nat)
    requires y % 100 == 0
    ensures y % 4 == 0
  {
    FourTimes(y, 25 * (y / 100));
  }

  lemma FourTimes(x: nat, q: nat)
    requires x == 4 * q
    ensures x % 4 == 0
  {
  }

  lemma FourCenturiesAreCenturies(y: nat)
    requires y % 400 == 0
    ensures y % 100 == 0
  {
    HundredTimes(y, 4 * (y / 400));
  }

  lemma HundredTimes(x: nat, q: nat)
    requires x == 100 * q
    ensures x % 100 == 0
  {
  }

  /** Theorem: and so are the months, by the usual closed form counted from March. */
  lemma MonthsExact(y: nat, m: nat)
    requires 1 <= m <= 12
    ensures m <= 2 ==> DaysBeforeMonth(y, m) == 31 * (m - 1)
    ensures m >= 3 ==> DaysBeforeMonth(y, m) == (if Leap(y) then 60 else 59) + (153 * (m - 3) + 2) / 5
  {
    assert DaysBeforeMonth(y, 2) == 31;
    assert DaysBeforeMonth(y, 3) == 31 + DaysIn(y, 2);
    assert DaysBeforeMonth(y, 5) == 92 + DaysIn(y, 2);
    assert DaysBeforeMonth(y, 7) == 153 + DaysIn(y, 2);
    assert DaysBeforeMonth(y, 9) == 215 + DaysIn(y, 2);
    assert DaysBeforeMonth(y, 11) == 276 + DaysIn(y, 2);
  }

  function DayNumber(t: Instant): int {
    DaysBeforeYear(t.year) + DaysBeforeMonth(t.year, t.month) + t.day - 1
  }

  predicate DateLess(a: Instant, b: Instant) {
    a.year < b.year || (a.year == b.year && (a.month < b.month || (a.month == b.month && a.day < b.day)))
  }

  predicate ClockLess(a: Instant, b: Instant) {
    a.hour < b.hour || (a.hour == b.hour && (a.minute < b.minute || (a.minute == b.minute && a.second < b.second)))
  }

  predicate SameDate(a: Instant, b: Instant) {
    a.year == b.year && a.month == b.month && a.day == b.day
  }

  predicate SameSecond(a: Instant, b: Instant) {
    SameDate(a, b) && a.hour == b.hour && a.minute == b.minute && a.second == b.second
  }

  lemma DateLessIsEarlierDay(a: Instant, b: Instant)
    requires Valid(a) && Valid(b) && DateLess(a, b)
    ensures DayNumber(a) < DayNumber(b)
  {
    if a.year < b.year {
      YearsAdvance(a.year, b.year);
      YearLength(a.year);
      MonthsAdvance(a.year, a.month, 13);
    } else if a.month < b.month {
      MonthsAdvance(a.year, a.month, b.month);
    }
  }

  /** The calendar reading determines and orders the second. */
  lemma SecondsOrder(a: Instant, b: Instant)
    requires Valid(a) && Valid(b)
    ensures Seconds(a) < Seconds(b) <==> DateLess(a, b) || (SameDate(a, b) && ClockLess(a, b))
    ensures Seconds(a) == Seconds(b) <==> SameSecond(a, b)
  {
    if DateLess(a, b) { DateLessIsEarlierDay(a, b); }
    if DateLess(b, a) { DateLessIsEarlierDay(b, a); }
    var da, db := DayNumber(a), DayNumber(b);
    assert Seconds(a) == da * 86400 + a.hour * 3600 + a.minute * 60 + a.second;
    assert Seconds(b) == db * 86400 + b.hour * 3600 + b.minute * 60 + b.second;
  }

  function NextDay(t: Instant): Instant
    requires Valid(t) && t.year < 9999
  {
    if t.day < DaysIn(t.year, t.month) then t.(day := t.day + 1)
    else if t.month < 12 then t.(month := t.month + 1, day := 1)
    else t.(year := t.year + 1, month := 1, day := 1)
  }

  lemma NextDayAdvances(t: Instant)
    requires Valid(t) && t.year < 9999
    ensures Valid(NextDay(t)) && DayNumber(NextDay(t)) == DayNumber(t) + 1
  {
    YearLength(t.year);
  }

  /** time.Now().Add(d seconds), for delays shorter than a minute. */
  function AddSeconds(t: Instant, d: nat): (u: Instant)
    requires Valid(t) && t.year < 9999 && d < 60
    ensures Valid(u) && Nanos(u) == Nanos(t) + d * 1_000_000_000
  {
    if t.second + d < 60 then t.(second := t.second + d)
    else if t.minute < 59 then t.(second := t.second + d - 60, minute := t.minute + 1)
    else if t.hour < 23 then t.(second := t.second + d - 60, minute := 0, hour := t.hour + 1)
    else
      NextDayAdvances(t);
      NextDay(t).(second := t.second + d - 60, minute := 0, hour := 0)
  }

  // ---- text order against time order --------------------------------------------------------

  lemma DateTextOrder(a: Instant, b: Instant)
    requires Valid(a) && Valid(b)
    ensures |DateText(a)| == |DateText(b)|
    ensures TextLess(DateText(a), DateText(b)) <==> DateLess(a, b)
    ensures DateText(a) == DateText(b) <==> SameDate(a, b)
  {
    Widths();
    ThreeFields(4, "-", a.year, a.month, a.day, b.year, b.month, b.day);
  }

  lemma ClockTextOrder(a: Instant, b: Instant)
    requires Valid(a) && Valid(b)
    ensures |ClockText(a)| == |ClockText(b)|
    ensures TextLess(ClockText(a), ClockText(b)) <==> ClockLess(a, b)
    ensures ClockText(a) == ClockText(b) <==> a.hour == b.hour && a.minute == b.minute && a.second == b.second
  {
    Widths();
    ThreeFields(2, ":", a.hour, a.minute, a.second, b.hour, b.minute, b.second);
  }

  lemma Widths()
    ensures Pow10(2) == 100 && Pow10(4) == 10000
  {
  }

  lemma ThreeFields(w: nat, mark: string, a: nat, b: nat, c: nat, x: nat, y: nat, z: nat)
    requires 2 <= w <= 4 && a < Pow10(w) && x < Pow10(w)
    requires b < Pow10(2) && c < Pow10(2) && y < Pow10(2) && z < Pow10(2)
    ensures |Joined(w, mark, a, b, c)| == |Joined(w, mark, x, y, z)|
    ensures TextLess(Joined(w, mark, a, b, c), Joined(w, mark, x, y, z)) <==>
              a < x || (a == x && (b < y || (b == y && c < z)))
    ensures Joined(w, mark, a, b, c) == Joined(w, mark, x, y, z) <==> a == x && b == y && c == z
  {
    var p, q := mark + Padded(2, c), mark + Padded(2, z);
    TwoFields(w, a, mark + (Padded(2, b) + p), x, mark + (Padded(2, y) + q));
    SkipMark(mark, Padded(2, b) + p, Padded(2, y) + q);
    TwoFields(2, b, p, y, q);
    SkipMark(mark, Padded(2, c), Padded(2, z));
    PaddedOrder(2, c, z);
  }

  lemma TwoFields(w: nat, a: nat, x: string, b: nat, y: string)
    requires 2 <= w <= 4 && a < Pow10(w) && b < Pow10(w)
    ensures TextLess(Padded(w, a) + x, Padded(w, b) + y) <==> a < b || (a == b && TextLess(x, y))
    ensures Padded(w, a) + x == Padded(w, b) + y <==> a == b && x == y
  {
    PaddedOrder(w, a, b);
    TextFirstField(Padded(w, a), x, Padded(w, b), y);
    assert (Padded(w, a) + x)[..w] == Padded(w, a) && (Padded(w, a) + x)[w..] == x;
    assert (Padded(w, b) + y)[..w] == Padded(w, b) && (Padded(w, b) + y)[w..] == y;
  }

  lemma SkipMark(mark: string, x: string, y: string)
    ensures TextLess(mark + x, mark + y) <==> TextLess(x, y)
    ensures mark + x == mark + y <==> x == y
  {
    TextFirstField(mark, x, mark, y);
    TextTotal(mark, mark);
    assert (mark + x)[|mark|..] == x && (mark + y)[|mark|..] == y;
  }

  /** The stored text decomposes into date, clock reading and fraction. */
  lemma UtcOrder(a: Instant, b: Instant)
    requires Valid(a) && Valid(b)
    ensures TextLess(Utc(a), Utc(b)) <==>
            Seconds(a) < Seconds(b) || (Seconds(a) == Seconds(b) && TextLess(Tail(a.nano), Tail(b.nano)))
  {
    DateTextOrder(a, b);
    ClockTextOrder(a, b);
    SecondsOrder(a, b);
    var ra, rb := ClockText(a) + Tail(a.nano), ClockText(b) + Tail(b.nano);
    TextFirstField(DateText(a), "T" + ra, DateText(b), "T" + rb);
    SkipMark("T", ra, rb);
    TextFirstField(ClockText(a), Tail(a.nano), ClockText(b), Tail(b.nano));
  }

  /** Theorem: instants in different seconds sort as text exactly as they sort in time. */
  lemma TextOrderAcrossSeconds(a: Instant, b: Instant)
    requires Valid(a) && Valid(b) && Seconds(a) != Seconds(b)
    ensures TextLess(Utc(a), Utc(b)) <==> Nanos(a) < Nanos(b)
  {
    UtcOrder(a, b);
  }

  /** next_attempt_at<=now does not hold while the clock is in an earlier second. */
  lemma LaterSecondNotReached(next: Instant, now: Instant)
    requires Valid(next) && Valid(now) && Seconds(now) < Seconds(next)
    ensures !TextLeq(Utc(next), Utc(now))
  {
    TextOrderAcrossSeconds(now, next);
    TextTotal(Utc(now), Utc(next));
  }

  lemma ExtensionIsLater(n: nat, m: nat)
    requires n < 1_000_000_000 && m < 1_000_000_000
    requires ProperPrefix(Fraction(n), Fraction(m))
    ensures n < m
  {
    ExtendedTextLater(Padded(9, n), Padded(9, m));
    NanoWidth();
    PaddedOrder(9, n, m);
  }

  lemma ExtendedTextLater(x: string, y: string)
    requires |x| == |y| && ProperPrefix(TrimZeros(x), TrimZeros(y))
    requires forall i :: 0 <= i < |y| ==> '0' <= y[i] <= '9'
    ensures TextLess(x, y)
  {
    var f, g := TrimZeros(x), TrimZeros(y);
    LaterFrom(x, y, |f|, |g| - 1);
  }

  /** Equal up to k, then zeros against digits that are not all zero. */
  lemma LaterFrom(x: string, y: string, k: nat, j: nat)
    requires |x| == |y| && k <= j < |y| && x[..k] == y[..k] && y[j] > '0'
    requires forall i :: k <= i < |x| ==> x[i] == '0' && y[i] >= '0'
    ensures TextLess(x, y)
  {
    var u, v := x[k..], y[k..];
    ZerosFirst(u, v, j - k);
    assert x == x[..k] + u && y == x[..k] + v;
    SkipMark(x[..k], u, v);
  }

  lemma NanoWidth()
    ensures Pow10(9) == 1_000_000_000
  {
    assert Pow10(3) == 1_000;
    assert Pow10(6) == 1_000_000;
  }

  /** A fraction that extends another is later in time but sorts first, because 'Z' is above every digit. */
  lemma ExtensionSortsFirst(n: nat, m: nat)
    requires n < 1_000_000_000 && m < 1_000_000_000
    requires ProperPrefix(Fraction(n), Fraction(m))
    ensures n < m && TextLess(Tail(m), Tail(n)) && !TextLess(Tail(n), Tail(m))
  {
    ExtensionIsLater(n, m);
    var f, g := Fraction(n), Fraction(m);
    if f == "" {
      DecidedAt(Tail(m), Tail(n), 0);
    } else {
      var j := |f| + 1;
      assert Tail(n)[..j] == "." + f;
      assert Tail(m)[..j] == "." + g[..|f|];
      DecidedAt(Tail(m), Tail(n), j);
    }
    TextTotal(Tail(n), Tail(m));
  }

  lemma {:induction false} ZerosFirst(x: string, y: string, j: nat)
    requires |x| == |y| && j < |y| && y[j] > '0'
    requires forall i :: 0 <= i < |x| ==> x[i] == '0' && y[i] >= '0'
    ensures TextLess(x, y)
  {
    if y[0] == '0' { ZerosFirst(x[1..], y[1..], j - 1); }
  }

  /** The first place where two texts differ. */
  lemma {:induction false} FirstDifference(f: string, g: string) returns (j: nat)
    requires !(f <= g) && !(g <= f)
    ensures j < |f| && j < |g| && f[..j] == g[..j] && f[j] != g[j]
  {
    if f[0] != g[0] {
      j := 0;
    } else {
      assert f == [f[0]] + f[1..] && g == [g[0]] + g[1..];
      j := FirstDifference(f[1..], g[1..]);
      j := j + 1;
      assert f[..j] == [f[0]] + f[1..][..j - 1] && g[..j] == [g[0]] + g[1..][..j - 1];
    }
  }

  /** The first differing character decides the order of any two texts. */
  lemma DecidedAt(a: string, b: string, j: nat)
    requires j < |a| && j < |b| && a[..j] == b[..j] && a[j] != b[j]
    ensures TextLess(a, b) <==> a[j] < b[j]
  {
    assert a == a[..j] + a[j..] && b == a[..j] + b[j..];
    SkipMark(a[..j], a[j..], b[j..]);
  }

  lemma PrefixesDecide(f: string, x: string, g: string, y: string)
    requires f <= x && g <= y && !(f <= g) && !(g <= f)
    ensures TextLess("." + f + "Z", "." + g + "Z") <==> TextLess(x, y)
  {
    var j := FirstDifference(f, g);
    assert x[..j] == f[..j] && y[..j] == g[..j];
    DecidedAt(x, y, j);
    var u, v := "." + f + "Z", "." + g + "Z";
    assert u[..j + 1] == "." + f[..j] && v[..j + 1] == "." + g[..j];
    DecidedAt(u, v, j + 1);
  }

  lemma UnrelatedFractionsSort(n: nat, m: nat)
    requires n < 1_000_000_000 && m < 1_000_000_000
    requires !(Fraction(n) <= Fraction(m)) && !(Fraction(m) <= Fraction(n))
    ensures TextLess(Tail(n), Tail(m)) <==> n < m
  {
    PrefixesDecide(Fraction(n), Padded(9, n), Fraction(m), Padded(9, m));
    NanoWidth();
    PaddedOrder(9, n, m);
  }

  /** Equal fractions come only from equal nanosecond counts. */
  lemma FractionInjective(n: nat, m: nat)
    requires n < 1_000_000_000 && m < 1_000_000_000 && Fraction(n) == Fraction(m)
    ensures n == m
  {
    var x, y := Padded(9, n), Padded(9, m);
    assert x == y by {
      forall i | 0 <= i < 9 ensures x[i] == y[i] {
        if i < |Fraction(n)| { assert x[i] == Fraction(n)[i] == y[i]; }
      }
    }
    NanoWidth();
    PaddedOrder(9, n, m);
  }

  /**
    Theorem: two distinct instants of one second sort as text in their time order if and only if
    neither printed fraction is a proper prefix of the other.
   */
  lemma TextOrderWithinSecond(a: Instant, b: Instant)
    requires Valid(a) && Valid(b) && Seconds(a) == Seconds(b) && a.nano != b.nano
    ensures (TextLess(Utc(a), Utc(b)) <==> Nanos(a) < Nanos(b)) <==>
            !ProperPrefix(Fraction(a.nano), Fraction(b.nano)) && !ProperPrefix(Fraction(b.nano), Fraction(a.nano))
  {
    UtcOrder(a, b);
    var f, g := Fraction(a.nano), Fraction(b.nano);
    if f == g {
      FractionInjective(a.nano, b.nano);
    } else if f <= g {
      ExtensionSortsFirst(a.nano, b.nano);
    } else if g <= f {
      ExtensionSortsFirst(b.nano, a.nano);
    } else {
      UnrelatedFractionsSort(a.nano, b.nano);
    }
  }

  /** Distinct instants never share a text, so the store can tell them apart. */
  lemma UtcInjective(a: Instant, b: Instant)
    requires Valid(a) && Valid(b) && Utc(a) == Utc(b)
    ensures a == b
  {
    UtcOrder(a, b);
    UtcOrder(b, a);
    TextTotal(Utc(a), Utc(a));
    SecondsOrder(a, b);
    TextTotal(Tail(a.nano), Tail(b.nano));
    assert Tail(a.nano) == Tail(b.nano);
    var f, g := Fraction(a.nano), Fraction(b.nano);
    if f == "" || g == "" {
      assert |Tail(a.nano)| == 1 <==> f == "";
      assert |Tail(b.nano)| == 1 <==> g == "";
      assert f == g;
    } else {
      assert f == Tail(a.nano)[1..|f| + 1] && g == Tail(b.nano)[1..|g| + 1];
    }
    FractionInjective(a.nano, b.nano);
  }

  /**
    Whether a clock has reached a time: it is in a later second, or in the same second and reads the same,
    or reads later without extending the time's printed fraction, or is extended by it.
   */
  predicate Reached(t: Instant, clock: Instant) {
    || Seconds(t) < Seconds(clock)
    || (Seconds(t) == Seconds(clock)
        && (|| t.nano == clock.nano
            || ProperPrefix(Fraction(clock.nano), Fraction(t.nano))
            || (t.nano < clock.nano && !ProperPrefix(Fraction(t.nano), Fraction(clock.nano)))))
  }

  /** Theorem: a stored time compares as text to a clock reading exactly as Reached says. */
  lemma ReachedAsText(t: Instant, clock: Instant)
    requires Valid(t) && Valid(clock)
    ensures TextLeq(Utc(t), Utc(clock)) <==> Reached(t, clock)
  {
    if Seconds(t) != Seconds(clock) {
      AcrossSecondsReached(t, clock);
    } else if t.nano == clock.nano {
      SecondsOrder(t, clock);
      assert t == clock;
    } else {
      WithinSecondReached(t, clock);
    }
  }

  lemma AcrossSecondsReached(t: Instant, clock: Instant)
    requires Valid(t) && Valid(clock) && Seconds(t) != Seconds(clock)
    ensures TextLeq(Utc(t), Utc(clock)) <==> Seconds(t) < Seconds(clock)
  {
    TextOrderAcrossSeconds(t, clock);
    if Utc(t) == Utc(clock) {
      UtcInjective(t, clock);
    }
  }

  lemma WithinSecondReached(t: Instant, clock: Instant)
    requires Valid(t) && Valid(clock) && Seconds(t) == Seconds(clock) && t.nano != clock.nano
    ensures TextLeq(Utc(t), Utc(clock)) <==>
            ProperPrefix(Fraction(clock.nano), Fraction(t.nano))
            || (t.nano < clock.nano && !ProperPrefix(Fraction(t.nano), Fraction(clock.nano)))
  {
    TextOrderWithinSecond(t, clock);
    if Utc(t) == Utc(clock) {
      UtcInjective(t, clock);
    }
    if ProperPrefix(Fraction(clock.nano), Fraction(t.nano)) {
      ExtensionIsLater(clock.nano, t.nano);
    } else if ProperPrefix(Fraction(t.nano), Fraction(clock.nano)) {
      ExtensionIsLater(t.nano, clock.nano);
    }
  }

  /** The failing family is never empty: a whole second sorts after every later instant of that second. */
  lemma WholeSecondSortsLast(t: Instant, n: nat)
    requires Valid(t) && t.nano == 0 && 0 < n < 1_000_000_000
    ensures Nanos(t) < Nanos(t.(nano := n)) && TextLess(Utc(t.(nano := n)), Utc(t))
  {
    assert Fraction(0) == "" by { PaddedZero(9); }
    assert Fraction(n) != "" by {
      if Fraction(n) == Fraction(0) { FractionInjective(n, 0); }
    }
    ExtensionSortsFirst(0, n);
    UtcOrder(t.(nano := n), t);
  }

  lemma {:induction false} PaddedZero(w: nat)
    ensures forall i :: 0 <= i < w ==> Padded(w, 0)[i] == '0'
  {
    if w > 0 { PaddedZero(w - 1); }
  }
}
