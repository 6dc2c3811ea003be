/**
  MLP's degrees-minutes-seconds-hemisphere coordinates. Coordinates are exact reals, and the
  printed seconds are the whole number of thousandths they were split into.
 */
module Dmsh {
  import opened Decimals
  import opened Domain
  import opened Text
  import opened Timestamps
  import Gad

  // ---- the accepted pattern: (\d+) (\d+) (\d+(\.\d+)?)([NSEW]) ---------------------------------

  predicate Hemisphere(c: char) {
    c == 'N' || c == 'S' || c == 'E' || c == 'W'
  }

  /** A match of the pattern; frac is empty when there is no decimal point. */
  datatype Fields = Fields(deg: string, min: string, whole: string, frac: string, hemi: char) {

    predicate WellFormed() {
      && Digits(deg) && Digits(min) && Digits(whole) && Digits(frac)
      && deg != "" && min != "" && whole != "" && Hemisphere(hemi)
    }

    function Ending(): string {
      if frac == "" then [hemi] else "." + (frac + [hemi])
    }

    function Text(): string {
      deg + (" " + (min + (" " + (whole + Ending()))))
    }

    function Value(): real {
      var v := Decimal(deg) as real + Decimal(min) as real / 60.0
               + (Decimal(whole) as real + Decimal(frac) as real / Pow10(|frac|) as real) / 3600.0;
      if hemi == 'S' || hemi == 'W' then -v else v
    }
  }

  /** The longest leading run of digits, and what follows it. */
  function Number(s: string): (string, string) {
    if s == "" || !Digit(s[0]) then ("", s)
    else
      var (d, r) := Number(s[1..]);
      ([s[0]] + d, r)
  }

  function Split(s: string): Option<Fields> {
    var (deg, r1) := Number(s);
    if deg == "" || r1 == "" || r1[0] != ' ' then None
    else
      var (min, r2) := Number(r1[1..]);
      if min == "" || r2 == "" || r2[0] != ' ' then None else ReadSeconds(deg, min, r2[1..])
  }

  /** The seconds and the hemisphere. */
  function ReadSeconds(deg: string, min: string, s: string): Option<Fields> {
    var (whole, r) := Number(s);
    if whole == "" || r == "" then None
    else if r[0] != '.' then
      if |r| == 1 && Hemisphere(r[0]) then Some(Fields(deg, min, whole, "", r[0])) else None
    else
      var (frac, h) := Number(r[1..]);
      if frac != "" && |h| == 1 && Hemisphere(h[0]) then Some(Fields(deg, min, whole, frac, h[0])) else None
  }

  lemma {:induction false} NumberSplits(s: string)
    ensures var (d, r) := Number(s); s == d + r && Digits(d) && (r == "" || !Digit(r[0]))
  {
    if s != "" && Digit(s[0]) {
      NumberSplits(s[1..]);
    }
  }

  lemma {:induction false} NumberOf(d: string, r: string)
    requires Digits(d) && (r == "" || !Digit(r[0]))
    ensures Number(d + r) == (d, r)
  {
    if d == "" {
      assert d + r == r;
    } else {
      NumberOf(d[1..], r);
      assert (d + r)[1..] == d[1..] + r && d == [d[0]] + d[1..];
    }
  }

  lemma SplitMatches(s: string)
    requires Split(s).Some?
    ensures var f := Split(s).value; f.WellFormed() && f.Text() == s
  {
    var (deg, r1) := Number(s);
    NumberSplits(s);
    var (min, r2) := Number(r1[1..]);
    NumberSplits(r1[1..]);
    SecondsMatch(deg, min, r2[1..]);
    var f := Split(s).value;
    assert r2 == " " + (f.whole + f.Ending());
    assert r1 == " " + (min + r2);
  }

  lemma SecondsMatch(deg: string, min: string, s: string)
    requires ReadSeconds(deg, min, s).Some?
    ensures var f := ReadSeconds(deg, min, s).value;
            && f.deg == deg && f.min == min && f.whole != "" && Digits(f.whole) && Digits(f.frac) && Hemisphere(f.hemi)
            && f.whole + f.Ending() == s
  {
    var (whole, r) := Number(s);
    NumberSplits(s);
    if r[0] == '.' {
      NumberSplits(r[1..]);
      assert r == "." + r[1..];
    }
  }

  lemma SplitFinds(f: Fields)
    requires f.WellFormed()
    ensures Split(f.Text()) == Some(f)
  {
    var r2 := " " + (f.whole + f.Ending());
    var r1 := " " + (f.min + r2);
    NumberOf(f.deg, r1);
    assert r1[1..] == f.min + r2;
    NumberOf(f.min, r2);
    assert r2[1..] == f.whole + f.Ending();
    NumberOf(f.whole, f.Ending());
    if f.frac != "" {
      assert f.Ending()[1..] == f.frac + [f.hemi];
      NumberOf(f.frac, [f.hemi]);
    }
  }

  /** Theorem: the fields found are the pattern's only match, and none are found only when it has none. */
  lemma SplitExact(s: string, f: Fields)
    ensures Split(s) == Some(f) <==> f.WellFormed() && f.Text() == s
  {
    if Split(s) == Some(f) {
      SplitMatches(s);
    }
    if f.WellFormed() {
      SplitFinds(f);
    }
  }

  // ---- printing ----------------------------------------------------------------------------

  /** math.Round for a non-negative argument: to the nearest integer, halves up. */
  function Round(x: real): int {
    (x + 0.5).Floor
  }

  function MilliArcSeconds(v: real): (t: nat) {
    var a := if v < 0.0 then -v else v;
    Round(a * 3600.0 * 1000.0)
  }

  /** Degrees, minutes, seconds and thousandths, split off one rounded total. */
  function Parts(total: nat): (p: (nat, nat, nat, nat))
    ensures p.0 * 3_600_000 + p.1 * 60_000 + p.2 * 1000 + p.3 == total
    ensures p.1 < 60 && p.2 < 60 && p.3 < 1000
  {
    var deg := total / 3_600_000;
    var rem := total - deg * 3_600_000;
    var min := rem / 60_000;
    var left := rem - min * 60_000;
    (deg, min, left / 1000, left % 1000)
  }

  function Encode(v: real, positive: string, negative: string): string {
    var hemi := if v < 0.0 then negative else positive;
    var (deg, min, sec, milli) := Parts(MilliArcSeconds(v));
    Plain(deg) + (" " + (Plain(min) + (" " + (Plain(sec) + ("." + (Padded(3, milli) + hemi))))))
  }

  // ---- parsing ----------------------------------------------------------------------------

  function Decode(s: string): Option<real> {
    match Split(TrimSpace(s))
    case None => None
    case Some(f) => Some(f.Value())
  }

  /** Theorem: a coordinate is refused exactly when the pattern has no match in the trimmed text. */
  lemma DecodeAcceptsThePattern(s: string)
    ensures Decode(s).Some? <==> exists f: Fields :: f.WellFormed() && f.Text() == TrimSpace(s)
    ensures forall f: Fields :: f.WellFormed() && f.Text() == TrimSpace(s) ==> Decode(s) == Some(f.Value())
  {
    var t := TrimSpace(s);
    if Split(t).Some? {
      SplitMatches(t);
    }
    forall f: Fields | f.WellFormed() && f.Text() == t ensures Decode(s) == Some(f.Value()) {
      SplitFinds(f);
    }
  }

  // ---- inverse -----------------------------------------------------------------------------

  ghost predicate Letters(positive: string, negative: string) {
    (positive == "N" && negative == "S") || (positive == "E" && negative == "W")
  }

  function FieldsOf(p: (nat, nat, nat, nat), hemi: char): Fields {
    Fields(Plain(p.0), Plain(p.1), Plain(p.2), Padded(3, p.3), hemi)
  }

  lemma FieldsRead(p: (nat, nat, nat, nat), hemi: char)
    requires Hemisphere(hemi) && p.3 < 1000
    ensures var f := FieldsOf(p, hemi);
            && f.WellFormed() && |f.frac| == 3
            && Decimal(f.deg) == p.0 && Decimal(f.min) == p.1 && Decimal(f.whole) == p.2 && Decimal(f.frac) == p.3
  {
    assert Pow10(1) == 10 && Pow10(2) == 100 && Pow10(3) == 1000;
    PlainReads(p.0);
    PlainReads(p.1);
    PlainReads(p.2);
    PaddedReads(3, p.3);
  }

  lemma FieldsValue(p: (nat, nat, nat, nat), hemi: char)
    requires Hemisphere(hemi) && p.3 < 1000
    ensures var total := p.0 * 3_600_000 + p.1 * 60_000 + p.2 * 1000 + p.3;
            FieldsOf(p, hemi).Value() ==
                (if hemi == 'S' || hemi == 'W' then -(total as real) else total as real) / 3600000.0
  {
    FieldsRead(p, hemi);
    assert Pow10(1) == 10 && Pow10(2) == 100 && Pow10(3) == 1000;
  }

  lemma EncodeIsText(v: real, positive: string, negative: string)
    requires Letters(positive, negative)
    ensures var f := FieldsOf(Parts(MilliArcSeconds(v)), (if v < 0.0 then negative else positive)[0]);
            && Encode(v, positive, negative) == f.Text() && TrimSpace(f.Text()) == f.Text()
  {
    var hemi := if v < 0.0 then negative else positive;
    var p := Parts(MilliArcSeconds(v));
    assert [hemi[0]] == hemi;
    FieldsRead(p, hemi[0]);
    NothingToTrim(FieldsOf(p, hemi[0]));
  }

  lemma NothingToTrim(f: Fields)
    requires f.WellFormed()
    ensures TrimSpace(f.Text()) == f.Text()
  {
    var s := f.Text();
    assert s[0] == f.deg[0] && s[|s| - 1] == f.hemi;
  }

  /** Theorem: what is printed is a match of the pattern with minutes and seconds below 60. */
  lemma PrintedInRange(v: real, positive: string, negative: string)
    requires Letters(positive, negative)
    ensures var s := Encode(v, positive, negative);
            && Split(s).Some? && Split(s).value.Text() == s
            && Decimal(Split(s).value.min) < 60 && Decimal(Split(s).value.whole) < 60 && |Split(s).value.frac| == 3
  {
    var p := Parts(MilliArcSeconds(v));
    var hemi := (if v < 0.0 then negative else positive)[0];
    EncodeIsText(v, positive, negative);
    FieldsRead(p, hemi);
    SplitFinds(FieldsOf(p, hemi));
  }

  /** Theorem: parsing a printed coordinate gives it back to within half a milli-arcsecond. */
  lemma DecodeInvertsEncode(v: real, positive: string, negative: string)
    requires Letters(positive, negative)
    ensures var d := Decode(Encode(v, positive, negative));
            && d.Some? && -1.0 / 7200000.0 <= d.value - v <= 1.0 / 7200000.0
            && d.value == (if v < 0.0 then -(MilliArcSeconds(v) as real) else MilliArcSeconds(v) as real) / 3600000.0
  {
    var p := Parts(MilliArcSeconds(v));
    var hemi := (if v < 0.0 then negative else positive)[0];
    EncodeIsText(v, positive, negative);
    FieldsRead(p, hemi);
    SplitFinds(FieldsOf(p, hemi));
    FieldsValue(p, hemi);
  }

  /**
    Theorem: printing what a printed coordinate parses to gives the same text, unless it was a negative
    coordinate that rounded to zero, whose hemisphere letter changes.
   */
  lemma EncodeInvertsDecode(v: real, positive: string, negative: string)
    requires Letters(positive, negative)
    ensures var s := Encode(v, positive, negative);
            && Decode(s).Some?
            && (Encode(Decode(s).value, positive, negative) == s <==> !(v < 0.0 && MilliArcSeconds(v) == 0))
  {
    DecodeInvertsEncode(v, positive, negative);
    var w := Decode(Encode(v, positive, negative)).value;
    assert MilliArcSeconds(w) == MilliArcSeconds(v);
    var p := Parts(MilliArcSeconds(v));
    EncodeIsText(v, positive, negative);
    EncodeIsText(w, positive, negative);
    FieldsRead(p, positive[0]);
    FieldsRead(p, negative[0]);
    SplitFinds(FieldsOf(p, positive[0]));
    SplitFinds(FieldsOf(p, negative[0]));
  }

  /**
    Theorem: what is printed is degrees, minutes below 60, seconds below 60 and three decimals of them, which
    together are the coordinate's size to the nearest milli-arcsecond, then the letter of its sign.
   */
  lemma PrintedExactly(v: real, positive: string, negative: string) returns (f: Fields)
    requires Letters(positive, negative)
    ensures Encode(v, positive, negative) ==
            f.deg + (" " + (f.min + (" " + (f.whole + ("." + (f.frac + (if v < 0.0 then negative else positive)))))))
    ensures f.WellFormed() && |f.frac| == 3 && Decimal(f.min) < 60 && Decimal(f.whole) < 60
    ensures var total :=
              Decimal(f.deg) * 3_600_000 + Decimal(f.min) * 60_000 + Decimal(f.whole) * 1000 + Decimal(f.frac);
            total as real - 0.5 <= (if v < 0.0 then -v else v) * 3600000.0 < total as real + 0.5
  {
    var p := Parts(MilliArcSeconds(v));
    var hemi := if v < 0.0 then negative else positive;
    FieldsRead(p, hemi[0]);
    f := FieldsOf(p, hemi[0]);
  }

  /**
    Theorem: a match of the pattern is read as degrees, minutes and seconds with decimals, negative in the
    south and in the west.
   */
  lemma ReadExactly(f: Fields) returns (v: real)
    requires f.WellFormed()
    ensures Decode(f.Text()) == Some(v)
    ensures var size := Decimal(f.deg) as real + Decimal(f.min) as real / 60.0
                        + (Decimal(f.whole) as real + Decimal(f.frac) as real / Pow10(|f.frac|) as real) / 3600.0;
            v == if f.hemi == 'S' || f.hemi == 'W' then -size else size
  {
    FieldsDecode(f);
    v := f.Value();
  }

  lemma FieldsDecode(f: Fields)
    requires f.WellFormed()
    ensures Decode(f.Text()) == Some(f.Value())
  {
    NothingToTrim(f);
    SplitFinds(f);
  }

  // ---- printed GAD points ------------------------------------------------------------------

  /** Theorem: the printed latitude of a GAD point determines its 24-bit code, but for the sign of zero. */
  lemma LatitudeTextDeterminesCode(n: int, m: int)
    requires 0 <= n < 0x100_0000 && 0 <= m < 0x100_0000
    ensures Encode(Gad.LatitudeOf(n), "N", "S") == Encode(Gad.LatitudeOf(m), "N", "S")
            <==> n == m || (n % 0x80_0000 == 0 && m % 0x80_0000 == 0)
  {
    DecodeInvertsEncode(Gad.LatitudeOf(n), "N", "S");
    DecodeInvertsEncode(Gad.LatitudeOf(m), "N", "S");
    LatitudesApart(n, m);
  }

  lemma LatitudesApart(n: int, m: int)
    requires 0 <= n < 0x100_0000 && 0 <= m < 0x100_0000
    ensures Gad.LatitudeOf(n) == Gad.LatitudeOf(m) <==> n == m || (n % 0x80_0000 == 0 && m % 0x80_0000 == 0)
    ensures -0.00001 < Gad.LatitudeOf(n) - Gad.LatitudeOf(m) < 0.00001 ==> Gad.LatitudeOf(n) == Gad.LatitudeOf(m)
  {
    Gad.LatitudeOrder(n, m);
    var x := if n / 0x80_0000 != 0 then -(n % 0x80_0000) else n % 0x80_0000;
    var y := if m / 0x80_0000 != 0 then -(m % 0x80_0000) else m % 0x80_0000;
    assert Gad.LatitudeOf(n) == x as real * 90.0 / 8388608.0 && Gad.LatitudeOf(m) == y as real * 90.0 / 8388608.0;
    StepsApart(x, y);
  }

  lemma StepsApart(x: int, y: int)
    ensures -0.00001 < x as real * 90.0 / 8388608.0 - y as real * 90.0 / 8388608.0 < 0.00001 ==> x == y
  {
    assert x as real * 90.0 / 8388608.0 - y as real * 90.0 / 8388608.0 == (x - y) as real * 90.0 / 8388608.0;
  }

  /** Theorem: the printed longitude of a GAD point determines its 24-bit code. */
  lemma LongitudeTextDeterminesCode(n: int, m: int)
    requires 0 <= n < 0x100_0000 && 0 <= m < 0x100_0000
    ensures Encode(Gad.LongitudeOf(n), "E", "W") == Encode(Gad.LongitudeOf(m), "E", "W") <==> n == m
  {
    DecodeInvertsEncode(Gad.LongitudeOf(n), "E", "W");
    DecodeInvertsEncode(Gad.LongitudeOf(m), "E", "W");
    LongitudesApart(n, m);
  }

  lemma LongitudesApart(n: int, m: int)
    requires 0 <= n < 0x100_0000 && 0 <= m < 0x100_0000
    ensures Gad.LongitudeOf(n) == Gad.LongitudeOf(m) <==> n == m
    ensures -0.00001 < Gad.LongitudeOf(n) - Gad.LongitudeOf(m) < 0.00001 ==> n == m
  {
    Gad.LongitudeOrder(n, m);
  }
}
