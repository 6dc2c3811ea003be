/**
  Geographic area descriptions of clause 7.3 of 3GPP TS 23.032, decoded as internal/gad does. Coordinates
  are exact rationals: mag * 90 / 2^23 and raw * 360 / 2^24 are exact in float64 as well.
 */
module Gad {
  import opened Bytes
  import Uncertainty

  datatype Point = Point(latitude: real, longitude: real)

  datatype Ellipse = Ellipse(semiMajor: real, semiMinor: real, orientation: real, confidence: nat)

  datatype Shape =
    | EllipsoidPoint(point: Point)
    | UncertaintyCircle(point: Point, radius: real)
    | UncertaintyEllipse(point: Point, ellipse: Ellipse)
    | Polygon(points: seq<Point>)

  datatype Error = Empty | Unsupported | Length | Latitude | Longitude | Orientation | PolygonPoints

  datatype Outcome<+T> = Ok(value: T) | Err(error: Error)

  /** The three octets at an offset as one 24-bit code. */
  function Field(b: seq<Byte>, at: nat): (n: int)
    requires at + 3 <= |b|
    ensures 0 <= n < 0x100_0000
  {
    var high: int, middle: int, low: int := b[at], b[at + 1], b[at + 2];
    high * 0x1_0000 + middle * 0x100 + low
  }

  /** Sign and magnitude, in steps of 90/2^23 degrees. */
  function LatitudeOf(n: int): real
    requires 0 <= n < 0x100_0000
  {
    var degrees := (n % 0x80_0000) as real * 90.0 / 8388608.0;
    if n / 0x80_0000 != 0 then -degrees else degrees
  }

  /** Two's complement, in steps of 360/2^24 degrees. */
  function LongitudeOf(n: int): real
    requires 0 <= n < 0x100_0000
  {
    var raw := if n / 0x80_0000 != 0 then n - 0x100_0000 else n;
    raw as real * 360.0 / 16777216.0
  }

  function PointAt(b: seq<Byte>, at: nat): Point
    requires at + 6 <= |b|
  {
    Point(LatitudeOf(Field(b, at)), LongitudeOf(Field(b, at + 3)))
  }

  function DecodePoint(b: seq<Byte>): Outcome<Point>
    requires |b| == 6
  {
    var lat := LatitudeOf(Field(b, 0));
    if lat < -90.0 || lat > 90.0 then Err(Latitude)
    else
      var lon := LongitudeOf(Field(b, 3));
      if lon < -180.0 || lon > 180.0 then Err(Longitude) else Ok(Point(lat, lon))
  }

  /** Neither range error can be returned, whatever the octets. */
  lemma PointNeverFails(b: seq<Byte>, at: nat)
    requires at + 6 <= |b|
    ensures DecodePoint(b[at..at + 6]) == Ok(PointAt(b, at))
  {
    assert Field(b[at..at + 6], 0) == Field(b, at);
    assert Field(b[at..at + 6], 3) == Field(b, at + 3);
  }

  /**
    Theorem: a latitude code below 2^23 stands for the northern latitude whose code it is by rounding down
    X * 2^23 / 90, and the code 2^23 above it for the same latitude in the south.
   */
  lemma LatitudeMeaning(n: int)
    requires 0 <= n < 0x80_0000
    ensures var x := LatitudeOf(n);
            && 0.0 <= x < 90.0 && n == (x * 8388608.0 / 90.0).Floor
            && LatitudeOf(n + 0x80_0000) == -x
  {
    assert LatitudeOf(n) * 8388608.0 / 90.0 == n as real;
  }

  /**
    Theorem: a longitude code is the two's complement reading of X * 2^24 / 360 rounded down, so codes up to
    2^23 lie in the east, those from 2^23 on in the west, and longitude grows with the reading.
   */
  lemma LongitudeMeaning(n: int, m: int)
    requires 0 <= n < 0x100_0000 && 0 <= m < 0x100_0000
    ensures var x, raw := LongitudeOf(n), if n < 0x80_0000 then n else n - 0x100_0000;
            && -180.0 <= x < 180.0 && raw == (x * 16777216.0 / 360.0).Floor
            && (0 < n < 0x80_0000 ==> x > 0.0) && (n >= 0x80_0000 ==> x < 0.0) && (n == 0 ==> x == 0.0)
    ensures var a, b := if n < 0x80_0000 then n else n - 0x100_0000, if m < 0x80_0000 then m else m - 0x100_0000;
            a < b <==> LongitudeOf(n) < LongitudeOf(m)
  {
    var raw := if n < 0x80_0000 then n else n - 0x100_0000;
    assert LongitudeOf(n) * 16777216.0 / 360.0 == raw as real;
  }

  /**
    The point six octets at an offset stand for: a sign bit and a 23-bit magnitude in steps of 90/2^23
    degrees, then a 24-bit two's complement number in steps of 360/2^24 degrees.
   */
  ghost predicate Marks(p: Point, b: seq<Byte>, at: nat)
    requires at + 6 <= |b|
  {
    var b0: int, b1: int, b2: int := b[at], b[at + 1], b[at + 2];
    var b3: int, b4: int, b5: int := b[at + 3], b[at + 4], b[at + 5];
    var magnitude := b0 % 128 * 65536 + b1 * 256 + b2;
    var raw := b3 * 65536 + b4 * 256 + b5 - (if b3 < 128 then 0 else 16777216);
    && p.latitude * 8388608.0 == (if b0 < 128 then magnitude as real else -(magnitude as real)) * 90.0
    && p.longitude * 16777216.0 == raw as real * 360.0
  }

  lemma PointMarks(b: seq<Byte>, at: nat)
    requires at + 6 <= |b|
    ensures Marks(PointAt(b, at), b, at)
  {
    FieldParts(b, at);
    FieldParts(b, at + 3);
  }

  lemma FieldParts(b: seq<Byte>, at: nat)
    requires at + 3 <= |b|
    ensures var b0: int, b1: int, b2: int := b[at], b[at + 1], b[at + 2];
            && Field(b, at) % 0x80_0000 == b0 % 128 * 65536 + b1 * 256 + b2
            && (Field(b, at) / 0x80_0000 != 0 <==> b0 >= 128)
  {
  }

  /** What each supported shape must look like on the wire. */
  predicate WellFormed(data: seq<Byte>) {
    |data| > 0 &&
    match data[0] % 16
    case 0 => |data| == 7
    case 1 => |data| == 8
    case 3 => |data| == 11 && data[9] < 180
    case 5 => data[0] / 16 >= 3 && |data| == 1 + 6 * (data[0] / 16)
    case _ => false
  }

  /** Why anything else is refused; the first failing check in the order the decoder makes them. */
  function Refusal(data: seq<Byte>): Error
    requires !WellFormed(data)
  {
    if data == [] then Empty
    else if data[0] % 16 !in {0, 1, 3, 5} then Unsupported
    else if data[0] % 16 == 5 && data[0] / 16 < 3 then PolygonPoints
    else if data[0] % 16 == 3 && |data| == 11 then Orientation
    else Length
  }

  function Meaning(data: seq<Byte>): Shape
    requires WellFormed(data)
  {
    match data[0] % 16
    case 0 => EllipsoidPoint(PointAt(data, 1))
    case 1 => UncertaintyCircle(PointAt(data, 1), Uncertainty.Decode(data[7]))
    case 3 =>
      UncertaintyEllipse(PointAt(data, 1),
                         Ellipse(Uncertainty.Decode(data[7]), Uncertainty.Decode(data[8]), data[9] as real,
                             data[10] % 128))
    case _ => Polygon(Corners(data))
  }

  function Corners(data: seq<Byte>): seq<Point>
    requires |data| > 0 && |data| == 1 + 6 * (data[0] / 16)
  {
    seq(data[0] / 16, i requires 0 <= i < data[0] / 16 => PointAt(data, 1 + 6 * i))
  }

  /**
    Decode succeeds exactly on well-formed data, with the shape it stands for, and names the reason for
    every refusal: no input gives a latitude or longitude error.
   */
  method Decode(data: seq<Byte>) returns (r: Outcome<Shape>)
    ensures r == if WellFormed(data) then Ok(Meaning(data)) else Err(Refusal(data))
    ensures r.Ok? && !r.value.Polygon? ==> |data| >= 7 && Marks(r.value.point, data, 1)
    ensures data == [] ==> r == Err(Empty)
    ensures data != [] && data[0] % 16 == 0 && |data| == 7 ==> r.Ok? && r.value.EllipsoidPoint?
    ensures data != [] && data[0] % 16 == 1 && |data| == 8 ==> r.Ok? && r.value.UncertaintyCircle?
    ensures data != [] && data[0] % 16 == 3 && |data| == 11 && data[9] < 180 ==> r.Ok? && r.value.UncertaintyEllipse?
    ensures data != [] && data[0] % 16 == 5 && data[0] / 16 >= 3 && |data| == 1 + 6 * (data[0] / 16) ==>
              r.Ok? && r.value.Polygon?
    ensures data != [] && data[0] % 16 !in {0, 1, 3, 5} ==> r == Err(Unsupported)
  {
    if |data| == 0 {
      return Err(Empty);
    }
    PointMarksIf(data);
    match data[0] % 16
    case 0 => r := DecodeEllipsoidPoint(data);
    case 1 => r := DecodeCircle(data);
    case 3 => r := DecodeEllipse(data);
    case 5 => r := DecodePolygon(data);
    case _ => r := Err(Unsupported);
  }

  method DecodeEllipsoidPoint(data: seq<Byte>) returns (r: Outcome<Shape>)
    ensures r == if |data| == 7 then Ok(EllipsoidPoint(PointAt(data, 1))) else Err(Length)
    ensures |data| == 7 ==>
              var b0: int, b1: int, b2: int := data[1], data[2], data[3];
              var b3: int, b4: int, b5: int := data[4], data[5], data[6];
              var north := (b0 % 128 * 65536 + b1 * 256 + b2) as real * 90.0 / 8388608.0;
              var east := b3 * 65536 + b4 * 256 + b5;
              && r.value.point.latitude == (if b0 < 128 then north else -north)
              && r.value.point.longitude == (if b3 < 128 then east else east - 16777216) as real * 360.0 / 16777216.0
  {
    PointMarksIf(data);
    if |data| != 7 {
      return Err(Length);
    }
    PointNeverFails(data, 1);
    var p := DecodePoint(data[1..7]);
    match p
    case Err(e) => return Err(e);
    case Ok(point) => return Ok(EllipsoidPoint(point));
  }

  lemma PointMarksIf(data: seq<Byte>)
    ensures |data| >= 7 ==> Marks(PointAt(data, 1), data, 1)
  {
    if |data| >= 7 {
      PointMarks(data, 1);
    }
  }

  method DecodeCircle(data: seq<Byte>) returns (r: Outcome<Shape>)
    ensures r.Ok? ==> |data| == 8 && r.value.UncertaintyCircle? && Marks(r.value.point, data, 1)
    ensures r == if |data| == 8 then Ok(UncertaintyCircle(PointAt(data, 1), Uncertainty.Decode(data[7])))
            else Err(Length)
  {
    if |data| != 8 {
      return Err(Length);
    }
    PointMarks(data, 1);
    PointNeverFails(data, 1);
    var p := DecodePoint(data[1..7]);
    match p
    case Err(e) => return Err(e);
    case Ok(point) => return Ok(UncertaintyCircle(point, Uncertainty.Decode(data[7])));
  }

  method DecodeEllipse(data: seq<Byte>) returns (r: Outcome<Shape>)
    ensures r.Ok? ==> |data| == 11 && r.value.UncertaintyEllipse? && Marks(r.value.point, data, 1)
    ensures |data| != 11 ==> r == Err(Length)
    ensures |data| == 11 && data[9] >= 180 ==> r == Err(Orientation)
    ensures |data| == 11 && data[9] < 180 ==>
      r == Ok(UncertaintyEllipse(PointAt(data, 1),
                                 Ellipse(Uncertainty.Decode(data[7]), Uncertainty.Decode(data[8]), data[9] as real,
                                     data[10] % 128)))
  {
    if |data| != 11 {
      return Err(Length);
    }
    PointMarks(data, 1);
    PointNeverFails(data, 1);
    var p := DecodePoint(data[1..7]);
    match p
    case Err(e) => return Err(e);
    case Ok(point) =>
      var orientation := data[9] as real;
      if orientation >= 180.0 {
        return Err(Orientation);
      }
      var e := Ellipse(Uncertainty.Decode(data[7]), Uncertainty.Decode(data[8]), orientation, data[10] % 128);
      return Ok(UncertaintyEllipse(point, e));
  }

  lemma CornersMark(data: seq<Byte>)
    requires |data| > 0
    ensures |data| == 1 + 6 * (data[0] / 16) ==>
              && |Corners(data)| == data[0] / 16
              && forall i :: 0 <= i < |Corners(data)| ==> Marks(Corners(data)[i], data, 1 + 6 * i)
  {
    if |data| == 1 + 6 * (data[0] / 16) {
      forall i | 0 <= i < |Corners(data)| ensures Marks(Corners(data)[i], data, 1 + 6 * i) {
        PointMarks(data, 1 + 6 * i);
      }
    }
  }

  method DecodePolygon(data: seq<Byte>) returns (r: Outcome<Shape>)
    requires |data| > 0
    ensures data[0] / 16 < 3 ==> r == Err(PolygonPoints)
    ensures data[0] / 16 >= 3 && |data| != 1 + 6 * (data[0] / 16) ==> r == Err(Length)
    ensures data[0] / 16 >= 3 && |data| == 1 + 6 * (data[0] / 16) ==> r == Ok(Polygon(Corners(data)))
    ensures data[0] / 16 >= 3 && |data| == 1 + 6 * (data[0] / 16) ==>
              && |Corners(data)| == data[0] / 16
              && forall i :: 0 <= i < |Corners(data)| ==> Marks(Corners(data)[i], data, 1 + 6 * i)
  {
    CornersMark(data);
    var n: int := data[0] / 16;
    if n < 3 || n > 15 {
      return Err(PolygonPoints);
    }
    if |data| != 1 + 6 * n {
      return Err(Length);
    }
    var pts := new Point[n](_ => Point(0.0, 0.0));
    for i := 0 to n
      invariant forall j :: 0 <= j < i ==> pts[j] == PointAt(data, 1 + 6 * j)
    {
      PointNeverFails(data, 1 + 6 * i);
      var p := DecodePoint(data[1 + 6 * i..7 + 6 * i]);
      match p
      case Err(e) => return Err(e);
      case Ok(point) => pts[i] := point;
    }
    assert pts[..] == Corners(data);
    return Ok(Polygon(pts[..]));
  }

  // ---- which bits matter -------------------------------------------------------------------

  lemma LatitudeOrder(n: int, m: int)
    requires 0 <= n < 0x100_0000 && 0 <= m < 0x100_0000
    ensures LatitudeOf(n) == LatitudeOf(m) <==> n == m || (n % 0x80_0000 == 0 && m % 0x80_0000 == 0)
  {
  }

  lemma LongitudeOrder(n: int, m: int)
    requires 0 <= n < 0x100_0000 && 0 <= m < 0x100_0000
    ensures LongitudeOf(n) == LongitudeOf(m) <==> n == m
  {
  }

  lemma FieldOctets(a: seq<Byte>, b: seq<Byte>, at: nat)
    requires at + 3 <= |a| && at + 3 <= |b|
    ensures Field(a, at) == Field(b, at) <==> a[at] == b[at] && a[at + 1] == b[at + 1] && a[at + 2] == b[at + 2]
    ensures Field(a, at) % 0x80_0000 == 0 <==> a[at] % 128 == 0 && a[at + 1] == 0 && a[at + 2] == 0
  {
  }

  predicate ZeroLatitude(a: seq<Byte>, at: nat)
    requires at + 3 <= |a|
  {
    a[at] % 128 == 0 && a[at + 1] == 0 && a[at + 2] == 0
  }

  /** The six octets of a point agree, but for the sign bit of a zero latitude. */
  predicate SamePoint(a: seq<Byte>, b: seq<Byte>, at: nat)
    requires at + 6 <= |a| && at + 6 <= |b|
  {
    && (a[at..at + 3] == b[at..at + 3] || (ZeroLatitude(a, at) && ZeroLatitude(b, at)))
    && a[at + 3..at + 6] == b[at + 3..at + 6]
  }

  lemma PointBits(a: seq<Byte>, b: seq<Byte>, at: nat)
    requires at + 6 <= |a| && at + 6 <= |b|
    ensures PointAt(a, at) == PointAt(b, at) <==> SamePoint(a, b, at)
  {
    FieldOctets(a, b, at);
    FieldOctets(b, a, at);
    FieldOctets(a, b, at + 3);
    LatitudeOrder(Field(a, at), Field(b, at));
    LongitudeOrder(Field(a, at + 3), Field(b, at + 3));
    ThreeOctets(a, b, at);
    ThreeOctets(a, b, at + 3);
  }

  lemma ThreeOctets(a: seq<Byte>, b: seq<Byte>, at: nat)
    requires at + 3 <= |a| && at + 3 <= |b|
    ensures a[at..at + 3] == b[at..at + 3] <==> a[at] == b[at] && a[at + 1] == b[at + 1] && a[at + 2] == b[at + 2]
  {
    var x, y := a[at..at + 3], b[at..at + 3];
    assert x[0] == a[at] && x[1] == a[at + 1] && x[2] == a[at + 2];
    assert y[0] == b[at] && y[1] == b[at + 1] && y[2] == b[at + 2];
  }

  /** Agreement on everything but spare bits and the sign of a zero latitude. */
  ghost predicate SameSignificantBits(a: seq<Byte>, b: seq<Byte>)
    requires WellFormed(a) && WellFormed(b)
  {
    && |a| == |b| && a[0] % 16 == b[0] % 16
    && match a[0] % 16
       case 0 => SamePoint(a, b, 1)
       case 1 => SamePoint(a, b, 1) && a[7] % 128 == b[7] % 128
       case 3 =>
         && SamePoint(a, b, 1) && a[7] % 128 == b[7] % 128 && a[8] % 128 == b[8] % 128
         && a[9] == b[9] && a[10] % 128 == b[10] % 128
       case _ => forall i :: 0 <= i < a[0] / 16 ==> SamePoint(a, b, 1 + 6 * i)
  }

  lemma UncertaintyBits(x: Byte, y: Byte)
    ensures Uncertainty.Decode(x) == Uncertainty.Decode(y) <==> x % 128 == y % 128
  {
    Uncertainty.MetresOrder(x % 128, y % 128);
    Uncertainty.MetresOrder(y % 128, x % 128);
  }

  lemma CornerBits(a: seq<Byte>, b: seq<Byte>)
    requires WellFormed(a) && WellFormed(b) && a[0] % 16 == 5 && b[0] % 16 == 5
    ensures Corners(a) == Corners(b) <==> |a| == |b| && forall i :: 0 <= i < a[0] / 16 ==> SamePoint(a, b, 1 + 6 * i)
  {
    if |a| == |b| {
      var n := a[0] / 16;
      assert b[0] / 16 == n;
      forall i | 0 <= i < n ensures Corners(a)[i] == Corners(b)[i] <==> SamePoint(a, b, 1 + 6 * i) {
        PointBits(a, b, 1 + 6 * i);
      }
      if Corners(a) == Corners(b) {
        forall i | 0 <= i < n ensures SamePoint(a, b, 1 + 6 * i) {
          assert Corners(a)[i] == Corners(b)[i];
        }
      }
    } else {
      assert |Corners(a)| != |Corners(b)|;
    }
  }

  /**
    Theorem: two descriptions decode to the same area if and only if they agree on every bit but the
    spare ones and the sign of a zero latitude.
   */
  lemma DecodeLosesOnlySpareBits(a: seq<Byte>, b: seq<Byte>)
    requires WellFormed(a) && WellFormed(b)
    ensures Meaning(a) == Meaning(b) <==> SameSignificantBits(a, b)
  {
    if a[0] % 16 == b[0] % 16 {
      if a[0] % 16 == 5 {
        CornerBits(a, b);
      } else {
        PointBits(a, b, 1);
        if a[0] % 16 != 0 {
          UncertaintyBits(a[7], b[7]);
          if a[0] % 16 == 3 {
            UncertaintyBits(a[8], b[8]);
          }
        }
      }
    }
  }
}
