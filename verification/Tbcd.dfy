/**
  TBCD packing of MSISDNs, clause 6.3.2 of 3GPP TS 29.329: two decimal digits to an octet, the earlier
  digit in the low nibble, 0xF filling the last high nibble of an odd-length number. A Go string is its
  bytes here, and ErrInvalidTarget is None.
 */
module Tbcd {
  import opened Bytes
  import opened Domain

  predicate IsDigit(c: Byte) {
    48 <= c <= 57
  }

  predicate Encodable(s: seq<Byte>) {
    1 <= |s| <= 15 && forall i :: 0 <= i < |s| ==> IsDigit(s[i])
  }

  /** The octet carrying the digits at 2i and 2i + 1. */
  function Octet(s: seq<Byte>, i: nat): Byte
    requires 2 * i < |s| && forall j :: 0 <= j < |s| ==> IsDigit(s[j])
  {
    assert IsDigit(s[2 * i]) && (2 * i + 1 < |s| ==> IsDigit(s[2 * i + 1]));
    s[2 * i] - 48 + 16 * (if 2 * i + 1 < |s| then s[2 * i + 1] - 48 else 15)
  }

  function Packed(s: seq<Byte>): seq<Byte>
    requires Encodable(s)
  {
    seq((|s| + 1) / 2, i requires 0 <= i < (|s| + 1) / 2 => Octet(s, i))
  }

  function Encoded(s: seq<Byte>): Option<seq<Byte>> {
    if Encodable(s) then Some(Packed(s)) else None
  }

  /** The k-th nibble of the wire form, low nibble of each octet first. */
  function Nibble(b: seq<Byte>, k: nat): nat
    requires k < 2 * |b|
  {
    if k % 2 == 0 then b[k / 2] % 16 else b[k / 2] / 16
  }

  /** BCD nibbles throughout, and filler only in the last high nibble. */
  ghost predicate Accepted(b: seq<Byte>) {
    forall k :: 0 <= k < 2 * |b| ==> Nibble(b, k) <= 9 || (k == 2 * |b| - 1 && Nibble(b, k) == 15)
  }

  predicate Filled(b: seq<Byte>) {
    |b| > 0 && Nibble(b, 2 * |b| - 1) == 15
  }

  function DigitCount(b: seq<Byte>): nat {
    if Filled(b) then 2 * |b| - 1 else 2 * |b|
  }

  ghost function Unpacked(b: seq<Byte>): seq<Byte>
    requires Accepted(b)
  {
    seq(DigitCount(b), k requires 0 <= k < DigitCount(b) => 48 + Nibble(b, k))
  }

  ghost function Decoded(b: seq<Byte>): Option<seq<Byte>> {
    if Accepted(b) then Some(Unpacked(b)) else None
  }

  method EncodeMsisdn(s: seq<Byte>) returns (r: Option<seq<Byte>>)
    ensures r == Encoded(s)
    ensures r.Some? <==> 1 <= |s| <= 15 && forall k :: 0 <= k < |s| ==> '0' as int <= s[k] <= '9' as int
    ensures r.Some? ==> |r.value| == (|s| + 1) / 2
    ensures r.Some? ==> forall k :: 0 <= k < |s| ==>
              s[k] - '0' as int == if k % 2 == 0 then r.value[k / 2] % 16 else r.value[k / 2] / 16
    ensures r.Some? && |s| % 2 == 1 ==> r.value[|s| / 2] / 16 == 15
  {
    if |s| == 0 || |s| > 15 {
      return None;
    }
    var out := new Byte[(|s| + 1) / 2];
    for i := 0 to out.Length
      invariant forall j :: 0 <= j < 2 * i && j < |s| ==> IsDigit(s[j])
      invariant forall j {:trigger out[j]} :: 0 <= j < i ==>
        out[j] == s[2 * j] - 48 + 16 * (if 2 * j + 1 < |s| then s[2 * j + 1] - 48 else 15)
    {
      var lo := s[2 * i];
      if lo < 48 || lo > 57 {
        return None;
      }
      var v, hi := lo - 48, 15;
      if 2 * i + 1 < |s| {
        hi := s[2 * i + 1];
        if hi < 48 || hi > 57 {
          return None;
        }
        hi := hi - 48;
      }
      out[i] := v + 16 * hi;
    }
    assert out[..] == Packed(s);
    PackedNibbles(s);
    return Some(out[..]);
  }

  lemma PackedNibbles(s: seq<Byte>)
    requires Encodable(s)
    ensures forall k :: 0 <= k < |s| ==>
              s[k] - 48 == if k % 2 == 0 then Packed(s)[k / 2] % 16 else Packed(s)[k / 2] / 16
    ensures |s| % 2 == 1 ==> Packed(s)[|s| / 2] / 16 == 15
  {
    forall k | 0 <= k < |s|
      ensures s[k] - 48 == if k % 2 == 0 then Packed(s)[k / 2] % 16 else Packed(s)[k / 2] / 16
    {
      NibblesOfPacked(s, k);
    }
    if |s| % 2 == 1 { NibblesOfPacked(s, |s|); }
  }

  /** Both nibbles of an octet are digits, but for the filler high in the last one. */
  predicate OctetOk(b: seq<Byte>, i: nat)
    requires i < |b|
  {
    b[i] % 16 <= 9 && (b[i] / 16 <= 9 || (b[i] / 16 == 15 && i == |b| - 1))
  }

  lemma AcceptedByOctets(b: seq<Byte>)
    ensures Accepted(b) <==> forall i :: 0 <= i < |b| ==> OctetOk(b, i)
  {
    if Accepted(b) {
      forall i | 0 <= i < |b| ensures OctetOk(b, i) {
        assert Nibble(b, 2 * i) == b[i] % 16 && Nibble(b, 2 * i + 1) == b[i] / 16;
      }
    } else {
      var k :| 0 <= k < 2 * |b| && !(Nibble(b, k) <= 9 || (k == 2 * |b| - 1 && Nibble(b, k) == 15));
      assert !OctetOk(b, k / 2);
    }
  }

  method DecodeMsisdn(b: seq<Byte>) returns (r: Option<seq<Byte>>)
    ensures r == Decoded(b)
    ensures r.Some? <==> forall i :: 0 <= i < |b| ==> OctetOk(b, i)
    ensures r.Some? ==> |r.value| == 2 * |b| - (if b != [] && b[|b| - 1] / 16 == 15 then 1 else 0)
    ensures r.Some? ==> forall k :: 0 <= k < |r.value| ==>
              r.value[k] == '0' as int + if k % 2 == 0 then b[k / 2] % 16 else b[k / 2] / 16
  {
    AcceptedByOctets(b);
    var text: seq<Byte> := [];
    var i := 0;
    while i < |b|
      invariant 0 <= i <= |b| && |text| == 2 * i
      invariant forall k :: 0 <= k < 2 * i ==> Nibble(b, k) <= 9 && text[k] == 48 + Nibble(b, k)
    {
      var lo, hi := b[i] % 16, b[i] / 16;
      assert Nibble(b, 2 * i) == lo && Nibble(b, 2 * i + 1) == hi;
      if lo > 9 {
        return None;
      }
      text := text + [48 + lo];
      if hi == 15 {
        if i != |b| - 1 {
          return None;
        }
        break;
      }
      if hi > 9 {
        return None;
      }
      text := text + [48 + hi];
      i := i + 1;
    }
    assert |text| == DigitCount(b);
    assert Accepted(b) && text == Unpacked(b);
    return Some(text);
  }

  lemma NibblesOfPacked(s: seq<Byte>, k: nat)
    requires Encodable(s) && k < 2 * |Packed(s)|
    ensures Nibble(Packed(s), k) == if k < |s| then s[k] - 48 else 15
  {
    var i := k / 2;
    assert Packed(s)[i] == Octet(s, i);
  }

  lemma DigitsRecovered(b: seq<Byte>, s: seq<Byte>)
    requires Encodable(s) && |b| == (|s| + 1) / 2
    requires forall k :: 0 <= k < 2 * |b| ==> Nibble(b, k) == if k < |s| then s[k] - 48 else 15
    ensures Accepted(b) && Unpacked(b) == s
  {
    assert DigitCount(b) == |s|;
    forall k | 0 <= k < |s| ensures Unpacked(b)[k] == s[k] {
      assert IsDigit(s[k]);
    }
  }

  /** Theorem: every number of one to fifteen digits survives packing and unpacking. */
  lemma DecodeInvertsEncode(s: seq<Byte>)
    requires Encodable(s)
    ensures Encoded(s).Some? && Decoded(Encoded(s).value) == Some(s)
  {
    var b := Packed(s);
    forall k | 0 <= k < 2 * |b|
      ensures Nibble(b, k) == if k < |s| then s[k] - 48 else 15
    {
      NibblesOfPacked(s, k);
    }
    DigitsRecovered(b, s);
  }

  /** Between one and fifteen digits: one to eight octets, the eighth filled. */
  predicate Sendable(b: seq<Byte>) {
    1 <= |b| <= 8 && (|b| == 8 ==> Filled(b))
  }

  /**
    Theorem: unpacking an accepted octet string and packing the digits again gives the same octets if and
    only if it is sendable.
   */
  lemma EncodeInvertsDecode(b: seq<Byte>)
    requires Accepted(b)
    ensures Sendable(b) <==> 1 <= |Unpacked(b)| <= 15
    ensures Encoded(Unpacked(b)) == if Sendable(b) then Some(b) else None
  {
    UnpackedDigits(b);
    if Sendable(b) {
      Repacked(b);
    }
  }

  lemma UnpackedDigits(b: seq<Byte>)
    requires Accepted(b)
    ensures |Unpacked(b)| == DigitCount(b)
    ensures forall k :: 0 <= k < |Unpacked(b)| ==> IsDigit(Unpacked(b)[k])
  {
    forall k | 0 <= k < DigitCount(b) ensures IsDigit(Unpacked(b)[k]) {
      assert Unpacked(b)[k] == 48 + Nibble(b, k);
    }
  }

  lemma Repacked(b: seq<Byte>)
    requires Accepted(b) && Encodable(Unpacked(b))
    ensures Packed(Unpacked(b)) == b
  {
    var s := Unpacked(b);
    forall i | 0 <= i < |b| ensures 2 * i < |s| && Octet(s, i) == b[i] {
      OctetRecovered(b, i);
    }
  }

  lemma OctetRecovered(b: seq<Byte>, i: nat)
    requires Accepted(b) && i < |b|
    ensures 2 * i < |Unpacked(b)|
    ensures forall k :: 0 <= k < |Unpacked(b)| ==> IsDigit(Unpacked(b)[k])
    ensures Octet(Unpacked(b), i) == b[i]
  {
    UnpackedDigits(b);
    assert Nibble(b, 2 * i) == b[i] % 16 && Nibble(b, 2 * i + 1) == b[i] / 16;
    assert Unpacked(b)[2 * i] == 48 + Nibble(b, 2 * i);
  }

  /** Sixteen digits are accepted on the wire but cannot be sent back. */
  lemma SixteenDigitsOneWay()
    ensures var b := seq(8, _ => 0x11); Accepted(b) && |Unpacked(b)| == 16 && Encoded(Unpacked(b)) == None
  {
    var b: seq<Byte> := seq(8, _ => 0x11);
    assert forall k :: 0 <= k < 16 ==> Nibble(b, k) == 1;
  }
}
