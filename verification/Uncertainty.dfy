/**
  The uncertainty code of clause 6.2 of 3GPP TS 23.032: code k stands for 10(1.1^k - 1) metres. Powers and
  logarithms are exact; the logarithm is any function with the logarithm's two defining properties.
 */
module Uncertainty {
  import opened Bytes

  /** 1.1 to the k. */
  function Power(k: nat): (p: real)
    ensures p >= 1.0
  {
    if k == 0 then 1.0 else 1.1 * Power(k - 1)
  }

  function Metres(k: nat): real {
    10.0 * (Power(k) - 1.0)
  }

  /** The high bit of the octet is spare. */
  function Decode(octet: Byte): real {
    Metres(octet % 128)
  }

  predicate SplitsProduct(log: real -> real, x: real, y: real) {
    0.0 < x && 0.0 < y ==> log(x * y) == log(x) + log(y)
  }

  predicate KeepsOrder(log: real -> real, x: real, y: real) {
    0.0 < x < y ==> log(x) < log(y)
  }

  ghost predicate IsLog(log: real -> real) {
    && (forall x: real, y: real :: SplitsProduct(log, x, y))
    && (forall x: real, y: real :: KeepsOrder(log, x, y))
  }

  function Quotient(log: real -> real, x: real): real
    requires IsLog(log)
  {
    LogOfOne(log);
    log(x) / log(1.1)
  }

  function Encode(log: real -> real, metres: real): int
    requires IsLog(log)
  {
    if metres <= 0.0 then 0
    else
      var k := Quotient(log, metres / 10.0 + 1.0).Floor;
      if k < 0 then 0 else if k > 127 then 127 else k
  }

  lemma LogOfOne(log: real -> real)
    requires IsLog(log)
    ensures log(1.0) == 0.0 && log(1.1) > 0.0
  {
    assert 1.0 * 1.0 == 1.0;
    assert SplitsProduct(log, 1.0, 1.0);
    assert KeepsOrder(log, 1.0, 1.1);
  }

  lemma {:induction false} LogOfPower(log: real -> real, k: nat)
    requires IsLog(log)
    ensures log(Power(k)) == k as real * log(1.1)
  {
    LogOfOne(log);
    if k > 0 {
      LogOfPower(log, k - 1);
      assert SplitsProduct(log, 1.1, Power(k - 1));
    }
  }

  lemma {:induction false} PowerGrows(j: nat, k: nat)
    requires j < k
    ensures Power(j) < Power(k)
  {
    if j < k - 1 {
      PowerGrows(j, k - 1);
    }
  }

  lemma MetresOrder(j: nat, k: nat)
    ensures Metres(j) < Metres(k) <==> j < k
  {
    if j < k {
      PowerGrows(j, k);
    } else if k < j {
      PowerGrows(k, j);
    }
  }

  /** Theorem: code 0 is 0 m, code 1 is 1 m, and each next radius is a tenth longer than the last plus a metre. */
  lemma RadiiGrow(k: nat)
    ensures Metres(0) == 0.0 && Metres(1) == 1.0 && Metres(k + 1) == 1.1 * Metres(k) + 1.0
  {
    assert Power(1) == 1.1 * Power(0);
    assert Power(k + 1) == 1.1 * Power(k);
  }

  /** x >= 1.1^k exactly when the quotient of logarithms reaches k. */
  lemma QuotientReaches(log: real -> real, x: real, k: nat)
    requires IsLog(log) && 0.0 < x
    ensures Quotient(log, x) >= k as real <==> x >= Power(k)
  {
    LogOfOne(log);
    LogOfPower(log, k);
    ScaleOrder(Quotient(log, x), k as real, log(1.1));
    assert KeepsOrder(log, x, Power(k)) && KeepsOrder(log, Power(k), x);
  }

  lemma ScaleOrder(a: real, b: real, u: real)
    requires u > 0.0
    ensures a >= b <==> a * u >= b * u
  {
    if a >= b {
      assert (a - b) * u >= 0.0;
    } else {
      assert (b - a) * u > 0.0;
    }
  }

  /**
    Theorem: the code for an accuracy is the greatest k <= 127 whose radius does not exceed it, so it
    never asks for less than was asked, and is one step from optimal unless clamped.
   */
  lemma GreatestCode(log: real -> real, metres: real)
    requires IsLog(log)
    ensures var k := Encode(log, metres);
            && 0 <= k <= 127
            && (metres <= 0.0 ==> k == 0)
            && (metres >= 0.0 ==> Metres(k) <= metres)
            && (forall j: nat :: j <= 127 && Metres(j) <= metres ==> j <= k)
            && (0.0 < metres && k < 127 ==> metres < Metres(k + 1))
  {
    if metres <= 0.0 {
      forall j: nat | j <= 127 && Metres(j) <= metres ensures j <= 0 {
        MetresOrder(0, j);
      }
    } else {
      var x := metres / 10.0 + 1.0;
      var q := Quotient(log, x).Floor;
      QuotientReaches(log, x, 0);
      QuotientReaches(log, x, q);
      QuotientReaches(log, x, q + 1);
      Clamped(metres, q);
    }
  }

  /** What clamping leaves of the greatest code for the accuracy. */
  lemma Clamped(metres: real, q: nat)
    requires Metres(q) <= metres < Metres(q + 1)
    ensures var k := if q > 127 then 127 else q;
            && Metres(k) <= metres
            && (forall j: nat :: j <= 127 && Metres(j) <= metres ==> j <= k)
            && (k < 127 ==> metres < Metres(k + 1))
  {
    MetresOrder(127, q);
    forall j: nat | j <= 127 && Metres(j) <= metres ensures j <= q {
      MetresOrder(j, q + 1);
    }
  }

  /** Theorem: asking for a looser accuracy never gives a smaller code. */
  lemma EncodeMonotone(log: real -> real, m: real, n: real)
    requires IsLog(log) && m <= n
    ensures Encode(log, m) <= Encode(log, n)
  {
    GreatestCode(log, m);
    GreatestCode(log, n);
  }

  /** Theorem: encoding what an octet stands for gives back its seven significant bits. */
  lemma EncodeInvertsDecode(log: real -> real, octet: Byte)
    requires IsLog(log)
    ensures Encode(log, Decode(octet)) == octet % 128
  {
    var k := octet % 128;
    GreatestCode(log, Metres(k));
    MetresOrder(k, Encode(log, Metres(k)));
  }
}
