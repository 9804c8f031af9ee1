/**
 The 32-bit floats that carry coordinates (IEEE 754-2019, section 3.4, binary32):
 every integer of at most 24 bits has an exact bit pattern, and is read back from it.
 */
module Float32 {
  import opened Wrappers
  import opened Bytes

  /** Integers below this magnitude are exact. */
  const EXACT_LIMIT := 0x100_0000

  const FRACTION := 0x80_0000
  const SIGN := 0x8000_0000
  const BIAS := 127

  function Pow2(k: nat): (p: nat)
    ensures p > 0
  {
    if k == 0 then 1 else 2 * Pow2(k - 1)
  }

  /** The position of the highest bit set. */
  function HighBit(m: nat): (e: nat)
    requires m > 0
    ensures Pow2(e) <= m < 2 * Pow2(e)
  {
    if m == 1 then 0 else 1 + HighBit(m / 2)
  }

  lemma {:induction false} Pow2Add(a: nat, b: nat)
    ensures Pow2(a + b) == Pow2(a) * Pow2(b)
  {
    if a > 0 {
      Pow2Add(a - 1, b);
    }
  }

  lemma {:induction false} Pow2Monotone(a: nat, b: nat)
    requires a <= b
    ensures Pow2(a) <= Pow2(b)
  {
    if a < b {
      Pow2Monotone(a, b - 1);
    }
  }

  lemma Widths()
    ensures Pow2(23) == FRACTION && Pow2(24) == EXACT_LIMIT
  {
    assert Pow2(8) == 256;
    Pow2Add(8, 8);
    Pow2Add(16, 7);
    assert Pow2(7) == 128;
  }

  /** The significand of m, its highest bit moved to bit 23. */
  function Significand(m: nat): (r: nat)
    requires 0 < m < EXACT_LIMIT
    ensures HighBit(m) <= 23 && FRACTION <= r < 2 * FRACTION && r == m * Pow2(23 - HighBit(m))
  {
    SignificandRange(m);
    m * Pow2(23 - HighBit(m))
  }

  lemma Scale(a: nat, b: nat, c: nat)
    requires a <= b < 2 * a && c > 0
    ensures a * c <= b * c < 2 * (a * c)
  {
  }

  lemma SignificandRange(m: nat)
    requires 0 < m < EXACT_LIMIT
    ensures HighBit(m) <= 23
    ensures FRACTION <= m * Pow2(23 - HighBit(m)) < 2 * FRACTION
  {
    hide Pow2;
    var e := HighBit(m);
    Widths();
    if e >= 24 {
      Pow2Monotone(24, e);
      assert false;
    }
    Pow2Add(e, 23 - e);
    Scale(Pow2(e), m, Pow2(23 - e));
  }

  /** The bit pattern of an integer. */
  function FromInt(n: int): U32
    requires -EXACT_LIMIT < n < EXACT_LIMIT
  {
    if n == 0 then 0 else
      var m := if n < 0 then -n else n;
      (if n < 0 then SIGN else 0) + (BIAS + HighBit(m)) * FRACTION + (Significand(m) - FRACTION)
  }

  /** The integer a bit pattern stands for, if it is one of these. */
  function ToInt(bits: U32): Option<int> {
    if bits % SIGN == 0 then Some(0) else
      var e := bits / FRACTION % 256 - BIAS;
      var r := bits % FRACTION + FRACTION;
      if !(0 <= e <= 23) || r % Pow2(23 - e) != 0 then None
      else
        var m := r / Pow2(23 - e);
        Some(if bits >= SIGN then -m else m)
  }

  lemma Unscale(m: nat, c: nat)
    requires c > 0
    ensures m * c % c == 0 && m * c / c == m
  {
    Quotient(m, c, m * c / c, m * c % c);
  }

  /** Division by c has one quotient and remainder. */
  lemma Quotient(m: nat, c: nat, q: int, r: int)
    requires c > 0 && m * c == q * c + r && 0 <= r < c
    ensures q == m && r == 0
  {
    if q > m {
      OneMore(m, c);
      Ordered(m + 1, q, c);
      assert false;
    } else if q < m {
      OneMore(q, c);
      Ordered(q + 1, m, c);
      assert false;
    }
  }

  lemma OneMore(a: int, c: nat)
    ensures (a + 1) * c == a * c + c
  {
  }

  lemma Ordered(a: int, b: int, c: nat)
    requires a <= b
    ensures a * c <= b * c
  {
  }

  lemma Fields(sign: nat, e: nat, f: nat)
    requires sign <= 1 && e < 256 && f < FRACTION
    ensures var b := sign * SIGN + e * FRACTION + f;
            && b / FRACTION % 256 == e && b % FRACTION == f && (b >= SIGN <==> sign == 1)
            && (e > 0 ==> b % SIGN != 0)
  {
  }

  /** Every integer of at most 24 bits survives its bit pattern. */
  lemma IntRoundTrip(n: int)
    requires -EXACT_LIMIT < n < EXACT_LIMIT
    ensures ToInt(FromInt(n)) == Some(n)
  {
    hide Pow2, HighBit;
    if n != 0 {
      var m := if n < 0 then -n else n;
      var e := HighBit(m);
      Fields(if n < 0 then 1 else 0, BIAS + e, Significand(m) - FRACTION);
      Unscale(m, Pow2(23 - e));
    }
  }

  /** The value of a normal number's bit pattern: its fraction over 2^23, plus one, times two to the exponent. */
  function Value(bits: U32): real {
    var e := bits / 0x80_0000 % 256;
    var significand := (0x80_0000 + bits % 0x80_0000) as real;
    var magnitude :=
      if bits % 0x8000_0000 == 0 then 0.0
      else if e <= 150 then significand / Pow2(150 - e) as real
      else significand * Pow2(e - 150) as real;
    if bits < 0x8000_0000 then magnitude else -magnitude
  }

  lemma Exactly(m: nat, c: nat)
    requires c > 0
    ensures (m * c) as real / c as real == m as real
  {
    assert (m * c) as real == m as real * c as real;
  }

  /** The bit pattern of an integer has that integer's value. */
  lemma ValueOfInt(n: int)
    requires -EXACT_LIMIT < n < EXACT_LIMIT
    ensures Value(FromInt(n)) == n as real
  {
    hide Pow2, HighBit;
    if n != 0 {
      var m := if n < 0 then -n else n;
      var e := HighBit(m);
      Fields(if n < 0 then 1 else 0, BIAS + e, Significand(m) - FRACTION);
      Exactly(m, Pow2(23 - e));
    }
  }
}
