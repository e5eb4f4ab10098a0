/** Shifts, masks and powers of two, bit by bit: every definition is linear, so nothing here needs products. */
module Powers {

  function Pow2(n: nat): (p: nat)
    ensures p >= 1
  {
    if n == 0 then 1 else 2 * Pow2(n - 1)
  }

  /** `n << bits` */
  function Shl(n: nat, bits: nat): nat {
    if bits == 0 then n else 2 * Shl(n, bits - 1)
  }

  /** `n >> bits` */
  function Shr(n: nat, bits: nat): nat
    decreases bits
  {
    if bits == 0 then n else Shr(n / 2, bits - 1)
  }

  /** `n & ((1 << bits) - 1)` */
  function Low(n: nat, bits: nat): (low: nat)
    ensures low < Pow2(bits)
    decreases bits
  {
    if bits == 0 then 0 else 2 * Low(n / 2, bits - 1) + n % 2
  }

  lemma {:induction false} ShiftedParts(n: nat, bits: nat)
    ensures n == Shl(Shr(n, bits), bits) + Low(n, bits)
    decreases bits
  {
    if bits > 0 {
      ShiftedParts(n / 2, bits - 1);
    }
  }

  lemma {:induction false} PartsShifted(high: nat, low: nat, bits: nat)
    requires low < Pow2(bits)
    ensures Shr(Shl(high, bits) + low, bits) == high && Low(Shl(high, bits) + low, bits) == low
    decreases bits
  {
    if bits > 0 {
      PartsShifted(high, low / 2, bits - 1);
      assert (Shl(high, bits) + low) / 2 == Shl(high, bits - 1) + low / 2;
    }
  }

  lemma {:induction false} ShlAdds(n: nat, a: nat, b: nat)
    ensures Shl(Shl(n, a), b) == Shl(n, a + b)
  {
    if b > 0 {
      ShlAdds(n, a, b - 1);
    }
  }

  lemma {:induction false} ShlSum(m: nat, n: nat, bits: nat)
    ensures Shl(m + n, bits) == Shl(m, bits) + Shl(n, bits)
  {
    if bits > 0 {
      ShlSum(m, n, bits - 1);
    }
  }

  lemma {:induction false} ShlOfOne(bits: nat)
    ensures Shl(1, bits) == Pow2(bits)
  {
    if bits > 0 {
      ShlOfOne(bits - 1);
    }
  }

  lemma {:induction false} ShlMonotone(m: nat, n: nat, bits: nat)
    requires m <= n
    ensures Shl(m, bits) <= Shl(n, bits)
  {
    if bits > 0 {
      ShlMonotone(m, n, bits - 1);
    }
  }

  /** A shifted number with the gap filled stays below the next power. */
  lemma ShlBound(high: nat, low: nat, a: nat, b: nat)
    requires high < Pow2(a) && low < Pow2(b)
    ensures Shl(high, b) + low < Pow2(a + b)
  {
    hide Shl, Pow2;
    ShlMonotone(high + 1, Pow2(a), b);
    ShlSum(high, 1, b);
    PowerShifted(a, b);
    ShlOfOne(b);
  }

  lemma PowerShifted(a: nat, b: nat)
    ensures Shl(Pow2(a), b) == Pow2(a + b)
  {
    ShlOfOne(a);
    ShlOfOne(a + b);
    ShlAdds(1, a, b);
  }

  /** What is left of a bounded number is bounded. */
  lemma ShrBound(n: nat, a: nat, b: nat)
    requires n < Pow2(a + b)
    ensures Shr(n, b) < Pow2(a)
  {
    hide Shl, Shr, Low, Pow2;
    ShiftedParts(n, b);
    PowerShifted(a, b);
    if Shr(n, b) >= Pow2(a) {
      ShlMonotone(Pow2(a), Shr(n, b), b);
    }
  }

  /** Masking twice is masking with the shorter mask. */
  lemma LowOfLow(n: nat, long: nat, short: nat)
    requires short <= long
    ensures Low(Low(n, long), short) == Low(n, short)
  {
    hide Shl, Shr, Low, Pow2;
    var a, b := Shr(n, long), Low(n, long);
    var c, d := Shr(b, short), Low(b, short);
    ShiftedParts(n, long);
    ShiftedParts(b, short);
    ShlAdds(a, long - short, short);
    ShlSum(Shl(a, long - short), c, short);
    PartsShifted(Shl(a, long - short) + c, d, short);
  }

  /** Appending bits under a mask wide enough for the bits that matter keeps those bits. */
  lemma AppendKeepsLow(n: nat, value: nat, bits: nat, more: nat, mask: nat)
    requires value < Pow2(more) && bits + more <= mask
    ensures Low(Low(Shl(n, more) + value, mask), bits + more) == Shl(Low(n, bits), more) + value
  {
    hide Shl, Shr, Low, Pow2;
    var q, l := Shr(n, bits), Low(n, bits);
    LowOfLow(Shl(n, more) + value, mask, bits + more);
    ShiftedParts(n, bits);
    ShlSum(Shl(q, bits), l, more);
    ShlAdds(q, bits, more);
    ShlBound(l, value, bits, more);
    PartsShifted(q, Shl(l, more) + value, bits + more);
  }

  /** The low bits are the digit above `bits` and the bits below it. */
  lemma LowSplits(n: nat, bits: nat, width: nat)
    ensures Low(n, bits + width) == Shl(Low(Shr(n, bits), width), bits) + Low(n, bits)
  {
    hide Shl, Shr, Low, Pow2;
    var s, l := Shr(n, bits), Low(n, bits);
    var q, d := Shr(s, width), Low(s, width);
    ShiftedParts(n, bits);
    ShiftedParts(s, width);
    ShlSum(Shl(q, width), d, bits);
    ShlAdds(q, width, bits);
    ShlBound(d, l, width, bits);
    PartsShifted(q, Shl(d, bits) + l, bits + width);
  }
}
