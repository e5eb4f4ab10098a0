/** Regrouping digits of one bit width into another, as Bech32 addresses do. */
module BitRegroup {
  import opened Results
  import opened Powers

  // ---- numerals

  ghost predicate DigitsOf(ds: seq<int>, width: nat) {
    forall i :: 0 <= i < |ds| ==> 0 <= ds[i] < Pow2(width)
  }

  /** The number a string of digits spells, most significant first. */
  ghost function Value(ds: seq<int>, width: nat): nat
    requires DigitsOf(ds, width)
  {
    if ds == [] then 0 else Shl(Value(ds[..|ds| - 1], width), width) + ds[|ds| - 1]
  }

  /** The bits in so many digits. */
  function BitCount(count: nat, width: nat): nat {
    if count == 0 then 0 else BitCount(count - 1, width) + width
  }

  /** The string of `count` digits that spells a number's last digits. */
  ghost function Digits(n: nat, count: nat, width: nat): (ds: seq<int>)
    ensures |ds| == count
    decreases count
  {
    if count == 0 then [] else Digits(Shr(n, width), count - 1, width) + [Low(n, width)]
  }

  lemma ValueOfMore(ds: seq<int>, d: nat, width: nat)
    requires DigitsOf(ds, width) && d < Pow2(width)
    ensures DigitsOf(ds + [d], width) && Value(ds + [d], width) == Shl(Value(ds, width), width) + d
  {
    assert (ds + [d])[..|ds|] == ds;
  }

  lemma ValueStep(ds: seq<int>, width: nat)
    requires ds != [] && DigitsOf(ds, width)
    ensures var shorter, last := ds[..|ds| - 1], ds[|ds| - 1];
      && DigitsOf(shorter, width) && 0 <= last < Pow2(width)
      && Value(ds, width) == Shl(Value(shorter, width), width) + last
  {
    hide Shl, Pow2;
  }

  lemma DigitsStep(n: nat, count: nat, width: nat)
    requires count > 0
    ensures Digits(n, count, width) == Digits(Shr(n, width), count - 1, width) + [Low(n, width)]
  {
    hide Shr, Low, Pow2;
  }

  /** A string of digits is the string that spells its value. */
  lemma {:induction false} DigitsOfValue(ds: seq<int>, width: nat)
    requires DigitsOf(ds, width)
    ensures Digits(Value(ds, width), |ds|, width) == ds
  {
    if ds != [] {
      hide Shl, Shr, Low, Pow2, Value, Digits, DigitsOf;
      var n, shorter, last := Value(ds, width), ds[..|ds| - 1], ds[|ds| - 1];
      ValueStep(ds, width);
      DigitsOfValue(shorter, width);
      PartsShifted(Value(shorter, width), last, width);
      DigitsStep(n, |ds|, width);
      assert ds == shorter + [last];
    }
  }

  /** A number that fits is the value of its digits. */
  lemma {:induction false} ValueOfDigits(n: nat, count: nat, width: nat)
    requires n < Pow2(BitCount(count, width))
    ensures DigitsOf(Digits(n, count, width), width) && Value(Digits(n, count, width), width) == n
    decreases count
  {
    if count > 0 {
      hide Shl, Shr, Low, Pow2;
      Fewer(n, count, width);
      ValueOfDigits(Shr(n, width), count - 1, width);
      ValueOfMore(Digits(Shr(n, width), count - 1, width), Low(n, width), width);
      ShiftedParts(n, width);
    } else {
      assert Pow2(0) == 1;
    }
  }

  lemma Fewer(n: nat, count: nat, width: nat)
    requires count > 0 && n < Pow2(BitCount(count, width))
    ensures Shr(n, width) < Pow2(BitCount(count - 1, width))
  {
    ShrBound(n, BitCount(count - 1, width), width);
  }

  lemma {:induction false} ValueFits(ds: seq<int>, width: nat)
    requires DigitsOf(ds, width)
    ensures Value(ds, width) < Pow2(BitCount(|ds|, width))
  {
    if ds != [] {
      var shorter := ds[..|ds| - 1];
      ValueFits(shorter, width);
      ShlBound(Value(shorter, width), ds[|ds| - 1], BitCount(|shorter|, width), width);
    }
  }

  // ---- the specification

  /** How many whole digits fit into so many bits. */
  function WholeDigits(bits: nat, width: nat): (count: nat)
    requires width > 0
    ensures BitCount(count, width) <= bits < BitCount(count, width) + width
  {
    if bits < width then 0 else 1 + WholeDigits(bits - width, width)
  }

  lemma {:induction false} WholeDigitsIs(bits: nat, width: nat, count: nat)
    requires width > 0 && BitCount(count, width) <= bits < BitCount(count, width) + width
    ensures WholeDigits(bits, width) == count
    decreases count
  {
    if count > 0 {
      WholeDigitsIs(bits - width, width, count - 1);
    }
  }

  /** The same number in digits of the other width: padded with zero bits up to a whole digit, or, unpadded, with less
      than an old digit of zero bits dropped. */
  ghost function Regrouped(data: seq<int>, wide: nat, narrow: nat, pad: bool): Option<seq<int>>
    requires wide > 0 && narrow > 0
  {
    if !DigitsOf(data, wide) then None
    else
      var total := BitCount(|data|, wide);
      if pad then
        var count := WholeDigits(total + narrow - 1, narrow);
        Some(Digits(Shl(Value(data, wide), BitCount(count, narrow) - total), count, narrow))
      else
        var count := WholeDigits(total, narrow);
        var rest := total - BitCount(count, narrow);
        if rest >= wide || Low(Value(data, wide), rest) != 0 then None
        else Some(Digits(Shr(Value(data, wide), rest), count, narrow))
  }

  // ---- the loop

  /** The digits read so far are the digits written and the low `bits` bits of the accumulator. */
  ghost predicate Balanced(read: seq<int>, from: nat, written: seq<int>, width: nat, acc: nat, bits: nat) {
    && DigitsOf(read, from) && DigitsOf(written, width)
    && BitCount(|read|, from) == BitCount(|written|, width) + bits
    && Value(read, from) == Shl(Value(written, width), bits) + Low(acc, bits)
  }

  lemma ReadKeepsBalance(read: seq<int>, from: nat, written: seq<int>, width: nat, acc: nat, bits: nat, value: nat,
                         mask: nat)
    requires Balanced(read, from, written, width, acc, bits)
    requires value < Pow2(from) && bits + from <= mask
    ensures Balanced(read + [value], from, written, width, Low(Shl(acc, from) + value, mask), bits + from)
  {
    hide Shl, Shr, Low, Pow2, Value;
    AppendKeepsLow(acc, value, bits, from, mask);
    ValueOfMore(read, value, from) by { assert DigitsOf(read, from); }
    ShlSum(Shl(Value(written, width), bits), Low(acc, bits), from);
    ShlAdds(Value(written, width), bits, from);
  }

  lemma WriteKeepsBalance(read: seq<int>, from: nat, written: seq<int>, width: nat, acc: nat, bits: nat)
    requires Balanced(read, from, written, width, acc, bits + width)
    ensures Balanced(read, from, written + [Low(Shr(acc, bits), width)], width, acc, bits)
  {
    hide Shl, Shr, Low, Pow2, Value;
    var digit := Low(Shr(acc, bits), width);
    LowSplits(acc, bits, width);
    ValueOfMore(written, digit, width);
    ShlAdds(Value(written, width), width, bits);
    ShlSum(Shl(Value(written, width), width), digit, bits);
  }

  method ConvertBits(data: seq<int>, from: nat, width: nat, pad: bool) returns (r: Option<seq<int>>)
    requires from > 0 && width > 0
    ensures r == Regrouped(data, from, width, pad)
  {
    hide Shl, Shr, Low, Pow2, Value, Balanced, Regrouped;
    var acc: nat, bits: nat, ret := 0, 0, [];
    NothingRead(from, width);
    for i := 0 to |data|
      invariant bits < width
      invariant Balanced(data[..i], from, ret, width, acc, bits)
    {
      var value := data[i];
      var tooWide := ShiftsAway(value, from);
      if tooWide {
        RefusedDigit(data, i, from, width, pad);
        return None;
      }
      ReadKeepsBalance(data[..i], from, ret, width, acc, bits, value, from + width - 1);
      assert data[..i] + [value] == data[..i + 1];
      acc := Low(Shl(acc, from) + value, from + width - 1);
      bits := bits + from;
      while bits >= width
        invariant Balanced(data[..i + 1], from, ret, width, acc, bits)
        decreases bits
      {
        bits := bits - width;
        WriteKeepsBalance(data[..i + 1], from, ret, width, acc, bits);
        ret := ret + [Low(Shr(acc, bits), width)];
      }
    }
    assert data[..|data|] == data;
    if pad {
      PaddedEnd(data, from, ret, width, acc, bits);
      if bits > 0 {
        ret := ret + [Low(Shl(acc, width - bits), width)];
      }
    } else {
      UnpaddedEnd(data, from, ret, width, acc, bits);
      if bits >= from || Low(Shl(acc, width - bits), width) != 0 {
        return None;
      }
    }
    r := Some(ret);
  }

  /** `value < 0 or (value >> from)` */
  method ShiftsAway(value: int, from: nat) returns (away: bool)
    ensures away <==> !(0 <= value < Pow2(from))
  {
    away := value < 0 || Shr(value, from) != 0;
    if value >= 0 {
      ShiftedParts(value, from);
      ShlIsZero(0, from);
      if value < Pow2(from) {
        PartsShifted(0, value, from);
      }
    }
  }

  lemma NothingRead(from: nat, width: nat)
    ensures Balanced([], from, [], width, 0, 0)
  {
  }

  lemma RefusedDigit(data: seq<int>, i: nat, from: nat, width: nat, pad: bool)
    requires from > 0 && width > 0 && i < |data| && !(0 <= data[i] < Pow2(from))
    ensures Regrouped(data, from, width, pad) == None
  {
    assert !DigitsOf(data, from);
  }

  /** The bits left over, shifted up to a whole digit. */
  lemma LastDigit(acc: nat, bits: nat, width: nat)
    requires bits <= width
    ensures Low(Shl(acc, width - bits), width) == Shl(Low(acc, bits), width - bits)
    ensures Low(Shl(acc, width - bits), width) == 0 <==> Low(acc, bits) == 0
  {
    AppendKeepsLow(acc, 0, bits, width - bits, width);
    LowOfLow(Shl(acc, width - bits), width, width);
    ShlIsZero(Low(acc, bits), width - bits);
  }

  lemma {:induction false} ShlIsZero(n: nat, bits: nat)
    ensures Shl(n, bits) == 0 <==> n == 0
  {
    if n > 0 {
      ShlMonotone(1, n, bits);
      ShlOfOne(bits);
    }
    if n == 0 && bits > 0 {
      ShlIsZero(0, bits - 1);
    }
  }

  lemma PaddedEnd(data: seq<int>, from: nat, ret: seq<int>, width: nat, acc: nat, bits: nat)
    requires from > 0 && width > bits && Balanced(data, from, ret, width, acc, bits)
    ensures Regrouped(data, from, width, true) ==
      Some(if bits > 0 then ret + [Low(Shl(acc, width - bits), width)] else ret)
  {
    hide Shl, Shr, Low, Pow2, Value;
    var total := BitCount(|data|, from);
    if bits > 0 {
      var digit := Low(Shl(acc, width - bits), width);
      PaddedValue(data, from, ret, width, acc, bits);
      assert BitCount(|ret| + 1, width) == BitCount(|ret|, width) + width;
      WholeDigitsIs(total + width - 1, width, |ret| + 1);
      ValueOfMore(ret, digit, width);
      DigitsOfValue(ret + [digit], width);
    } else {
      WholeDigitsIs(total + width - 1, width, |ret|);
      WholeValue(data, from, ret, width, acc);
      DigitsOfValue(ret, width);
    }
  }

  lemma WholeValue(data: seq<int>, from: nat, ret: seq<int>, width: nat, acc: nat)
    requires Balanced(data, from, ret, width, acc, 0)
    ensures Shl(Value(data, from), 0) == Value(data, from) == Value(ret, width)
  {
    assert Pow2(0) == 1;
  }

  lemma PaddedValue(data: seq<int>, from: nat, ret: seq<int>, width: nat, acc: nat, bits: nat)
    requires width > bits && Balanced(data, from, ret, width, acc, bits)
    ensures Shl(Value(data, from), width - bits) == Shl(Value(ret, width), width) + Low(Shl(acc, width - bits), width)
  {
    hide Shl, Shr, Low, Pow2, Value;
    LastDigit(acc, bits, width);
    ShlSum(Shl(Value(ret, width), bits), Low(acc, bits), width - bits);
    ShlAdds(Value(ret, width), bits, width - bits);
  }

  lemma UnpaddedEnd(data: seq<int>, from: nat, ret: seq<int>, width: nat, acc: nat, bits: nat)
    requires from > 0 && width > bits && Balanced(data, from, ret, width, acc, bits)
    ensures Regrouped(data, from, width, false) ==
      if bits >= from || Low(Shl(acc, width - bits), width) != 0 then None else Some(ret)
  {
    hide Shl, Shr, Low, Pow2, Value;
    WholeDigitsIs(BitCount(|data|, from), width, |ret|);
    LastDigit(acc, bits, width);
    PartsShifted(Value(ret, width), Low(acc, bits), bits);
    DigitsOfValue(ret, width);
  }

  // ---- the two directions

  /** Padding to narrow digits and dropping the padding again are inverse to each other, and the narrow strings accepted
      without padding are exactly those that padding produces. */
  lemma RegroupingInverts(wide: nat, narrow: nat, b: seq<int>, s: seq<int>)
    requires 0 < narrow <= wide
    ensures Regrouped(b, wide, narrow, true) == Some(s) <==> Regrouped(s, narrow, wide, false) == Some(b)
  {
    if Regrouped(b, wide, narrow, true) == Some(s) {
      PaddingIsUndone(wide, narrow, b, s);
    }
    if Regrouped(s, narrow, wide, false) == Some(b) {
      UnpaddedIsPadded(wide, narrow, b, s);
    }
  }

  lemma PaddingIsUndone(wide: nat, narrow: nat, b: seq<int>, s: seq<int>)
    requires 0 < narrow <= wide && Regrouped(b, wide, narrow, true) == Some(s)
    ensures Regrouped(s, narrow, wide, false) == Some(b)
  {
    hide Shl, Shr, Low, Pow2, Value, Digits, BitCount, WholeDigits;
    var total := BitCount(|b|, wide);
    var count := WholeDigits(total + narrow - 1, narrow);
    var pad := BitCount(count, narrow) - total;
    var n := Value(b, wide);
    ValueFits(b, wide);
    ShlBoundExact(n, total, pad);
    ValueOfDigits(Shl(n, pad), count, narrow);
    WholeDigitsIs(BitCount(count, narrow), wide, |b|);
    ZeroBits(pad);
    PartsShifted(n, 0, pad);
    DigitsOfValue(b, wide);
  }

  lemma ZeroBits(bits: nat)
    ensures 0 < Pow2(bits)
  {
  }

  lemma ShlBoundExact(n: nat, a: nat, b: nat)
    requires n < Pow2(a)
    ensures Shl(n, b) < Pow2(a + b)
  {
    ShlBound(n, 0, a, b);
  }

  lemma UnpaddedIsPadded(wide: nat, narrow: nat, b: seq<int>, s: seq<int>)
    requires 0 < narrow <= wide && Regrouped(s, narrow, wide, false) == Some(b)
    ensures Regrouped(b, wide, narrow, true) == Some(s)
  {
    hide Shl, Shr, Low, Pow2, Value, Digits, BitCount, WholeDigits;
    var total := BitCount(|s|, narrow);
    var count := WholeDigits(total, wide);
    var rest := total - BitCount(count, wide);
    var n := Value(s, narrow);
    ValueFits(s, narrow);
    ShrBound(n, BitCount(count, wide), rest);
    ValueOfDigits(Shr(n, rest), count, wide);
    ShiftedParts(n, rest);
    WholeDigitsIs(BitCount(count, wide) + narrow - 1, narrow, |s|);
    DigitsOfValue(s, narrow);
  }
}
