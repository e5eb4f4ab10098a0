/** Byte strings and little-endian numbers. */
module Bytes {
  import opened FloorArithmetic

  newtype Byte = b: int | 0 <= b < 256

  type Bytes = seq<Byte>

  function Power256(width: nat): (p: nat)
    ensures p >= 1
  {
    if width == 0 then 1 else 256 * Power256(width - 1)
  }

  function FromLittleEndian(s: Bytes): nat {
    if s == [] then 0 else s[0] as nat + 256 * FromLittleEndian(s[1..])
  }

  function ToLittleEndian(n: nat, width: nat): (s: Bytes)
    ensures |s| == width
  {
    if width == 0 then [] else [(n % 256) as Byte] + ToLittleEndian(n / 256, width - 1)
  }

  /** Reading back what was written. */
  lemma {:induction false} WrittenNumberReadsBack(n: nat, width: nat)
    requires n < Power256(width)
    ensures FromLittleEndian(ToLittleEndian(n, width)) == n
  {
    if width > 0 {
      WrittenNumberReadsBack(n / 256, width - 1);
      assert ToLittleEndian(n, width)[1..] == ToLittleEndian(n / 256, width - 1);
    }
  }

  /** Writing back what was read, which always fits. */
  lemma {:induction false} ReadNumberWritesBack(s: Bytes)
    ensures FromLittleEndian(s) < Power256(|s|)
    ensures ToLittleEndian(FromLittleEndian(s), |s|) == s
  {
    if s != [] {
      ReadNumberWritesBack(s[1..]);
      var n := FromLittleEndian(s);
      assert n % 256 == s[0] as int && n / 256 == FromLittleEndian(s[1..]);
      assert ToLittleEndian(n, |s|) == [s[0]] + ToLittleEndian(n / 256, |s| - 1);
    }
  }

  /** A slice that runs past the end is cut short, not refused. */
  function Slice(s: Bytes, from: nat, until: nat): Bytes {
    var start, end := Min(from, |s|), Min(until, |s|);
    if start <= end then s[start..end] else []
  }

  function Reversed(s: Bytes): (r: Bytes)
    ensures |r| == |s| && forall i :: 0 <= i < |s| ==> r[i] == s[|s| - 1 - i]
  {
    seq(|s|, i requires 0 <= i < |s| => s[|s| - 1 - i])
  }
}
