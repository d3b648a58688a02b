/** Bytes, machine widths and big-endian numbers, as the three clients put them on the wire. */
module Bytes {

  type byte = b: int | 0 <= b < 256

  const TWO_POW_16: nat := 0x1_0000
  const TWO_POW_32: nat := 0x1_0000_0000
  const TWO_POW_64: nat := 0x1_0000_0000_0000_0000

  type u32 = x: int | 0 <= x < TWO_POW_32
  type u64 = x: int | 0 <= x < TWO_POW_64

  function Pow256(width: nat): (p: nat)
    ensures p > 0
  {
    if width == 0 then 1 else 256 * Pow256(width - 1)
  }

  /** The last `width` base-256 digits of `value`, most significant first. */
  function BigEndian(width: nat, value: nat): (s: seq<byte>)
    ensures |s| == width
  {
    if width == 0 then [] else BigEndian(width - 1, value / 256) + [value % 256]
  }

  /** The number a big-endian byte string stands for. */
  function Value(s: seq<byte>): nat {
    if s == [] then 0 else 256 * Value(s[..|s| - 1]) + s[|s| - 1]
  }

  lemma Widths()
    ensures Pow256(2) == TWO_POW_16
    ensures Pow256(4) == TWO_POW_32
    ensures Pow256(8) == TWO_POW_64
  {
    assert Pow256(2) == 256 * Pow256(1);
    assert Pow256(4) == 256 * Pow256(3) && Pow256(3) == 256 * Pow256(2);
    assert Pow256(6) == 256 * Pow256(5) && Pow256(5) == 256 * Pow256(4);
    assert Pow256(8) == 256 * Pow256(7) && Pow256(7) == 256 * Pow256(6);
  }

  /** A number that fits the width survives being written and read back. */
  lemma {:induction false} ValueOfBigEndian(width: nat, value: nat)
    requires value < Pow256(width)
    ensures Value(BigEndian(width, value)) == value
  {
    if width != 0 {
      ValueOfBigEndian(width - 1, value / 256);
      var s := BigEndian(width, value);
      assert s[..|s| - 1] == BigEndian(width - 1, value / 256);
    }
  }

  /** Every byte string is the big-endian form of its own value, which fits its width. */
  lemma {:induction false} BigEndianOfValue(s: seq<byte>)
    ensures Value(s) < Pow256(|s|)
    ensures BigEndian(|s|, Value(s)) == s
  {
    if s != [] {
      var high, low := s[..|s| - 1], s[|s| - 1];
      BigEndianOfValue(high);
      var v := Value(high);
      assert Value(s) == 256 * v + low;
      assert (256 * v + low) / 256 == v && (256 * v + low) % 256 == low;
      assert BigEndian(|s|, Value(s)) == BigEndian(|high|, v) + [low];
      assert s == high + [low];
    }
  }

  lemma ConcatAssoc<T>(a: seq<T>, b: seq<T>, c: seq<T>)
    ensures (a + b) + c == a + (b + c)
  {
  }

  lemma ConcatSuffix<T>(a: seq<T>, b: seq<T>, n: nat)
    requires n <= |a|
    ensures (a + b)[n..] == a[n..] + b
  {
  }

  lemma ConcatWithin<T>(a: seq<T>, b: seq<T>, i: nat, j: nat)
    requires i <= j <= |a|
    ensures (a + b)[i..j] == a[i..j]
  {
  }
}
