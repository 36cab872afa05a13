/** How big-endian integers get onto the wire from a little-endian host: by swapping bytes in a register. */
module Endian {
  import opened Bytes

  /** `x` as `k` bytes in the memory of a little-endian host. */
  function ToLE(k: nat, x: nat): (s: Bytes)
    ensures |s| == k
  {
    if k == 0 then [] else [x % 256] + ToLE(k - 1, x / 256)
  }

  function FromLE(s: Bytes): nat {
    if s == [] then 0 else s[0] + 256 * FromLE(s[1..])
  }

  // --- The swaps, with masks and shifts and as arithmetic -------------------------------------------

  function MaskSwap16(x: bv16): bv16 {
    ((x & 0xff00) >> 0x08) | ((x & 0x00ff) << 0x08)
  }

  function MaskSwap32(x: bv32): bv32 {
    ((x & 0xff00_0000) >> 0x18) | ((x & 0x00ff_0000) >> 0x08) | ((x & 0x0000_ff00) << 0x08) | ((x & 0x0000_00ff) << 0x18)
  }

  function MaskSwap64(x: bv64): bv64 {
    ((x & 0xff00_0000_0000_0000) >> 0x38)
    | ((x & 0x00ff_0000_0000_0000) >> 0x28)
    | ((x & 0x0000_ff00_0000_0000) >> 0x18)
    | ((x & 0x0000_00ff_0000_0000) >> 0x08)
    | ((x & 0x0000_0000_ff00_0000) << 0x08)
    | ((x & 0x0000_0000_00ff_0000) << 0x18)
    | ((x & 0x0000_0000_0000_ff00) << 0x28)
    | ((x & 0x0000_0000_0000_00ff) << 0x38)
  }

  /** In a register, the parts do not overlap: masks, shifts and ors are remainders, quotients, products and sums. */
  lemma {:induction false} MasksAreArithmetic(x: bv16, y: bv32, z: bv64)
    ensures MaskSwap16(x) == x / 0x100 % 0x100 + x % 0x100 * 0x100
    ensures MaskSwap32(y) ==
            y / 0x100_0000 % 0x100 + y / 0x1_0000 % 0x100 * 0x100 + y / 0x100 % 0x100 * 0x1_0000 + y % 0x100 * 0x100_0000
    ensures MaskSwap64(z) ==
            z / 0x100_0000_0000_0000 % 0x100
            + z / 0x1_0000_0000_0000 % 0x100 * 0x100
            + z / 0x100_0000_0000 % 0x100 * 0x1_0000
            + z / 0x1_0000_0000 % 0x100 * 0x100_0000
            + z / 0x100_0000 % 0x100 * 0x1_0000_0000
            + z / 0x1_0000 % 0x100 * 0x100_0000_0000
            + z / 0x100 % 0x100 * 0x1_0000_0000_0000
            + z % 0x100 * 0x100_0000_0000_0000
  {
  }

  function Swap16(x: nat): nat {
    x / 0x100 % 0x100 + x % 0x100 * 0x100
  }

  function Swap32(x: nat): nat {
    x / 0x100_0000 % 0x100 + x / 0x1_0000 % 0x100 * 0x100 + x / 0x100 % 0x100 * 0x1_0000 + x % 0x100 * 0x100_0000
  }

  function Swap64(x: nat): nat {
    x / 0x100_0000_0000_0000 % 0x100
    + x / 0x1_0000_0000_0000 % 0x100 * 0x100
    + x / 0x100_0000_0000 % 0x100 * 0x1_0000
    + x / 0x1_0000_0000 % 0x100 * 0x100_0000
    + x / 0x100_0000 % 0x100 * 0x1_0000_0000
    + x / 0x1_0000 % 0x100 * 0x100_0000_0000
    + x / 0x100 % 0x100 * 0x1_0000_0000_0000
    + x % 0x100 * 0x100_0000_0000_0000
  }

  function Reversed(s: Bytes): (r: Bytes)
    ensures |r| == |s|
  {
    if s == [] then [] else Reversed(s[1..]) + [s[0]]
  }

  lemma {:induction false} ToFromLE(s: Bytes)
    ensures ToLE(|s|, FromLE(s)) == s
  {
    if s != [] {
      var rest := FromLE(s[1..]);
      assert FromLE(s) % 256 == s[0] && FromLE(s) / 256 == rest;
      ToFromLE(s[1..]);
    }
  }

  lemma {:induction false} ToBEReversed(k: nat, x: nat)
    ensures Reversed(ToLE(k, x)) == ToBE(k, x)
  {
    if k > 0 {
      ToBEReversed(k - 1, x / 256);
      assert ToLE(k, x)[1..] == ToLE(k - 1, x / 256);
    }
  }

  lemma {:induction false} FromBEReversed(s: Bytes)
    ensures FromBE(Reversed(s)) == FromLE(s)
  {
    if s != [] {
      var r := Reversed(s);
      assert r[..|r| - 1] == Reversed(s[1..]);
      FromBEReversed(s[1..]);
    }
  }

  /** The byte of `x` that `i` bytes are below. */
  function ByteAt(x: nat, i: nat): byte {
    if i == 0 then x % 256 else ByteAt(x / 256, i - 1)
  }

  lemma {:induction false} Bytes2(x: nat)
    ensures ToBE(2, x) == [ByteAt(x, 1), ByteAt(x, 0)]
    ensures ByteAt(x, 0) == x % 0x100 && ByteAt(x, 1) == x / 0x100 % 0x100
  {
    assert ToBE(0, x / 256 / 256) == [];
    assert ToBE(1, x / 256) == [] + [x / 256 % 256];
  }

  lemma {:induction false} Bytes4(x: nat)
    ensures ToBE(4, x) == [ByteAt(x, 3), ByteAt(x, 2), ByteAt(x, 1), ByteAt(x, 0)]
    ensures ByteAt(x, 0) == x % 0x100 && ByteAt(x, 1) == x / 0x100 % 0x100
    ensures ByteAt(x, 2) == x / 0x1_0000 % 0x100 && ByteAt(x, 3) == x / 0x100_0000 % 0x100
  {
    var y := x / 256 / 256;
    Bytes2(y);
    Bytes2(x);
    assert ToBE(3, x / 256) == ToBE(2, y) + [x / 256 % 256];
    assert ToBE(4, x) == ToBE(3, x / 256) + [x % 256];
    assert ByteAt(x, 2) == ByteAt(y, 0) && ByteAt(x, 3) == ByteAt(y, 1);
    assert y == x / 0x1_0000 && y / 0x100 == x / 0x100_0000;
  }

  lemma {:induction false} Bytes8(x: nat)
    ensures ToBE(8, x) == [ByteAt(x, 7), ByteAt(x, 6), ByteAt(x, 5), ByteAt(x, 4)] + [ByteAt(x, 3), ByteAt(x, 2), ByteAt(x, 1), ByteAt(x, 0)]
    ensures ByteAt(x, 4) == x / 0x1_0000_0000 % 0x100 && ByteAt(x, 5) == x / 0x100_0000_0000 % 0x100
    ensures ByteAt(x, 6) == x / 0x1_0000_0000_0000 % 0x100 && ByteAt(x, 7) == x / 0x100_0000_0000_0000 % 0x100
  {
    var y := x / 256 / 256 / 256 / 256;
    HighBytes(x);
    Bytes4(y);
    Bytes4(x);
    forall i: nat | i < 4
      ensures ByteAt(x, i + 4) == ByteAt(y, i)
    {
      ByteShift(x, i);
    }
    assert ByteAt(x, 0 + 4) == ByteAt(y, 0) && ByteAt(x, 1 + 4) == ByteAt(y, 1);
    assert ByteAt(x, 2 + 4) == ByteAt(y, 2) && ByteAt(x, 3 + 4) == ByteAt(y, 3);
    assert y == x / 0x1_0000_0000;
    assert y / 0x100 == x / 0x100_0000_0000 && y / 0x1_0000 == x / 0x1_0000_0000_0000 && y / 0x100_0000 == x / 0x100_0000_0000_0000;
  }

  lemma {:induction false} ByteShift(x: nat, i: nat)
    ensures ByteAt(x, i + 4) == ByteAt(x / 256 / 256 / 256 / 256, i)
  {
    var a, b, c := x / 256, x / 256 / 256, x / 256 / 256 / 256;
    assert ByteAt(x, i + 4) == ByteAt(a, i + 3);
    assert ByteAt(a, i + 3) == ByteAt(b, i + 2);
    assert ByteAt(b, i + 2) == ByteAt(c, i + 1);
  }

  lemma {:induction false} HighBytes(x: nat)
    ensures ToBE(8, x) == ToBE(4, x / 256 / 256 / 256 / 256) + ToBE(4, x)
  {
    var a, b, c := x / 256, x / 256 / 256, x / 256 / 256 / 256;
    var high := ToBE(4, c / 256);
    assert ToBE(5, c) == high + [c % 256];
    assert ToBE(6, b) == ToBE(5, c) + [b % 256];
    assert ToBE(7, a) == ToBE(6, b) + [a % 256];
    assert ToBE(8, x) == ToBE(7, a) + [x % 256];
    assert ToBE(0, c / 256) == [] && ToBE(1, c) == [c % 256];
    assert ToBE(2, b) == ToBE(1, c) + [b % 256];
    assert ToBE(3, a) == ToBE(2, b) + [a % 256];
    assert ToBE(4, x) == ToBE(3, a) + [x % 256];
  }

  lemma {:induction false} FromLE4(a: byte, b: byte, c: byte, d: byte, rest: Bytes)
    ensures FromLE([a, b, c, d] + rest) == a + b * 0x100 + c * 0x1_0000 + d * 0x100_0000 + 0x1_0000_0000 * FromLE(rest)
  {
    var s := [a, b, c, d] + rest;
    var t, u, v := [b, c, d] + rest, [c, d] + rest, [d] + rest;
    assert s[1..] == t && t[1..] == u && u[1..] == v && v[1..] == rest;
    assert FromLE(v) == d + 256 * FromLE(rest);
    assert FromLE(u) == c + 256 * FromLE(v);
    assert FromLE(t) == b + 256 * FromLE(u);
    assert FromLE(s) == a + 256 * FromLE(t);
  }

  /** A swap reverses the bytes. */
  lemma {:induction false} SwapReverses(x: nat)
    ensures Swap16(x) == FromLE(ToBE(2, x))
    ensures Swap32(x) == FromLE(ToBE(4, x))
    ensures Swap64(x) == FromLE(ToBE(8, x))
  {
    Bytes2(x);
    var two := ToBE(2, x);
    assert two[1..] == [ByteAt(x, 0)] && two[1..][1..] == [];
    Bytes4(x);
    assert [ByteAt(x, 3), ByteAt(x, 2), ByteAt(x, 1), ByteAt(x, 0)] + [] == ToBE(4, x);
    FromLE4(ByteAt(x, 3), ByteAt(x, 2), ByteAt(x, 1), ByteAt(x, 0), []);
    Bytes8(x);
    FromLE4(ByteAt(x, 7), ByteAt(x, 6), ByteAt(x, 5), ByteAt(x, 4), ToBE(4, x));
  }

  /** `BigEndian::append`: what the host stores after a swap is the integer, most significant byte first. */
  lemma {:induction false} AppendIsBigEndian(x: nat)
    ensures ToLE(2, Swap16(x)) == ToBE(2, x)
    ensures ToLE(4, Swap32(x)) == ToBE(4, x)
    ensures ToLE(8, Swap64(x)) == ToBE(8, x)
  {
    SwapReverses(x);
    ToFromLE(ToBE(2, x));
    ToFromLE(ToBE(4, x));
    ToFromLE(ToBE(8, x));
  }

  /** `BigEndian::extract`: swapping what the host loads is reading the bytes, most significant first. */
  lemma {:induction false} ExtractIsBigEndian(s: Bytes)
    ensures |s| == 2 ==> Swap16(FromLE(s)) == FromBE(s)
    ensures |s| == 4 ==> Swap32(FromLE(s)) == FromBE(s)
    ensures |s| == 8 ==> Swap64(FromLE(s)) == FromBE(s)
  {
    var x := FromLE(s);
    SwapReverses(x);
    ToBEReversed(|s|, x);
    ToFromLE(s);
    FromBEReversed(Reversed(s));
    ReversedTwice(s);
  }

  lemma {:induction false} ReversedTwice(s: Bytes)
    ensures Reversed(Reversed(s)) == s
  {
    if s != [] {
      ReversedLast(Reversed(s[1..]), s[0]);
      ReversedTwice(s[1..]);
    }
  }

  lemma {:induction false} ReversedLast(s: Bytes, b: byte)
    ensures Reversed(s + [b]) == [b] + Reversed(s)
  {
    if s == [] {
      assert s + [b] == [b] && [b][1..] == [];
    } else {
      assert (s + [b])[1..] == s[1..] + [b];
      ReversedLast(s[1..], b);
    }
  }

  /** Swapping twice gives the integer back. */
  lemma {:induction false} SwapTwice(x: nat)
    ensures x < Radix(2) ==> Swap16(Swap16(x)) == x
    ensures x < Radix(4) ==> Swap32(Swap32(x)) == x
    ensures x < Radix(8) ==> Swap64(Swap64(x)) == x
  {
    SwapReverses(x);
    ExtractIsBigEndian(ToBE(2, x));
    ExtractIsBigEndian(ToBE(4, x));
    ExtractIsBigEndian(ToBE(8, x));
    if x < Radix(2) {
      FromToBE(2, x);
    }
    if x < Radix(4) {
      FromToBE(4, x);
    }
    if x < Radix(8) {
      FromToBE(8, x);
    }
  }
}
