/** Bytes, 64-bit words and the big-endian wire form of integers. */
module Bytes {

  type byte = x: int | 0 <= x < 256

  type Bytes = seq<byte>

  /** A `uint64_t`. */
  type Word = x: int | 0 <= x < 0x1_0000_0000_0000_0000

  const TWO_32: nat := 0x1_0000_0000

  datatype Option<+T> = None | Some(value: T)

  function Min(a: nat, b: nat): nat {
    if a < b then a else b
  }

  /** The bytes of a list of segments: what a `Buffer` stands for. */
  function Flatten(segs: seq<Bytes>): Bytes {
    if segs == [] then [] else segs[0] + Flatten(segs[1..])
  }

  /** `Buffer::length`. */
  function LengthOf(segs: seq<Bytes>): (n: nat)
    ensures n == |Flatten(segs)|
  {
    if segs == [] then 0 else |segs[0]| + LengthOf(segs[1..])
  }

  /** The number of values of a `k`-byte unsigned integer. */
  function Radix(k: nat): (r: nat)
    ensures r > 0
  {
    if k == 0 then 1 else 256 * Radix(k - 1)
  }

  /** `x` as `k` bytes, most significant first (`BigEndian::encode` followed by `Buffer::append`). */
  function ToBE(k: nat, x: nat): (s: Bytes)
    ensures |s| == k
  {
    if k == 0 then [] else ToBE(k - 1, x / 256) + [x % 256]
  }

  /** The integer that a big-endian byte string stands for. */
  function FromBE(s: Bytes): (x: nat)
  {
    if s == [] then 0 else FromBE(s[..|s| - 1]) * 256 + s[|s| - 1]
  }

  lemma {:induction false} FromToBE(k: nat, x: nat)
    requires x < Radix(k)
    ensures FromBE(ToBE(k, x)) == x
  {
    if k > 0 {
      FromToBE(k - 1, x / 256);
      assert ToBE(k, x)[..k - 1] == ToBE(k - 1, x / 256);
    }
  }

  lemma {:induction false} FromBEBound(s: Bytes)
    ensures FromBE(s) < Radix(|s|)
  {
    if s != [] {
      FromBEBound(s[..|s| - 1]);
    }
  }

  lemma {:induction false} ToFromBE(s: Bytes)
    ensures ToBE(|s|, FromBE(s)) == s
  {
    if s != [] {
      var t, last := s[..|s| - 1], s[|s| - 1];
      ToFromBE(t);
      assert s == t + [last];
      assert FromBE(s) == FromBE(t) * 256 + last;
      assert FromBE(s) / 256 == FromBE(t) && FromBE(s) % 256 == last;
    }
  }

  lemma {:induction false} RadixOf8()
    ensures Radix(8) == 0x1_0000_0000_0000_0000
  {
    assert Radix(2) == 65536;
    assert Radix(4) == 65536 * 65536;
    assert Radix(6) == 65536 * Radix(4);
    assert Radix(8) == 65536 * Radix(6);
  }

  /** The wire form of a 64-bit hash. */
  function PutWord(h: Word): (s: Bytes)
    ensures |s| == 8
  {
    ToBE(8, h)
  }

  function GetWord(s: Bytes): (h: Word)
    requires |s| == 8
  {
    FromBEBound(s);
    RadixOf8();
    FromBE(s)
  }

  lemma {:induction false} WordRoundTrip(h: Word)
    ensures GetWord(PutWord(h)) == h
  {
    RadixOf8();
    FromToBE(8, h);
  }

  lemma {:induction false} WordRoundTripBack(s: Bytes)
    requires |s| == 8
    ensures PutWord(GetWord(s)) == s
  {
    ToFromBE(s);
  }

  /** Quotient and remainder are unique. */
  lemma {:induction false} DivUnique(x: int, d: nat, q: int, r: nat)
    requires d > 0 && x == q * d + r && r < d
    ensures x % d == r && x / d == q
  {
    var q', r' := x / d, x % d;
    assert (q - q') * d == r' - r;
    if q > q' {
      assert (q - q') * d >= d by { Scale(q - q', d); }
    } else if q < q' {
      assert (q' - q) * d >= d by { Scale(q' - q, d); }
    }
  }

  lemma {:induction false} Scale(k: int, d: nat)
    requires k >= 1
    ensures k * d >= d
  {
  }
}
