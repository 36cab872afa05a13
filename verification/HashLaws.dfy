/** What the segment hash is made of, and what it can tell apart. */
module HashLaws {
  import opened Bytes
  import opened Hash

  // --- The layout of the 64 bits ----------------------------------------------------------------------------

  lemma {:induction false} FieldsOf(a: nat, b: nat)
    requires b < 0x1_0000_0000
    ensures var x := (a * 0x10_0000_0000 + b) % 0x1_0000_0000_0000_0000;
            x == a % 0x1000_0000 * 0x10_0000_0000 + b
  {
    var q, r := a / 0x1000_0000, a % 0x1000_0000;
    assert a == q * 0x1000_0000 + r;
    DivUnique(a * 0x10_0000_0000 + b, 0x1_0000_0000_0000_0000, q, r * 0x10_0000_0000 + b);
  }

  /** What the low 32 bits of the hash are computed from, before they wrap around. */
  function ByteKey(s: Bytes): nat {
    Sum(WordsOf(s)) * 0x10_0000 + WeightedSum(WordsOf(s))
  }

  /** The same of the high 28 bits. */
  function BitKey(s: Bytes): nat {
    Sum(BitsOf(s)) * 0x1_0000 + WeightedSum(BitsOf(s))
  }

  /**
    The byte sums fill the low 32 bits of the hash, the bit sums its high 28 bits, and the four bits
    between them are clear.
  */
  lemma {:induction false} HashLayout(s: Bytes)
    ensures SegmentHash(s) % 0x1_0000_0000 == ByteKey(s) % 0x1_0000_0000
    ensures SegmentHash(s) / 0x1_0000_0000 % 0x10 == 0
    ensures SegmentHash(s) / 0x10_0000_0000 == BitKey(s) % 0x1000_0000
  {
    hide Sum, WeightedSum, WordsOf, BitsOf;
    var bits: nat, low: nat := BitKey(s) % 0x1_0000_0000, ByteKey(s) % 0x1_0000_0000;
    var h: nat := SegmentHash(s);
    FieldsOf(bits, low);
    var high := bits % 0x1000_0000;
    assert h == high * 0x10_0000_0000 + low;
    DivUnique(h, 0x1_0000_0000, high * 0x10, low);
    DivUnique(h, 0x10_0000_0000, high, low);
    NestedMod(BitKey(s));
  }

  lemma {:induction false} NestedMod(x: nat)
    ensures x % 0x1_0000_0000 % 0x1000_0000 == x % 0x1000_0000
  {
    var q, r := x / 0x1_0000_0000, x % 0x1_0000_0000;
    var q', r' := r / 0x1000_0000, r % 0x1000_0000;
    assert x == (q * 0x10 + q') * 0x1000_0000 + r';
    DivUnique(x, 0x1000_0000, q * 0x10 + q', r');
  }

  // --- One byte changed ---------------------------------------------------------------------------------------

  lemma {:induction false} SumUpdate(xs: seq<nat>, i: nat, x: nat)
    requires i < |xs|
    ensures Sum(xs[i := x]) + xs[i] == Sum(xs) + x
  {
    var n := |xs| - 1;
    if i == n {
      assert xs[i := x][..n] == xs[..n];
    } else {
      assert xs[i := x][..n] == xs[..n][i := x];
      SumUpdate(xs[..n], i, x);
    }
  }

  lemma {:induction false} WeightedUpdate(xs: seq<nat>, i: nat, x: nat)
    requires i < |xs|
    ensures WeightedSum(xs[i := x]) + (|xs| - i) * xs[i] == WeightedSum(xs) + (|xs| - i) * x
  {
    if i == 0 {
      assert xs[i := x][1..] == xs[1..];
    } else {
      assert xs[i := x][1..] == xs[1..][i - 1 := x];
      WeightedUpdate(xs[1..], i - 1, x);
    }
  }

  lemma {:induction false} KeyUpdate(s: Bytes, i: nat, b: byte)
    requires i < |s|
    ensures ByteKey(s[i := b]) - ByteKey(s) == (b - s[i]) * (0x10_0000 + |s| - i)
  {
    var xs, k := WordsOf(s), |s| - i;
    assert WordsOf(s[i := b]) == xs[i := WordOf(b)];
    SumUpdate(xs, i, WordOf(b));
    WeightedUpdate(xs, i, WordOf(b));
    KeyDifference(k, b, s[i]);
    hide Sum, WeightedSum, WordsOf;
  }

  lemma {:induction false} KeyDifference(k: nat, b: int, c: int)
    ensures (b - c) * (0x10_0000 + k) == (b - c) * 0x10_0000 + k * (b + 1) - k * (c + 1)
  {
    Distribute(b + 1, -(c + 1), k);
    Distribute(0x10_0000, k, b - c);
  }

  /** Numbers that differ by less than 2^32 differ in their low 32 bits. */
  lemma {:induction false} LowBitsDiffer(x: nat, y: nat)
    requires x != y && -0x1_0000_0000 < x - y < 0x1_0000_0000
    ensures x % 0x1_0000_0000 != y % 0x1_0000_0000
  {
  }

  lemma {:induction false} HashesDiffer(s: Bytes, t: Bytes, d: int)
    requires ByteKey(t) == ByteKey(s) + d && d != 0 && -0x1_0000_0000 < d < 0x1_0000_0000
    ensures SegmentHash(t) != SegmentHash(s)
  {
    hide SegmentHash, ByteKey, BitKey;
    HashLayout(s);
    HashLayout(t);
    LowBitsDiffer(ByteKey(t), ByteKey(s));
  }

  /** Two segments that differ in one byte have different hashes. */
  lemma {:induction false} OneByteDiffers(s: Bytes, i: nat, b: byte)
    requires |s| == SEGMENT_LENGTH && i < |s| && b != s[i]
    ensures SegmentHash(s[i := b]) != SegmentHash(s)
  {
    hide SegmentHash, ByteKey;
    KeyUpdate(s, i, b);
    var x: int, y: int, k := b, s[i], 0x10_0000 + |s| - i;
    ProductBounds(x - y, k);
    HashesDiffer(s, s[i := b], (x - y) * k);
  }

  lemma {:induction false} ProductBounds(d: int, k: nat)
    requires -256 < d < 256 && d != 0 && 0 < k <= 0x10_0000 + SEGMENT_LENGTH
    ensures d * k != 0 && -0x1_0000_0000 < d * k < 0x1_0000_0000
  {
    if d > 0 {
      ProductMonotone(1, d, k);
      ProductMonotone(d, 255, k);
    } else {
      ProductMonotone(1, -d, k);
      ProductMonotone(-d, 255, k);
      assert d * k == -(-d * k);
    }
  }

  /** So have two segments that differ by an exchange of two different bytes: the hash depends on the order. */
  lemma {:induction false} ExchangeDiffers(s: Bytes, i: nat, j: nat)
    requires |s| == SEGMENT_LENGTH && i < j < |s| && s[i] != s[j]
    ensures SegmentHash(s[i := s[j]][j := s[i]]) != SegmentHash(s)
  {
    hide SegmentHash, ByteKey;
    KeyExchange(s, i, j);
    var x: int, y: int := s[j], s[i];
    ProductBounds(x - y, j - i);
    HashesDiffer(s, s[i := s[j]][j := s[i]], (x - y) * (j - i));
  }

  lemma {:induction false} KeyExchange(s: Bytes, i: nat, j: nat)
    requires i < j < |s|
    ensures ByteKey(s[i := s[j]][j := s[i]]) - ByteKey(s) == (s[j] - s[i]) * (j - i)
  {
    hide ByteKey;
    KeyUpdate(s, i, s[j]);
    KeyUpdate(s[i := s[j]], j, s[i]);
    var x: int, y: int := s[j], s[i];
    ExchangeKey(x - y, 0x10_0000 + |s| - i, 0x10_0000 + |s| - j);
    assert y - x == -(x - y);
  }

  lemma {:induction false} ExchangeKey(d: int, k: nat, m: nat)
    ensures d * k + -d * m == d * (k - m)
  {
  }

  // --- Segments of one byte only --------------------------------------------------------------------------------

  function Repeated(n: nat, x: nat): (r: seq<nat>)
    ensures |r| == n
  {
    seq(n, _ => x)
  }

  lemma {:induction false} SumRepeated(n: nat, x: nat)
    ensures Sum(Repeated(n, x)) == n * x
  {
    if n > 0 {
      assert Repeated(n, x)[..n - 1] == Repeated(n - 1, x);
      SumRepeated(n - 1, x);
    }
  }

  lemma {:induction false} WeightedRepeated(n: nat, x: nat)
    ensures 2 * WeightedSum(Repeated(n, x)) == n * (n + 1) * x
  {
    if n > 0 {
      assert Repeated(n, x)[1..] == Repeated(n - 1, x);
      WeightedRepeated(n - 1, x);
      assert n * (n + 1) * x == (n - 1) * n * x + 2 * (n * x) by {
        assert n * (n + 1) == (n - 1) * n + 2 * n;
        Distribute((n - 1) * n, 2 * n, x);
        assert 2 * n * x == 2 * (n * x);
      }
    }
  }

  /** `ffs` gives the lowest bit that is set: a power of two that divides the byte, the next one not. */
  lemma {:induction false} FfsIsLowestBit(b: nat)
    requires b != 0
    ensures Ffs(b) > 0 && b % PowerOfTwo(Ffs(b)) == PowerOfTwo(Ffs(b) - 1)
  {
    if b % 2 == 0 {
      FfsIsLowestBit(b / 2);
      var k := Ffs(b / 2);
      var p, q := PowerOfTwo(k), PowerOfTwo(k - 1);
      var m := b / 2 / p;
      assert b / 2 == p * m + q;
      assert b == m * (2 * p) + 2 * q by {
        assert m * (2 * p) == 2 * (p * m);
      }
      assert 2 * q == p;
      DivUnique(b, 2 * p, m, 2 * q);
    }
  }

  function PowerOfTwo(n: nat): (r: nat)
    ensures r > 0
  {
    if n == 0 then 1 else 2 * PowerOfTwo(n - 1)
  }

  /** The sums of a segment of equal bytes, in which a byte counts one more than its value. */
  lemma {:induction false} UniformSegment(b: byte)
    ensures var s := seq(SEGMENT_LENGTH, _ => b);
            && ByteKey(s) == (b + 1) * 0x8020_0400
            && BitKey(s) == Ffs(b) * 0x820_0400
  {
    var s := seq(SEGMENT_LENGTH, _ => b);
    assert WordsOf(s) == Repeated(SEGMENT_LENGTH, b + 1);
    assert BitsOf(s) == Repeated(SEGMENT_LENGTH, Ffs(b));
    hide WordsOf, BitsOf, Repeated, Sum, WeightedSum, Ffs;
    RepeatedSums(b + 1);
    RepeatedSums(Ffs(b));
  }

  lemma {:induction false} RepeatedSums(x: nat)
    ensures Sum(Repeated(SEGMENT_LENGTH, x)) == 0x800 * x && WeightedSum(Repeated(SEGMENT_LENGTH, x)) == 0x20_0400 * x
  {
    SumRepeated(SEGMENT_LENGTH, x);
    WeightedRepeated(SEGMENT_LENGTH, x);
    hide Sum, WeightedSum, Repeated;
    assert SEGMENT_LENGTH * (SEGMENT_LENGTH + 1) == 2 * 0x20_0400;
  }
}
