/** The rolling segment hash: running sums over a circular buffer, and the hash they refine. */
module Hash {
  import opened Bytes

  /** `XCODEC_SEGMENT_LENGTH`. */
  const SEGMENT_LENGTH: nat := 2048

  type U32 = x: int | 0 <= x < TWO_32

  /** Arithmetic on `uint32_t` wraps around. */
  function Wrap32(x: int): U32 {
    x % TWO_32
  }

  lemma {:induction false} WrapId(x: int)
    requires 0 <= x < TWO_32
    ensures Wrap32(x) == x
  {
  }

  /** One plus the index of the least significant set bit, or 0 if there is none: `ffs`. */
  function Ffs(b: nat): (r: nat) {
    if b == 0 then 0 else if b % 2 == 1 then 1 else 1 + Ffs(b / 2)
  }

  /** The values that the byte sums and the bit sums run over. */
  function WordOf(b: byte): U32 {
    b + 1
  }

  lemma {:induction false} FfsOfByte(b: byte)
    ensures Ffs(b) <= 8
  {
    var c := b / 2;
    var d := c / 2;
    var e := d / 2;
    var f := e / 2;
    var g := f / 2;
    var h := g / 2;
    var i := h / 2;
    assert i < 2;
    assert Ffs(i) <= 1;
    assert Ffs(h) <= 2;
    assert Ffs(g) <= 3;
    assert Ffs(f) <= 4;
    assert Ffs(e) <= 5;
    assert Ffs(d) <= 6;
    assert Ffs(c) <= 7;
  }

  function BitOf(b: byte): U32 {
    FfsOfByte(b);
    Ffs(b)
  }

  function WordsOf(s: Bytes): (r: seq<nat>)
    ensures |r| == |s|
  {
    seq(|s|, i requires 0 <= i < |s| => WordOf(s[i]))
  }

  function BitsOf(s: Bytes): (r: seq<nat>)
    ensures |r| == |s|
  {
    seq(|s|, i requires 0 <= i < |s| => BitOf(s[i]))
  }

  /** The plain sum of `xs`. */
  function Sum(xs: seq<nat>): nat {
    if xs == [] then 0 else Sum(xs[..|xs| - 1]) + xs[|xs| - 1]
  }

  /** The position-weighted sum of `xs`: the oldest element counts `|xs|` times, the newest once. */
  function WeightedSum(xs: seq<nat>): nat {
    if xs == [] then 0 else |xs| * xs[0] + WeightedSum(xs[1..])
  }

  /** `XCodecHash::mix`: 32-bit intermediate sums folded into 64 bits. */
  function Mix(bits1: nat, bits2: nat, bytes1: nat, bytes2: nat): Word {
    var bitsHash := Wrap32(bits1 * 0x1_0000 + bits2);
    var bytesHash := Wrap32(bytes1 * 0x10_0000 + bytes2);
    (bitsHash * 0x10_0000_0000 + bytesHash) % 0x1_0000_0000_0000_0000
  }

  /** The hash of a segment, as a function of its bytes alone. */
  function SegmentHash(s: Bytes): Word {
    Mix(Sum(BitsOf(s)), WeightedSum(BitsOf(s)), Sum(WordsOf(s)), WeightedSum(WordsOf(s)))
  }

  // --- Algebra of the two sums ---------------------------------------------------------------

  lemma {:induction false} SumAppend(xs: seq<nat>, x: nat)
    ensures Sum(xs + [x]) == Sum(xs) + x
  {
    assert (xs + [x])[..|xs|] == xs;
  }

  lemma {:induction false} SumPrepend(x: nat, xs: seq<nat>)
    ensures Sum([x] + xs) == x + Sum(xs)
  {
    if xs == [] {
      assert [x][..0] == [];
    } else {
      var init := xs[..|xs| - 1];
      assert ([x] + xs)[..|xs|] == [x] + init;
      SumPrepend(x, init);
    }
  }

  /** Adding the running sum after each new element weighs every element by its age. */
  lemma {:induction false} WeightedAppend(xs: seq<nat>, x: nat)
    ensures WeightedSum(xs + [x]) == WeightedSum(xs) + Sum(xs) + x
  {
    if xs == [] {
      assert ([] + [x])[1..] == [];
    } else {
      var tail := xs[1..];
      assert (xs + [x])[1..] == tail + [x];
      WeightedAppend(tail, x);
      assert xs == [xs[0]] + tail;
      SumPrepend(xs[0], tail);
      calc {
        WeightedSum(xs + [x]);
        (|xs| + 1) * xs[0] + WeightedSum(tail + [x]);
        |xs| * xs[0] + xs[0] + WeightedSum(tail) + Sum(tail) + x;
        WeightedSum(xs) + Sum(xs) + x;
      }
    }
  }

  lemma {:induction false} SumBounds(xs: seq<nat>, m: nat)
    requires forall i :: 0 <= i < |xs| ==> xs[i] <= m
    ensures Sum(xs) <= |xs| * m
  {
    if xs != [] {
      SumBounds(xs[..|xs| - 1], m);
      assert (|xs| - 1) * m + m == |xs| * m;
    }
  }

  lemma {:induction false} WeightedBounds(xs: seq<nat>, m: nat)
    requires forall i :: 0 <= i < |xs| ==> xs[i] <= m
    ensures 2 * WeightedSum(xs) <= |xs| * (|xs| + 1) * m
  {
    if xs != [] {
      var n := |xs|;
      WeightedBounds(xs[1..], m);
      assert n * xs[0] <= n * m;
      assert (n - 1) * n * m + 2 * (n * m) == n * (n + 1) * m by {
        assert (n - 1) * n + 2 * n == n * (n + 1);
        Distribute((n - 1) * n, 2 * n, m);
        assert 2 * n * m == 2 * (n * m);
      }
    }
  }

  lemma {:induction false} Distribute(a: int, b: int, m: int)
    ensures (a + b) * m == a * m + b * m
  {
  }

  lemma {:induction false} ProductMonotone(a: nat, b: nat, m: nat)
    requires a <= b
    ensures a * m <= b * m
  {
    assert b * m == a * m + (b - a) * m;
  }

  /** With segments of 2048 bytes no running sum comes near 32 bits. */
  lemma {:induction false} SumsFit(xs: seq<nat>)
    requires |xs| <= SEGMENT_LENGTH
    requires forall i :: 0 <= i < |xs| ==> xs[i] <= 256
    ensures Sum(xs) <= 0x8_0000
    ensures WeightedSum(xs) <= 0x2008_0000
  {
    SumBounds(xs, 256);
    WeightedBounds(xs, 256);
    var n := |xs|;
    ProductMonotone(n, SEGMENT_LENGTH, 256);
    ProductMonotone(n, SEGMENT_LENGTH, n + 1);
    ProductMonotone(n * (n + 1), SEGMENT_LENGTH * (SEGMENT_LENGTH + 1), 256);
  }

  // --- The circular buffer --------------------------------------------------------------------

  /** `buf` holds `hist`, oldest first, from slot `start` on (from slot 0 while still filling). */
  ghost predicate Layout(buf: seq<U32>, start: nat, hist: seq<nat>) {
    && |buf| == SEGMENT_LENGTH
    && |hist| <= SEGMENT_LENGTH
    && start < SEGMENT_LENGTH
    && (|hist| < SEGMENT_LENGTH ==> start == |hist| && forall i :: 0 <= i < |hist| ==> buf[i] == hist[i])
    && (|hist| == SEGMENT_LENGTH ==>
          forall i :: 0 <= i < SEGMENT_LENGTH ==>
            hist[i] == buf[if start + i < SEGMENT_LENGTH then start + i else start + i - SEGMENT_LENGTH])
  }

  lemma {:induction false} LayoutAdd(buf: seq<U32>, start: nat, hist: seq<nat>, ch: U32)
    requires Layout(buf, start, hist) && |hist| < SEGMENT_LENGTH
    ensures Layout(buf[start := ch], (start + 1) % SEGMENT_LENGTH, hist + [ch])
  {
  }

  lemma {:induction false} LayoutRoll(buf: seq<U32>, start: nat, hist: seq<nat>, ch: U32)
    requires Layout(buf, start, hist) && |hist| == SEGMENT_LENGTH
    ensures buf[start] == hist[0]
    ensures Layout(buf[start := ch], (start + 1) % SEGMENT_LENGTH, hist[1..] + [ch])
  {
    var buf', start', hist' := buf[start := ch], (start + 1) % SEGMENT_LENGTH, hist[1..] + [ch];
    assert hist[0] == buf[start];
    forall i | 0 <= i < SEGMENT_LENGTH
      ensures hist'[i] == buf'[if start' + i < SEGMENT_LENGTH then start' + i else start' + i - SEGMENT_LENGTH]
    {
      if i < SEGMENT_LENGTH - 1 {
        assert hist'[i] == hist[i + 1];
      }
    }
  }

  /** One roll in wrapping arithmetic computes the exact sums of the shifted window. */
  lemma {:induction false} RollSums(hist: seq<nat>, ch: nat)
    requires |hist| == SEGMENT_LENGTH && ch <= 256
    requires forall i :: 0 <= i < |hist| ==> hist[i] <= 256
    ensures var next, dead := hist[1..] + [ch], hist[0];
            && Sum(next) == Wrap32(Wrap32(Sum(hist) - dead) + ch)
            && WeightedSum(next) == Wrap32(Wrap32(WeightedSum(hist) - Wrap32(dead * SEGMENT_LENGTH)) + Sum(next))
  {
    var tail, dead := hist[1..], hist[0];
    assert hist == [dead] + tail;
    SumPrepend(dead, tail);
    SumAppend(tail, ch);
    WeightedAppend(tail, ch);
    SumsFit(tail + [ch]);
    WrapId(Sum(tail));
    WrapId(Sum(tail + [ch]));
    WrapId(dead * SEGMENT_LENGTH);
    WrapId(WeightedSum(tail));
    WrapId(WeightedSum(tail + [ch]));
  }

  lemma {:induction false} AddSums(hist: seq<nat>, ch: nat)
    requires |hist| < SEGMENT_LENGTH && ch <= 256
    requires forall i :: 0 <= i < |hist| ==> hist[i] <= 256
    ensures var next := hist + [ch];
            && Sum(next) == Wrap32(Sum(hist) + ch)
            && WeightedSum(next) == Wrap32(WeightedSum(hist) + Sum(next))
  {
    var next := hist + [ch];
    var s1, s2 := Sum(next), WeightedSum(next);
    assert s1 == Sum(hist) + ch by { SumAppend(hist, ch); }
    assert s2 == WeightedSum(hist) + s1 by { SumAppend(hist, ch); WeightedAppend(hist, ch); }
    SumsFit(next);
    WrapId(s1);
    WrapId(s2);
  }

  lemma {:induction false} ValuesAppend(s: Bytes, ch: byte)
    ensures WordsOf(s + [ch]) == WordsOf(s) + [WordOf(ch)]
    ensures BitsOf(s + [ch]) == BitsOf(s) + [BitOf(ch)]
  {
  }

  lemma {:induction false} ValuesShift(s: Bytes, ch: byte)
    requires s != []
    ensures WordsOf(s[1..] + [ch]) == WordsOf(s)[1..] + [WordOf(ch)]
    ensures BitsOf(s[1..] + [ch]) == BitsOf(s)[1..] + [BitOf(ch)]
  {
  }

  /** `XCodecHash::RollingHash`. */
  class RollingHash {
    var sum1: U32
    var sum2: U32
    const buffer: array<U32>
    /** The last `SEGMENT_LENGTH` or fewer values, oldest first. */
    ghost var hist: seq<nat>

    /** The sums are the exact, unwrapped sums over `hist`, whose next slot is `start`. */
    ghost predicate Valid(start: nat)
      reads this, buffer
    {
      && |hist| <= SEGMENT_LENGTH
      && (forall i :: 0 <= i < |hist| ==> hist[i] <= 256)
      && sum1 == Sum(hist)
      && sum2 == WeightedSum(hist)
      && Layout(buffer[..], start, hist)
    }

    constructor ()
      ensures Valid(0) && hist == [] && fresh(buffer)
    {
      sum1, sum2, hist := 0, 0, [];
      buffer := new U32[SEGMENT_LENGTH](_ => 0);
    }

    method Add(ch: U32, start: nat)
      requires Valid(start) && |hist| < SEGMENT_LENGTH && ch <= 256
      modifies this, buffer
      ensures Valid((start + 1) % SEGMENT_LENGTH) && hist == old(hist) + [ch]
    {
      hide Sum, WeightedSum, Wrap32;
      LayoutAdd(buffer[..], start, hist, ch);
      AddSums(hist, ch);
      buffer[start] := ch;
      assert buffer[..] == old(buffer[..])[start := ch];
      sum1 := Wrap32(sum1 + ch);
      sum2 := Wrap32(sum2 + sum1);
      hist := hist + [ch];
    }

    method Reset(ghost start: nat)
      requires Valid(start)
      modifies this
      ensures Valid(0) && hist == []
    {
      sum1, sum2, hist := 0, 0, [];
    }

    /** Drops the oldest value and adds `ch`, in constant time. */
    method Roll(ch: U32, start: nat)
      requires Valid(start) && |hist| == SEGMENT_LENGTH && ch <= 256
      modifies this, buffer
      ensures Valid((start + 1) % SEGMENT_LENGTH) && hist == old(hist)[1..] + [ch]
    {
      hide Sum, WeightedSum, Wrap32;
      LayoutRoll(buffer[..], start, hist, ch);
      RollSums(hist, ch);
      var dead := buffer[start];
      sum1 := Wrap32(sum1 - dead);
      sum2 := Wrap32(sum2 - Wrap32(dead * SEGMENT_LENGTH));
      buffer[start] := ch;
      assert buffer[..] == old(buffer[..])[start := ch];
      sum1 := Wrap32(sum1 + ch);
      sum2 := Wrap32(sum2 + sum1);
      hist := hist[1..] + [ch];
    }
  }

  /** `XCodecHash`: byte sums and bit sums over the same window of the stream. */
  class XCodecHash {
    const bytes: RollingHash
    const bits: RollingHash
    var start: nat
    var length: nat
    /** The bytes hashed since the last reset, at most the last `SEGMENT_LENGTH` of them. */
    ghost var last: Bytes

    ghost function Repr(): set<object> {
      {this, bytes, bits, bytes.buffer, bits.buffer}
    }

    ghost predicate Valid()
      reads Repr()
    {
      && bytes != bits && bytes.buffer != bits.buffer
      && bytes.Valid(start) && bits.Valid(start)
      && length == |last| <= SEGMENT_LENGTH
      && bytes.hist == WordsOf(last)
      && bits.hist == BitsOf(last)
    }

    constructor ()
      ensures Valid() && last == [] && fresh(Repr())
    {
      bytes := new RollingHash();
      bits := new RollingHash();
      start, length, last := 0, 0, [];
    }

    method Add(ch: byte)
      requires Valid() && |last| < SEGMENT_LENGTH
      modifies Repr()
      ensures Valid() && last == old(last) + [ch]
    {
      hide Sum, WeightedSum, Layout;
      FfsOfByte(ch);
      ValuesAppend(last, ch);
      bytes.Add(WordOf(ch), start);
      bits.Add(BitOf(ch), start);
      length := length + 1;
      last := last + [ch];
      start := (start + 1) % SEGMENT_LENGTH;
    }

    method Reset()
      requires Valid()
      modifies Repr()
      ensures Valid() && last == []
    {
      bytes.Reset(start);
      bits.Reset(start);
      length, start, last := 0, 0, [];
    }

    method Roll(ch: byte)
      requires Valid() && |last| == SEGMENT_LENGTH
      modifies Repr()
      ensures Valid() && last == old(last)[1..] + [ch]
    {
      hide Sum, WeightedSum, Layout;
      FfsOfByte(ch);
      ValuesShift(last, ch);
      bytes.Roll(WordOf(ch), start);
      bits.Roll(BitOf(ch), start);
      last := last[1..] + [ch];
      start := (start + 1) % SEGMENT_LENGTH;
    }

    /** The running sums fold to the hash of the last `SEGMENT_LENGTH` bytes. */
    method MixIn() returns (h: Word)
      requires Valid() && |last| == SEGMENT_LENGTH
      ensures h == SegmentHash(last)
    {
      h := Mix(bits.sum1, bits.sum2, bytes.sum1, bytes.sum2);
    }
  }

  /** `XCodecHash::hash`: the hash of a whole segment from scratch. */
  method HashFromScratch(data: Bytes) returns (h: Word)
    requires |data| == SEGMENT_LENGTH
    ensures h == SegmentHash(data)
  {
    hide Sum, WeightedSum, Layout;
    var x := new XCodecHash();
    var i := 0;
    while i < SEGMENT_LENGTH
      invariant 0 <= i <= SEGMENT_LENGTH
      invariant fresh(x.Repr()) && x.Valid() && x.last == data[..i]
    {
      x.Add(data[i]);
      i := i + 1;
    }
    assert data[..i] == data;
    h := x.MixIn();
  }
}
