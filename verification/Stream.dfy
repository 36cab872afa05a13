/** The encoded stream: its tokens, their bytes, and what a stream of tokens means. */
module Stream {
  import opened Bytes
  import opened Hash
  import opened Window

  const MAGIC: byte := 0xf1
  const OP_ESCAPE: byte := 0x00
  const OP_EXTRACT: byte := 0x01
  const OP_REF: byte := 0x02
  const OP_BACKREF: byte := 0x03

  datatype Token =
    | Literal(b: byte)
    | Escaped
    | Extract(seg: Bytes)
    | Ref(hash: Word)
    | Backref(idx: byte)

  /** The bytes of one token. */
  function Put(t: Token): (s: Bytes)
    ensures s != []
  {
    match t
    case Literal(b) => [b]
    case Escaped => [MAGIC, OP_ESCAPE]
    case Extract(seg) => [MAGIC, OP_EXTRACT] + seg
    case Ref(h) => [MAGIC, OP_REF] + PutWord(h)
    case Backref(i) => [MAGIC, OP_BACKREF, i]
  }

  /** The bytes of a stream. */
  function PutAll(ts: seq<Token>): (s: Bytes) {
    if ts == [] then [] else Put(ts[0]) + PutAll(ts[1..])
  }

  lemma {:induction false} PutAllConcat(a: seq<Token>, b: seq<Token>)
    ensures PutAll(a + b) == PutAll(a) + PutAll(b)
  {
    if a == [] {
      assert [] + b == b;
    } else {
      assert (a + b)[0] == a[0] && (a + b)[1..] == a[1..] + b;
      PutAllConcat(a[1..], b);
    }
  }

  lemma {:induction false} PutAllOne(t: Token)
    ensures PutAll([t]) == Put(t)
  {
    assert [t][1..] == [];
  }

  lemma {:induction false} PutAllNonEmpty(ts: seq<Token>)
    ensures PutAll(ts) == [] <==> ts == []
  {
  }

  /** The data a run of tokens stands for and the window it leaves. */
  datatype Played = Played(out: Bytes, window: Window)

  /**
    What one token means, given a window and the cache of the side that wrote it: the reference
    against which both codecs are judged. `None` marks a token that no encoder may write.
  */
  function PlayOne(hash: Hasher, t: Token, w: Window, cache: Cache): (r: Option<Played>)
    requires WindowOk(w)
    ensures r.Some? ==> WindowOk(r.value.window)
  {
    match t
    case Literal(b) => if b == MAGIC then None else Some(Played([b], w))
    case Escaped => Some(Played([MAGIC], w))
    case Extract(seg) =>
      if |seg| == SEGMENT_LENGTH && hash(seg) in cache && cache[hash(seg)] == seg
      then Some(Played(seg, Declared(w, hash(seg), seg)))
      else None
    case Ref(h) =>
      if h in cache then Some(Played(cache[h], Declared(w, h, cache[h]))) else None
    case Backref(i) =>
      var seg := Dereferenced(w, i);
      if seg.Some? then Some(Played(seg.value, w)) else None
  }

  function Play(hash: Hasher, ts: seq<Token>, w: Window, cache: Cache): (r: Option<Played>)
    requires WindowOk(w)
    ensures r.Some? ==> WindowOk(r.value.window)
  {
    if ts == [] then
      Some(Played([], w))
    else
      var first := PlayOne(hash, ts[0], w, cache);
      if first.None? then None
      else
        var rest := Play(hash, ts[1..], first.value.window, cache);
        if rest.None? then None
        else Some(Played(first.value.out + rest.value.out, rest.value.window))
  }

  lemma {:induction false} PlayConcat(hash: Hasher, a: seq<Token>, b: seq<Token>, w: Window, cache: Cache)
    requires WindowOk(w)
    ensures Play(hash, a + b, w, cache) ==
            var pa := Play(hash, a, w, cache);
            if pa.None? then None
            else
              var pb := Play(hash, b, pa.value.window, cache);
              if pb.None? then None else Some(Played(pa.value.out + pb.value.out, pb.value.window))
  {
    hide WindowOk, Declared, Dereferenced, PlayOne;
    if a == [] {
      assert [] + b == b;
      var pb := Play(hash, b, w, cache);
      if pb.Some? {
        assert [] + pb.value.out == pb.value.out;
      }
    } else {
      assert (a + b)[0] == a[0] && (a + b)[1..] == a[1..] + b;
      var first := PlayOne(hash, a[0], w, cache);
      if first.Some? {
        PlayConcat(hash, a[1..], b, first.value.window, cache);
        var pa := Play(hash, a[1..], first.value.window, cache);
        if pa.Some? {
          var pb := Play(hash, b, pa.value.window, cache);
          if pb.Some? {
            assert first.value.out + (pa.value.out + pb.value.out) == (first.value.out + pa.value.out) + pb.value.out;
          }
        }
      }
    }
  }

  lemma {:induction false} PlaySingle(hash: Hasher, t: Token, w: Window, cache: Cache)
    requires WindowOk(w)
    ensures Play(hash, [t], w, cache) == PlayOne(hash, t, w, cache)
  {
    hide WindowOk, Declared, Dereferenced, PlayOne;
    assert [t][1..] == [];
    var first := PlayOne(hash, t, w, cache);
    if first.Some? {
      assert first.value.out + [] == first.value.out;
    }
  }

  /** A stream keeps its meaning when the cache behind it grows. */
  lemma {:induction false} PlayMonotone(hash: Hasher, ts: seq<Token>, w: Window, small: Cache, big: Cache)
    requires WindowOk(w) && SubCache(small, big)
    requires Play(hash, ts, w, small).Some?
    ensures Play(hash, ts, w, big) == Play(hash, ts, w, small)
  {
    hide WindowOk, Declared, Dereferenced;
    if ts != [] {
      var first := PlayOne(hash, ts[0], w, small);
      assert PlayOne(hash, ts[0], w, big) == first;
      PlayMonotone(hash, ts[1..], first.value.window, small, big);
    }
  }

  /** A stream that means something means something up to any point. */
  lemma {:induction false} PlayPrefix(hash: Hasher, ts: seq<Token>, k: nat, w: Window, cache: Cache)
    requires WindowOk(w) && k <= |ts|
    requires Play(hash, ts, w, cache).Some?
    ensures var pa := Play(hash, ts[..k], w, cache);
            && pa.Some?
            && var pb := Play(hash, ts[k..], pa.value.window, cache);
               && pb.Some?
               && Play(hash, ts, w, cache) == Some(Played(pa.value.out + pb.value.out, pb.value.window))
  {
    hide *;
    assert ts == ts[..k] + ts[k..];
    PlayConcat(hash, ts[..k], ts[k..], w, cache);
  }

  // --- What a reader must know --------------------------------------------------------------------

  /** The cache after taking in every segment the stream declares. */
  function Learned(hash: Hasher, ts: seq<Token>, cache: Cache): Cache {
    if ts == [] then cache
    else
      var rest := Learned(hash, ts[..|ts| - 1], cache);
      match ts[|ts| - 1]
      case Extract(seg) => rest[hash(seg) := seg]
      case _ => rest
  }

  /** Every reference is to a segment of `cache` or to one declared earlier in the stream. */
  ghost predicate SelfContained(hash: Hasher, ts: seq<Token>, cache: Cache) {
    forall i :: 0 <= i < |ts| && ts[i].Ref? ==> ts[i].hash in Learned(hash, ts[..i], cache)
  }

  lemma {:induction false} LearnedConcat(hash: Hasher, a: seq<Token>, b: seq<Token>, cache: Cache)
    ensures Learned(hash, a + b, cache) == Learned(hash, b, Learned(hash, a, cache))
  {
    if b == [] {
      assert a + b == a;
    } else {
      assert (a + b)[..|a + b| - 1] == a + b[..|b| - 1];
      LearnedConcat(hash, a, b[..|b| - 1], cache);
    }
  }

  lemma {:induction false} SelfContainedConcat(hash: Hasher, a: seq<Token>, b: seq<Token>, cache: Cache)
    ensures SelfContained(hash, a + b, cache) <==>
            SelfContained(hash, a, cache) && SelfContained(hash, b, Learned(hash, a, cache))
  {
    hide Learned;
    var ab := a + b;
    assert forall i :: 0 <= i < |a| ==> ab[i] == a[i] && ab[..i] == a[..i];
    forall i | 0 <= i < |b|
      ensures ab[|a| + i] == b[i]
      ensures Learned(hash, ab[..|a| + i], cache) == Learned(hash, b[..i], Learned(hash, a, cache))
    {
      assert ab[..|a| + i] == a + b[..i];
      LearnedConcat(hash, a, b[..i], cache);
    }
    if SelfContained(hash, ab, cache) {
      forall i | 0 <= i < |b| && b[i].Ref?
        ensures b[i].hash in Learned(hash, b[..i], Learned(hash, a, cache))
      {
        assert ab[|a| + i].Ref?;
      }
    }
    if SelfContained(hash, a, cache) && SelfContained(hash, b, Learned(hash, a, cache)) {
      forall i | 0 <= i < |ab| && ab[i].Ref?
        ensures ab[i].hash in Learned(hash, ab[..i], cache)
      {
        if i >= |a| {
          assert ab[|a| + (i - |a|)] == b[i - |a|];
        }
      }
    }
  }

  lemma {:induction false} LearnedOne(hash: Hasher, t: Token, cache: Cache)
    ensures Learned(hash, [t], cache) == if t.Extract? then cache[hash(t.seg) := t.seg] else cache
    ensures SelfContained(hash, [t], cache) <==> (t.Ref? ==> t.hash in cache)
  {
    assert [t][..0] == [];
    assert Learned(hash, [t][..0], cache) == cache;
  }

  /** A stream that means something against `cache` needs nothing but `cache`, and adds nothing. */
  lemma {:induction false} PlayedIsKnown(hash: Hasher, ts: seq<Token>, w: Window, cache: Cache)
    requires WindowOk(w) && Play(hash, ts, w, cache).Some?
    ensures Learned(hash, ts, cache) == cache && SelfContained(hash, ts, cache)
  {
    hide WindowOk, Declared, Dereferenced;
    if ts != [] {
      var t, rest := ts[0], ts[1..];
      assert ts == [t] + rest;
      LearnedOne(hash, t, cache);
      assert Learned(hash, [t], cache) == cache;
      PlayedIsKnown(hash, rest, PlayOne(hash, t, w, cache).value.window, cache);
      LearnedConcat(hash, [t], rest, cache);
      SelfContainedConcat(hash, [t], rest, cache);
    }
  }

  /** Every window entry is the cache's segment for that hash. */
  ghost predicate WindowFrom(w: Window, cache: Cache) {
    SubCache(w.segments, cache)
  }
}
