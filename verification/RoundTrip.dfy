/** Encoder against decoder: the round trip, and decoding piece by piece. */
module RoundTrip {
  import opened Bytes
  import opened Hash
  import opened Window
  import opened Stream
  import opened Encoder
  import opened Decoder

  /** A decoder that knows everything the stream does not carry reads all of it in one call. */
  lemma {:induction false} DecodeKnown(hash: Hasher, ts: seq<Token>, w: Window, big: Cache, cache: Cache)
    requires WindowOk(w) && SubCache(cache, big)
    requires Play(hash, ts, w, big).Some? && SelfContained(hash, ts, cache)
    ensures var p := Play(hash, ts, w, big).value;
            Decode(hash, cache, w, PutAll(ts)) == Decoded(true, p.out, [], Learned(hash, ts, cache), p.window, None)
  {
    hide WindowOk, Play, Learned, PutAll, SubCache, Put, Decode;
    var r := Decode(hash, cache, w, PutAll(ts));
    var k := DecodeReads(hash, ts, w, big, cache, PutAll(ts));
    if k < |ts| {
      assert ts[..k] + ts[k..] == ts;
      PutAllConcat(ts[..k], ts[k..]);
      var read := PutAll(ts[..k]);
      SameTail(read, r.rest, PutAll(ts[k..]));
      FirstToken(ts[k..]);
      assert false;
    } else {
      assert ts[..k] == ts;
    }
  }

  lemma {:induction false} SameTail(a: Bytes, b: Bytes, c: Bytes)
    requires a + b == a + c
    ensures b == c
  {
    assert b == (a + b)[|a|..] && c == (a + c)[|a|..];
  }

  lemma {:induction false} FirstToken(ts: seq<Token>)
    requires ts != []
    ensures Put(ts[0]) <= PutAll(ts)
  {
  }

  /**
    The round trip, for any hash function and any sequence of calls on one encoder. With in-band
    declarations the decoder starts from the encoder's initial cache; out of band it has the
    encoder's final one. It rebuilds the data exactly, consumes everything, asks for nothing and
    ends with the encoder's own cache and window.
  */
  lemma {:induction false} RoundTrip(hash: Hasher, o: Origin, inputs: seq<Bytes>)
    requires OriginOk(hash, o)
    ensures var r := EncodeCalls(hash, o, inputs);
            Decode(hash, if o.stream then o.cache else r.cache, o.window, PutAll(r.toks)) ==
            Decoded(true, Concat(inputs), [], r.cache, r.window, None)
  {
    hide WindowOk, Play, Learned, PutAll, SelfContained, EncodeCalls, Decode, CacheOk;
    EncodeCallsMean(hash, o, inputs);
    var r := EncodeCalls(hash, o, inputs);
    if !o.stream {
      PlayedIsKnown(hash, r.toks, o.window, r.cache);
    }
    DecodeKnown(hash, r.toks, o.window, r.cache, if o.stream then o.cache else r.cache);
  }

  // --- Piece by piece ------------------------------------------------------------------------------

  /** More bytes behind a token that was taken, refused or unknown change nothing about it. */
  lemma {:induction false} TurnStable(hash: Hasher, cache: Cache, w: Window, a: Bytes, b: Bytes)
    requires WindowOk(w) && a != []
    requires !DecodeOne(hash, cache, w, a).Wait?
    ensures DecodeOne(hash, cache, w, a + b) == DecodeOne(hash, cache, w, a)
  {
    hide WindowOk, Declared, Dereferenced;
    var ab := a + b;
    assert ab[0] == a[0];
    if |a| > 1 {
      assert ab[1] == a[1];
      assert |a| >= 2 + SEGMENT_LENGTH ==> ab[2..2 + SEGMENT_LENGTH] == a[2..2 + SEGMENT_LENGTH];
      assert |a| >= 10 ==> ab[2..10] == a[2..10];
      assert |a| >= 3 ==> ab[2] == a[2];
    }
  }

  function Onto(out: Bytes, r: Decoded): Decoded {
    r.(out := out + r.out)
  }

  lemma {:induction false} DecodeUnfold(hash: Hasher, cache: Cache, w: Window, input: Bytes)
    requires WindowOk(w) && input != []
    ensures var t := DecodeOne(hash, cache, w, input);
            && (t.Took? ==> Decode(hash, cache, w, input) == Onto(t.out, Decode(hash, t.cache, t.window, input[t.used..])))
            && (t.Wait? ==> Decode(hash, cache, w, input) == Decoded(true, [], input, cache, w, None))
            && (t.Unknown? ==> Decode(hash, cache, w, input) == Decoded(true, [], input, cache, w, Some(t.hash)))
            && (t.Fail? ==> var r := Decode(hash, cache, w, input); !r.ok && r.ask.None?)
  {
    hide WindowOk, DecodeOne;
  }

  lemma {:induction false} OntoOnto(a: Bytes, b: Bytes, r: Decoded)
    ensures Onto(a, Onto(b, r)) == Onto(a + b, r)
    ensures Onto([], r) == r
  {
    assert a + (b + r.out) == (a + b) + r.out;
    assert [] + r.out == r.out;
  }

  /** Decoding what has arrived, then the residue with the rest, is decoding everything at once. */
  lemma {:induction false} DecodeSplit(hash: Hasher, cache: Cache, w: Window, a: Bytes, b: Bytes)
    requires WindowOk(w)
    requires Decode(hash, cache, w, a).ok
    ensures var ra := Decode(hash, cache, w, a);
            Decode(hash, cache, w, a + b) == Onto(ra.out, Decode(hash, ra.cache, ra.window, ra.rest + b))
    decreases |a|
  {
    hide WindowOk, DecodeOne, Decode, Onto;
    if a == [] {
      DecodeEmpty(hash, cache, w);
      OntoOnto([], [], Decode(hash, cache, w, a + b));
    } else {
      DecodeUnfold(hash, cache, w, a);
      var t := DecodeOne(hash, cache, w, a);
      if t.Took? {
        TurnStable(hash, cache, w, a, b);
        DecodeUnfold(hash, cache, w, a + b);
        assert (a + b)[t.used..] == a[t.used..] + b;
        var r1 := Decode(hash, t.cache, t.window, a[t.used..]);
        OntoSame(t.out, r1);
        DecodeSplit(hash, t.cache, t.window, a[t.used..], b);
        OntoOnto(t.out, r1.out, Decode(hash, r1.cache, r1.window, r1.rest + b));
      } else {
        OntoOnto([], [], Decode(hash, cache, w, a + b));
      }
    }
  }

  lemma {:induction false} OntoSame(out: Bytes, r: Decoded)
    ensures Onto(out, r) == Decoded(r.ok, out + r.out, r.rest, r.cache, r.window, r.ask)
  {
  }

  /** Calls of `decode` on successive chunks, each seeing the residue of the one before. */
  function DecodeChunks(hash: Hasher, cache: Cache, w: Window, chunks: seq<Bytes>): (r: Decoded)
    requires WindowOk(w)
    ensures WindowOk(r.window)
  {
    if chunks == [] then Decoded(true, [], [], cache, w, None)
    else
      var before := DecodeChunks(hash, cache, w, chunks[..|chunks| - 1]);
      if !before.ok then before
      else Onto(before.out, Decode(hash, before.cache, before.window, before.rest + chunks[|chunks| - 1]))
  }

  /** Chunk boundaries do not matter: output, residue, cache, window and pending hash all agree. */
  lemma {:induction false} ChunksIrrelevant(hash: Hasher, cache: Cache, w: Window, chunks: seq<Bytes>)
    requires WindowOk(w)
    requires DecodeChunks(hash, cache, w, chunks).ok
    ensures DecodeChunks(hash, cache, w, chunks) == Decode(hash, cache, w, Concat(chunks))
  {
    hide WindowOk, Decode;
    if chunks == [] {
      DecodeEmpty(hash, cache, w);
    } else {
      var init, last := chunks[..|chunks| - 1], chunks[|chunks| - 1];
      ChunksIrrelevant(hash, cache, w, init);
      DecodeSplit(hash, cache, w, Concat(init), last);
    }
  }

  lemma {:induction false} DecodeEmpty(hash: Hasher, cache: Cache, w: Window)
    requires WindowOk(w)
    ensures Decode(hash, cache, w, []) == Decoded(true, [], [], cache, w, None)
  {
  }

  /** Nothing a decoder knows is ever forgotten, and it asks only for what it does not know. */
  lemma {:induction false} DecodeGrows(hash: Hasher, cache: Cache, w: Window, input: Bytes)
    requires WindowOk(w)
    ensures var r := Decode(hash, cache, w, input);
            && SubCache(cache, r.cache)
            && (r.ask.Some? ==> r.ask.value !in r.cache)
    decreases |input|
  {
    hide WindowOk, Declared, Dereferenced;
    if input != [] {
      var t := DecodeOne(hash, cache, w, input);
      if t.Took? {
        DecodeGrows(hash, t.cache, t.window, input[t.used..]);
      }
    }
  }

  /** A turn that neither uses nor declares `h` does not depend on whether `h` is known. */
  lemma {:induction false} TurnIgnores(hash: Hasher, cache: Cache, w: Window, input: Bytes, h: Word, seg: Bytes)
    requires WindowOk(w) && input != [] && h !in cache
    requires var t := DecodeOne(hash, cache, w, input); t.Took? && h !in t.cache
    ensures var t := DecodeOne(hash, cache, w, input);
            DecodeOne(hash, cache[h := seg], w, input) == t.(cache := t.cache[h := seg])
  {
    hide WindowOk, Declared, Dereferenced;
    var t := DecodeOne(hash, cache, w, input);
    if |input| >= 2 + SEGMENT_LENGTH && input[0] == MAGIC && input[1] == OP_EXTRACT {
      var s := input[2..2 + SEGMENT_LENGTH];
      assert hash(s) in t.cache;
      assert cache[h := seg][hash(s) := s] == cache[hash(s) := s][h := seg];
    }
  }

  /**
    A decoder that stopped at an unknown hash and then learned it continues exactly as one that
    had known it from the start.
  */
  lemma {:induction false} ResumeAfterLearn(hash: Hasher, cache: Cache, w: Window, input: Bytes, h: Word, seg: Bytes)
    requires WindowOk(w)
    requires Decode(hash, cache, w, input).ask == Some(h)
    ensures var r := Decode(hash, cache, w, input);
            Decode(hash, cache[h := seg], w, input) == Onto(r.out, Decode(hash, r.cache[h := seg], r.window, r.rest))
    decreases |input|
  {
    hide WindowOk, DecodeOne, Decode, Onto;
    if input == [] {
      DecodeEmpty(hash, cache, w);
    } else {
      DecodeGrows(hash, cache, w, input);
      DecodeUnfold(hash, cache, w, input);
      var t := DecodeOne(hash, cache, w, input);
      if t.Took? {
        var r1 := Decode(hash, t.cache, t.window, input[t.used..]);
        OntoSame(t.out, r1);
        DecodeGrows(hash, t.cache, t.window, input[t.used..]);
        TurnIgnores(hash, cache, w, input, h, seg);
        DecodeUnfold(hash, cache[h := seg], w, input);
        ResumeAfterLearn(hash, t.cache, t.window, input[t.used..], h, seg);
        OntoOnto(t.out, r1.out, Decode(hash, r1.cache[h := seg], r1.window, r1.rest));
      } else {
        OntoOnto([], [], Decode(hash, cache[h := seg], w, input));
      }
    }
  }

  /** The encoded stream may be cut anywhere on its way to the decoder. */
  lemma {:induction false} RoundTripChunked(hash: Hasher, o: Origin, inputs: seq<Bytes>, chunks: seq<Bytes>)
    requires OriginOk(hash, o)
    requires Concat(chunks) == PutAll(EncodeCalls(hash, o, inputs).toks)
    ensures var r := EncodeCalls(hash, o, inputs);
            DecodeChunks(hash, if o.stream then o.cache else r.cache, o.window, chunks) ==
            Decoded(true, Concat(inputs), [], r.cache, r.window, None)
  {
    hide WindowOk, CacheOk, Decode, EncodeCalls, PutAll;
    RoundTrip(hash, o, inputs);
    assert Concat(chunks) + [] == Concat(chunks);
    var cache := if o.stream then o.cache else EncodeCalls(hash, o, inputs).cache;
    PrefixesOk(hash, cache, o.window, chunks, []);
    ChunksIrrelevant(hash, cache, o.window, chunks);
  }

  /** If the whole decodes without error, so does every step on the way. */
  lemma {:induction false} PrefixesOk(hash: Hasher, cache: Cache, w: Window, chunks: seq<Bytes>, more: Bytes)
    requires WindowOk(w)
    requires Decode(hash, cache, w, Concat(chunks) + more).ok
    ensures DecodeChunks(hash, cache, w, chunks).ok
  {
    hide WindowOk, Decode;
    if chunks != [] {
      var init, last := chunks[..|chunks| - 1], chunks[|chunks| - 1];
      assert Concat(chunks) + more == Concat(init) + (last + more);
      PrefixesOk(hash, cache, w, init, last + more);
      ChunksIrrelevant(hash, cache, w, init);
      DecodeSplit(hash, cache, w, Concat(init), last);
      ErrorsStay(hash, cache, w, Concat(chunks), more);
    }
  }

  lemma {:induction false} ErrorsStay(hash: Hasher, cache: Cache, w: Window, a: Bytes, b: Bytes)
    requires WindowOk(w) && Decode(hash, cache, w, a + b).ok
    ensures Decode(hash, cache, w, a).ok
    decreases |a|
  {
    hide WindowOk, DecodeOne;
    if a != [] && !DecodeOne(hash, cache, w, a).Wait? {
      TurnStable(hash, cache, w, a, b);
      var t := DecodeOne(hash, cache, w, a);
      if t.Took? {
        assert (a + b)[t.used..] == a[t.used..] + b;
        ErrorsStay(hash, t.cache, t.window, a[t.used..], b);
      }
    }
  }
}
