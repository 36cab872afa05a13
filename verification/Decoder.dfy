/** What the decoder reads out of bytes, and that it reads what the encoder meant. */
module Decoder {
  import opened Bytes
  import opened Hash
  import opened Window
  import opened Stream

  /** One turn of the decoder's loop. */
  datatype Turn =
    | Wait
    | Fail(used: nat)
    | Unknown(hash: Word)
    | Took(used: nat, out: Bytes, cache: Cache, window: Window)

  function DecodeOne(hash: Hasher, cache: Cache, w: Window, input: Bytes): (r: Turn)
    requires WindowOk(w) && input != []
    ensures r.Fail? ==> r.used <= |input|
    ensures r.Took? ==> 0 < r.used <= |input| && WindowOk(r.window)
  {
    if input[0] != MAGIC then Took(1, [input[0]], cache, w)
    else if |input| == 1 then Wait
    else if input[1] == OP_ESCAPE then Took(2, [MAGIC], cache, w)
    else if input[1] == OP_EXTRACT then
      if |input| < 2 + SEGMENT_LENGTH then Wait
      else
        var seg := input[2..2 + SEGMENT_LENGTH];
        var h := hash(seg);
        if h in cache && cache[h] != seg then Fail(2 + SEGMENT_LENGTH)
        else Took(2 + SEGMENT_LENGTH, seg, cache[h := seg], Declared(w, h, seg))
    else if input[1] == OP_REF then
      if |input| < 10 then Wait
      else
        var h := GetWord(input[2..10]);
        if h in cache then Took(10, cache[h], cache, Declared(w, h, cache[h])) else Unknown(h)
    else if input[1] == OP_BACKREF then
      if |input| < 3 then Wait
      else
        var seg := Dereferenced(w, input[2]);
        if seg.Some? then Took(3, seg.value, cache, w) else Fail(3)
    else Fail(0)
  }

  /** The outcome of one call of `XCodecDecoder::decode`; `ask` is the hash it stopped at, if any. */
  datatype Decoded = Decoded(ok: bool, out: Bytes, rest: Bytes, cache: Cache, window: Window, ask: Option<Word>)

  function Decode(hash: Hasher, cache: Cache, w: Window, input: Bytes): (r: Decoded)
    requires WindowOk(w)
    ensures WindowOk(r.window)
    decreases |input|
  {
    if input == [] then Decoded(true, [], [], cache, w, None)
    else
      match DecodeOne(hash, cache, w, input)
      case Wait => Decoded(true, [], input, cache, w, None)
      case Fail(n) => Decoded(false, [], input[n..], cache, w, None)
      case Unknown(h) => Decoded(true, [], input, cache, w, Some(h))
      case Took(n, out, cache', w') =>
        var r := Decode(hash, cache', w', input[n..]);
        r.(out := out + r.out)
  }

  // --- Tokens and their bytes --------------------------------------------------------------------

  /** The decoder takes in a whole token exactly as the token's meaning says, or asks for its hash. */
  lemma {:induction false} DecodeToken(hash: Hasher, cache: Cache, big: Cache, w: Window, t: Token, input: Bytes)
    requires WindowOk(w) && SubCache(cache, big)
    requires PlayOne(hash, t, w, big).Some?
    requires Put(t) <= input
    ensures var p := PlayOne(hash, t, w, big).value;
            DecodeOne(hash, cache, w, input) ==
            if t.Ref? && t.hash !in cache then Unknown(t.hash)
            else Took(|Put(t)|, p.out, if t.Extract? then cache[hash(t.seg) := t.seg] else cache, p.window)
  {
    hide WindowOk, Declared, Dereferenced;
    var s := Put(t);
    assert input[..|s|] == s;
    assert input[0] == s[0];
    match t
    case Literal(_) =>
    case Escaped =>
      assert input[1] == s[1];
    case Extract(seg) =>
      assert input[1] == s[1];
      assert input[2..2 + SEGMENT_LENGTH] == s[2..] == seg;
    case Ref(h) =>
      assert input[1] == s[1];
      assert input[2..10] == s[2..] == PutWord(h);
      WordRoundTrip(h);
    case Backref(i) =>
      assert input[1] == s[1] && input[2] == s[2];
  }

  /** A token that has only partly arrived makes the decoder wait. */
  lemma {:induction false} DecodePartial(hash: Hasher, cache: Cache, big: Cache, w: Window, t: Token, input: Bytes)
    requires WindowOk(w) && PlayOne(hash, t, w, big).Some?
    requires input < Put(t) && input != []
    ensures DecodeOne(hash, cache, w, input) == Wait
  {
    hide WindowOk, Declared, Dereferenced;
    var s := Put(t);
    assert s[..|input|] == input;
    assert input[0] == s[0];
    assert |input| > 1 ==> input[1] == s[1];
  }

  /** Where the decoder stands in a stream after reading some of its bytes. */
  ghost predicate Reads(hash: Hasher, ts: seq<Token>, w: Window, big: Cache, cache: Cache, input: Bytes, r: Decoded, k: nat)
    requires WindowOk(w)
  {
    && r.ok
    && k <= |ts|
    && input == PutAll(ts[..k]) + r.rest
    && Play(hash, ts[..k], w, big) == Some(Played(r.out, r.window))
    && r.cache == Learned(hash, ts[..k], cache)
    && SubCache(r.cache, big)
    && (r.ask.Some? ==> k < |ts| && ts[k] == Ref(r.ask.value) && r.ask.value !in r.cache && Put(ts[k]) <= r.rest)
    && (r.ask.None? ==> if k == |ts| then r.rest == [] else r.rest < Put(ts[k]))
  }

  /**
    Fed any part of a meaningful stream, a decoder whose cache is behind the writer's reads whole
    tokens exactly as they were meant, never fails, and stops only for more bytes or at a
    reference it does not know.
  */
  lemma {:induction false} DecodeReads(hash: Hasher, ts: seq<Token>, w: Window, big: Cache, cache: Cache, input: Bytes)
      returns (k: nat)
    requires WindowOk(w) && SubCache(cache, big)
    requires Play(hash, ts, w, big).Some?
    requires input <= PutAll(ts)
    ensures Reads(hash, ts, w, big, cache, input, Decode(hash, cache, w, input), k)
    decreases |ts|
  {
    hide WindowOk, Put, PlayOne, DecodeOne;
    k := 0;
    assert ts[..0] == [];
    if input == [] {
    } else {
      var t, rest := ts[0], ts[1..];
      var p := PlayOne(hash, t, w, big).value;
      assert PutAll(ts) == Put(t) + PutAll(rest);
      if |input| < |Put(t)| {
        assert input < Put(t) by {
          assert input == PutAll(ts)[..|input|] == Put(t)[..|input|];
        }
        DecodePartial(hash, cache, big, w, t, input);
      } else {
        assert Put(t) <= input by {
          assert input[..|Put(t)|] == PutAll(ts)[..|Put(t)|] == Put(t);
        }
        DecodeToken(hash, cache, big, w, t, input);
        if !(t.Ref? && t.hash !in cache) {
          k := ReadsOn(hash, ts, w, big, cache, input);
        }
      }
    }
  }

  lemma {:induction false} ReadsOn(hash: Hasher, ts: seq<Token>, w: Window, big: Cache, cache: Cache, input: Bytes)
      returns (k: nat)
    requires WindowOk(w) && SubCache(cache, big)
    requires Play(hash, ts, w, big).Some?
    requires ts != [] && input <= PutAll(ts) && Put(ts[0]) <= input
    requires !(ts[0].Ref? && ts[0].hash !in cache)
    ensures Reads(hash, ts, w, big, cache, input, Decode(hash, cache, w, input), k)
    decreases |ts|, 0
  {
    hide WindowOk, Declared, Dereferenced, DecodeOne, SubCache;
    var t, rest := ts[0], ts[1..];
    var p := PlayOne(hash, t, w, big).value;
    var n := |Put(t)|;
    var cache' := if t.Extract? then cache[hash(t.seg) := t.seg] else cache;
    DecodeToken(hash, cache, big, w, t, input);
    assert SubCache(cache', big) by { GrowWithin(hash, t, w, big, cache); }
    assert input[n..] <= PutAll(rest) by {
      assert PutAll(ts)[n..] == PutAll(rest);
      assert input == PutAll(ts)[..|input|];
      assert input[n..] == PutAll(rest)[..|input| - n];
    }
    var j := DecodeReads(hash, rest, p.window, big, cache', input[n..]);
    k := j + 1;
    ExtendReads(hash, ts, w, big, cache, input, Decode(hash, cache', p.window, input[n..]), j);
  }

  lemma {:induction false} GrowWithin(hash: Hasher, t: Token, w: Window, big: Cache, cache: Cache)
    requires WindowOk(w) && SubCache(cache, big) && PlayOne(hash, t, w, big).Some?
    ensures SubCache(if t.Extract? then cache[hash(t.seg) := t.seg] else cache, big)
  {
    hide WindowOk, Declared, Dereferenced;
  }

  lemma {:induction false} ExtendReads(hash: Hasher, ts: seq<Token>, w: Window, big: Cache, cache: Cache, input: Bytes, r: Decoded, j: nat)
    requires WindowOk(w) && ts != []
    requires PlayOne(hash, ts[0], w, big).Some?
    requires Put(ts[0]) <= input
    requires Reads(hash, ts[1..], PlayOne(hash, ts[0], w, big).value.window, big,
                   if ts[0].Extract? then cache[hash(ts[0].seg) := ts[0].seg] else cache,
                   input[|Put(ts[0])|..], r, j)
    ensures Reads(hash, ts, w, big, cache, input, r.(out := PlayOne(hash, ts[0], w, big).value.out + r.out), j + 1)
  {
    hide WindowOk, PlayOne, Put, Learned, SubCache;
    var t, rest := ts[0], ts[1..];
    assert ts[..j + 1][0] == t && ts[..j + 1][1..] == rest[..j];
    assert ts[..j + 1] == [t] + rest[..j];
    LearnedOne(hash, t, cache);
    LearnedConcat(hash, [t], rest[..j], cache);
    assert input == Put(t) + input[|Put(t)|..];
  }
}
