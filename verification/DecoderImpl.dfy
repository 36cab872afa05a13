/** `XCodecDecoder` as it runs: a loop that consumes its input and fills cache and window. */
module DecoderImpl {
  import opened Bytes
  import opened Hash
  import opened Window
  import opened Stream
  import opened Decoder
  import opened RoundTrip
  import opened BufferQueries

  /** A run of bytes without the magic byte is copied. */
  lemma {:induction false} DecodeRun(hash: Hasher, cache: Cache, w: Window, input: Bytes, n: nat)
    requires WindowOk(w) && n <= |input| && MAGIC !in input[..n]
    ensures Decode(hash, cache, w, input) == Onto(input[..n], Decode(hash, cache, w, input[n..]))
  {
    hide WindowOk, Decode, Onto;
    if n == 0 {
      OntoOnto([], [], Decode(hash, cache, w, input));
      assert input[..0] == [] && input[0..] == input;
    } else {
      assert input[0] == input[..n][0] && input[0] != MAGIC;
      DecodeUnfold(hash, cache, w, input);
      assert input[1..][..n - 1] == input[..n][1..];
      DecodeRun(hash, cache, w, input[1..], n - 1);
      assert input[1..][n - 1..] == input[n..];
      OntoOnto([input[0]], input[1..][..n - 1], Decode(hash, cache, w, input[n..]));
      assert [input[0]] + input[1..][..n - 1] == input[..n];
    }
  }

  class XCodecDecoder {
    const cache: XCodecMemoryCache
    const window: XCodecWindow

    ghost predicate Valid()
      reads window, window.window
    {
      window.Valid()
    }

    constructor (cache: XCodecMemoryCache)
      ensures Valid() && this.cache == cache
      ensures window.Value() == EmptyWindow() && fresh(window) && fresh(window.window)
    {
      this.cache := cache;
      window := new XCodecWindow();
    }

    /** One operation at the front of the input, which starts with the magic byte. */
    method DecodeOperation(output: Bytes, input: Bytes, unknown: set<Word>)
        returns (ok: bool, more: bool, output': Bytes, input': Bytes, unknown': set<Word>)
      requires Valid() && |input| >= 2 && input[0] == MAGIC
      modifies cache, window, window.window
      ensures Valid() && WindowOk(old(window.Value()))
      ensures var t := DecodeOne(SegmentHash, old(cache.entries), old(window.Value()), input);
              && (t.Took? ==>
                    && ok && more && output' == output + t.out && input' == input[t.used..] && unknown' == unknown
                    && cache.entries == t.cache && window.Value() == t.window)
              && (!t.Took? ==>
                    && !more && ok == !t.Fail? && output' == output
                    && input' == input[if t.Fail? then t.used else 0..]
                    && unknown' == (if t.Unknown? then unknown + {t.hash} else unknown)
                    && cache.entries == old(cache.entries) && window.Value() == old(window.Value()))
    {
      hide WindowOk, Declared, Dereferenced, SegmentHash;
      ok, more, output', input', unknown' := true, true, output, input, unknown;
      var op := input[1];
      if op == OP_ESCAPE {
        output' := output + [MAGIC];
        input' := input[2..];
      } else if op == OP_EXTRACT {
        if |input| < 2 + SEGMENT_LENGTH {
          more := false;
          return;
        }
        var seg := input[2..2 + SEGMENT_LENGTH];
        input' := input[2 + SEGMENT_LENGTH..];
        var h := HashFromScratch(seg);
        var oseg := cache.Lookup(h);
        if oseg.Some? {
          if oseg.value != seg {
            ok, more := false, false;
            return;
          }
          assert cache.entries[h := seg] == cache.entries;
        } else {
          cache.Enter(h, seg);
        }
        window.Declare(h, seg);
        output' := output + seg;
      } else if op == OP_REF {
        if |input| < 10 {
          more := false;
          return;
        }
        var h := GetWord(input[2..10]);
        var oseg := cache.Lookup(h);
        if oseg.None? {
          unknown' := unknown + {h};
          more := false;
          return;
        }
        input' := input[10..];
        window.Declare(h, oseg.value);
        output' := output + oseg.value;
      } else if op == OP_BACKREF {
        if |input| < 3 {
          more := false;
          return;
        }
        input' := input[3..];
        var oseg := window.Dereference(input[2]);
        if oseg.None? {
          ok, more := false, false;
          return;
        }
        output' := output + oseg.value;
      } else {
        ok, more := false, false;
      }
    }

    /** `decode`: consumes what can be parsed now and says what is missing. */
    method Decode(output: Bytes, input: Bytes, unknown: set<Word>)
        returns (ok: bool, output': Bytes, input': Bytes, unknown': set<Word>)
      requires Valid()
      modifies cache, window, window.window
      ensures Valid() && WindowOk(old(window.Value()))
      ensures var r := Decoder.Decode(SegmentHash, old(cache.entries), old(window.Value()), input);
              && ok == r.ok && output' == output + r.out && input' == r.rest
              && unknown' == (if r.ask.Some? then unknown + {r.ask.value} else unknown)
              && cache.entries == r.cache && window.Value() == r.window
    {
      hide WindowOk, SegmentHash, Decoder.Decode, Onto, DecodeOne;
      ok, output', input', unknown' := true, output, input, unknown;
      ghost var all := Decoder.Decode(SegmentHash, cache.entries, window.Value(), input);
      ghost var read: Bytes := [];
      OntoOnto([], [], all);
      DecodeEmpty(SegmentHash, cache.entries, window.Value());
      while input' != []
        invariant Valid() && ok && unknown' == unknown && output' == output + read
        invariant all == Onto(read, Decoder.Decode(SegmentHash, cache.entries, window.Value(), input'))
        decreases |input'|
      {
        ghost var w, entries, before := window.Value(), cache.entries, input';
        var off := FindIn(input', MAGIC);
        var n := if off.None? then |input'| else off.value;
        DecodeRun(SegmentHash, entries, w, input', n);
        OntoOnto(read, input'[..n], Decoder.Decode(SegmentHash, entries, w, input'[n..]));
        output' := output' + input'[..n];
        read := read + input'[..n];
        input' := input'[n..];
        if off.None? {
          break;
        }
        DecodeUnfold(SegmentHash, entries, w, input');
        OntoSame(read, Decoder.Decode(SegmentHash, entries, w, input'));
        if |input'| == 1 {
          MagicAlone(SegmentHash, entries, w, input');
          return;
        }
        var more;
        ghost var t := DecodeOne(SegmentHash, entries, w, input');
        ghost var at := input';
        ok, more, output', input', unknown' := DecodeOperation(output', input', unknown');
        if !more {
          StopsHere(SegmentHash, entries, w, at);
          return;
        }
        OntoOnto(read, t.out, Decoder.Decode(SegmentHash, t.cache, t.window, input'));
        read := read + t.out;
      }
      DecodeEmpty(SegmentHash, cache.entries, window.Value());
      OntoSame(read, Decoder.Decode(SegmentHash, cache.entries, window.Value(), []));
    }
  }

  lemma {:induction false} MagicAlone(hash: Hasher, cache: Cache, w: Window, input: Bytes)
    requires WindowOk(w) && |input| == 1 && input[0] == MAGIC
    ensures DecodeOne(hash, cache, w, input) == Wait
  {
  }

  lemma {:induction false} StopsHere(hash: Hasher, cache: Cache, w: Window, input: Bytes)
    requires WindowOk(w) && input != []
    requires !DecodeOne(hash, cache, w, input).Took?
    ensures var t := DecodeOne(hash, cache, w, input);
            Decode(hash, cache, w, input) ==
            Decoded(!t.Fail?, [], input[if t.Fail? then t.used else 0..], cache, w, if t.Unknown? then Some(t.hash) else None)
  {
    hide WindowOk, DecodeOne;
  }
}
