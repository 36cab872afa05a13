/** `XCodecEncoder` as it runs: loops over input segments, a rolling hash and a queue of bytes. */
module EncoderImpl {
  import opened Bytes
  import opened Hash
  import opened Window
  import opened Stream
  import opened Encoder
  import opened BufferQueries

  // --- Facts about the scan ------------------------------------------------------------------------

  lemma {:induction false} ScanConcat(hash: Hasher, stream: bool, s: Scan, a: Bytes, b: Bytes)
    requires ScanWf(s)
    ensures ScanAll(hash, stream, s, a + b) == ScanAll(hash, stream, ScanAll(hash, stream, s, a), b)
  {
    hide ScanWf, ScanByte;
    if b == [] {
      assert a + b == a;
    } else {
      assert (a + b)[..|a + b| - 1] == a + b[..|b| - 1];
      ScanConcat(hash, stream, s, a, b[..|b| - 1]);
    }
  }

  lemma {:induction false} EscapeConcat(a: Bytes, b: Bytes)
    ensures Escape(a + b) == Escape(a) + Escape(b)
  {
  }

  lemma {:induction false} EscapePlain(s: Bytes)
    requires MAGIC !in s
    ensures PutAll(Escape(s)) == s
  {
    if s == [] {
      assert Escape(s) == [];
    } else {
      assert Escape(s)[0] == Literal(s[0]);
      assert Escape(s)[1..] == Escape(s[1..]);
      EscapePlain(s[1..]);
    }
  }

  // --- The encoder ---------------------------------------------------------------------------------

  class XCodecEncoder {
    const cache: XCodecMemoryCache
    const window: XCodecWindow
    const stream: bool

    ghost predicate Valid()
      reads window, window.window
    {
      window.Valid()
    }

    constructor (cache: XCodecMemoryCache, outOfBand: bool)
      ensures Valid() && this.cache == cache && stream == !outOfBand
      ensures window.Value() == EmptyWindow() && fresh(window) && fresh(window.window)
    {
      this.cache := cache;
      stream := !outOfBand;
      window := new XCodecWindow();
    }

    /** Cache, window and output are those of the state `st`, after `base`. */
    ghost predicate At(st: State, base: Bytes, output: Bytes)
      reads cache, window, window.window
    {
      && cache.entries == st.cache
      && window.Value() == st.window
      && output == base + PutAll(st.toks)
    }

    /** `encode_escape`: moves `length` bytes from `input` to `output`, escaping the magic byte. */
    method EncodeEscape(output: Bytes, input: Bytes, length: nat) returns (output': Bytes, input': Bytes)
      requires 0 < length <= |input|
      ensures output' == output + PutAll(Escape(input[..length]))
      ensures input' == input[length..]
    {
      hide PutAll, Escape;
      output', input' := output, input;
      var left := length;
      EscapeNothing(input);
      while left != 0
        invariant 0 <= left <= length
        invariant input' == input[length - left..]
        invariant output' == output + PutAll(Escape(input[..length - left]))
      {
        var offset := FindIn(input'[..left], MAGIC);
        if offset.None? {
          EscapePlainRun(input, length - left, left);
          return output' + input'[..left], input'[left..];
        }
        var n := offset.value;
        assert input'[..left][..n] == input'[..n];
        EscapeTurn(output, input, length - left, n);
        if n != 0 {
          output' := output' + input'[..n];
          left := left - n;
          input' := input'[n..];
        }
        output' := output' + [MAGIC, OP_ESCAPE];
        left := left - 1;
        input' := input'[1..];
      }
    }

    /** `encode_reference`: refuses a segment that differs from the bytes at `offset`. */
    method EncodeReference(output: Bytes, input: Bytes, offset: nat, h: Word, oseg: Bytes, ghost st: State, ghost base: Bytes)
        returns (ok: bool, output': Bytes, input': Bytes)
      requires Valid() && offset + SEGMENT_LENGTH <= |input| && At(st, base, output)
      modifies window, window.window
      ensures Valid()
      ensures ok <==> oseg == input[offset..offset + SEGMENT_LENGTH]
      ensures !ok ==> output' == output && input' == input && At(st, base, output')
      ensures ok ==> input' == input[offset + SEGMENT_LENGTH..]
      ensures ok ==> WindowOk(st.window) && At(PutReference(PutEscape(st, input[..offset]), h, oseg), base, output')
    {
      hide WindowOk, Declared, PutAll;
      output', input' := output, input;
      ok := oseg == input[offset..offset + SEGMENT_LENGTH];
      if !ok {
        return;
      }
      ghost var escaped := PutEscape(st, input[..offset]);
      PutAllConcat(st.toks, Escape(input[..offset]));
      if offset != 0 {
        output', input' := EncodeEscape(output', input', offset);
      } else {
        assert Escape(input[..0]) == [];
        NothingPut();
      }
      assert output' == base + PutAll(escaped.toks);
      input' := input'[SEGMENT_LENGTH..];
      var b := window.Present(h);
      if b.Some? {
        PutAllConcat(escaped.toks, [Backref(b.value)]);
        PutAllOne(Backref(b.value));
        output' := output' + [MAGIC, OP_BACKREF, b.value];
      } else {
        PutAllConcat(escaped.toks, [Ref(h)]);
        PutAllOne(Ref(h));
        output' := output' + [MAGIC, OP_REF] + PutWord(h);
        window.Declare(h, oseg);
      }
    }

    /** `encode_declaration`: the segment at `offset` becomes known under `h`. */
    method EncodeDeclaration(output: Bytes, input: Bytes, offset: nat, h: Word, ghost st: State, ghost base: Bytes)
        returns (output': Bytes, input': Bytes, nseg: Bytes)
      requires Valid() && offset + SEGMENT_LENGTH <= |input| && At(st, base, output)
      requires h !in cache.entries
      modifies cache, window, window.window
      ensures Valid()
      ensures nseg == input[offset..offset + SEGMENT_LENGTH]
      ensures input' == input[offset + SEGMENT_LENGTH..]
      ensures WindowOk(st.window) && At(PutDeclaration(stream, PutEscape(st, input[..offset]), h, nseg), base, output')
    {
      hide WindowOk, Declared, PutAll;
      output', input' := output, input;
      ghost var escaped := PutEscape(st, input[..offset]);
      PutAllConcat(st.toks, Escape(input[..offset]));
      if offset != 0 {
        output', input' := EncodeEscape(output', input', offset);
      } else {
        assert Escape(input[..0]) == [];
        NothingPut();
      }
      assert output' == base + PutAll(escaped.toks);
      nseg := input'[..SEGMENT_LENGTH];
      cache.Enter(h, nseg);
      ghost var entered := escaped.(cache := escaped.cache[h := nseg]);
      if !stream {
        var ok;
        ghost var at := input';
        ok, output', input' := EncodeReference(output', input', 0, h, nseg, entered, base);
        assert ok;
        assert at[..0] == [];
        assert PutEscape(entered, []) == entered by {
          assert Escape([]) == [];
          assert entered.toks + [] == entered.toks;
        }
        return;
      }
      PutAllConcat(escaped.toks, [Extract(nseg)]);
      PutAllOne(Extract(nseg));
      output' := output' + [MAGIC, OP_EXTRACT] + nseg;
      window.Declare(h, nseg);
      input' := input'[SEGMENT_LENGTH..];
    }

    /** The queue, its scan point and the candidate are those of `s`; `rest` lies beyond the scan point. */
    ghost predicate Mirrors(s: Scan, base: Bytes, output: Bytes, outq: Bytes, o: nat, cand: Option<Candidate>, rest: Bytes)
      reads cache, window, window.window
    {
      && ScanWf(s)
      && At(s.st, base, output)
      && outq == s.q + rest
      && o == |s.q|
      && cand == s.cand
    }

    /** Writes the bytes before the last scanned segment and a reference to it, if `oseg` is that segment. */
    method TryReference(output: Bytes, outq: Bytes, o: nat, cand: Option<Candidate>, h: Word, oseg: Bytes,
                        ghost s: Scan, ghost base: Bytes, ghost rest: Bytes)
        returns (output': Bytes, outq': Bytes, o': nat, cand': Option<Candidate>)
      requires Valid() && Mirrors(s, base, output, outq, o, cand, rest) && o >= SEGMENT_LENGTH
      modifies window, window.window
      ensures Valid()
      ensures Mirrors(if oseg == s.q[o - SEGMENT_LENGTH..] then ReferenceLast(s, h) else s,
                      base, output', outq', o', cand', rest)
    {
      hide WindowOk, PutReference, PutEscape;
      var start := o - SEGMENT_LENGTH;
      o', cand' := o, cand;
      QueueFront(s.q, rest, start, o);
      var ok;
      ok, output', outq' := EncodeReference(output, outq, start, h, oseg, s.st, base);
      if ok {
        o' := 0;
        cand' := None;
      }
    }

    /** Looks the hash up: a known segment is referenced, an unknown one may become the candidate. */
    method EncodeLookup(output: Bytes, outq: Bytes, o: nat, cand: Option<Candidate>, h: Word,
                        ghost s: Scan, ghost base: Bytes, ghost rest: Bytes)
        returns (output': Bytes, outq': Bytes, o': nat, cand': Option<Candidate>)
      requires Valid() && Mirrors(s, base, output, outq, o, cand, rest) && o >= SEGMENT_LENGTH
      requires cand.Some? ==> cand.value.offset + SEGMENT_LENGTH > o - SEGMENT_LENGTH
      modifies window, window.window
      ensures Valid() && Mirrors(Consider(s, h), base, output', outq', o', cand', rest)
    {
      hide WindowOk, ReferenceLast;
      output', outq', o', cand' := output, outq, o, cand;
      var oseg := cache.Lookup(h);
      if oseg.Some? {
        output', outq', o', cand' := TryReference(output, outq, o, cand, h, oseg.value, s, base, rest);
        return;
      }
      if cand.Some? {
        return;
      }
      cand' := Some(Candidate(o - SEGMENT_LENGTH, h));
    }

    /** The body of the scan loop, once the rolling hash `h` covers the last segment before the scan point. */
    method EncodeHash(output: Bytes, outq: Bytes, o: nat, cand: Option<Candidate>, h: Word,
                      ghost s: Scan, ghost base: Bytes, ghost rest: Bytes)
        returns (output': Bytes, outq': Bytes, o': nat, cand': Option<Candidate>)
      requires Valid() && Mirrors(s, base, output, outq, o, cand, rest) && o >= SEGMENT_LENGTH
      modifies cache, window, window.window
      ensures Valid() && Mirrors(Advance(stream, s, h), base, output', outq', o', cand', rest)
    {
      hide WindowOk, PutDeclaration, PutEscape, ReferenceLast, Consider, PutAll;
      output', outq', o', cand' := output, outq, o, cand;
      if cand.None? || cand.value.offset + SEGMENT_LENGTH > o - SEGMENT_LENGTH {
        output', outq', o', cand' := EncodeLookup(output, outq, o, cand, h, s, base, rest);
        return;
      }
      var at, symbol := cand.value.offset, cand.value.symbol;
      QueueFront(s.q, rest, at, at + SEGMENT_LENGTH);
      var nseg;
      output', outq', nseg := EncodeDeclaration(output, outq, at, symbol, s.st, base);
      ghost var d := DeclareCandidate(stream, s);
      o' := o - (at + SEGMENT_LENGTH);
      cand' := None;
      assert Mirrors(d, base, output', outq', o', cand', rest);
      if h == symbol {
        output', outq', o', cand' := TryReference(output', outq', o', cand', h, nseg, d, base, rest);
      } else {
        output', outq', o', cand' := EncodeLookup(output', outq', o', cand', h, d, base, rest);
      }
    }

    /** One byte of input: into the hash, and past the scan point. */
    method EncodeByte(x: XCodecHash, output: Bytes, outq: Bytes, o: nat, cand: Option<Candidate>, b: byte,
                      ghost s: Scan, ghost base: Bytes, ghost rest: Bytes)
        returns (output': Bytes, outq': Bytes, o': nat, cand': Option<Candidate>)
      requires Valid() && x.Valid() && x.last == Covered(s.q)
      requires x.Repr() !! {cache, window, window.window, this}
      requires Mirrors(s, base, output, outq, o, cand, [b] + rest)
      modifies cache, window, window.window, x.Repr()
      ensures Valid() && x.Valid()
      ensures var s' := ScanByte(SegmentHash, stream, s, b);
              x.last == Covered(s'.q) && Mirrors(s', base, output', outq', o', cand', rest)
    {
      hide WindowOk, Advance, SegmentHash, XCodecHash.Valid, At, Covered;
      ghost var t := s.(q := s.q + [b]);
      assert outq == t.q + rest;
      assert Mirrors(t, base, output, outq, o + 1, cand, rest);
      output', outq', o', cand' := output, outq, o + 1, cand;
      HashByte(x, b, o, s.q);
      if o' < SEGMENT_LENGTH {
        return;
      }
      CoveredLast(t.q);
      var h := x.MixIn();
      output', outq', o', cand' := EncodeHash(output, outq, o', cand, h, t, base, rest);
      AdvanceCovers(stream, t, h);
      if o' == 0 {
        x.Reset();
        CoveredNothing();
      }
    }

    /** The loop over the bytes of one input segment, which is already at the end of the queue. */
    method EncodeSegment(x: XCodecHash, seg: Bytes, output: Bytes, outq: Bytes, o: nat, cand: Option<Candidate>,
                         ghost s: Scan, ghost base: Bytes)
        returns (output': Bytes, outq': Bytes, o': nat, cand': Option<Candidate>)
      requires Valid() && x.Valid() && x.last == Covered(s.q)
      requires x.Repr() !! {cache, window, window.window, this}
      requires Mirrors(s, base, output, outq, o, cand, seg)
      modifies cache, window, window.window, x.Repr()
      ensures Valid() && x.Valid()
      ensures var s' := ScanAll(SegmentHash, stream, s, seg);
              x.last == Covered(s'.q) && Mirrors(s', base, output', outq', o', cand', [])
    {
      hide WindowOk, ScanByte, SegmentHash, XCodecHash.Valid, At, Covered;
      output', outq', o', cand' := output, outq, o, cand;
      var p := 0;
      ghost var t := s;
      assert seg[0..] == seg;
      while p < |seg|
        invariant 0 <= p <= |seg|
        invariant Valid() && x.Valid() && x.last == Covered(t.q)
        invariant ScanWf(s) && t == ScanAll(SegmentHash, stream, s, seg[..p])
        invariant Mirrors(t, base, output', outq', o', cand', seg[p..])
      {
        if o' + (|seg| - p) < SEGMENT_LENGTH {
          // No hash can be completed in this segment: only take its bytes in.
          ScanShort(SegmentHash, stream, t, seg[p..]);
          ScanConcat(SegmentHash, stream, s, seg[..p], seg[p..]);
          assert seg[..p] + seg[p..] == seg;
          HashAll(x, seg[p..], o', t.q);
          o' := o' + (|seg| - p);
          return;
        }
        ghost var next := ScanByte(SegmentHash, stream, t, seg[p]);
        assert seg[p..] == [seg[p]] + seg[p + 1..];
        assert seg[..p + 1][..p] == seg[..p];
        output', outq', o', cand' := EncodeByte(x, output', outq', o', cand', seg[p], t, base, seg[p + 1..]);
        p := p + 1;
        t := next;
      }
      assert seg[..p] == seg;
    }

    /** The loop over input segments. */
    method EncodeLong(input: seq<Bytes>, base: Bytes, ghost first: Scan) returns (output: Bytes)
      requires Valid() && ScanWf(first) && Mirrors(first, base, base, [], 0, None, [])
      modifies cache, window, window.window
      ensures Valid()
      ensures At(Finish(stream, ScanAll(SegmentHash, stream, first, Flatten(input))), base, output)
    {
      hide ScanAll, SegmentHash, XCodecHash.Valid, Covered, Finish, At, WindowOk;
      output := base;
      var x := new XCodecHash();
      var outq: Bytes, o: nat, cand := [], 0, None;
      var inq := input;
      ghost var done: Bytes := [];
      ghost var s := first;
      ScanNothing(SegmentHash, stream, first);
      CoveredNothing();
      assert [] + Flatten(inq) == Flatten(input);
      while inq != []
        invariant done + Flatten(inq) == Flatten(input)
        invariant Valid() && fresh(x.Repr()) && x.Valid()
        invariant s == ScanAll(SegmentHash, stream, first, done)
        invariant Mirrors(s, base, output, outq, o, cand, []) && x.last == Covered(s.q)
        decreases |inq|
      {
        if o + LengthOf(inq) < SEGMENT_LENGTH {
          ScanShort(SegmentHash, stream, s, Flatten(inq));
          ScanConcat(SegmentHash, stream, first, done, Flatten(inq));
          outq, o := outq + Flatten(inq), o + LengthOf(inq);
          s := ScanAll(SegmentHash, stream, s, Flatten(inq));
          done, inq := Flatten(input), [];
          assert Flatten(input) + [] == Flatten(input);
          break;
        }
        var seg := inq[0];
        ScanConcat(SegmentHash, stream, first, done, seg);
        assert done + seg + Flatten(inq[1..]) == Flatten(input);
        output, outq, o, cand := EncodeSegment(x, seg, output, outq + seg, o, cand, s, base);
        s := ScanAll(SegmentHash, stream, s, seg);
        done, inq := done + seg, inq[1..];
      }
      assert done == Flatten(input);
      output := EncodeRest(output, outq, cand, s, base);
    }

    /**
      `encode`: the input is a list of segments. The bytes written, the cache and the window depend
      on the bytes of the input only, not on how they are cut into segments.
    */
    method Encode(input: seq<Bytes>, base: Bytes) returns (output: Bytes)
      requires Valid()
      modifies cache, window, window.window
      ensures Valid()
      ensures WindowOk(old(window.Value()))
      ensures At(Encoder.Encode(SegmentHash, stream, old(cache.entries), old(window.Value()), Flatten(input)), base, output)
    {
      hide WindowOk, ScanAll, SegmentHash, PutAll;
      ghost var first := Start(cache.entries, window.Value());
      var length := LengthOf(input);
      NothingPut();
      if length < SEGMENT_LENGTH {
        ScanShort(SegmentHash, stream, first, Flatten(input));
        assert [] + Flatten(input) == Flatten(input);
        assert [] + Escape(Flatten(input)) == Escape(Flatten(input));
        if length == 0 {
          assert Escape(Flatten(input)) == [];
          return base;
        }
        var left;
        assert Flatten(input)[..length] == Flatten(input);
        output, left := EncodeEscape(base, Flatten(input), length);
        return;
      }
      output := EncodeLong(input, base, first);
    }

    /** At the end of the input: declare a pending candidate, escape the rest. */
    method EncodeRest(output: Bytes, outq: Bytes, cand: Option<Candidate>, ghost s: Scan, ghost base: Bytes)
        returns (output': Bytes)
      requires Valid() && Mirrors(s, base, output, outq, |s.q|, cand, [])
      modifies cache, window, window.window
      ensures Valid() && At(Finish(stream, s), base, output')
    {
      hide WindowOk, PutDeclaration, PutAll;
      output' := output;
      var left := outq;
      assert outq == s.q;
      ghost var d := s;
      if cand.Some? {
        var nseg;
        output', left, nseg := EncodeDeclaration(output', left, cand.value.offset, cand.value.symbol, s.st, base);
        d := DeclareCandidate(stream, s);
      }
      PutAllConcat(d.st.toks, Escape(d.q));
      if left != [] {
        assert left[..|left|] == d.q;
        output', left := EncodeEscape(output', left, |left|);
      } else {
        assert Escape(d.q) == [];
        NothingPut();
      }
    }
  }

  /** What the rolling hash covers: the last segment before the scan point, or all of a shorter queue. */
  function Covered(q: Bytes): Bytes {
    if |q| < SEGMENT_LENGTH then q else q[|q| - SEGMENT_LENGTH..]
  }

  lemma {:induction false} CoveredLast(q: Bytes)
    requires |q| >= SEGMENT_LENGTH
    ensures Covered(q) == q[|q| - SEGMENT_LENGTH..] && |Covered(q)| == SEGMENT_LENGTH
  {
  }

  lemma {:induction false} CoveredNothing()
    ensures Covered([]) == []
  {
  }

  /** Adds or rolls `b` into a hash that covers the queue `q`. */
  method HashByte(x: XCodecHash, b: byte, o: nat, ghost q: Bytes)
    requires x.Valid() && x.last == Covered(q) && o == |q|
    modifies x.Repr()
    ensures x.Valid() && x.last == Covered(q + [b])
  {
    hide XCodecHash.Valid;
    if o < SEGMENT_LENGTH {
      x.Add(b);
    } else {
      x.Roll(b);
    }
  }

  /** Adds bytes that do not complete a segment. */
  method HashAll(x: XCodecHash, s: Bytes, o: nat, ghost q: Bytes)
    requires x.Valid() && x.last == Covered(q) && o == |q| && o + |s| < SEGMENT_LENGTH
    modifies x.Repr()
    ensures x.Valid() && x.last == Covered(q + s)
  {
    hide XCodecHash.Valid;
    var i := 0;
    assert q + s[..0] == q;
    while i < |s|
      invariant 0 <= i <= |s|
      invariant x.Valid() && x.last == Covered(q + s[..i])
    {
      assert q + s[..i + 1] == (q + s[..i]) + [s[i]];
      HashByte(x, s[i], o + i, q + s[..i]);
      i := i + 1;
    }
    assert s[..i] == s;
  }

  lemma {:induction false} ScanNothing(hash: Hasher, stream: bool, s: Scan)
    requires ScanWf(s)
    ensures ScanAll(hash, stream, s, []) == s
  {
  }

  /** A step of the scan leaves the queue empty or the covered segment as it was. */
  lemma {:induction false} AdvanceCovers(stream: bool, s: Scan, h: Word)
    requires ScanWf(s) && |s.q| >= SEGMENT_LENGTH
    ensures var s' := Advance(stream, s, h);
            s'.q == [] || Covered(s'.q) == Covered(s.q)
  {
    hide WindowOk, PutDeclaration, PutReference, PutEscape, Covered;
    if s.cand.Some? && s.cand.value.offset + SEGMENT_LENGTH <= |s.q| - SEGMENT_LENGTH {
      CoveredDrop(s.q, s.cand.value.offset + SEGMENT_LENGTH);
    }
  }

  lemma {:induction false} CoveredDrop(q: Bytes, n: nat)
    requires n + SEGMENT_LENGTH <= |q|
    ensures Covered(q[n..]) == Covered(q)
  {
    assert q[n..][|q| - n - SEGMENT_LENGTH..] == q[|q| - SEGMENT_LENGTH..];
  }

  lemma {:induction false} QueueFront(q: Bytes, rest: Bytes, from: nat, to: nat)
    requires from <= to <= |q|
    ensures (q + rest)[..from] == q[..from]
    ensures (q + rest)[from..to] == q[from..to]
    ensures (q + rest)[to..] == q[to..] + rest
  {
  }

  lemma {:induction false} NothingPut()
    ensures PutAll([]) == []
  {
  }

  lemma {:induction false} EscapeExtends(input: Bytes, from: nat, to: nat)
    requires from <= to <= |input|
    ensures PutAll(Escape(input[..to])) == PutAll(Escape(input[..from])) + PutAll(Escape(input[from..to]))
  {
    assert input[..to] == input[..from] + input[from..to];
    EscapeConcat(input[..from], input[from..to]);
    PutAllConcat(Escape(input[..from]), Escape(input[from..to]));
  }

  lemma {:induction false} EscapeNothing(input: Bytes)
    ensures PutAll(Escape(input[..0])) == []
  {
  }

  lemma {:induction false} EscapePlainRun(input: Bytes, from: nat, n: nat)
    requires from + n <= |input| && MAGIC !in input[from..][..n]
    ensures PutAll(Escape(input[..from + n])) == PutAll(Escape(input[..from])) + input[from..][..n]
  {
    assert input[from..from + n] == input[from..][..n];
    EscapePlain(input[from..from + n]);
    EscapeExtends(input, from, from + n);
  }

  /** One turn of `encode_escape`: a plain run, empty or not, and the magic byte behind it. */
  lemma {:induction false} EscapeTurn(output: Bytes, input: Bytes, from: nat, n: nat)
    requires from + n < |input| && MAGIC !in input[from..][..n] && input[from..][n] == MAGIC
    ensures output + PutAll(Escape(input[..from])) + input[from..][..n] + [MAGIC, OP_ESCAPE] ==
            output + PutAll(Escape(input[..from + n + 1]))
    ensures n == 0 ==> output + PutAll(Escape(input[..from])) + [MAGIC, OP_ESCAPE] == output + PutAll(Escape(input[..from + 1]))
    ensures input[from..][n..][1..] == input[from + n + 1..]
  {
    hide PutAll, Escape;
    EscapePlainRun(input, from, n);
    EscapeMagic(input, from + n);
    var before, run := PutAll(Escape(input[..from])), input[from..][..n];
    assert output + before + run + [MAGIC, OP_ESCAPE] == output + (before + run + [MAGIC, OP_ESCAPE]);
    assert n == 0 ==> run == [] && output + before + run == output + before;
  }

  lemma {:induction false} EscapeMagic(input: Bytes, i: nat)
    requires i < |input| && input[i] == MAGIC
    ensures PutAll(Escape(input[..i + 1])) == PutAll(Escape(input[..i])) + [MAGIC, OP_ESCAPE]
  {
    assert Escape(input[i..i + 1]) == [Escaped];
    PutAllOne(Escaped);
    EscapeExtends(input, i, i + 1);
  }
}
