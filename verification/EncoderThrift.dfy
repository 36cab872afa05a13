/** What the encoder saves: a new segment is declared, a known one is referenced, and none is declared twice. */
module EncoderThrift {
  import opened Bytes
  import opened Hash
  import opened Window
  import opened Stream
  import opened Encoder

  /** Another segment is already known under the hash of `seg`. */
  predicate Collides(hash: Hasher, cache: Cache, seg: Bytes) {
    hash(seg) in cache && cache[hash(seg)] != seg
  }

  predicate IsEscape(t: Token) {
    t.Literal? || t.Escaped?
  }

  /** `seg` is escaped, byte by byte, from the token at `i` on. */
  predicate EscapedAt(toks: seq<Token>, i: nat, seg: Bytes) {
    i + |seg| <= |toks| && toks[i..i + |seg|] == Escape(seg)
  }

  /** A whole segment is escaped only where its hash collides. */
  ghost predicate Spare(hash: Hasher, toks: seq<Token>, cache: Cache) {
    forall i: nat, seg: Bytes :: |seg| == SEGMENT_LENGTH && EscapedAt(toks, i, seg) ==> Collides(hash, cache, seg)
  }

  /** Every stretch of `q` that is a segment long and starts before `end` collides. */
  ghost predicate Stale(hash: Hasher, cache: Cache, q: Bytes, end: nat) {
    forall i: nat :: i < end && i + SEGMENT_LENGTH <= |q| ==> Collides(hash, cache, Stretch(q, i))
  }

  function Stretch(q: Bytes, i: nat): (r: Bytes)
    requires i + SEGMENT_LENGTH <= |q|
    ensures |r| == SEGMENT_LENGTH
  {
    q[i..i + SEGMENT_LENGTH]
  }

  /** What is declared was not known at the start, is known at the end, and is declared only once. */
  ghost predicate DeclaredOnce(hash: Hasher, toks: seq<Token>, known: Cache, cache: Cache) {
    && (forall i :: 0 <= i < |toks| && toks[i].Extract? ==>
          hash(toks[i].seg) !in known && hash(toks[i].seg) in cache && cache[hash(toks[i].seg)] == toks[i].seg)
    && (forall i, j :: 0 <= i < j < |toks| && toks[i].Extract? && toks[j].Extract? ==> hash(toks[i].seg) != hash(toks[j].seg))
  }

  /** Where the candidate starts, or the end of the queue. */
  function Limit(s: Scan): nat {
    if s.cand.Some? then s.cand.value.offset else |s.q|
  }

  /**
    The loop invariant of the scan: nothing new lies in the queue before the candidate, which is named
    by its own hash and less than two segments from the end of the queue.
  */
  ghost predicate Thrifty(hash: Hasher, known: Cache, s: Scan) {
    && ScanWf(s)
    && SubCache(known, s.st.cache)
    && (s.st.toks != [] ==> !IsEscape(s.st.toks[|s.st.toks| - 1]))
    && Spare(hash, s.st.toks, s.st.cache)
    && DeclaredOnce(hash, s.st.toks, known, s.st.cache)
    && Stale(hash, s.st.cache, s.q, Limit(s))
    && (s.cand.Some? ==>
          && |s.q| < s.cand.value.offset + 2 * SEGMENT_LENGTH
          && s.cand.value.symbol == hash(Stretch(s.q, s.cand.value.offset)))
  }

  // --- Tokens ---------------------------------------------------------------------------------------------

  lemma {:induction false} EscapeInjective(a: Bytes, b: Bytes)
    requires Escape(a) == Escape(b)
    ensures a == b
  {
    forall i | 0 <= i < |a|
      ensures a[i] == b[i]
    {
      assert Escape(a)[i] == EscapeByte(a[i]) && Escape(b)[i] == EscapeByte(b[i]);
    }
  }

  lemma {:induction false} EscapedAtIs(toks: seq<Token>, i: nat, seg: Bytes, j: nat)
    requires EscapedAt(toks, i, seg) && i <= j < i + |seg|
    ensures IsEscape(toks[j])
  {
    assert toks[i..i + |seg|][j - i] == Escape(seg)[j - i];
  }

  lemma {:induction false} SpareGrows(hash: Hasher, toks: seq<Token>, cache: Cache, big: Cache)
    requires Spare(hash, toks, cache) && SubCache(cache, big)
    ensures Spare(hash, toks, big)
  {
  }

  lemma {:induction false} StaleGrows(hash: Hasher, cache: Cache, big: Cache, q: Bytes, end: nat)
    requires Stale(hash, cache, q, end) && SubCache(cache, big)
    ensures Stale(hash, big, q, end)
  {
  }

  /** A run of escapes that starts afresh escapes whole segments only where the bytes do. */
  lemma {:induction false} SpareEscape(hash: Hasher, toks: seq<Token>, cache: Cache, s: Bytes)
    requires Spare(hash, toks, cache) && (toks != [] ==> !IsEscape(toks[|toks| - 1]))
    requires Stale(hash, cache, s, |s|)
    ensures Spare(hash, toks + Escape(s), cache)
  {
    var all, n := toks + Escape(s), |toks|;
    forall i: nat, seg: Bytes | |seg| == SEGMENT_LENGTH && EscapedAt(all, i, seg)
      ensures Collides(hash, cache, seg)
    {
      if i >= n {
        var k: nat := i - n;
        assert all[i..i + |seg|] == Escape(s)[k..k + |seg|] == Escape(Stretch(s, k));
        EscapeInjective(seg, Stretch(s, k));
      } else if i + |seg| <= n {
        assert all[i..i + |seg|] == toks[i..i + |seg|];
        assert EscapedAt(toks, i, seg);
      } else {
        EscapedAtIs(all, i, seg, n - 1);
        assert false;
      }
    }
  }

  /** Anything but an escape ends a run of escapes. */
  lemma {:induction false} SpareToken(hash: Hasher, toks: seq<Token>, cache: Cache, t: Token)
    requires Spare(hash, toks, cache) && !IsEscape(t)
    ensures Spare(hash, toks + [t], cache)
  {
    var all, n := toks + [t], |toks|;
    forall i: nat, seg: Bytes | |seg| == SEGMENT_LENGTH && EscapedAt(all, i, seg)
      ensures Collides(hash, cache, seg)
    {
      if i + |seg| <= n {
        assert all[i..i + |seg|] == toks[i..i + |seg|];
        assert EscapedAt(toks, i, seg);
      } else {
        EscapedAtIs(all, i, seg, n);
        assert false;
      }
    }
  }

  lemma {:induction false} OnceEscape(hash: Hasher, toks: seq<Token>, known: Cache, cache: Cache, s: Bytes)
    requires DeclaredOnce(hash, toks, known, cache)
    ensures DeclaredOnce(hash, toks + Escape(s), known, cache)
  {
    assert forall i :: 0 <= i < |s| ==> !Escape(s)[i].Extract?;
  }

  lemma {:induction false} OnceToken(hash: Hasher, toks: seq<Token>, known: Cache, cache: Cache, t: Token)
    requires DeclaredOnce(hash, toks, known, cache) && !t.Extract?
    ensures DeclaredOnce(hash, toks + [t], known, cache)
  {
  }

  lemma {:induction false} OnceExtract(hash: Hasher, toks: seq<Token>, known: Cache, cache: Cache, seg: Bytes)
    requires DeclaredOnce(hash, toks, known, cache) && SubCache(known, cache) && hash(seg) !in cache
    ensures DeclaredOnce(hash, toks + [Extract(seg)], known, cache[hash(seg) := seg])
  {
  }

  // --- The parts of the scan ------------------------------------------------------------------------------

  /** What has been written, when it ends in something other than an escape. */
  ghost predicate Written(hash: Hasher, known: Cache, st: State) {
    && SubCache(known, st.cache)
    && (st.toks != [] ==> !IsEscape(st.toks[|st.toks| - 1]))
    && Spare(hash, st.toks, st.cache)
    && DeclaredOnce(hash, st.toks, known, st.cache)
  }

  lemma {:induction false} ReferenceWrites(hash: Hasher, known: Cache, st: State, s: Bytes, h: Word, seg: Bytes)
    requires Written(hash, known, st) && WindowOk(st.window) && Stale(hash, st.cache, s, |s|)
    ensures var r := PutReference(PutEscape(st, s), h, seg);
            Written(hash, known, r) && r.cache == st.cache
  {
    hide WindowOk, Declared, Spare, DeclaredOnce, Stale, Escape, SubCache;
    SpareEscape(hash, st.toks, st.cache, s);
    OnceEscape(hash, st.toks, known, st.cache, s);
    var toks := st.toks + Escape(s);
    if h in st.window.present {
      PresentDereferences(st.window, h);
    }
    var t := if h in st.window.present then Backref(st.window.present[h]) else Ref(h);
    SpareToken(hash, toks, st.cache, t);
    OnceToken(hash, toks, known, st.cache, t);
  }

  lemma {:induction false} EntersCache(known: Cache, cache: Cache, h: Word, seg: Bytes)
    requires SubCache(known, cache) && h !in cache
    ensures SubCache(cache, cache[h := seg]) && SubCache(known, cache[h := seg])
  {
  }

  lemma {:induction false} DeclarationWrites(hash: Hasher, stream: bool, known: Cache, st: State, s: Bytes, h: Word, seg: Bytes)
    requires Written(hash, known, st) && WindowOk(st.window) && Stale(hash, st.cache, s, |s|)
    requires h == hash(seg) && h !in st.cache
    ensures var r := PutDeclaration(stream, PutEscape(st, s), h, seg);
            Written(hash, known, r) && r.cache == st.cache[h := seg]
  {
    hide WindowOk, Declared, Spare, DeclaredOnce, Stale, Escape, SubCache;
    var big := st.cache[h := seg];
    EntersCache(known, st.cache, h, seg);
    SpareGrows(hash, st.toks, st.cache, big);
    StaleGrows(hash, st.cache, big, s, |s|);
    if stream {
      SpareEscape(hash, st.toks, big, s);
      OnceEscape(hash, st.toks, known, st.cache, s);
      SpareToken(hash, st.toks + Escape(s), big, Extract(seg));
      OnceExtract(hash, st.toks + Escape(s), known, st.cache, seg);
    } else {
      OnceGrows(hash, st.toks, known, st.cache, big);
      ReferenceWrites(hash, known, st.(cache := big), s, h, seg);
    }
  }

  lemma {:induction false} OnceGrows(hash: Hasher, toks: seq<Token>, known: Cache, cache: Cache, big: Cache)
    requires DeclaredOnce(hash, toks, known, cache) && SubCache(cache, big)
    ensures DeclaredOnce(hash, toks, known, big)
  {
  }

  /** Part of a queue with nothing new in it has nothing new in it. */
  lemma {:induction false} StalePart(hash: Hasher, cache: Cache, q: Bytes, end: nat, n: nat)
    requires Stale(hash, cache, q, end) && n <= |q| && n <= end + SEGMENT_LENGTH - 1
    ensures Stale(hash, cache, q[..n], n)
  {
    forall i: nat | i < n && i + SEGMENT_LENGTH <= n
      ensures Collides(hash, cache, Stretch(q[..n], i))
    {
      assert Stretch(q[..n], i) == Stretch(q, i);
    }
  }

  lemma {:induction false} DeclareThrifty(hash: Hasher, stream: bool, known: Cache, s: Scan)
    requires ScanWf(s) && s.cand.Some? && Written(hash, known, s.st)
    requires Stale(hash, s.st.cache, s.q, s.cand.value.offset)
    requires s.cand.value.symbol == hash(Stretch(s.q, s.cand.value.offset))
    ensures var c, d := s.cand.value, DeclareCandidate(stream, s);
            && Written(hash, known, d.st)
            && d.st.cache == s.st.cache[c.symbol := Stretch(s.q, c.offset)]
            && d.q == s.q[c.offset + SEGMENT_LENGTH..]
  {
    hide WindowOk, Written, Stale, PutDeclaration, PutEscape;
    var c := s.cand.value;
    StalePart(hash, s.st.cache, s.q, c.offset, c.offset);
    DeclarationWrites(hash, stream, known, s.st, s.q[..c.offset], c.symbol, Stretch(s.q, c.offset));
  }

  /** A queue that is too short for a segment, or holds one that collides. */
  lemma {:induction false} ShortIsStale(hash: Hasher, cache: Cache, q: Bytes)
    requires |q| <= SEGMENT_LENGTH && (|q| == SEGMENT_LENGTH ==> Collides(hash, cache, q))
    ensures Stale(hash, cache, q, |q|)
  {
    forall i: nat | i < |q| && i + SEGMENT_LENGTH <= |q|
      ensures Collides(hash, cache, Stretch(q, i))
    {
      assert Stretch(q, i) == q;
    }
  }

  /** The queue before its last byte was looked at. */
  ghost predicate Pending(hash: Hasher, known: Cache, s: Scan) {
    && ScanWf(s) && Written(hash, known, s.st) && |s.q| >= SEGMENT_LENGTH
    && Stale(hash, s.st.cache, s.q, if s.cand.Some? then s.cand.value.offset else |s.q| - SEGMENT_LENGTH)
    && (s.cand.Some? ==>
          && |s.q| <= s.cand.value.offset + 2 * SEGMENT_LENGTH
          && s.cand.value.symbol == hash(Stretch(s.q, s.cand.value.offset)))
  }

  lemma {:induction false} StaleOneMore(hash: Hasher, cache: Cache, q: Bytes)
    requires |q| >= SEGMENT_LENGTH && Stale(hash, cache, q, |q| - SEGMENT_LENGTH)
    requires Collides(hash, cache, q[|q| - SEGMENT_LENGTH..])
    ensures Stale(hash, cache, q, |q|)
  {
    forall i: nat | i < |q| && i + SEGMENT_LENGTH <= |q|
      ensures Collides(hash, cache, Stretch(q, i))
    {
      if i == |q| - SEGMENT_LENGTH {
        assert Stretch(q, i) == q[i..];
      }
    }
  }

  lemma {:induction false} ReferencePending(hash: Hasher, known: Cache, s: Scan, h: Word)
    requires Pending(hash, known, s) && (s.cand.Some? ==> |s.q| < s.cand.value.offset + 2 * SEGMENT_LENGTH)
    ensures Thrifty(hash, known, ReferenceLast(s, h))
  {
    hide WindowOk, Stale, PutReference, PutEscape, Spare, DeclaredOnce, SubCache;
    var start := |s.q| - SEGMENT_LENGTH;
    StalePart(hash, s.st.cache, s.q, if s.cand.Some? then s.cand.value.offset else start, start);
    ReferenceWrites(hash, known, s.st, s.q[..start], h, s.q[start..]);
    ShortIsStale(hash, s.st.cache, []);
  }

  lemma {:induction false} ConsiderThrifty(hash: Hasher, known: Cache, s: Scan)
    requires Pending(hash, known, s) && (s.cand.Some? ==> |s.q| < s.cand.value.offset + 2 * SEGMENT_LENGTH)
    ensures Thrifty(hash, known, Consider(s, hash(s.q[|s.q| - SEGMENT_LENGTH..])))
  {
    hide WindowOk, Stale, Spare, DeclaredOnce, SubCache, ReferenceLast;
    var start := |s.q| - SEGMENT_LENGTH;
    var last := s.q[start..];
    assert Stretch(s.q, start) == last;
    if hash(last) in s.st.cache {
      if s.st.cache[hash(last)] == last {
        ReferencePending(hash, known, s, hash(last));
      } else if s.cand.None? {
        StaleOneMore(hash, s.st.cache, s.q);
      }
    }
  }

  lemma {:induction false} AdvanceThrifty(hash: Hasher, stream: bool, known: Cache, s: Scan)
    requires Pending(hash, known, s)
    ensures Thrifty(hash, known, Advance(stream, s, hash(s.q[|s.q| - SEGMENT_LENGTH..])))
  {
    hide WindowOk, Stale, Spare, DeclaredOnce, SubCache, ReferenceLast, Consider, DeclareCandidate;
    if s.cand.Some? && s.cand.value.offset + SEGMENT_LENGTH <= |s.q| - SEGMENT_LENGTH {
      var last := s.q[|s.q| - SEGMENT_LENGTH..];
      var d := DeclareCandidate(stream, s);
      DeclareThrifty(hash, stream, known, s);
      assert d.q == last;
      assert last[|last| - SEGMENT_LENGTH..] == last;
      NothingBefore(hash, d.st.cache, d.q);
      if hash(last) == s.cand.value.symbol {
        if Stretch(s.q, s.cand.value.offset) == last {
          ReferencePending(hash, known, d, hash(last));
        } else {
          ShortIsStale(hash, d.st.cache, last);
        }
      } else {
        ConsiderThrifty(hash, known, d);
      }
    } else {
      ConsiderThrifty(hash, known, s);
    }
  }

  lemma {:induction false} NothingBefore(hash: Hasher, cache: Cache, q: Bytes)
    ensures Stale(hash, cache, q, 0)
  {
  }

  /** One more byte leaves every stretch before the candidate, and before the last one, as it was. */
  lemma {:induction false} StaleLonger(hash: Hasher, cache: Cache, q: Bytes, b: byte, end: nat)
    requires Stale(hash, cache, q, end) && end <= |q|
    ensures Stale(hash, cache, q + [b], Min(end, if |q| + 1 >= SEGMENT_LENGTH then |q| + 1 - SEGMENT_LENGTH else 0))
  {
    forall i: nat | i < end && i + SEGMENT_LENGTH <= |q|
      ensures Collides(hash, cache, Stretch(q + [b], i))
    {
      assert Stretch(q + [b], i) == Stretch(q, i);
    }
  }

  lemma {:induction false} ScanByteThrifty(hash: Hasher, stream: bool, known: Cache, s: Scan, b: byte)
    requires Thrifty(hash, known, s)
    ensures Thrifty(hash, known, ScanByte(hash, stream, s, b))
  {
    hide WindowOk, Stale, Spare, DeclaredOnce, SubCache, Advance;
    var s' := s.(q := s.q + [b]);
    if |s'.q| < SEGMENT_LENGTH {
      ShortIsStale(hash, s.st.cache, s'.q);
    } else {
      StaleLonger(hash, s.st.cache, s.q, b, Limit(s));
      if s.cand.Some? {
        var c := s.cand.value;
        assert Stretch(s'.q, c.offset) == Stretch(s.q, c.offset);
        assert c.offset <= |s'.q| - SEGMENT_LENGTH;
      }
      AdvanceThrifty(hash, stream, known, s');
    }
  }

  lemma {:induction false} ScanAllThrifty(hash: Hasher, stream: bool, known: Cache, w: Window, input: Bytes)
    requires WindowOk(w)
    ensures Thrifty(hash, known, ScanAll(hash, stream, Start(known, w), input))
  {
    hide WindowOk, ScanByte;
    if input == [] {
    } else {
      var init := input[..|input| - 1];
      ScanAllThrifty(hash, stream, known, w, init);
      ScanByteThrifty(hash, stream, known, ScanAll(hash, stream, Start(known, w), init), input[|input| - 1]);
    }
  }

  // --- Every call -----------------------------------------------------------------------------------------

  /**
    Whatever the input and the hash function: `encode` escapes a whole segment, anywhere in its output,
    only if another segment is known under its hash; and it declares only what was not known.
  */
  lemma {:induction false} EncodeIsThrifty(hash: Hasher, stream: bool, cache: Cache, w: Window, input: Bytes)
    requires WindowOk(w)
    ensures var st := Encode(hash, stream, cache, w, input);
            Spare(hash, st.toks, st.cache) && DeclaredOnce(hash, st.toks, cache, st.cache) && SubCache(cache, st.cache)
  {
    hide WindowOk, ScanAll, Stale, Spare, DeclaredOnce, SubCache, DeclareCandidate, Escape;
    var s := ScanAll(hash, stream, Start(cache, w), input);
    ScanAllThrifty(hash, stream, cache, w, input);
    var d := s;
    if s.cand.Some? {
      DeclareThrifty(hash, stream, cache, s);
      d := DeclareCandidate(stream, s);
      ShortIsStale(hash, d.st.cache, d.q);
    }
    SpareEscape(hash, d.st.toks, d.st.cache, d.q);
    OnceEscape(hash, d.st.toks, cache, d.st.cache, d.q);
  }

  lemma {:induction false} OnceConcat(hash: Hasher, a: seq<Token>, b: seq<Token>, known: Cache, mid: Cache, cache: Cache)
    requires DeclaredOnce(hash, a, known, mid) && DeclaredOnce(hash, b, mid, cache)
    requires SubCache(known, mid) && SubCache(mid, cache)
    ensures DeclaredOnce(hash, a + b, known, cache) && SubCache(known, cache)
  {
    var all := a + b;
    forall i, j | 0 <= i < j < |all| && all[i].Extract? && all[j].Extract?
      ensures hash(all[i].seg) != hash(all[j].seg)
    {
      if i < |a| <= j {
        assert hash(a[i].seg) in mid && hash(b[j - |a|].seg) !in mid;
      }
    }
  }

  /** Over any number of calls of one encoder, no segment is declared twice, and none that was known before. */
  lemma {:induction false} CallsDeclareOnce(hash: Hasher, o: Origin, inputs: seq<Bytes>)
    requires WindowOk(o.window)
    ensures var st := EncodeCalls(hash, o, inputs);
            DeclaredOnce(hash, st.toks, o.cache, st.cache) && SubCache(o.cache, st.cache)
  {
    hide WindowOk, Encode, DeclaredOnce;
    if inputs == [] {
      assert DeclaredOnce(hash, [], o.cache, o.cache) by { OnceNothing(hash, o.cache); }
    } else {
      var init, last := inputs[..|inputs| - 1], inputs[|inputs| - 1];
      CallsDeclareOnce(hash, o, init);
      var before := EncodeCalls(hash, o, init);
      EncodeIsThrifty(hash, o.stream, before.cache, before.window, last);
      var st := Encode(hash, o.stream, before.cache, before.window, last);
      OnceConcat(hash, before.toks, st.toks, o.cache, before.cache, st.cache);
    }
  }

  lemma {:induction false} OnceNothing(hash: Hasher, cache: Cache)
    ensures DeclaredOnce(hash, [], cache, cache)
  {
  }

  // --- The same segment twice -----------------------------------------------------------------------------

  /** The scan of exactly one segment, up to its last byte. */
  lemma {:induction false} ScanOne(hash: Hasher, cache: Cache, w: Window, seg: Bytes)
    requires WindowOk(w) && |seg| == SEGMENT_LENGTH
    ensures ScanAll(hash, true, Start(cache, w), seg) == Consider(Scan(State(cache, w, []), seg, None), hash(seg))
  {
    hide WindowOk, Consider;
    var k := SEGMENT_LENGTH - 1;
    ScanShort(hash, true, Start(cache, w), seg[..k]);
    assert [] + seg[..k] + [seg[k]] == seg;
    assert seg[0..] == seg;
  }

  /** A segment that is new is declared in full, once; the same bytes again are an index into the window. */
  lemma {:induction false} SecondCopyIsIndexed(hash: Hasher, cache: Cache, w: Window, seg: Bytes)
    requires WindowOk(w) && |seg| == SEGMENT_LENGTH && hash(seg) !in cache
    ensures var h, st := hash(seg), Encode(hash, true, cache, w, seg);
            && st.toks == [Extract(seg)] && st.cache == cache[h := seg]
            && var again := Encode(hash, true, st.cache, st.window, seg);
               && again.cache == st.cache
               && (h != 0 ==> h in st.window.present && again.toks == [Backref(st.window.present[h])])
               && (h == 0 && h !in st.window.present ==> again.toks == [Ref(0)])
  {
    hide WindowOk, Declared, ScanAll;
    var h := hash(seg);
    ScanOne(hash, cache, w, seg);
    assert Escape([]) == [] && seg[..0] == [] && seg[SEGMENT_LENGTH..] == [] && seg[0..] == seg && seg[0..SEGMENT_LENGTH] == seg;
    var st := Encode(hash, true, cache, w, seg);
    assert st.toks == [Extract(seg)];
    ScanOne(hash, st.cache, st.window, seg);
  }

  // --- A known segment at any offset --------------------------------------------------------------------------

  /** No stretch of `data` that starts before `end` is known. */
  ghost predicate AllNew(hash: Hasher, cache: Cache, data: Bytes, end: nat) {
    forall i: nat :: i < end && i + SEGMENT_LENGTH <= |data| ==> hash(Stretch(data, i)) !in cache
  }

  /** While less than two segments of new data have been scanned, they are queued, with the first stretch as candidate. */
  lemma {:induction false} ScanNew(hash: Hasher, cache: Cache, w: Window, data: Bytes, n: nat)
    requires WindowOk(w) && AllNew(hash, cache, data, n) && n < SEGMENT_LENGTH
    requires SEGMENT_LENGTH <= |data| < n + SEGMENT_LENGTH
    ensures ScanAll(hash, true, Start(cache, w), data) ==
            Scan(State(cache, w, []), data, Some(Candidate(0, hash(Stretch(data, 0)))))
    decreases |data|
  {
    hide WindowOk, ScanByte, Consider;
    var k := |data| - 1;
    var front := data[..k];
    assert front + [data[k]] == data && Stretch(data, |data| - SEGMENT_LENGTH) == data[|data| - SEGMENT_LENGTH..];
    if |data| == SEGMENT_LENGTH {
      hide ScanAll;
      ScanOne(hash, cache, w, data);
      assert data[0..] == data;
      FirstCandidate(Scan(State(cache, w, []), data, None), hash(data));
    } else {
      NewInFront(hash, cache, data, n);
      ScanNew(hash, cache, w, front, n);
      assert Stretch(front, 0) == Stretch(data, 0);
      CandidateStays(hash, ScanAll(hash, true, Start(cache, w), front), data[k]);
    }
  }

  lemma {:induction false} FirstCandidate(s: Scan, h: Word)
    requires ScanWf(s) && s.cand.None? && |s.q| == SEGMENT_LENGTH && h !in s.st.cache
    ensures Consider(s, h) == s.(cand := Some(Candidate(0, h)))
  {
  }

  /** A candidate that is not yet a segment behind waits, while nothing known turns up. */
  lemma {:induction false} CandidateStays(hash: Hasher, s: Scan, b: byte)
    requires ScanWf(s) && s.cand.Some? && |s.q| + 1 < s.cand.value.offset + 2 * SEGMENT_LENGTH && |s.q| >= SEGMENT_LENGTH
    requires hash((s.q + [b])[|s.q| + 1 - SEGMENT_LENGTH..]) !in s.st.cache
    ensures ScanByte(hash, true, s, b) == s.(q := s.q + [b])
  {
    hide WindowOk, DeclareCandidate, ReferenceLast;
  }

  /**
    A known segment is found wherever it starts: behind less than a segment of data in which nothing is
    known, that data is escaped, the segment is referenced, and nothing is declared.
  */
  lemma {:induction false} FoundAtAnyOffset(hash: Hasher, cache: Cache, w: Window, before: Bytes, seg: Bytes)
    requires WindowOk(w) && |before| < SEGMENT_LENGTH && |seg| == SEGMENT_LENGTH
    requires hash(seg) in cache && cache[hash(seg)] == seg && AllNew(hash, cache, before + seg, |before|)
    ensures var h, st := hash(seg), Encode(hash, true, cache, w, before + seg);
            && st.cache == cache
            && st == PutReference(PutEscape(State(cache, w, []), before), h, seg)
  {
    hide WindowOk, Declared, ScanAll;
    var data, n := before + seg, |before|;
    assert data[n..] == seg && data[..n] == before;
    ScanFinds(hash, cache, w, data, n);
    assert Escape([]) == [];
    var found := ReferenceLast(Scan(State(cache, w, []), data, None), hash(seg));
    assert found.st.toks + [] == found.st.toks;
  }

  /** The last byte of a known segment, with less than a segment of new data before it. */
  lemma {:induction false} ScanFinds(hash: Hasher, cache: Cache, w: Window, data: Bytes, n: nat)
    requires WindowOk(w) && n < SEGMENT_LENGTH && |data| == n + SEGMENT_LENGTH && AllNew(hash, cache, data, n)
    requires hash(data[n..]) in cache && cache[hash(data[n..])] == data[n..]
    ensures ScanAll(hash, true, Start(cache, w), data) == ReferenceLast(Scan(State(cache, w, []), data, None), hash(data[n..]))
  {
    hide WindowOk, ScanByte, ReferenceLast, Consider;
    var k := |data| - 1;
    var front := data[..k];
    assert front + [data[k]] == data;
    if n == 0 {
      hide ScanAll;
      assert data[0..] == data;
      ScanOne(hash, cache, w, data);
      KnownIsReferenced(Scan(State(cache, w, []), data, None), hash(data));
    } else {
      NewInFront(hash, cache, data, n);
      ScanNew(hash, cache, w, front, n);
      KnownEndsScan(hash, ScanAll(hash, true, Start(cache, w), front), data[k]);
    }
  }

  lemma {:induction false} KnownIsReferenced(s: Scan, h: Word)
    requires ScanWf(s) && |s.q| >= SEGMENT_LENGTH && h in s.st.cache && s.st.cache[h] == s.q[|s.q| - SEGMENT_LENGTH..]
    ensures Consider(s, h) == ReferenceLast(s.(cand := None), h)
  {
    hide WindowOk, PutReference;
  }

  /** A known segment is referenced, and a candidate that is less than a segment before it given up. */
  lemma {:induction false} KnownEndsScan(hash: Hasher, s: Scan, b: byte)
    requires ScanWf(s) && s.cand.Some? && |s.q| + 1 < s.cand.value.offset + 2 * SEGMENT_LENGTH && |s.q| >= SEGMENT_LENGTH
    requires var last := (s.q + [b])[|s.q| + 1 - SEGMENT_LENGTH..];
             hash(last) in s.st.cache && s.st.cache[hash(last)] == last
    ensures ScanByte(hash, true, s, b) ==
            ReferenceLast(Scan(s.st, s.q + [b], None), hash((s.q + [b])[|s.q| + 1 - SEGMENT_LENGTH..]))
  {
    hide WindowOk, DeclareCandidate, ReferenceLast, Consider;
    var s' := s.(q := s.q + [b]);
    KnownIsReferenced(s', hash(s'.q[|s'.q| - SEGMENT_LENGTH..]));
  }

  lemma {:induction false} NewInFront(hash: Hasher, cache: Cache, data: Bytes, n: nat)
    requires AllNew(hash, cache, data, n) && data != []
    ensures AllNew(hash, cache, data[..|data| - 1], n)
  {
    var front := data[..|data| - 1];
    forall i: nat | i < n && i + SEGMENT_LENGTH <= |front|
      ensures hash(Stretch(front, i)) !in cache
    {
      assert Stretch(front, i) == Stretch(data, i);
    }
  }
}
