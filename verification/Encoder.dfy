/** What the encoder writes, as a function of the bytes it is given, and why it is right. */
module Encoder {
  import opened Bytes
  import opened Hash
  import opened Window
  import opened Stream

  /** Cache and window of an encoder, with the tokens it has written. */
  datatype State = State(cache: Cache, window: Window, toks: seq<Token>)

  /** A segment of the queue that is unknown so far and may be declared. */
  datatype Candidate = Candidate(offset: nat, symbol: Word)

  /** `q` holds the bytes not yet written, up to and including the last one scanned. */
  datatype Scan = Scan(st: State, q: Bytes, cand: Option<Candidate>)

  // --- Writing -----------------------------------------------------------------------------------

  function EscapeByte(b: byte): Token {
    if b == MAGIC then Escaped else Literal(b)
  }

  /** `encode_escape`, byte by byte. */
  function Escape(s: Bytes): (r: seq<Token>)
    ensures |r| == |s|
  {
    seq(|s|, i requires 0 <= i < |s| => EscapeByte(s[i]))
  }

  function PutEscape(st: State, s: Bytes): State {
    st.(toks := st.toks + Escape(s))
  }

  /** The tail of `encode_reference`: a window index if there is one, else the hash itself. */
  function PutReference(st: State, h: Word, seg: Bytes): (r: State)
    requires WindowOk(st.window)
    ensures WindowOk(r.window)
  {
    if h in st.window.present then
      st.(toks := st.toks + [Backref(st.window.present[h])])
    else
      st.(toks := st.toks + [Ref(h)], window := Declared(st.window, h, seg))
  }

  /** The tail of `encode_declaration`; `stream` is false when segments travel out of band. */
  function PutDeclaration(stream: bool, st: State, h: Word, seg: Bytes): (r: State)
    requires WindowOk(st.window)
    ensures WindowOk(r.window)
  {
    var entered := st.(cache := st.cache[h := seg]);
    if stream then
      entered.(toks := st.toks + [Extract(seg)], window := Declared(st.window, h, seg))
    else
      PutReference(entered, h, seg)
  }

  // --- Scanning ----------------------------------------------------------------------------------

  /** A pending candidate lies within the queue and is not in the cache. */
  ghost predicate ScanWf(s: Scan) {
    && WindowOk(s.st.window)
    && (s.cand.Some? ==>
          s.cand.value.offset + SEGMENT_LENGTH <= |s.q| && s.cand.value.symbol !in s.st.cache)
  }

  /** Writes everything before the candidate, then the candidate. */
  function DeclareCandidate(stream: bool, s: Scan): (r: Scan)
    requires ScanWf(s) && s.cand.Some?
    ensures ScanWf(r) && r.cand.None?
  {
    var c := s.cand.value;
    var seg := s.q[c.offset..c.offset + SEGMENT_LENGTH];
    Scan(PutDeclaration(stream, PutEscape(s.st, s.q[..c.offset]), c.symbol, seg),
         s.q[c.offset + SEGMENT_LENGTH..], None)
  }

  /** Writes the whole queue, its last segment as a reference. */
  function ReferenceLast(s: Scan, h: Word): (r: Scan)
    requires ScanWf(s) && |s.q| >= SEGMENT_LENGTH
    ensures ScanWf(r) && r.cand.None? && r.q == []
  {
    var start := |s.q| - SEGMENT_LENGTH;
    Scan(PutReference(PutEscape(s.st, s.q[..start]), h, s.q[start..]), [], None)
  }

  /** The current segment is known: reference it unless it collides. Unknown: remember the first such. */
  function Consider(s: Scan, h: Word): (r: Scan)
    requires ScanWf(s) && |s.q| >= SEGMENT_LENGTH
    ensures ScanWf(r)
  {
    var start := |s.q| - SEGMENT_LENGTH;
    if h in s.st.cache then
      if s.st.cache[h] == s.q[start..] then ReferenceLast(s, h) else s
    else if s.cand.Some? then
      s
    else
      s.(cand := Some(Candidate(start, h)))
  }

  /** The body of the scan loop once the hash covers a whole segment. */
  function Advance(stream: bool, s: Scan, h: Word): (r: Scan)
    requires ScanWf(s) && |s.q| >= SEGMENT_LENGTH
    ensures ScanWf(r)
  {
    if s.cand.Some? && s.cand.value.offset + SEGMENT_LENGTH <= |s.q| - SEGMENT_LENGTH then
      var c := s.cand.value;
      var d := DeclareCandidate(stream, s);
      if h == c.symbol then
        if s.q[c.offset..c.offset + SEGMENT_LENGTH] == d.q[|d.q| - SEGMENT_LENGTH..] then ReferenceLast(d, h) else d
      else
        Consider(d, h)
    else
      Consider(s, h)
  }

  function ScanByte(hash: Hasher, stream: bool, s: Scan, b: byte): (r: Scan)
    requires ScanWf(s)
    ensures ScanWf(r)
  {
    var s' := s.(q := s.q + [b]);
    if |s'.q| < SEGMENT_LENGTH then s'
    else Advance(stream, s', hash(s'.q[|s'.q| - SEGMENT_LENGTH..]))
  }

  function ScanAll(hash: Hasher, stream: bool, s: Scan, input: Bytes): (r: Scan)
    requires ScanWf(s)
    ensures ScanWf(r)
  {
    if input == [] then s
    else ScanByte(hash, stream, ScanAll(hash, stream, s, input[..|input| - 1]), input[|input| - 1])
  }

  /** At the end of the input: declare what can be declared, escape the rest. */
  function Finish(stream: bool, s: Scan): (r: State)
    requires ScanWf(s)
    ensures WindowOk(r.window)
  {
    var d := if s.cand.Some? then DeclareCandidate(stream, s) else s;
    PutEscape(d.st, d.q)
  }

  function Start(cache: Cache, w: Window): (s: Scan)
    requires WindowOk(w)
    ensures ScanWf(s)
  {
    Scan(State(cache, w, []), [], None)
  }

  /** One call of `XCodecEncoder::encode`, whatever the segmentation of its input. */
  function Encode(hash: Hasher, stream: bool, cache: Cache, w: Window, input: Bytes): (r: State)
    requires WindowOk(w)
    ensures WindowOk(r.window)
  {
    Finish(stream, ScanAll(hash, stream, Start(cache, w), input))
  }

  /** Bytes that cannot complete a segment are only queued. */
  lemma {:induction false} ScanShort(hash: Hasher, stream: bool, s: Scan, input: Bytes)
    requires ScanWf(s) && |s.q| + |input| < SEGMENT_LENGTH
    ensures ScanAll(hash, stream, s, input) == s.(q := s.q + input)
  {
    if input == [] {
      assert s.q + [] == s.q;
    } else {
      ScanShort(hash, stream, s, input[..|input| - 1]);
      assert s.q + input[..|input| - 1] + [input[|input| - 1]] == s.q + input;
    }
  }

  /** The second of two references in a row is a window index if and only if the hash is not 0. */
  lemma {:induction false} IndexedExactly(st: State, h: Word, seg: Bytes)
    requires WindowOk(st.window)
    ensures var first := PutReference(st, h, seg);
            PutReference(first, h, seg).toks ==
            first.toks + [if h != 0 then Backref(first.window.present[h]) else Ref(0)]
  {
    hide Declared;
  }

  // --- Meaning -----------------------------------------------------------------------------------

  /** Where an encoder starts: its mode, window and cache. */
  datatype Origin = Origin(stream: bool, window: Window, cache: Cache)

  ghost predicate OriginOk(hash: Hasher, o: Origin) {
    && WindowOk(o.window)
    && CacheOk(hash, o.cache)
    && WindowFrom(o.window, o.cache)
  }

  /** The tokens written since `o` stand for `data`; cache and window are consistent and the cache only grew. */
  ghost predicate Stands(hash: Hasher, o: Origin, st: State, data: Bytes) {
    && OriginOk(hash, o)
    && WindowOk(st.window)
    && CacheOk(hash, st.cache)
    && WindowFrom(st.window, st.cache)
    && SubCache(o.cache, st.cache)
    && Play(hash, st.toks, o.window, st.cache) == Some(Played(data, st.window))
  }

  /** A stream that carries its own declarations carries all of them, before they are needed. */
  ghost predicate Carries(hash: Hasher, o: Origin, toks: seq<Token>, cache: Cache) {
    o.stream ==> SelfContained(hash, toks, o.cache) && Learned(hash, toks, o.cache) == cache
  }

  ghost predicate Means(hash: Hasher, o: Origin, st: State, data: Bytes) {
    Stands(hash, o, st, data) && Carries(hash, o, st.toks, st.cache)
  }

  lemma {:induction false} EscapePlays(hash: Hasher, s: Bytes, w: Window, cache: Cache)
    requires WindowOk(w)
    ensures Play(hash, Escape(s), w, cache) == Some(Played(s, w))
  {
    hide WindowOk;
    if s == [] {
      assert Escape(s) == [];
    } else {
      assert Escape(s)[0] == EscapeByte(s[0]);
      assert Escape(s)[1..] == Escape(s[1..]);
      EscapePlays(hash, s[1..], w, cache);
      assert [s[0]] + s[1..] == s;
    }
  }

  lemma {:induction false} EscapeCarries(hash: Hasher, o: Origin, toks: seq<Token>, cache: Cache, s: Bytes)
    requires Carries(hash, o, toks, cache)
    ensures Carries(hash, o, toks + Escape(s), cache)
  {
    hide Learned, SelfContained;
    EscapeLearns(hash, s, cache);
    LearnedConcat(hash, toks, Escape(s), o.cache);
    SelfContainedConcat(hash, toks, Escape(s), o.cache);
  }

  lemma {:induction false} EscapeLearns(hash: Hasher, s: Bytes, cache: Cache)
    ensures Learned(hash, Escape(s), cache) == cache && SelfContained(hash, Escape(s), cache)
  {
    if s != [] {
      assert Escape(s)[..|s| - 1] == Escape(s[..|s| - 1]);
      EscapeLearns(hash, s[..|s| - 1], cache);
    }
  }

  lemma {:induction false} AppendCarries(hash: Hasher, o: Origin, toks: seq<Token>, cache: Cache, t: Token)
    requires Carries(hash, o, toks, cache)
    requires t.Ref? ==> t.hash in cache
    ensures Carries(hash, o, toks + [t], if t.Extract? then cache[hash(t.seg) := t.seg] else cache)
  {
    hide Learned, SelfContained;
    LearnedOne(hash, t, cache);
    LearnedConcat(hash, toks, [t], o.cache);
    SelfContainedConcat(hash, toks, [t], o.cache);
  }

  lemma {:induction false} EscapeMeans(hash: Hasher, o: Origin, st: State, data: Bytes, s: Bytes)
    requires Means(hash, o, st, data)
    ensures Means(hash, o, PutEscape(st, s), data + s)
  {
    hide WindowOk, CacheOk, SubCache, Play, Carries;
    PlayConcat(hash, st.toks, Escape(s), o.window, st.cache);
    EscapePlays(hash, s, st.window, st.cache);
    EscapeCarries(hash, o, st.toks, st.cache, s);
  }

  lemma {:induction false} AppendStands(hash: Hasher, o: Origin, st: State, data: Bytes, t: Token)
    requires Stands(hash, o, st, data)
    requires PlayOne(hash, t, st.window, st.cache).Some?
    ensures var p := PlayOne(hash, t, st.window, st.cache).value;
            Play(hash, st.toks + [t], o.window, st.cache) == Some(Played(data + p.out, p.window))
  {
    hide WindowOk, CacheOk, SubCache, Play, PlayOne;
    PlayConcat(hash, st.toks, [t], o.window, st.cache);
    PlaySingle(hash, t, st.window, st.cache);
  }

  lemma {:induction false} ReferenceStands(hash: Hasher, o: Origin, st: State, data: Bytes, h: Word, seg: Bytes)
    requires Stands(hash, o, st, data)
    requires h in st.cache && st.cache[h] == seg
    ensures Stands(hash, o, PutReference(st, h, seg), data + seg)
  {
    hide Play;
    var t := if h in st.window.present then Backref(st.window.present[h]) else Ref(h);
    if h in st.window.present {
      PresentDereferences(st.window, h);
    }
    AppendStands(hash, o, st, data, t);
  }

  lemma {:induction false} ReferenceMeans(hash: Hasher, o: Origin, st: State, data: Bytes, h: Word, seg: Bytes)
    requires Means(hash, o, st, data)
    requires h in st.cache && st.cache[h] == seg
    ensures Means(hash, o, PutReference(st, h, seg), data + seg)
  {
    hide Stands, Carries;
    assert WindowOk(st.window) by { StandsWindow(hash, o, st, data); }
    ReferenceStands(hash, o, st, data, h, seg);
    var t := if h in st.window.present then Backref(st.window.present[h]) else Ref(h);
    AppendCarries(hash, o, st.toks, st.cache, t);
  }

  lemma {:induction false} StandsWindow(hash: Hasher, o: Origin, st: State, data: Bytes)
    requires Stands(hash, o, st, data)
    ensures WindowOk(st.window)
  {
  }

  /** A fresh declaration: the segment becomes known before the token that says so is written. */
  lemma {:induction false} EnterStands(hash: Hasher, o: Origin, st: State, data: Bytes, h: Word, seg: Bytes)
    requires Stands(hash, o, st, data)
    requires |seg| == SEGMENT_LENGTH && h == hash(seg) && h !in st.cache
    ensures Stands(hash, o, st.(cache := st.cache[h := seg]), data)
  {
    hide WindowOk, Play;
    PlayMonotone(hash, st.toks, o.window, st.cache, st.cache[h := seg]);
  }

  lemma {:induction false} ExtractStands(hash: Hasher, o: Origin, st: State, data: Bytes, h: Word, seg: Bytes)
    requires Stands(hash, o, st, data)
    requires |seg| == SEGMENT_LENGTH && h == hash(seg) && h in st.cache && st.cache[h] == seg
    ensures WindowOk(st.window)
    ensures Stands(hash, o, st.(toks := st.toks + [Extract(seg)], window := Declared(st.window, h, seg)), data + seg)
  {
    hide WindowOk, Declared, Play;
    AppendStands(hash, o, st, data, Extract(seg));
  }

  lemma {:induction false} DeclarationMeans(hash: Hasher, o: Origin, st: State, data: Bytes, h: Word, seg: Bytes)
    requires Means(hash, o, st, data)
    requires |seg| == SEGMENT_LENGTH && h == hash(seg) && h !in st.cache
    ensures WindowOk(st.window)
    ensures var r := PutDeclaration(o.stream, st, h, seg);
            && Means(hash, o, r, data + seg)
            && r.cache == st.cache[h := seg]
  {
    hide WindowOk, Declared, Stands, SelfContained, Learned;
    var entered := st.(cache := st.cache[h := seg]);
    StandsWindow(hash, o, st, data);
    EnterStands(hash, o, st, data, h, seg);
    if o.stream {
      ExtractStands(hash, o, entered, data, h, seg);
      AppendCarries(hash, o, st.toks, st.cache, Extract(seg));
    } else {
      ReferenceStands(hash, o, entered, data, h, seg);
    }
  }

  /**
    The loop invariant of the scan: what has been written stands for `sent`, the queue holds the
    rest of the input, and a pending candidate is named by the hash of its segment.
  */
  ghost predicate ScanMeans(hash: Hasher, o: Origin, s: Scan, input: Bytes, sent: Bytes) {
    && ScanWf(s)
    && Means(hash, o, s.st, sent)
    && input == sent + s.q
    && (s.cand.Some? ==>
          var c := s.cand.value;
          c.symbol == hash(s.q[c.offset..c.offset + SEGMENT_LENGTH]))
  }

  lemma {:induction false} DeclareCandidateMeans(hash: Hasher, o: Origin, s: Scan, input: Bytes, sent: Bytes)
    requires ScanMeans(hash, o, s, input, sent) && s.cand.Some?
    ensures var c, d := s.cand.value, DeclareCandidate(o.stream, s);
            var seg := s.q[c.offset..c.offset + SEGMENT_LENGTH];
            && ScanMeans(hash, o, d, input, sent + s.q[..c.offset] + seg)
            && d.st.cache == s.st.cache[c.symbol := seg]
  {
    hide WindowOk, CacheOk, Declared, Play, WindowFrom;
    var c := s.cand.value;
    var seg := s.q[c.offset..c.offset + SEGMENT_LENGTH];
    EscapeMeans(hash, o, s.st, sent, s.q[..c.offset]);
    DeclarationMeans(hash, o, PutEscape(s.st, s.q[..c.offset]), sent + s.q[..c.offset], c.symbol, seg);
    assert s.q == s.q[..c.offset] + seg + s.q[c.offset + SEGMENT_LENGTH..];
  }

  lemma {:induction false} ReferenceLastMeans(hash: Hasher, o: Origin, s: Scan, input: Bytes, sent: Bytes, h: Word)
    requires ScanMeans(hash, o, s, input, sent) && |s.q| >= SEGMENT_LENGTH
    requires h in s.st.cache && s.st.cache[h] == s.q[|s.q| - SEGMENT_LENGTH..]
    ensures ScanMeans(hash, o, ReferenceLast(s, h), input, input)
  {
    hide WindowOk, CacheOk, Declared, Play, WindowFrom;
    var start := |s.q| - SEGMENT_LENGTH;
    EscapeMeans(hash, o, s.st, sent, s.q[..start]);
    ReferenceMeans(hash, o, PutEscape(s.st, s.q[..start]), sent + s.q[..start], h, s.q[start..]);
    assert sent + s.q[..start] + s.q[start..] == input;
  }

  lemma {:induction false} ConsiderMeans(hash: Hasher, o: Origin, s: Scan, input: Bytes, sent: Bytes)
      returns (sent': Bytes)
    requires ScanMeans(hash, o, s, input, sent) && |s.q| >= SEGMENT_LENGTH
    ensures ScanMeans(hash, o, Consider(s, hash(s.q[|s.q| - SEGMENT_LENGTH..])), input, sent')
  {
    hide WindowOk, CacheOk, Declared, Play, WindowFrom, ReferenceLast;
    var start := |s.q| - SEGMENT_LENGTH;
    var h := hash(s.q[start..]);
    sent' := sent;
    if h in s.st.cache && s.st.cache[h] == s.q[start..] {
      ReferenceLastMeans(hash, o, s, input, sent, h);
      sent' := input;
    } else {
      assert s.q[start..start + SEGMENT_LENGTH] == s.q[start..];
    }
  }

  lemma {:induction false} AdvanceMeans(hash: Hasher, o: Origin, s: Scan, input: Bytes, sent: Bytes)
      returns (sent': Bytes)
    requires ScanMeans(hash, o, s, input, sent) && |s.q| >= SEGMENT_LENGTH
    ensures ScanMeans(hash, o, Advance(o.stream, s, hash(s.q[|s.q| - SEGMENT_LENGTH..])), input, sent')
  {
    hide WindowOk, CacheOk, Declared, Play, WindowFrom, ReferenceLast, Consider, Means;
    var h := hash(s.q[|s.q| - SEGMENT_LENGTH..]);
    if s.cand.Some? && s.cand.value.offset + SEGMENT_LENGTH <= |s.q| - SEGMENT_LENGTH {
      var c := s.cand.value;
      var seg := s.q[c.offset..c.offset + SEGMENT_LENGTH];
      var d := DeclareCandidate(o.stream, s);
      DeclareCandidateMeans(hash, o, s, input, sent);
      sent' := sent + s.q[..c.offset] + seg;
      assert d.q[|d.q| - SEGMENT_LENGTH..] == s.q[|s.q| - SEGMENT_LENGTH..];
      if h == c.symbol {
        if seg == d.q[|d.q| - SEGMENT_LENGTH..] {
          ReferenceLastMeans(hash, o, d, input, sent', h);
          sent' := input;
        }
      } else {
        sent' := ConsiderMeans(hash, o, d, input, sent');
      }
    } else {
      sent' := ConsiderMeans(hash, o, s, input, sent);
    }
  }

  lemma {:induction false} ScanByteMeans(hash: Hasher, o: Origin, s: Scan, input: Bytes, sent: Bytes, b: byte)
      returns (sent': Bytes)
    requires ScanMeans(hash, o, s, input, sent)
    ensures ScanMeans(hash, o, ScanByte(hash, o.stream, s, b), input + [b], sent')
  {
    hide WindowOk, Means, SubCache, Advance;
    var s' := s.(q := s.q + [b]);
    assert input + [b] == sent + s'.q;
    if s.cand.Some? {
      var c := s.cand.value;
      assert s'.q[c.offset..c.offset + SEGMENT_LENGTH] == s.q[c.offset..c.offset + SEGMENT_LENGTH];
    }
    assert ScanMeans(hash, o, s', input + [b], sent);
    sent' := sent;
    if |s'.q| >= SEGMENT_LENGTH {
      sent' := AdvanceMeans(hash, o, s', input + [b], sent);
    }
  }

  lemma {:induction false} ScanAllMeans(hash: Hasher, o: Origin, input: Bytes)
      returns (sent: Bytes)
    requires OriginOk(hash, o)
    ensures ScanMeans(hash, o, ScanAll(hash, o.stream, Start(o.cache, o.window), input), input, sent)
  {
    hide WindowOk, CacheOk, WindowFrom, ScanByte;
    if input == [] {
      sent := [];
      assert input == [] + [];
    } else {
      var init, b := input[..|input| - 1], input[|input| - 1];
      assert input == init + [b];
      sent := ScanAllMeans(hash, o, init);
      sent := ScanByteMeans(hash, o, ScanAll(hash, o.stream, Start(o.cache, o.window), init), init, sent, b);
    }
  }

  /**
    One call of `encode` writes a stream that stands for exactly its input, whatever the hash
    function; the cache only grows and stays consistent with the window.
  */
  lemma {:induction false} EncodeMeans(hash: Hasher, o: Origin, input: Bytes)
    requires OriginOk(hash, o)
    ensures Means(hash, o, Encode(hash, o.stream, o.cache, o.window, input), input)
  {
    hide WindowOk, Means, ScanAll;
    var sent := ScanAllMeans(hash, o, input);
    var s := ScanAll(hash, o.stream, Start(o.cache, o.window), input);
    if s.cand.Some? {
      var c := s.cand.value;
      DeclareCandidateMeans(hash, o, s, input, sent);
      sent := sent + s.q[..c.offset] + s.q[c.offset..c.offset + SEGMENT_LENGTH];
    }
    var d := if s.cand.Some? then DeclareCandidate(o.stream, s) else s;
    EscapeMeans(hash, o, d.st, sent, d.q);
  }

  // --- Any number of calls -------------------------------------------------------------------------

  function Concat(parts: seq<Bytes>): Bytes {
    if parts == [] then [] else Concat(parts[..|parts| - 1]) + parts[|parts| - 1]
  }

  /** A sequence of `encode` calls on one encoder. */
  function EncodeCalls(hash: Hasher, o: Origin, inputs: seq<Bytes>): (r: State)
    requires WindowOk(o.window)
    ensures WindowOk(r.window)
  {
    if inputs == [] then State(o.cache, o.window, [])
    else
      var before := EncodeCalls(hash, o, inputs[..|inputs| - 1]);
      var last := Encode(hash, o.stream, before.cache, before.window, inputs[|inputs| - 1]);
      last.(toks := before.toks + last.toks)
  }

  /** Two runs in a row, the second from where the first ended. */
  lemma {:induction false} MeansConcat(hash: Hasher, o: Origin, a: State, da: Bytes, b: State, db: Bytes)
    requires Means(hash, o, a, da)
    requires Means(hash, Origin(o.stream, a.window, a.cache), b, db)
    ensures Means(hash, o, b.(toks := a.toks + b.toks), da + db)
  {
    hide WindowOk, CacheOk, Play, SelfContained, Learned;
    PlayMonotone(hash, a.toks, o.window, a.cache, b.cache);
    PlayConcat(hash, a.toks, b.toks, o.window, b.cache);
    LearnedConcat(hash, a.toks, b.toks, o.cache);
    SelfContainedConcat(hash, a.toks, b.toks, o.cache);
  }

  lemma {:induction false} EncodeCallsMean(hash: Hasher, o: Origin, inputs: seq<Bytes>)
    requires OriginOk(hash, o)
    ensures Means(hash, o, EncodeCalls(hash, o, inputs), Concat(inputs))
  {
    hide CacheOk, WindowOk, Encode;
    if inputs != [] {
      var init := inputs[..|inputs| - 1];
      EncodeCallsMean(hash, o, init);
      var before := EncodeCalls(hash, o, init);
      var next := Origin(o.stream, before.window, before.cache);
      EncodeMeans(hash, next, inputs[|inputs| - 1]);
      MeansConcat(hash, o, before, Concat(init),
                  Encode(hash, o.stream, before.cache, before.window, inputs[|inputs| - 1]), inputs[|inputs| - 1]);
    }
  }
}
