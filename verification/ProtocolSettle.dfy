/** Acknowledging, waiting or decoding after a message keeps the invariant of the protocol. */
module ProtocolSettle {
  import opened Bytes
  import opened Window
  import opened Stream
  import opened Decoder
  import opened Pipe
  import opened PipeParse
  import opened Protocol
  import opened ProtocolTake

  // --- Pushing a message of one's own ---------------------------------------------------------------------

  lemma {:induction false} PushAsked(hash: Hasher, cache: Cache, unknown: set<Word>, l: Link, back: seq<Message>, m: Message)
    requires Asked(hash, cache, unknown, l, back) && !m.Learn?
    ensures Asked(hash, cache, unknown, l.(msgs := l.msgs + [m]), back)
  {
    TaughtConcat(hash, l.msgs, [m]);
    assert [m][1..] == [];
    assert TaughtIn(hash, l.msgs) + [] == TaughtIn(hash, l.msgs);
    var msgs := l.msgs + [m];
    forall i | 0 <= i < |msgs| && msgs[i].Learn?
      ensures hash(msgs[i].seg) in cache && cache[hash(msgs[i].seg)] == msgs[i].seg
    {
      assert i < |l.msgs| && msgs[i] == l.msgs[i];
    }
  }

  lemma {:induction false} PushBack(hash: Hasher, cache: Cache, unknown: set<Word>, l: Link, back: seq<Message>, m: Message)
    requires Asked(hash, cache, unknown, l, back) && !m.Ask?
    ensures Asked(hash, cache, unknown, l, back + [m])
  {
    AskedConcat(back, [m]);
    assert [m][1..] == [];
    assert AskedIn(back) + [] == AskedIn(back);
  }

  // --- Acknowledging ----------------------------------------------------------------------------------------

  lemma {:induction false} AckKeeps(w: World, s: System, f: Link, g: Link)
    requires Working(w, s, f, g)
    requires s.a.frame == [] && s.a.receivedEos && !s.a.sentEosAck
    ensures Working(w, s.(a := s.a.(sentEosAck := true), ab := s.ab + PutMessage(EosAck)), f.(msgs := f.msgs + [EosAck]), g)
  {
    hide WindowOk, PutMessage, Follows, Queued, Written, ReadSoFar, Wants, Settled, Asked, Holds, See;
    PushQueued(s.b.buffer, s.ab, f.msgs, EosAck);
    HoldsPush(s.b.frame, f, EosAck);
    PushAsked(w.hash, s.a.codecCache, s.b.unknown, f, g.msgs, EosAck);
    PushBack(w.hash, s.b.codecCache, s.a.unknown, g, f.msgs, EosAck);
    SeeLast(SeenBy(s.b), f.msgs, EosAck, s.a.uuid);
  }

  // --- Decoding -----------------------------------------------------------------------------------------------

  lemma {:induction false} PlayOneOut(hash: Hasher, t: Token, w: Window, cache: Cache)
    requires WindowOk(w) && CacheOk(hash, cache) && WindowFrom(w, cache)
    requires PlayOne(hash, t, w, cache).Some?
    ensures var p := PlayOne(hash, t, w, cache).value;
            p.out != [] && WindowFrom(p.window, cache)
  {
  }

  /** Every token stands for some data, and windows stay consistent with the cache. */
  lemma {:induction false} PlayOut(hash: Hasher, ts: seq<Token>, w: Window, cache: Cache)
    requires WindowOk(w) && CacheOk(hash, cache) && WindowFrom(w, cache)
    requires Play(hash, ts, w, cache).Some?
    ensures var p := Play(hash, ts, w, cache).value;
            (ts != [] ==> p.out != []) && WindowFrom(p.window, cache)
  {
    hide WindowOk, CacheOk, WindowFrom, PlayOne;
    if ts != [] {
      PlayOneOut(hash, ts[0], w, cache);
      PlayOut(hash, ts[1..], PlayOne(hash, ts[0], w, cache).value.window, cache);
    }
  }

  /** Where the decoder of A stands after `d`, in terms of B's token stream. */
  ghost predicate Progress(w: World, b: Endpoint, g: Link, output: Bytes, d: Decoded, k: nat) {
    && d.ok
    && WindowOk(d.window)
    && ReadSoFar(w.hash, b.codecCache, Some(Reader(b.uuid, d.window)), g.toks, k, output + d.out)
    && SubCache(d.cache, b.codecCache)
    && Holds(d.rest, g.(k := k))
    && (d.ask.Some? ==> Wants({d.ask.value}, d.rest, g.toks, k))
    && (d.ask.None? ==> Settled({}, d.rest, g.toks, k))
    && (d.out == [] ==> d.rest != [])
  }

  lemma {:induction false} DecodeProgress(w: World, s: System, f: Link, g: Link) returns (k: nat)
    requires Working(w, s, f, g) && s.a.frame != []
    ensures Progress(w, s.b, g, s.outA, DecodeOutcome(s.a, w.hash), k)
  {
    hide WindowOk, Asked, Queued, See, CacheOk, SubCache, Decode, Play, PutAll, Learned, Put, Settled, Wants;
    var cache, reader := s.b.codecCache, s.a.decoder.value;
    var rest := g.toks[g.k..];
    PlayPrefix(w.hash, g.toks, g.k, EmptyWindow(), cache);
    assert s.a.frame <= PutAll(rest);
    var j := DecodeReads(w.hash, rest, reader.window, cache, s.a.registry[reader.uuid], s.a.frame);
    k := g.k + j;
    ProgressFrom(w, s, f, g, j);
  }

  lemma {:induction false} ProgressFrom(w: World, s: System, f: Link, g: Link, j: nat)
    requires Working(w, s, f, g) && s.a.frame != []
    requires Reads(w.hash, g.toks[g.k..], s.a.decoder.value.window, s.b.codecCache, s.a.registry[s.a.decoder.value.uuid],
                   s.a.frame, DecodeOutcome(s.a, w.hash), j)
    ensures Progress(w, s.b, g, s.outA, DecodeOutcome(s.a, w.hash), g.k + j)
  {
    hide WindowOk, Asked, Queued, See, CacheOk, SubCache, DecodeOutcome, Play, PutAll, Learned, Put, Wants, Follows, Written;
    var d := DecodeOutcome(s.a, w.hash);
    var k := g.k + j;
    var rest := g.toks[g.k..];
    JoinRead(w, s.b.codecCache, g.toks, g.k, j, s.outA, d.out, s.a.decoder.value.window, d.window);
    JoinHeld(g, s.a.frame, d.rest, j);
    assert k < |g.toks| ==> rest[j] == g.toks[k];
    if d.ask.Some? {
      AskWants(d.ask.value, d.rest, g.toks, k);
    }
    if d.rest == [] {
      OutFrom(w, s, f, g, j);
    }
  }

  lemma {:induction false} AskWants(h: Word, rest: Bytes, toks: seq<Token>, k: nat)
    requires k < |toks| && toks[k] == Ref(h) && Put(toks[k]) <= rest
    ensures Wants({h}, rest, toks, k)
  {
  }

  lemma {:induction false} JoinRead(w: World, cache: Cache, toks: seq<Token>, k: nat, j: nat, before: Bytes, out: Bytes, win: Window, win': Window)
    requires k + j <= |toks| && WindowOk(win)
    requires Play(w.hash, toks[..k], EmptyWindow(), cache) == Some(Played(before, win))
    requires Play(w.hash, toks[k..][..j], win, cache) == Some(Played(out, win'))
    ensures Play(w.hash, toks[..k + j], EmptyWindow(), cache) == Some(Played(before + out, win'))
  {
    hide WindowOk, Play;
    PlayConcat(w.hash, toks[..k], toks[k..][..j], EmptyWindow(), cache);
    assert toks[..k + j] == toks[..k] + toks[k..][..j];
  }

  lemma {:induction false} JoinHeld(g: Link, frame: Bytes, rest: Bytes, j: nat)
    requires Holds(frame, g) && g.k + j <= |g.toks|
    requires frame == PutAll(g.toks[g.k..][..j]) + rest
    ensures Holds(rest, g.(k := g.k + j))
  {
    hide PutAll, FrameData;
    var tail := g.toks[g.k..];
    var read := PutAll(tail[..j]);
    assert tail == tail[..j] + tail[j..];
    PutAllConcat(tail[..j], tail[j..]);
    assert tail[j..] == g.toks[g.k + j..];
    var all := PutAll(tail);
    assert all == read + PutAll(tail[j..]);
    assert all == read + (rest + FrameData(g.msgs));
    assert all[|read|..] == PutAll(tail[j..]);
    assert all[|read|..] == rest + FrameData(g.msgs);
  }

  /** A frame buffer that has been used up has given some output. */
  lemma {:induction false} OutFrom(w: World, s: System, f: Link, g: Link, j: nat)
    requires Working(w, s, f, g) && s.a.frame != []
    requires Reads(w.hash, g.toks[g.k..], s.a.decoder.value.window, s.b.codecCache, s.a.registry[s.a.decoder.value.uuid],
                   s.a.frame, DecodeOutcome(s.a, w.hash), j)
    requires DecodeOutcome(s.a, w.hash).rest == []
    ensures DecodeOutcome(s.a, w.hash).out != []
  {
    hide WindowOk, Asked, Queued, See, CacheOk, DecodeOutcome, Play, PutAll, Learned, Put, Wants, Follows, Settled, WindowFrom, EmptyWindow;
    var read := g.toks[g.k..][..j];
    PutAllNonEmpty(read);
    EmptyFrom(s.b.codecCache);
    PlayOut(w.hash, g.toks[..g.k], EmptyWindow(), s.b.codecCache);
    PlayOut(w.hash, read, s.a.decoder.value.window, s.b.codecCache);
  }

  lemma {:induction false} EmptyFrom(cache: Cache)
    ensures WindowFrom(EmptyWindow(), cache)
  {
  }

  // --- The end and the system after decoding ----------------------------------------------------------------------

  function AfterDecode(w: World, s: System): System
    requires EndpointOk(s.a) && s.a.frame != []
  {
    var d := DecodeOutcome(s.a, w.hash);
    s.(a := Absorb(s.a, d),
       ab := s.ab + (if d.ask.Some? then PutMessage(Ask(d.ask.value)) else []),
       outA := s.outA + d.out)
  }

  function AskLink(f: Link, d: Decoded): Link {
    if d.ask.Some? then f.(msgs := f.msgs + [Ask(d.ask.value)]) else f
  }

  lemma {:induction false} AbsorbFollows(ep: Endpoint, d: Decoded, uuid: Bytes, cache: Cache)
    requires EndpointOk(ep) && ep.decoder.Some? && WindowOk(d.window)
    requires Follows(ep.registry, ep.decoder, uuid, cache) && SubCache(d.cache, cache)
    ensures var ep' := Absorb(ep, d); Follows(ep'.registry, ep'.decoder, uuid, cache)
  {
    hide WindowOk;
  }

  lemma {:induction false} AbsorbAsked(hash: Hasher, cache: Cache, g: Link, d: Decoded, k: nat, back: seq<Message>)
    requires Asked(hash, cache, {}, g, back)
    requires d.ask.Some? ==> Wants({d.ask.value}, d.rest, g.toks, k)
    ensures Asked(hash, cache, if d.ask.Some? then {d.ask.value} else {}, g.(k := k), AskLink(Link([], 0, back), d).msgs)
  {
    if d.ask.Some? {
      var h := d.ask.value;
      assert h in {h};
      assert {h} == {g.toks[k].hash};
      assert g.toks[k].hash == h;
      AskedConcat(back, [Ask(h)]);
      assert [Ask(h)][1..] == [];
    }
  }

  /** The direction from B: more of its tokens are decoded. */
  lemma {:induction false} DecodedReads(w: World, s: System, f: Link, g: Link, k: nat)
    requires Working(w, s, f, g) && s.a.frame != [] && s.a.unknown == {}
    requires Progress(w, s.b, g, s.outA, DecodeOutcome(s.a, w.hash), k)
    ensures var d := DecodeOutcome(s.a, w.hash);
            && LinkOk(w, s.b, Absorb(s.a, d), s.ba, s.inB, s.outA + d.out, g.(k := k), AskLink(f, d).msgs)
            && Settled(Absorb(s.a, d).unknown, Absorb(s.a, d).frame, g.toks, k)
  {
    hide WindowOk, Asked, Queued, See, CacheOk, SubCache, DecodeOutcome, Written, Play, Follows, Holds, PutAll, Put;
    var d := DecodeOutcome(s.a, w.hash);
    assert {} + (if d.ask.Some? then {d.ask.value} else {}) == Absorb(s.a, d).unknown;
    AbsorbFollows(s.a, d, s.b.uuid, s.b.codecCache);
    AbsorbAsked(w.hash, s.b.codecCache, g, d, k, f.msgs);
    assert SeenBy(Absorb(s.a, d)) == SeenBy(s.a);
    var ep, l := Absorb(s.a, d), g.(k := k);
    assert AskLink(f, d).msgs == AskLink(Link([], 0, f.msgs), d).msgs;
    assert Wants(ep.unknown, ep.frame, l.toks, l.k);
    assert Asked(w.hash, s.b.codecCache, ep.unknown, l, AskLink(f, d).msgs);
    assert Ends(ep);
  }

  /** The direction to B: perhaps one more question. */
  lemma {:induction false} DecodedWrites(w: World, s: System, f: Link, g: Link, k: nat)
    requires Working(w, s, f, g) && s.a.frame != []
    requires Progress(w, s.b, g, s.outA, DecodeOutcome(s.a, w.hash), k)
    ensures var d := DecodeOutcome(s.a, w.hash);
            LinkOk(w, Absorb(s.a, d), s.b, AfterDecode(w, s).ab, s.inA, s.outB, AskLink(f, d), g.(k := k).msgs)
  {
    hide WindowOk, Asked, Queued, See, DecodeOutcome, Written, ReadSoFar, Follows, Holds, PutMessage, Progress, Wants;
    var d := DecodeOutcome(s.a, w.hash);
    if d.ask.Some? {
      var m := Ask(d.ask.value);
      PushQueued(s.b.buffer, s.ab, f.msgs, m);
      HoldsPush(s.b.frame, f, m);
      PushAsked(w.hash, s.a.codecCache, s.b.unknown, f, g.msgs, m);
      SeeLast(SeenBy(s.b), f.msgs, m, s.a.uuid);
    } else {
      assert s.ab + [] == s.ab;
    }
  }

  lemma {:induction false} DecodeKeeps(w: World, s: System, f: Link, g: Link) returns (k: nat)
    requires Working(w, s, f, g) && s.a.frame != [] && s.a.unknown == {}
    ensures var d := DecodeOutcome(s.a, w.hash);
            && Progress(w, s.b, g, s.outA, d, k)
            && Working(w, AfterDecode(w, s), AskLink(f, d), g.(k := k))
            && Settled(AfterDecode(w, s).a.unknown, AfterDecode(w, s).a.frame, g.toks, k)
  {
    hide WindowOk, LinkOk, DecodeOutcome, Absorb, Progress, Settled;
    k := DecodeProgress(w, s, f, g);
    DecodedReads(w, s, f, g, k);
    DecodedWrites(w, s, f, g, k);
    var d := DecodeOutcome(s.a, w.hash);
    assert g.(k := k).toks == g.toks && AskLink(f, d).toks == f.toks && AskLink(f, d).k == f.k;
  }
}
