/** Runs of the whole system: safety, shutdown and the discipline of questions and answers. */
module ProtocolRun {
  import opened Bytes
  import opened Window
  import opened Stream
  import opened Encoder
  import opened Pipe
  import opened PipeParse
  import opened Protocol
  import opened ProtocolTake
  import opened ProtocolSettle
  import opened ProtocolCall

  // --- Steps ------------------------------------------------------------------------------------------------

  /**
    What may happen next at A. `Grow` and `Hear` are other streams at work: A's encoder cache
    gains segments, and A learns more of what B's encoder cache already holds.
  */
  datatype Event =
    | Data(buf: Bytes)
    | End
    | Deliver(n: nat)
    | PeerClosed
    | Grow(cache: Cache)
    | Hear(registry: map<Bytes, Cache>)

  ghost predicate Enabled(w: World, s: System, e: Event) {
    match e
    case Data(buf) => buf != [] && !s.a.sentEos
    case End => !s.a.sentEos
    case Deliver(n) => 0 < n <= |s.ba|
    case PeerClosed => s.ba == [] && s.b.closed
    case Grow(cache) => CacheOk(w.hash, cache) && SubCache(s.a.codecCache, cache)
    case Hear(registry) =>
      && s.a.registry.Keys <= registry.Keys
      && SubCache(PeerCache(registry, s.b.uuid), s.b.codecCache)
  }

  /** The effect of an event at A. */
  function Do(w: World, s: System, e: Event): System
    requires EndpointOk(s.a) && Enabled(w, s, e)
  {
    match e
    case Data(buf) => At(s.(inA := s.inA + buf), EncoderConsume(w, s.a, buf))
    case End => At(s, EncoderConsume(w, s.a, []))
    case Deliver(n) => At(s.(ba := s.ba[n..]), DecoderConsume(w, s.a, s.ba[..n]))
    case PeerClosed => At(s, DecoderConsume(w, s.a, []))
    case Grow(cache) => s.(a := s.a.(codecCache := cache))
    case Hear(registry) => s.(a := s.a.(registry := registry))
  }

  function Swap(s: System): System {
    System(s.b, s.a, s.ba, s.ab, s.inB, s.inA, s.outB, s.outA, s.failed)
  }

  ghost predicate Step(w: World, s: System, s': System) {
    && EndpointOk(s.a) && EndpointOk(s.b)
    && ((exists e :: Enabled(w, s, e) && s' == Do(w, s, e))
        || (exists e :: Enabled(w, Swap(s), e) && Swap(s') == Do(w, Swap(s), e)))
  }

  ghost predicate FreshEnd(w: World, ep: Endpoint) {
    && |ep.uuid| == UUID_SIZE && w.parses(ep.uuid) && w.encodes(ep.uuid)
    && CacheOk(w.hash, ep.codecCache)
    && ep.encoder.None? && ep.decoder.None?
    && ep.unknown == {} && ep.buffer == [] && ep.frame == []
    && !ep.receivedEos && !ep.receivedEosAck && !ep.sentEosOut
    && !ep.sentEos && !ep.sentEosAck && !ep.closed
  }

  /** Two new ends; what either remembers of the other's cache from earlier streams is true. */
  ghost predicate Init(w: World, s: System) {
    && FreshEnd(w, s.a) && FreshEnd(w, s.b)
    && SubCache(PeerCache(s.a.registry, s.b.uuid), s.b.codecCache)
    && SubCache(PeerCache(s.b.registry, s.a.uuid), s.a.codecCache)
    && s.ab == [] && s.ba == [] && s.inA == [] && s.inB == [] && s.outA == [] && s.outB == []
    && !s.failed
  }

  ghost predicate IsRun(w: World, ss: seq<System>) {
    && ss != []
    && Init(w, ss[0])
    && forall i :: 0 <= i < |ss| - 1 ==> Step(w, ss[i], ss[i + 1])
  }

  // --- The invariant --------------------------------------------------------------------------------------------

  ghost predicate Inv(w: World, s: System, f: Link, g: Link) {
    && Working(w, s, f, g)
    && Settled(s.a.unknown, s.a.frame, g.toks, g.k)
    && Drained(s.a.buffer, g.msgs)
    && Drained(s.b.buffer, f.msgs)
    && Concluded(s.a) && Concluded(s.b)
  }

  lemma {:induction false} InvSwap(w: World, s: System, f: Link, g: Link)
    requires Inv(w, s, f, g)
    ensures Inv(w, Swap(s), g, f)
  {
    hide LinkOk, WindowOk, Settled, Drained, EndpointOk;
  }

  lemma {:induction false} InitInv(w: World, s: System)
    requires Init(w, s)
    ensures Inv(w, s, Link([], 0, []), Link([], 0, []))
  {
    hide WindowOk, EmptyWindow;
    EmptyFrom(s.a.codecCache);
    EmptyFrom(s.b.codecCache);
    var l := Link([], 0, []);
    assert l.toks[..0] == [] && l.toks[0..] == [];
  }

  // --- Other streams ------------------------------------------------------------------------------------------------

  lemma {:induction false} GrowAsked(hash: Hasher, cache: Cache, cache': Cache, unknown: set<Word>, l: Link, back: seq<Message>)
    requires Asked(hash, cache, unknown, l, back) && SubCache(cache, cache')
    ensures Asked(hash, cache', unknown, l, back)
  {
  }

  lemma {:induction false} SubTrans(a: Cache, b: Cache, c: Cache)
    requires SubCache(a, b) && SubCache(b, c)
    ensures SubCache(a, c)
  {
  }

  lemma {:induction false} GrowLink(w: World, x: Endpoint, cache: Cache, y: Endpoint, chan: Bytes, input: Bytes, output: Bytes, l: Link, back: seq<Message>)
    requires LinkOk(w, x, y, chan, input, output, l, back)
    requires CacheOk(w.hash, cache) && SubCache(x.codecCache, cache)
    ensures LinkOk(w, x.(codecCache := cache), y, chan, input, output, l, back)
  {
    hide WindowOk, Queued, Holds, Wants, Asked, See, Play, Ends, CacheOk, SubCache, EmptyWindow;
    GrowAsked(w.hash, x.codecCache, cache, y.unknown, l, back);
    PlayMonotone(w.hash, l.toks, EmptyWindow(), x.codecCache, cache);
    PlayMonotone(w.hash, l.toks[..l.k], EmptyWindow(), x.codecCache, cache);
    SubTrans(WriterWindow(x.encoder).segments, x.codecCache, cache);
    SubTrans(PeerCache(y.registry, x.uuid), x.codecCache, cache);
  }

  lemma {:induction false} GrowKeeps(w: World, s: System, f: Link, g: Link, cache: Cache)
    requires Inv(w, s, f, g) && CacheOk(w.hash, cache) && SubCache(s.a.codecCache, cache)
    ensures Inv(w, s.(a := s.a.(codecCache := cache)), f, g)
  {
    hide WindowOk, Written, ReadSoFar, Follows, Queued, Holds, Wants, Asked, See, CacheOk, SubCache, Settled, Drained;
    GrowLink(w, s.a, cache, s.b, s.ab, s.inA, s.outB, f, g.msgs);
  }

  lemma {:induction false} HearKeeps(w: World, s: System, f: Link, g: Link, registry: map<Bytes, Cache>)
    requires Inv(w, s, f, g) && s.a.registry.Keys <= registry.Keys
    requires SubCache(PeerCache(registry, s.b.uuid), s.b.codecCache)
    ensures Inv(w, s.(a := s.a.(registry := registry)), f, g)
  {
    hide WindowOk, Written, ReadSoFar, Queued, Holds, Wants, Asked, See, CacheOk, SubCache, Settled, Drained, PeerCache;
  }

  // --- The encoder ----------------------------------------------------------------------------------------------------

  lemma {:induction false} PushAll(hash: Hasher, cache: Cache, unknown: set<Word>, l: Link, back: seq<Message>, ms: seq<Message>)
    requires Asked(hash, cache, unknown, l, back)
    requires forall i :: 0 <= i < |ms| ==> !ms[i].Ask? && !ms[i].Learn?
    ensures Asked(hash, cache, unknown, l.(msgs := l.msgs + ms), back)
  {
    TaughtConcat(hash, l.msgs, ms);
    NothingAsked(hash, ms);
    assert TaughtIn(hash, l.msgs) + [] == TaughtIn(hash, l.msgs);
    var msgs := l.msgs + ms;
    forall i | 0 <= i < |msgs| && msgs[i].Learn?
      ensures hash(msgs[i].seg) in cache && cache[hash(msgs[i].seg)] == msgs[i].seg
    {
      assert msgs[i] == l.msgs[i];
    }
  }

  lemma {:induction false} PushAllBack(hash: Hasher, cache: Cache, unknown: set<Word>, l: Link, back: seq<Message>, ms: seq<Message>)
    requires Asked(hash, cache, unknown, l, back)
    requires forall i :: 0 <= i < |ms| ==> !ms[i].Ask? && !ms[i].Learn?
    ensures Asked(hash, cache, unknown, l, back + ms)
  {
    AskedConcat(back, ms);
    NothingAsked(hash, ms);
    assert AskedIn(back) + [] == AskedIn(back);
  }

  lemma {:induction false} PushAllQueued(buffer: Bytes, chan: Bytes, msgs: seq<Message>, ms: seq<Message>)
    requires Queued(buffer, chan, msgs) && forall i :: 0 <= i < |ms| ==> MessageOk(ms[i])
    ensures Queued(buffer, chan + PutMessages(ms), msgs + ms)
  {
    hide PutMessages, MessageOk;
    PutMessagesConcat(msgs, ms);
    assert buffer + (chan + PutMessages(ms)) == buffer + chan + PutMessages(ms);
  }

  /** What one call of `encoder_consume` writes, as messages. */
  function Announce(ep: Endpoint, ms: seq<Message>): seq<Message> {
    (if ep.encoder.None? then [Hello(ep.uuid)] else []) + ms
  }

  lemma {:induction false} AnnounceBytes(ep: Endpoint, ms: seq<Message>)
    ensures (if ep.encoder.None? then PutMessage(Hello(ep.uuid)) else []) + PutMessages(ms) == PutMessages(Announce(ep, ms))
    ensures FrameData(Announce(ep, ms)) == FrameData(ms)
  {
    hide PutMessage;
    if ep.encoder.None? {
      PutMessagesConcat([Hello(ep.uuid)], ms);
      PutMessagesOne(Hello(ep.uuid));
      FrameDataConcat([Hello(ep.uuid)], ms);
      assert FrameData([Hello(ep.uuid)]) == [];
      assert [] + FrameData(ms) == FrameData(ms);
    } else {
      assert [] + ms == ms && [] + PutMessages(ms) == PutMessages(ms);
    }
  }

  lemma {:induction false} AnnounceSeen(seen: Seen, msgs: seq<Message>, ep: Endpoint, ms: seq<Message>, end: Seen)
    requires See(seen, msgs, ep.uuid) == Some(SentBy(ep))
    requires See(SentBy(ep).(hello := true), ms, ep.uuid) == Some(end)
    ensures See(seen, msgs + Announce(ep, ms), ep.uuid) == Some(end)
  {
    SeeConcat(seen, msgs, Announce(ep, ms), ep.uuid);
    if ep.encoder.None? {
      assert Announce(ep, ms)[0] == Hello(ep.uuid) && Announce(ep, ms)[1..] == ms;
    } else {
      assert Announce(ep, ms) == ms;
    }
  }

  /** The token stream grows at its end; the reader's part of it stays as it was. */
  lemma {:induction false} ExtendToks(hash: Hasher, cache: Cache, decoder: Option<Reader>, frame: Bytes, unknown: set<Word>, l: Link, back: seq<Message>, more: seq<Token>, ms: seq<Message>, output: Bytes)
    requires ReadSoFar(hash, cache, decoder, l.toks, l.k, output)
    requires Holds(frame, l) && FrameData(ms) == PutAll(more)
    requires Wants(unknown, frame, l.toks, l.k) && Settled(unknown, frame, l.toks, l.k)
    requires Asked(hash, cache, unknown, l, back)
    requires forall i :: 0 <= i < |ms| ==> !ms[i].Ask? && !ms[i].Learn?
    ensures var l' := l.(toks := l.toks + more, msgs := l.msgs + ms);
            && ReadSoFar(hash, cache, decoder, l'.toks, l.k, output)
            && Holds(frame, l')
            && Wants(unknown, frame, l'.toks, l.k) && Settled(unknown, frame, l'.toks, l.k)
            && Asked(hash, cache, unknown, l', back)
  {
    hide WindowOk, Play, Put, EmptyWindow;
    ExtendHeld(frame, l, more, ms);
    PushAll(hash, cache, unknown, l, back, ms);
    hide Holds, PutAll, TaughtIn, AskedIn, FrameData;
    var toks := l.toks + more;
    assert toks[..l.k] == l.toks[..l.k];
    assert l.k < |l.toks| ==> toks[l.k] == l.toks[l.k];
    ExtendAsked(hash, cache, unknown, frame, l.(msgs := l.msgs + ms), back, more);
    hide Asked;
  }

  lemma {:induction false} ExtendHeld(frame: Bytes, l: Link, more: seq<Token>, ms: seq<Message>)
    requires Holds(frame, l) && FrameData(ms) == PutAll(more)
    ensures Holds(frame, l.(toks := l.toks + more, msgs := l.msgs + ms))
  {
    hide PutAll, FrameData;
    assert (l.toks + more)[l.k..] == l.toks[l.k..] + more;
    PutAllConcat(l.toks[l.k..], more);
    FrameDataConcat(l.msgs, ms);
    assert frame + (FrameData(l.msgs) + FrameData(ms)) == frame + FrameData(l.msgs) + FrameData(ms);
  }

  lemma {:induction false} ExtendAsked(hash: Hasher, cache: Cache, unknown: set<Word>, frame: Bytes, l: Link, back: seq<Message>, more: seq<Token>)
    requires Asked(hash, cache, unknown, l, back) && Wants(unknown, frame, l.toks, l.k)
    ensures Asked(hash, cache, unknown, l.(toks := l.toks + more), back)
  {
    hide AskedIn, TaughtIn, Put;
  }

  /** The encoder's new tokens stand for the new data. */
  lemma {:induction false} EncodeWrites(w: World, ep: Endpoint, toks: seq<Token>, input: Bytes, buf: Bytes)
    requires EndpointOk(ep) && Written(w.hash, ep.codecCache, ep.encoder, toks, input)
    ensures var st := Encode(w.hash, true, ep.codecCache, WriterWindow(ep.encoder), buf);
            && Written(w.hash, st.cache, Some(st.window), toks + st.toks, input + buf)
            && SubCache(ep.codecCache, st.cache)
            && (buf != [] ==> PutAll(st.toks) != [])
  {
    hide WindowOk, CacheOk, WindowFrom, SubCache, Play, Encode, EmptyWindow;
    var o := Origin(true, WriterWindow(ep.encoder), ep.codecCache);
    EncodeMeans(w.hash, o, buf);
    var st := Encode(w.hash, true, ep.codecCache, WriterWindow(ep.encoder), buf);
    PlayMonotone(w.hash, toks, EmptyWindow(), ep.codecCache, st.cache);
    PlayConcat(w.hash, toks, st.toks, EmptyWindow(), st.cache);
    PutAllNonEmpty(st.toks);
    if st.toks == [] {
      PlayNothing(w.hash, WriterWindow(ep.encoder), st.cache);
    }
  }

  lemma {:induction false} PlayNothing(hash: Hasher, w: Window, cache: Cache)
    requires WindowOk(w)
    ensures Play(hash, [], w, cache) == Some(Played([], w))
  {
  }

  /** The direction from A after A's encoder has written `more` tokens in the messages `ms`. */
  lemma {:induction false} WriteLink(w: World, s: System, f: Link, g: Link, a: Endpoint, more: seq<Token>, ms: seq<Message>, input: Bytes)
    requires Inv(w, s, f, g)
    requires a == s.a.(encoder := a.encoder, codecCache := a.codecCache, sentEos := a.sentEos) && a.encoder.Some?
    requires Written(w.hash, a.codecCache, a.encoder, f.toks + more, input) && SubCache(s.a.codecCache, a.codecCache)
    requires FrameData(ms) == PutAll(more)
    requires forall i :: 0 <= i < |ms| ==> MessageOk(ms[i]) && !ms[i].Ask? && !ms[i].Learn?
    requires See(SentBy(s.a).(hello := true), ms, s.a.uuid) == Some(SentBy(a))
    ensures var f' := f.(toks := f.toks + more, msgs := f.msgs + Announce(s.a, ms));
            && LinkOk(w, a, s.b, s.ab + PutMessages(Announce(s.a, ms)), input, s.outB, f', g.msgs)
            && Settled(s.b.unknown, s.b.frame, f'.toks, f'.k)
  {
    hide WindowOk, Written, ReadSoFar, Follows, Queued, Holds, Wants, Asked, See, CacheOk, SubCache, Settled, Drained, PutMessages, PutMessage, Ends;
    var ann := Announce(s.a, ms);
    assert CacheOk(w.hash, a.codecCache) by { WrittenCache(w.hash, a.codecCache, a.encoder, f.toks + more, input); }
    GrowLink(w, s.a, a.codecCache, s.b, s.ab, s.inA, s.outB, f, g.msgs);
    AnnounceBytes(s.a, ms);
    AnnounceOk(s.a, ms);
    PushAllQueued(s.b.buffer, s.ab, f.msgs, ann);
    ExtendToks(w.hash, a.codecCache, s.b.decoder, s.b.frame, s.b.unknown, f, g.msgs, more, ann, s.outB);
    AnnounceSeen(SeenBy(s.b), f.msgs, s.a, ms, SentBy(a));
  }

  lemma {:induction false} AnnounceOk(ep: Endpoint, ms: seq<Message>)
    requires |ep.uuid| == UUID_SIZE
    requires forall i :: 0 <= i < |ms| ==> MessageOk(ms[i]) && !ms[i].Ask? && !ms[i].Learn?
    ensures var ann := Announce(ep, ms);
            forall i :: 0 <= i < |ann| ==> MessageOk(ann[i]) && !ann[i].Ask? && !ann[i].Learn?
  {
  }

  lemma {:induction false} WrittenCache(hash: Hasher, cache: Cache, encoder: Option<Window>, toks: seq<Token>, input: Bytes)
    requires Written(hash, cache, encoder, toks, input)
    ensures CacheOk(hash, cache) && WindowOk(WriterWindow(encoder))
  {
  }

  /** As a reader, A is untouched by its own encoder. */
  lemma {:induction false} ReaderUnmoved(w: World, s: System, f: Link, g: Link, a: Endpoint, ms: seq<Message>)
    requires Inv(w, s, f, g)
    requires a == s.a.(encoder := a.encoder, codecCache := a.codecCache, sentEos := a.sentEos)
    requires forall i :: 0 <= i < |ms| ==> !ms[i].Ask? && !ms[i].Learn?
    ensures LinkOk(w, s.b, a, s.ba, s.inB, s.outA, g, f.msgs + ms)
  {
    hide WindowOk, Written, ReadSoFar, Follows, Queued, Holds, Wants, Asked, See, CacheOk, SubCache, Settled, Drained;
    PushAllBack(w.hash, s.b.codecCache, s.a.unknown, g, f.msgs, ms);
  }

  lemma {:induction false} DrainedPush(buffer: Bytes, msgs: seq<Message>, ms: seq<Message>)
    requires Drained(buffer, msgs)
    ensures Drained(buffer, msgs + ms)
  {
  }

  /** Both directions after a call of `encoder_consume`. */
  lemma {:induction false} WriteKeeps(w: World, s: System, f: Link, g: Link, a: Endpoint, more: seq<Token>, ms: seq<Message>, input: Bytes)
    requires Inv(w, s, f, g)
    requires a == s.a.(encoder := a.encoder, codecCache := a.codecCache, sentEos := a.sentEos) && a.encoder.Some?
    requires Written(w.hash, a.codecCache, a.encoder, f.toks + more, input) && SubCache(s.a.codecCache, a.codecCache)
    requires FrameData(ms) == PutAll(more)
    requires forall i :: 0 <= i < |ms| ==> MessageOk(ms[i]) && !ms[i].Ask? && !ms[i].Learn?
    requires See(SentBy(s.a).(hello := true), ms, s.a.uuid) == Some(SentBy(a))
    ensures Inv(w, s.(a := a, ab := s.ab + PutMessages(Announce(s.a, ms)), inA := input),
                f.(toks := f.toks + more, msgs := f.msgs + Announce(s.a, ms)), g)
  {
    hide WindowOk, LinkOk, Written, PutMessages, See, SubCache, Settled, MessageOk, Drained;
    WriteLink(w, s, f, g, a, more, ms, input);
    AnnouncedOk(w, s, f, g, ms);
    ReaderUnmoved(w, s, f, g, a, Announce(s.a, ms));
    DrainedPush(s.b.buffer, f.msgs, Announce(s.a, ms));
    WrittenCache(w.hash, a.codecCache, a.encoder, f.toks + more, input);
  }

  lemma {:induction false} AnnouncedOk(w: World, s: System, f: Link, g: Link, ms: seq<Message>)
    requires Inv(w, s, f, g)
    requires forall i :: 0 <= i < |ms| ==> MessageOk(ms[i]) && !ms[i].Ask? && !ms[i].Learn?
    ensures var ann := Announce(s.a, ms);
            forall i :: 0 <= i < |ann| ==> MessageOk(ann[i]) && !ann[i].Ask? && !ann[i].Learn?
  {
    hide WindowOk, Written, ReadSoFar, Follows, Queued, Holds, Wants, Asked, See, CacheOk, SubCache, Settled, Drained, MessageOk;
    AnnounceOk(s.a, ms);
  }

  /** An end that may still write has not closed its channel. */
  lemma {:induction false} OpenWhileWriting(w: World, s: System, f: Link, g: Link)
    requires Inv(w, s, f, g) && !s.a.sentEos
    ensures !s.a.closed
  {
    hide WindowOk, Written, ReadSoFar, Follows, Queued, Holds, Wants, Asked, CacheOk, SubCache, Settled, Drained;
    SeeGrows(SeenBy(s.a), g.msgs, s.b.uuid);
    SeeGrows(SeenBy(s.b), f.msgs, s.a.uuid);
  }

  lemma {:induction false} WriterReady(w: World, s: System, f: Link, g: Link)
    requires Inv(w, s, f, g)
    ensures EndpointOk(s.a) && WindowOk(WriterWindow(s.a.encoder)) && |s.a.uuid| == UUID_SIZE && w.encodes(s.a.uuid)
  {
    hide WindowOk, Written, ReadSoFar, Follows, Queued, Holds, Wants, Asked, See, Settled, Drained;
  }

  lemma {:induction false} DataKeeps(w: World, s: System, f: Link, g: Link, buf: Bytes) returns (f': Link)
    requires Inv(w, s, f, g) && buf != [] && !s.a.sentEos
    ensures Inv(w, Do(w, s, Data(buf)), f', g) && Moves(f, f', g, g)
  {
    hide WindowOk, Written, Encode, PutMessages, PutMessage, SubCache, WriterWindow, LinkOk, Settled, Drained, EndpointOk, See, PutAll;
    OpenWhileWriting(w, s, f, g);
    WriterReady(w, s, f, g);
    var st := Encode(w.hash, true, s.a.codecCache, WriterWindow(s.a.encoder), buf);
    var data := PutAll(st.toks);
    var ms := Frames(data);
    assert Written(w.hash, s.a.codecCache, s.a.encoder, f.toks, s.inA) by { WrittenNow(w, s, f, g); }
    EncodeWrites(w, s.a, f.toks, s.inA, buf);
    FramesCarry(data);
    SeeFrames(SentBy(s.a).(hello := true), ms, s.a.uuid);
    AnnounceBytes(s.a, ms);
    WriteKeeps(w, s, f, g, Encoded(s.a, st), st.toks, ms, s.inA + buf);
    f' := f.(toks := f.toks + st.toks, msgs := f.msgs + Announce(s.a, ms));
    assert s.outA + [] == s.outA;
    assert [] + PutMessages(Announce(s.a, ms)) == PutMessages(Announce(s.a, ms));
  }

  lemma {:induction false} WrittenNow(w: World, s: System, f: Link, g: Link)
    requires Inv(w, s, f, g)
    ensures Written(w.hash, s.a.codecCache, s.a.encoder, f.toks, s.inA)
  {
    hide WindowOk, Written, ReadSoFar, Follows, Queued, Holds, Wants, Asked, See, Settled, Drained;
  }

  lemma {:induction false} EndKeeps(w: World, s: System, f: Link, g: Link) returns (f': Link)
    requires Inv(w, s, f, g) && !s.a.sentEos
    ensures Inv(w, Do(w, s, End), f', g) && Moves(f, f', g, g)
  {
    hide WindowOk, Written, PutMessages, PutMessage, SubCache, WriterWindow, LinkOk, Settled, Drained, EndpointOk, PutAll;
    OpenWhileWriting(w, s, f, g);
    WriterReady(w, s, f, g);
    var a := s.a.(encoder := Some(WriterWindow(s.a.encoder)), sentEos := true);
    WrittenNow(w, s, f, g);
    WrittenStill(w, s.a, f.toks, s.inA);
    PutMessagesOne(Eos);
    assert [Eos][1..] == [];
    assert FrameData([Eos]) == [];
    NothingWritten();
    AnnounceBytes(s.a, [Eos]);
    assert f.toks + [] == f.toks;
    WriteKeeps(w, s, f, g, a, [], [Eos], s.inA);
    f' := f.(toks := f.toks + [], msgs := f.msgs + Announce(s.a, [Eos]));
    assert s.outA + [] == s.outA;
    assert [] + PutMessages(Announce(s.a, [Eos])) == PutMessages(Announce(s.a, [Eos]));
  }

  lemma {:induction false} NothingWritten()
    ensures PutAll([]) == []
  {
  }

  lemma {:induction false} WrittenStill(w: World, ep: Endpoint, toks: seq<Token>, input: Bytes)
    requires EndpointOk(ep) && Written(w.hash, ep.codecCache, ep.encoder, toks, input)
    ensures Written(w.hash, ep.codecCache, Some(WriterWindow(ep.encoder)), toks, input)
    ensures SubCache(ep.codecCache, ep.codecCache)
  {
    hide WindowOk, CacheOk, WindowFrom, Play;
  }

  // --- The decoder ------------------------------------------------------------------------------------------------------

  lemma {:induction false} DeliverKeeps(w: World, s: System, f: Link, g: Link, n: nat) returns (f': Link, g': Link)
    requires EndpointOk(s.a) && Enabled(w, s, Deliver(n)) && Inv(w, s, f, g)
    ensures Inv(w, Do(w, s, Deliver(n)), f', g') && Moves(f, f', g, g') && AckMoves(s.a, Do(w, s, Deliver(n)).a, g, g')
  {
    hide WindowOk, LinkOk, DecoderConsume, Settled, Drained, EndpointOk, Moves, AckMoves;
    assert s.ba == s.ba[..n] + s.ba[n..];
    f', g' := ConsumeKeeps(w, s, f, g, s.ba[..n], s.ba[n..]);
    DrainedStill(w, s, Do(w, s, Deliver(n)), f, f', g, g');
  }

  /** The other end's buffer still holds less than a message: only its channel has grown. */
  lemma {:induction false} DrainedStill(w: World, s: System, s': System, f: Link, f': Link, g: Link, g': Link)
    requires Inv(w, s, f, g) && Working(w, s', f', g') && s'.b == s.b
    requires s.ab <= s'.ab
    ensures Drained(s'.b.buffer, f'.msgs)
  {
    hide WindowOk, Written, ReadSoFar, Follows, Holds, Wants, Asked, See, Settled, PutMessage, EndpointOk, MessageOk;
    var buffer := s.b.buffer;
    if buffer != [] {
      var first, first' := PutMessage(f.msgs[0]), PutMessage(f'.msgs[0]);
      assert buffer + s'.ab == first' + PutMessages(f'.msgs[1..]);
      assert buffer + s.ab == first + PutMessages(f.msgs[1..]);
      SameHead(f.msgs, f'.msgs, buffer, s.ab, s'.ab);
    }
  }

  /** The bytes of a message determine where it ends. */
  lemma {:induction false} SameHead(ms: seq<Message>, ms': seq<Message>, buffer: Bytes, chan: Bytes, chan': Bytes)
    requires Queued(buffer, chan, ms) && Queued(buffer, chan', ms') && chan <= chan'
    requires ms != [] && buffer != [] && buffer < PutMessage(ms[0])
    ensures ms' != [] && buffer < PutMessage(ms'[0])
  {
    var a, b := buffer + chan, buffer + chan';
    assert a <= b;
    var m := ms[0];
    assert PutMessage(m) <= a;
    assert ms' != [];
    var m' := ms'[0];
    assert PutMessage(m') <= b;
    assert PutMessage(m)[0] == a[0] == b[0] == PutMessage(m')[0];
    if m.Frame? {
      assert m'.Frame?;
      assert PutMessage(m)[1..3] == a[1..3] == b[1..3] == PutMessage(m')[1..3];
      FrameHeader(m.data);
      FrameHeader(m'.data);
    }
    assert |PutMessage(m)| == |PutMessage(m')|;
    assert buffer == b[..|buffer|] == PutMessage(m')[..|buffer|];
  }

  /** The peer closes only after everything was acknowledged, so closing changes no promise. */
  lemma {:induction false} PeerClosedKeeps(w: World, s: System, f: Link, g: Link)
    requires Inv(w, s, f, g) && s.ba == [] && s.b.closed
    ensures Inv(w, s.(a := s.a.(sentEosOut := true)), f, g)
    ensures s.a.buffer == [] && s.a.frame == [] && s.outA == s.inB
  {
    hide WindowOk, Written, ReadSoFar, Follows, Holds, Queued, Wants, Asked, See, Settled, Drained;
    InvSwap(w, s, f, g);
    NothingComes(w, Swap(s), g, f);
    SeeAck(w, s, f, g);
    NothingLeft(w, s, f, g);
    var a := s.a.(sentEosOut := true);
    FlagsKeep(w, s, f, g, a);
  }

  lemma {:induction false} PeerClosedDoes(w: World, s: System)
    requires EndpointOk(s.a) && Enabled(w, s, PeerClosed)
    ensures Do(w, s, PeerClosed) == s.(a := s.a.(sentEosOut := true))
  {
    hide EndpointOk;
    assert s.ab + [] == s.ab && s.outA + [] == s.outA;
  }

  lemma {:induction false} SeeAck(w: World, s: System, f: Link, g: Link)
    requires Inv(w, s, f, g) && s.b.receivedEosAck
    ensures s.a.sentEosAck
  {
    hide WindowOk, Written, ReadSoFar, Follows, Holds, Queued, Wants, Asked, Settled, Drained, Ends;
    SeeGrows(SeenBy(s.b), f.msgs, s.a.uuid);
  }

  /** With an empty channel, a buffer that holds less than a message holds nothing. */
  lemma {:induction false} NothingLeft(w: World, s: System, f: Link, g: Link)
    requires Inv(w, s, f, g) && s.ba == []
    ensures s.a.buffer == [] && g.msgs == []
  {
    hide WindowOk, Written, ReadSoFar, Follows, Holds, Wants, Asked, See, Settled, PutMessage, MessageOk, Ends, EndpointOk;
    assert s.a.buffer + [] == s.a.buffer;
    if g.msgs != [] {
      assert false;
    }
  }

  // --- Every run ----------------------------------------------------------------------------------------------------------

  lemma {:induction false} OtherwiseSameAck(w: World, s: System, e: Event)
    requires EndpointOk(s.a) && Enabled(w, s, e) && !e.Deliver?
    ensures SameAck(s.a, Do(w, s, e).a)
  {
    hide EndpointOk, WindowOk, CacheOk, SubCache, Encode, WriterWindow, Frames, PutMessages, PutMessage;
  }

  lemma {:induction false} DoKeeps(w: World, s: System, f: Link, g: Link, e: Event) returns (f': Link, g': Link)
    requires Inv(w, s, f, g) && Enabled(w, s, e)
    ensures Inv(w, Do(w, s, e), f', g') && Moves(f, f', g, g') && AckMoves(s.a, Do(w, s, e).a, g, g')
  {
    hide Inv, WindowOk, CacheOk, SubCache, EncoderConsume, DecoderConsume;
    f', g' := f, g;
    WriterReady(w, s, f, g);
    if !e.Deliver? {
      OtherwiseSameAck(w, s, e);
    }
    match e
    case Data(buf) => f' := DataKeeps(w, s, f, g, buf);
    case End => f' := EndKeeps(w, s, f, g);
    case Deliver(n) => f', g' := DeliverKeeps(w, s, f, g, n);
    case PeerClosed =>
      PeerClosedKeeps(w, s, f, g);
      PeerClosedDoes(w, s);
    case Grow(cache) => GrowKeeps(w, s, f, g, cache);
    case Hear(registry) => HearKeeps(w, s, f, g, registry);
  }

  lemma {:induction false} StepKeeps(w: World, s: System, s': System, f: Link, g: Link) returns (f': Link, g': Link)
    requires Inv(w, s, f, g) && Step(w, s, s')
    ensures Inv(w, s', f', g')
  {
    hide Inv, WindowOk, Enabled, Do, EndpointOk;
    if e :| Enabled(w, s, e) && s' == Do(w, s, e) {
      f', g' := DoKeeps(w, s, f, g, e);
    } else {
      var e :| Enabled(w, Swap(s), e) && Swap(s') == Do(w, Swap(s), e);
      InvSwap(w, s, f, g);
      g', f' := DoKeeps(w, Swap(s), g, f, e);
      InvSwap(w, Swap(s'), g', f');
    }
  }

  lemma {:induction false} RunKeeps(w: World, ss: seq<System>, i: nat) returns (f: Link, g: Link)
    requires IsRun(w, ss) && i < |ss|
    ensures Inv(w, ss[i], f, g)
  {
    hide Inv, Init, Step;
    if i == 0 {
      InitInv(w, ss[0]);
      f, g := Link([], 0, []), Link([], 0, []);
    } else {
      f, g := RunKeeps(w, ss, i - 1);
      assert Step(w, ss[i - 1], ss[i - 1 + 1]);
      f, g := StepKeeps(w, ss[i - 1], ss[i], f, g);
    }
  }

  // --- What the invariant means --------------------------------------------------------------------------------------------

  /** What A can rely on at any time. */
  ghost predicate SafeFor(s: System) {
    && s.outA <= s.inB
    && (s.a.sentEosOut ==> s.outA == s.inB && s.b.sentEos)
    && (s.a.buffer == [] ==> (s.a.sentEosOut <==> s.a.receivedEos && s.a.frame == []))
    && (s.a.closed <==> s.a.sentEosAck && s.a.receivedEosAck)
    && (s.a.unknown != {} ==>
          exists h :: h in s.b.codecCache && s.a.unknown == {h} && [MAGIC, OP_REF] + PutWord(h) <= s.a.frame)
    && (s.a.closed ==>
          && s.outA == s.inB && s.outB == s.inA
          && s.a.sentEos && s.b.sentEos
          && s.a.buffer + s.ba == [] && s.a.frame == [] && s.b.frame == []
          && s.a.unknown == {} && s.b.unknown == {}
          && (s.b.buffer + s.ab == [] || s.b.buffer + s.ab == [OP_EOS_ACK]))
  }

  lemma {:induction false} InvUnknown(w: World, s: System, f: Link, g: Link)
    requires Inv(w, s, f, g) && s.a.unknown != {}
    ensures exists h :: h in s.b.codecCache && s.a.unknown == {h} && [MAGIC, OP_REF] + PutWord(h) <= s.a.frame
  {
    hide WindowOk, ReadSoFar, Follows, Holds, Queued, Asked, See, Settled, Drained, Play, PutAll;
    RefIsKnown(w.hash, g.toks, g.k, EmptyWindow(), s.b.codecCache);
    var h := g.toks[g.k].hash;
    assert Put(g.toks[g.k]) == [MAGIC, OP_REF] + PutWord(h);
  }

  /** What is still under way when A has closed its channel: at most its own last acknowledgement. */
  lemma {:induction false} LastWords(w: World, s: System, f: Link, g: Link)
    requires Inv(w, s, f, g) && s.a.sentEosAck && s.a.receivedEosAck
    ensures s.a.sentEos && s.b.sentEos && s.a.frame == [] && s.a.unknown == {}
    ensures f.msgs == [] || f.msgs == [EosAck]
  {
    hide WindowOk, Written, ReadSoFar, Follows, Holds, Queued, Settled, Drained, EndpointOk;
    NothingComes(w, s, f, g);
    AllDelivered(w, s.b, s.a, s.ba, s.inB, s.outA, g, f.msgs);
    SeeGrows(SeenBy(s.a), g.msgs, s.b.uuid);
    SeeGrows(SeenBy(s.b), f.msgs, s.a.uuid);
    assert AskedIn(f.msgs) + [] == [];
    assert [] + TaughtIn(w.hash, f.msgs) == [];
    OnlyAck(w.hash, SeenBy(s.b), f.msgs, s.a.uuid);
  }

  lemma {:induction false} OnlyAck(hash: Hasher, seen: Seen, ms: seq<Message>, uuid: Bytes)
    requires seen.hello && seen.eos && See(seen, ms, uuid).Some?
    requires AskedIn(ms) == [] && TaughtIn(hash, ms) == []
    ensures ms == [] || ms == [EosAck]
    ensures seen.ack ==> ms == []
    decreases |ms|
  {
    if ms != [] {
      assert SeeOne(seen, ms[0], uuid).Some?;
      assert AskedIn(ms[1..]) == [] && TaughtIn(hash, ms[1..]) == [];
      OnlyAck(hash, SeeOne(seen, ms[0], uuid).value, ms[1..], uuid);
      assert ms == [ms[0]] + ms[1..];
    }
  }

  lemma {:induction false} InvSafe(w: World, s: System, f: Link, g: Link)
    requires Inv(w, s, f, g)
    ensures SafeFor(s) && !s.failed
  {
    hide WindowOk, Written, ReadSoFar, Follows, Holds, Wants, Asked, Settled, Drained, EndpointOk, PutMessage, MessageOk, PutMessages, See;
    OutputIsPrefix(w, s.b, s.a, s.ba, s.inB, s.outA, g, f.msgs);
    if s.a.sentEosOut {
      AllDelivered(w, s.b, s.a, s.ba, s.inB, s.outA, g, f.msgs);
      SeeGrows(SeenBy(s.a), g.msgs, s.b.uuid);
    }
    if s.a.unknown != {} {
      InvUnknown(w, s, f, g);
    }
    if s.a.closed {
      NothingComes(w, s, f, g);
      LastWords(w, s, f, g);
      AckBytes();
    }
  }

  lemma {:induction false} AckBytes()
    ensures PutMessages([]) == [] && PutMessages([EosAck]) == [OP_EOS_ACK]
  {
    PutMessagesOne(EosAck);
  }

  /**
    Protocol safety. In every state of every run, for any hash function, any chunking of the
    channels and any growth of the shared caches: no end has failed an assertion or reported an
    error, and what each end promises its consumer is true.
  */
  lemma {:induction false} EveryRunIsSafe(w: World, ss: seq<System>, i: nat)
    requires IsRun(w, ss) && i < |ss|
    ensures !ss[i].failed && SafeFor(ss[i]) && SafeFor(Swap(ss[i]))
  {
    hide Inv, Init, Step, SafeFor;
    var f, g := RunKeeps(w, ss, i);
    InvSafe(w, ss[i], f, g);
    InvSwap(w, ss[i], f, g);
    InvSafe(w, Swap(ss[i]), g, f);
  }

  /**
    The discipline of questions: in every state of every run the bytes under way each way are
    whole messages, with exactly one question or one true answer for each unknown hash.
  */
  lemma {:induction false} EveryQuestionIsAnswered(w: World, ss: seq<System>, i: nat) returns (toA: seq<Message>, toB: seq<Message>)
    requires IsRun(w, ss) && i < |ss|
    ensures var s := ss[i];
            && s.a.buffer + s.ba == PutMessages(toA) && s.b.buffer + s.ab == PutMessages(toB)
            && |AskedIn(toB)| + |TaughtIn(w.hash, toA)| == |s.a.unknown| <= 1
            && |AskedIn(toA)| + |TaughtIn(w.hash, toB)| == |s.b.unknown| <= 1
            && (forall h :: h in AskedIn(toB) || h in TaughtIn(w.hash, toA) ==> h in s.a.unknown && h in s.b.codecCache)
            && (forall h :: h in AskedIn(toA) || h in TaughtIn(w.hash, toB) ==> h in s.b.unknown && h in s.a.codecCache)
  {
    hide Inv, Init, Step;
    var f, g := RunKeeps(w, ss, i);
    toA, toB := g.msgs, f.msgs;
    OneEach(w, ss[i], f, g);
    InvSwap(w, ss[i], f, g);
    OneEach(w, Swap(ss[i]), g, f);
  }

  lemma {:induction false} OneEach(w: World, s: System, f: Link, g: Link)
    requires Inv(w, s, f, g)
    ensures s.a.buffer + s.ba == PutMessages(g.msgs)
    ensures |AskedIn(f.msgs)| + |TaughtIn(w.hash, g.msgs)| == |s.a.unknown| <= 1
    ensures forall h :: h in AskedIn(f.msgs) || h in TaughtIn(w.hash, g.msgs) ==> h in s.a.unknown && h in s.b.codecCache
  {
    hide WindowOk, ReadSoFar, Follows, Holds, See, Settled, Drained, Play, PutAll, EndpointOk, AskedIn, TaughtIn, Put;
    var asked, taught := AskedIn(f.msgs), TaughtIn(w.hash, g.msgs);
    var wanted := Wanted(s.a.unknown, g.toks, g.k);
    assert asked + taught == wanted;
    assert |asked| + |taught| == |wanted|;
    if s.a.unknown != {} {
      RefIsKnown(w.hash, g.toks, g.k, EmptyWindow(), s.b.codecCache);
    }
    forall h | h in asked || h in taught
      ensures h in s.a.unknown && h in s.b.codecCache
    {
      assert h in asked + taught;
    }
  }

  // --- When nothing is under way ---------------------------------------------------------------------------------------------

  /** A reader that wants nothing and has no more messages to come has delivered everything. */
  lemma {:induction false} NothingToCome(w: World, x: Endpoint, y: Endpoint, chan: Bytes, input: Bytes, output: Bytes, l: Link, back: seq<Message>)
    requires LinkOk(w, x, y, chan, input, output, l, back)
    requires l.msgs == [] && y.unknown == {} && Settled(y.unknown, y.frame, l.toks, l.k)
    ensures output == input && y.frame == []
  {
    hide Play, WindowOk, Follows, Queued, Asked, Put, See, Ends, Wants;
    var rest := l.toks[l.k..];
    assert FrameData([]) == [];
    assert PutAll(rest) == y.frame + [] == y.frame;
    assert l.toks[..l.k] == l.toks;
  }

  lemma {:induction false} InvQuiet(w: World, s: System, f: Link, g: Link)
    requires Inv(w, s, f, g) && g.msgs == [] && f.msgs == []
    ensures s.outA == s.inB && s.a.frame == [] && s.a.unknown == {}
  {
    hide WindowOk, LinkOk, Settled, Drained, EndpointOk;
    OneEach(w, s, f, g);
    NothingToCome(w, s.b, s.a, s.ba, s.inB, s.outA, g, f.msgs);
  }

  /**
    Nothing is held back: in every state of every run in which nothing is under way between the ends,
    each has delivered all that the other has consumed, and has nothing left over.
  */
  lemma {:induction false} EverythingIsDelivered(w: World, ss: seq<System>, i: nat)
    requires IsRun(w, ss) && i < |ss| && ss[i].ab == [] && ss[i].ba == []
    ensures var s := ss[i];
            && s.outA == s.inB && s.a.frame == [] && s.a.buffer == [] && s.a.unknown == {}
            && s.outB == s.inA && s.b.frame == [] && s.b.buffer == [] && s.b.unknown == {}
  {
    hide Inv, Init, Step;
    var f, g := RunKeeps(w, ss, i);
    InvSwap(w, ss[i], f, g);
    NothingLeft(w, ss[i], f, g);
    NothingLeft(w, Swap(ss[i]), g, f);
    InvQuiet(w, ss[i], f, g);
    InvQuiet(w, Swap(ss[i]), g, f);
  }
}
