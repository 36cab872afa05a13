/** Runs that end-of-stream handling allows: an acknowledgement before any HELLO, and one that is never sent. */
module ProtocolAck {
  import opened Bytes
  import opened Hash
  import opened Window
  import opened Stream
  import opened Encoder
  import opened Decoder
  import opened Pipe
  import opened PipeParse
  import opened Protocol
  import opened ProtocolRun
  import opened ProtocolHistory

  // --- Taking known messages --------------------------------------------------------------------------------

  /** One turn of the loop of `decoder_consume` on a whole message. */
  lemma {:induction false} ConsumeNext(w: World, r: Run, m: Message, rest: Bytes)
    requires EndpointOk(r.ep) && !r.failed && !r.paused && !r.ep.closed
    requires MessageOk(m) && Acceptable(w, r.ep, m) && r.ep.buffer == PutMessage(m) + rest
    requires m.Ask? ==> m.hash in r.ep.codecCache
    ensures var t := Replied(r.(ep := Taken(w, r.ep, m).(buffer := rest)), m);
            EndpointOk(t.ep) && Consuming(w, r) == Consuming(w, Settle(w, t))
  {
    hide EndpointOk, WindowOk, Taken, Acceptable, MessageOk, PutMessage, Take, Settle;
    TakeWhole(w, r, m, rest);
    TakenOpen(w, r.ep, m);
  }

  lemma {:induction false} TakenOpen(w: World, ep: Endpoint, m: Message)
    requires EndpointOk(ep) && Acceptable(w, ep, m)
    ensures Taken(w, ep, m).closed == ep.closed
  {
    hide EndpointOk, WindowOk, Met;
  }

  /** A buffer with nothing left ends the loop. */
  lemma {:induction false} ConsumeDone(w: World, r: Run)
    requires EndpointOk(r.ep) && r.ep.buffer == []
    ensures Consuming(w, r) == r
  {
  }

  /** HELLO, as the first message. */
  lemma {:induction false} ConsumeHello(w: World, r: Run, uuid: Bytes, rest: Bytes)
    requires EndpointOk(r.ep) && !r.failed && !r.paused && !r.ep.closed
    requires r.ep.decoder.None? && r.ep.frame == [] && !r.ep.receivedEos
    requires |uuid| == UUID_SIZE && w.parses(uuid) && r.ep.buffer == PutMessage(Hello(uuid)) + rest
    ensures EndpointOk(Met(r.ep, uuid).(buffer := rest))
    ensures Consuming(w, r) == Consuming(w, r.(ep := Met(r.ep, uuid).(buffer := rest)))
  {
    hide EndpointOk, WindowOk, Met, PutMessage, Consuming;
    ConsumeNext(w, r, Hello(uuid), rest);
  }

  // --- An acknowledgement before any HELLO ---------------------------------------------------------------------

  /** A fresh end is told at once that its peer's stream is empty. */
  lemma {:induction false} ConsumeEmptyStream(w: World, a: Endpoint, uuid: Bytes)
    requires FreshEnd(w, a) && EndpointOk(a) && |uuid| == UUID_SIZE && w.parses(uuid)
    ensures var r := DecoderConsume(w, a, PutMessage(Hello(uuid)) + PutMessage(Eos));
            r.sent == [OP_EOS_ACK] && r.ep.sentEosAck
  {
    hide EndpointOk, WindowOk, Met, Consuming;
    var buf := PutMessage(Hello(uuid)) + PutMessage(Eos);
    BufferIsFree(a, buf);
    assert a.buffer + buf == buf;
    var r0 := Run(a.(buffer := buf), [], [], false, false);
    ConsumeHello(w, r0, uuid, PutMessage(Eos));
    var r1 := r0.(ep := Met(r0.ep, uuid).(buffer := PutMessage(Eos)));
    assert r1.ep.buffer == PutMessage(Eos) + [];
    ConsumeNext(w, r1, Eos, []);
    var r2 := Settle(w, r1.(ep := Taken(w, r1.ep, Eos).(buffer := [])));
    ConsumeDone(w, r2);
  }

  lemma {:induction false} EndSends(w: World, s: System)
    requires FreshEnd(w, s.a) && EndpointOk(s.a) && s.ab == []
    ensures Enabled(w, s, End)
    ensures var s' := Do(w, s, End);
            && s'.ab == PutMessage(Hello(s.a.uuid)) + PutMessage(Eos)
            && s' == s.(a := s'.a, ab := s'.ab) && EndpointOk(s'.a)
  {
    hide EndpointOk, WindowOk, WriterWindow, PutMessage;
    var sent := PutMessage(Hello(s.a.uuid)) + PutMessage(Eos);
    assert [] + sent == sent && s.outA + [] == s.outA;
  }

  lemma {:induction false} FreshIsOk(w: World, ep: Endpoint)
    requires FreshEnd(w, ep)
    ensures EndpointOk(ep)
  {
  }

  /**
    An end that has never had anything to send may send EOS_ACK as its first message: B ends its
    stream at once, and A answers HELLO and EOS with exactly EOS_ACK, having no encoder.
  */
  lemma {:induction false} AckBeforeHello(w: World, s: System) returns (ss: seq<System>, ls: seq<Label>)
    requires Init(w, s)
    ensures |ss| == 3 && ss[0] == s && IsLabelledRun(w, ss, ls)
    ensures WroteA(w, ss, ls, 2) == [OP_EOS_ACK] && ss[2].ab == [OP_EOS_ACK] && ss[2].a.encoder.None?
  {
    hide EndpointOk, WindowOk, DecoderConsume, EncoderConsume, PutMessage, PeerCache, SubCache;
    FreshIsOk(w, s.a);
    FreshIsOk(w, s.b);
    EndSends(w, Swap(s));
    var s1 := Swap(Do(w, Swap(s), End));
    ConsumeEmptyStream(w, s.a, s.b.uuid);
    var e := Deliver(|s1.ba|);
    var s2 := Do(w, s1, e);
    ss, ls := [s, s1, s2], [ByB(End), ByA(e)];
    assert s1.ba[..|s1.ba|] == s1.ba;
    assert WroteA(w, ss, ls, 1) == [];
    assert s1.ab == [] && Output(w, s1, e) == [OP_EOS_ACK];
  }

  // --- A stream that is never acknowledged -------------------------------------------------------------------------

  /** What the encoder writes for exactly one segment that it knows. */
  lemma {:induction false} EncodeKnown(hash: Hasher, cache: Cache, seg: Bytes)
    requires |seg| == SEGMENT_LENGTH && hash(seg) in cache && cache[hash(seg)] == seg
    ensures var st := Encode(hash, true, cache, EmptyWindow(), seg);
            st.toks == [Ref(hash(seg))] && st.cache == cache
  {
    hide WindowOk, Declared;
    var k := SEGMENT_LENGTH - 1;
    var first := Start(cache, EmptyWindow());
    ScanShort(hash, true, first, seg[..k]);
    assert [] + seg[..k] + [seg[k]] == seg;
    assert seg[0..] == seg;
    assert Escape([]) == [];
  }

  /** The decoder stops at a reference that it does not know. */
  lemma {:induction false} DecodeUnknownRef(hash: Hasher, cache: Cache, win: Window, h: Word)
    requires WindowOk(win) && h !in cache
    ensures Decode(hash, cache, win, Put(Ref(h))) == Decoded(true, [], Put(Ref(h)), cache, win, Some(h))
  {
    hide WindowOk, Declared;
    assert Put(Ref(h))[2..10] == PutWord(h);
    WordRoundTrip(h);
  }

  lemma {:induction false} DecodeKnownRef(hash: Hasher, cache: Cache, win: Window, h: Word)
    requires WindowOk(win) && h in cache
    ensures var d := Decode(hash, cache, win, Put(Ref(h)));
            d.ok && d.out == cache[h] && d.rest == [] && d.ask.None?
  {
    hide WindowOk, Declared;
    assert Put(Ref(h))[2..10] == PutWord(h);
    assert Put(Ref(h))[10..] == [];
    WordRoundTrip(h);
    assert cache[h] + [] == cache[h];
  }

  /** A knows its peer, wants `h` to decode the last of the peer's stream, and has not acknowledged its end. */
  ghost predicate WaitsFor(ep: Endpoint, peer: Bytes, h: Word) {
    && EndpointOk(ep)
    && ep.decoder.Some? && ep.decoder.value.uuid == peer
    && h !in ep.registry[peer]
    && ep.unknown == {h} && ep.frame == Put(Ref(h)) && ep.buffer == []
    && ep.receivedEos && !ep.sentEosAck && !ep.receivedEosAck && !ep.sentEosOut && !ep.closed
  }

  /** A reference to something unknown: the decoder asks. */
  lemma {:induction false} SettleUnknown(w: World, r: Run, h: Word)
    requires EndpointOk(r.ep) && r.ep.frame == Put(Ref(h)) && r.ep.unknown == {} && !r.ep.closed
    requires r.ep.decoder.Some? && h !in r.ep.registry[r.ep.decoder.value.uuid]
    ensures Settle(w, r) == r.(ep := r.ep.(unknown := {h}), sent := r.sent + PutMessage(Ask(h)))
  {
    hide WindowOk, Decode, Put, PutMessage;
    var reader := r.ep.decoder.value;
    DecodeUnknownRef(w.hash, r.ep.registry[reader.uuid], reader.window, h);
    assert r.ep.registry[reader.uuid := r.ep.registry[reader.uuid]] == r.ep.registry;
    assert {} + {h} == {h};
    assert h in {h};
  }

  /** The loop of A over HELLO, one FRAME with a reference that A does not know, and EOS. */
  lemma {:induction false} ConsumeUnknown(w: World, a: Endpoint, uuid: Bytes, h: Word)
    requires FreshEnd(w, a) && EndpointOk(a) && |uuid| == UUID_SIZE && w.parses(uuid)
    requires h !in PeerCache(a.registry, uuid)
    ensures var r := DecoderConsume(w, a, PutMessage(Hello(uuid)) + (PutMessage(Frame(Put(Ref(h)))) + PutMessage(Eos)));
            && r.sent == PutMessage(Ask(h)) && r.delivered == [] && !r.failed
            && WaitsFor(r.ep, uuid, h)
  {
    hide EndpointOk, WindowOk, Consuming, PutMessage, Put, Settle, Met;
    var frame, eos := Frame(Put(Ref(h))), PutMessage(Eos);
    var buf := PutMessage(Hello(uuid)) + (PutMessage(frame) + eos);
    BufferIsFree(a, buf);
    assert a.buffer + buf == buf;
    var r0 := Run(a.(buffer := buf), [], [], false, false);
    ConsumeHello(w, r0, uuid, PutMessage(frame) + eos);
    var r1 := r0.(ep := Met(r0.ep, uuid).(buffer := PutMessage(frame) + eos));
    MetLacks(a, buf, uuid, h);
    RefSize(h);
    ConsumeNext(w, r1, frame, eos);
    var t2 := r1.(ep := r1.ep.(frame := [] + Put(Ref(h)), buffer := eos));
    assert [] + Put(Ref(h)) == Put(Ref(h));
    SettleUnknown(w, t2, h);
    var r2 := Settle(w, t2);
    ConsumeEosWaiting(w, r2, h);
  }

  lemma {:induction false} RefSize(h: Word)
    ensures |Put(Ref(h))| == 10
  {
  }

  lemma {:induction false} MetLacks(a: Endpoint, buf: Bytes, uuid: Bytes, h: Word)
    requires EndpointOk(a) && EndpointOk(a.(buffer := buf)) && h !in PeerCache(a.registry, uuid)
    ensures var ep := Met(a.(buffer := buf), uuid);
            ep.decoder.Some? && ep.decoder.value.uuid == uuid && h !in ep.registry[uuid]
  {
    hide WindowOk;
  }

  /** EOS while waiting for an answer: nothing more happens. */
  lemma {:induction false} ConsumeEosWaiting(w: World, r: Run, h: Word)
    requires EndpointOk(r.ep) && !r.failed && !r.paused && !r.ep.closed && !r.ep.receivedEos
    requires r.ep.unknown == {h} && r.ep.frame != [] && r.ep.buffer == PutMessage(Eos)
    ensures Consuming(w, r) == r.(ep := r.ep.(buffer := [], receivedEos := true))
  {
    hide EndpointOk, WindowOk, Consuming;
    assert r.ep.buffer == PutMessage(Eos) + [];
    ConsumeNext(w, r, Eos, []);
    assert h in r.ep.unknown;
    ConsumeDone(w, r.(ep := r.ep.(buffer := [], receivedEos := true)));
  }

  // --- The same run, as B sees it -----------------------------------------------------------------------------------

  /** B has an encoder, knows `seg` and has heard nothing. */
  ghost predicate CanTell(w: World, ep: Endpoint, seg: Bytes) {
    && EndpointOk(ep)
    && ep.encoder.Some? && Knows(w, ep.codecCache, seg)
    && ep.decoder.None? && ep.frame == [] && ep.buffer == []
    && !ep.receivedEos && !ep.receivedEosAck && !ep.sentEosAck && !ep.closed
  }

  ghost predicate Knows(w: World, cache: Cache, seg: Bytes) {
    |seg| == SEGMENT_LENGTH && w.hash(seg) in cache && cache[w.hash(seg)] == seg
  }

  /** Data that is one known segment: HELLO and a frame with the reference. */
  lemma {:induction false} DataSends(w: World, s: System, seg: Bytes)
    requires FreshEnd(w, s.a) && EndpointOk(s.a) && s.ab == [] && Knows(w, s.a.codecCache, seg)
    ensures Enabled(w, s, Data(seg))
    ensures var s' := Do(w, s, Data(seg));
            && s'.ab == PutMessage(Hello(s.a.uuid)) + PutMessage(Frame(Put(Ref(w.hash(seg)))))
            && s' == s.(a := s'.a, ab := s'.ab, inA := s.inA + seg)
            && CanTell(w, s'.a, seg) && !s'.a.sentEos && s'.a.uuid == s.a.uuid
  {
    hide EndpointOk, WindowOk, PutMessage, Put, PutAll, Encode, EmptyWindow;
    var h := w.hash(seg);
    EncodeKnown(w.hash, s.a.codecCache, seg);
    PutAllOne(Ref(h));
    RefSize(h);
    OneFrame(Put(Ref(h)));
    var sent := PutMessage(Hello(s.a.uuid)) + PutMessage(Frame(Put(Ref(h))));
    assert [] + sent == sent && s.outA + [] == s.outA;
  }

  lemma {:induction false} OneFrame(data: Bytes)
    requires 0 < |data| <= MAX_FRAME
    ensures PutMessages(Frames(data)) == PutMessage(Frame(data))
  {
    assert data[..|data|] == data && data[|data|..] == [];
    assert Frames(data) == [Frame(data)];
    PutMessagesOne(Frame(data));
  }

  /** The end of a stream that has begun. */
  lemma {:induction false} EndSendsMore(w: World, s: System, seg: Bytes)
    requires CanTell(w, s.a, seg) && !s.a.sentEos
    ensures Enabled(w, s, End)
    ensures var s' := Do(w, s, End);
            && s'.ab == s.ab + PutMessage(Eos)
            && s' == s.(a := s'.a, ab := s'.ab)
            && CanTell(w, s'.a, seg) && s'.a.sentEos && s'.a.uuid == s.a.uuid
  {
    hide EndpointOk, WindowOk, PutMessage, Knows;
    assert [] + ([] + PutMessage(Eos)) == PutMessage(Eos) && s.outA + [] == s.outA;
  }

  /** A question is answered. */
  lemma {:induction false} ConsumeAsk(w: World, b: Endpoint, seg: Bytes)
    requires CanTell(w, b, seg)
    ensures DecoderConsume(w, b, PutMessage(Ask(w.hash(seg)))) == Run(b, PutMessage(Learn(seg)), [], false, false)
  {
    hide EndpointOk, WindowOk, Consuming;
    var m := Ask(w.hash(seg));
    var buf := PutMessage(m);
    BufferIsFree(b, buf);
    assert b.buffer + buf == buf == buf + [];
    var r0 := Run(b.(buffer := buf), [], [], false, false);
    ConsumeNext(w, r0, m, []);
    var r1 := Run(b.(buffer := []), [] + PutMessage(Learn(seg)), [], false, false);
    assert b.(buffer := []) == b;
    assert [] + PutMessage(Learn(seg)) == PutMessage(Learn(seg));
    ConsumeDone(w, r1);
  }

  // --- The answer -----------------------------------------------------------------------------------------------------

  /** The stream is read to its end, its end is passed on, but not acknowledged. */
  ghost predicate ReadUnacknowledged(ep: Endpoint) {
    ep.receivedEos && ep.frame == [] && ep.buffer == [] && ep.unknown == {} && ep.sentEosOut && !ep.sentEosAck && !ep.closed
  }

  /** A reference that has become known is decoded, and nothing is sent. */
  lemma {:induction false} SettleKnown(w: World, r: Run, h: Word)
    requires EndpointOk(r.ep) && r.ep.frame == Put(Ref(h)) && r.ep.unknown == {} && !r.failed && !r.paused && !r.ep.sentEosOut
    requires r.ep.decoder.Some?
    requires var cache := r.ep.registry[r.ep.decoder.value.uuid]; h in cache && cache[h] != []
    ensures var r' := Settle(w, r);
            && r'.ep == r.ep.(registry := r'.ep.registry, decoder := r'.ep.decoder, frame := [])
            && r'.sent == r.sent && !r'.failed && !r'.paused
            && r'.delivered == r.delivered + r.ep.registry[r.ep.decoder.value.uuid][h]
  {
    hide WindowOk, Decode, Put;
    var reader := r.ep.decoder.value;
    DecodeKnownRef(w.hash, r.ep.registry[reader.uuid], reader.window, h);
  }

  lemma {:induction false} ConsumeLearn(w: World, a: Endpoint, peer: Bytes, seg: Bytes)
    requires |seg| == SEGMENT_LENGTH && WaitsFor(a, peer, w.hash(seg))
    ensures var r := DecoderConsume(w, a, PutMessage(Learn(seg)));
            r.sent == [] && r.delivered == seg && !r.failed && ReadUnacknowledged(r.ep)
  {
    hide EndpointOk, WindowOk, Consuming, Settle, Put;
    var h, m := w.hash(seg), Learn(seg);
    var buf := PutMessage(m);
    BufferIsFree(a, buf);
    assert a.buffer + buf == buf == buf + [];
    var r0 := Run(a.(buffer := buf), [], [], false, false);
    ConsumeNext(w, r0, m, []);
    var t := r0.(ep := Taken(w, r0.ep, m).(buffer := []));
    assert {h} - {h} == {};
    SettleKnown(w, t, h);
    ConsumeDone(w, Settle(w, t));
    assert [] + seg == seg;
  }

  // --- The whole run ----------------------------------------------------------------------------------------------------

  /** B has sent `seg` as a reference and the end of its stream; A has not heard of it yet. */
  ghost predicate Told(w: World, s: System, seg: Bytes) {
    && FreshEnd(w, s.a) && EndpointOk(s.a) && CanTell(w, s.b, seg) && s.b.sentEos
    && |s.b.uuid| == UUID_SIZE && w.parses(s.b.uuid) && w.hash(seg) !in PeerCache(s.a.registry, s.b.uuid)
    && s.ab == [] && s.outA == [] && s.inB == seg
    && s.ba == PutMessage(Hello(s.b.uuid)) + (PutMessage(Frame(Put(Ref(w.hash(seg))))) + PutMessage(Eos))
  }

  /** A waits for an answer; question and answer are among the bytes under way. */
  ghost predicate Waits(w: World, s: System, seg: Bytes) {
    && WaitsFor(s.a, s.b.uuid, w.hash(seg)) && CanTell(w, s.b, seg) && s.b.sentEos
    && s.outA == [] && s.inB == seg
  }

  lemma {:induction false} Tells(w: World, s: System, seg: Bytes) returns (s1: System, s2: System)
    requires Init(w, s) && Knows(w, s.b.codecCache, seg) && w.hash(seg) !in PeerCache(s.a.registry, s.b.uuid)
    ensures LabelledStep(w, s, ByB(Data(seg)), s1) && LabelledStep(w, s1, ByB(End), s2) && Told(w, s2, seg)
  {
    hide EndpointOk, WindowOk, EncoderConsume, PutMessage, Put, PeerCache, SubCache, Knows;
    FreshIsOk(w, s.a);
    FreshIsOk(w, s.b);
    DataSends(w, Swap(s), seg);
    s1 := Swap(Do(w, Swap(s), Data(seg)));
    EndSendsMore(w, Swap(s1), seg);
    s2 := Swap(Do(w, Swap(s1), End));
    var hello, frame, eos := PutMessage(Hello(s.b.uuid)), PutMessage(Frame(Put(Ref(w.hash(seg))))), PutMessage(Eos);
    assert hello + frame + eos == hello + (frame + eos);
    assert [] + seg == seg;
  }

  lemma {:induction false} Asks(w: World, s: System, seg: Bytes) returns (l: Label, s': System)
    requires Told(w, s, seg)
    ensures LabelledStep(w, s, l, s') && Waits(w, s', seg) && s'.ab == PutMessage(Ask(w.hash(seg))) && s'.ba == []
  {
    hide EndpointOk, WindowOk, DecoderConsume, PutMessage, Put, PeerCache, WaitsFor, Knows;
    ConsumeUnknown(w, s.a, s.b.uuid, w.hash(seg));
    var e := Deliver(|s.ba|);
    assert s.ba[..|s.ba|] == s.ba;
    l, s' := ByA(e), Do(w, s, e);
    assert [] + s'.ab == s'.ab;
  }

  lemma {:induction false} Answers(w: World, s: System, seg: Bytes) returns (l: Label, s': System)
    requires Waits(w, s, seg) && s.ab == PutMessage(Ask(w.hash(seg))) && s.ba == []
    ensures LabelledStep(w, s, l, s') && Waits(w, s', seg) && s'.ab == [] && s'.ba == PutMessage(Learn(seg))
  {
    hide EndpointOk, WindowOk, DecoderConsume, PutMessage, Put, Knows;
    ConsumeAsk(w, s.b, seg);
    var e := Deliver(|s.ab|);
    assert s.ab[..|s.ab|] == s.ab;
    l, s' := ByB(e), Swap(Do(w, Swap(s), e));
    assert [] + PutMessage(Learn(seg)) == PutMessage(Learn(seg));
    assert s.outB + [] == s.outB;
  }

  lemma {:induction false} Learns(w: World, s: System, seg: Bytes) returns (l: Label, s': System)
    requires Waits(w, s, seg) && s.ab == [] && s.ba == PutMessage(Learn(seg))
    ensures LabelledStep(w, s, l, s') && ReadUnacknowledged(s'.a) && s'.b == s.b && s'.ab == [] && s'.ba == []
    ensures s'.outA == s'.inB == seg
  {
    hide EndpointOk, WindowOk, DecoderConsume, PutMessage, Put, ReadUnacknowledged;
    ConsumeLearn(w, s.a, s.b.uuid, seg);
    var e := Deliver(|s.ba|);
    assert s.ba[..|s.ba|] == s.ba;
    l, s' := ByA(e), Do(w, s, e);
    assert [] + seg == seg;
  }

  /**
    A run that leaves a stream unacknowledged. B sends one segment as a reference that A does not
    know, and ends; A asks, B answers. A has then delivered all of B's stream and its end, but has
    sent only its question, and nothing is under way in either direction.
  */
  lemma {:induction false} NeverAcknowledged(w: World, s: System, seg: Bytes) returns (ss: seq<System>, ls: seq<Label>)
    requires Init(w, s) && Knows(w, s.b.codecCache, seg) && w.hash(seg) !in PeerCache(s.a.registry, s.b.uuid)
    ensures |ss| == 6 && ss[0] == s && IsLabelledRun(w, ss, ls)
    ensures ReadUnacknowledged(ss[5].a) && ss[5].outA == ss[5].inB == seg && Quiet(ss[5])
  {
    hide LabelledStep, Init, Knows, PeerCache, WaitsFor, Told, PutMessage, ReadUnacknowledged, CanTell;
    var s1, s2 := Tells(w, s, seg);
    var l3, s3 := Asks(w, s2, seg);
    var l4, s4 := Answers(w, s3, seg);
    var l5, s5 := Learns(w, s4, seg);
    ss, ls := [s, s1, s2, s3, s4, s5], [ByB(Data(seg)), ByB(End), l3, l4, l5];
  }

  /** B has ended its stream and nothing is under way. */
  ghost predicate Quiet(s: System) {
    s.ab == [] && s.ba == [] && s.b.sentEos
  }

  lemma {:induction false} QuietEvent(w: World, s: System, e: Event, s': System)
    requires StepOf(w, s, e, s') && s.ba == [] && !e.Data? && !e.End?
    ensures Output(w, s, e) == [] && s'.ab == s.ab && s'.ba == s.ba && s'.b == s.b
    ensures s'.a.sentEos == s.a.sentEos && s'.a.sentEosAck == s.a.sentEosAck
  {
    hide EndpointOk, WindowOk, Consuming, Ending, CacheOk, SubCache, PeerCache;
    if e.PeerClosed? {
      PeerClosedDoes(w, s);
    }
  }

  /** Nothing comes of a quiet state by itself. */
  lemma {:induction false} QuietStep(w: World, s: System, l: Label, s': System)
    requires Quiet(s) && LabelledStep(w, s, l, s')
    requires !(l.ByA? && (l.e.Data? || l.e.End?))
    ensures Quiet(s') && s'.a.sentEosAck == s.a.sentEosAck
    ensures l.ByA? ==> Output(w, s, l.e) == []
    ensures l.ByB? ==> Output(w, Swap(s), l.e) == []
  {
    hide EndpointOk, Do, Output, CacheOk, SubCache, PeerCache;
    if l.ByA? {
      QuietEvent(w, s, l.e, s');
    } else {
      QuietEvent(w, Swap(s), l.e, Swap(s'));
    }
  }

  /**
    From then on, whatever other streams do, neither end sends anything until A's own stream brings
    data or ends: an end of stream that was not acknowledged stays so.
  */
  lemma {:induction false} StaysQuiet(w: World, ss: seq<System>, ls: seq<Label>, i: nat, n: nat)
    requires IsLabelledRun(w, ss, ls) && i <= n <= |ls| && Quiet(ss[i])
    requires forall j :: i <= j < n ==> !(ls[j].ByA? && (ls[j].e.Data? || ls[j].e.End?))
    ensures Quiet(ss[n]) && ss[n].a.sentEosAck == ss[i].a.sentEosAck
    ensures WroteA(w, ss, ls, n) == WroteA(w, ss, ls, i) && WroteB(w, ss, ls, n) == WroteB(w, ss, ls, i)
    decreases n
  {
    hide Init, LabelledStep, Output;
    if i < n {
      StaysQuiet(w, ss, ls, i, n - 1);
      assert LabelledStep(w, ss[n - 1], ls[n - 1], ss[n - 1 + 1]);
      QuietStep(w, ss[n - 1], ls[n - 1], ss[n]);
    }
  }
}
