/** A whole call of `decoder_consume` keeps the invariant of the protocol. */
module ProtocolCall {
  import opened Bytes
  import opened Window
  import opened Stream
  import opened Decoder
  import opened Pipe
  import opened PipeParse
  import opened Protocol
  import opened ProtocolTake
  import opened ProtocolSettle

  /** The system in which A has got as far as `r`. */
  function At(s: System, r: Run): System {
    s.(a := r.ep, ab := s.ab + r.sent, outA := s.outA + r.delivered, failed := s.failed || r.failed)
  }

  /** A is between two messages: nothing failed and nothing decodable is left. */
  ghost predicate Between(w: World, s: System, r: Run, f: Link, g: Link) {
    && EndpointOk(r.ep)
    && Working(w, At(s, r), f, g)
    && Settled(r.ep.unknown, r.ep.frame, g.toks, g.k)
    && !r.failed && !r.ep.closed
  }

  /** What is left in the buffer is less than a message. */
  ghost predicate Drained(buffer: Bytes, msgs: seq<Message>) {
    buffer != [] ==> msgs != [] && buffer < PutMessage(msgs[0])
  }

  /** Messages are added behind `l`, and taken from the front of `back`. */
  predicate Moves(l: Link, l': Link, back: Link, back': Link) {
    && l.msgs <= l'.msgs
    && |back'.msgs| <= |back.msgs| && back'.msgs == back.msgs[|back.msgs| - |back'.msgs|..]
  }

  lemma {:induction false} MovesTrans(f: Link, f1: Link, f2: Link, g: Link, g1: Link, g2: Link)
    requires Moves(f, f1, g, g1) && Moves(f1, f2, g1, g2)
    ensures Moves(f, f2, g, g2)
  {
  }

  /**
    At rest, an end has closed its channel exactly if it has acknowledged and been acknowledged, and,
    with no part of a message in its buffer, has passed on the end of a stream exactly if it has read
    all of it.
  */
  predicate Concluded(ep: Endpoint) {
    && (ep.closed <==> ep.sentEosAck && ep.receivedEosAck)
    && (ep.buffer == [] ==> (ep.sentEosOut <==> ep.receivedEos && ep.frame == []))
  }

  // --- Acknowledgements -----------------------------------------------------------------------------------

  /** Of an end that has read its peer's stream to the end: it has acknowledged that unless `m`, the last message, is an answer. */
  predicate AckedAfter(ep: Endpoint, m: Message) {
    ep.receivedEos && ep.frame == [] ==> (ep.sentEosAck <==> !m.Learn?)
  }

  predicate SameAck(ep: Endpoint, ep': Endpoint) {
    ep'.receivedEos == ep.receivedEos && ep'.frame == ep.frame && ep'.sentEosAck == ep.sentEosAck
  }

  /** What taking messages from the front of `back` does to the acknowledgement. */
  predicate AckMoves(ep: Endpoint, ep': Endpoint, back: Link, back': Link) {
    var n := |back.msgs| - |back'.msgs|;
    if n <= 0 then SameAck(ep, ep') else AckedAfter(ep', back.msgs[n - 1])
  }

  lemma {:induction false} AckMovesTrans(ep: Endpoint, ep1: Endpoint, ep2: Endpoint, f: Link, f1: Link, f2: Link, g: Link, g1: Link, g2: Link)
    requires Moves(f, f1, g, g1) && Moves(f1, f2, g1, g2)
    requires AckMoves(ep, ep1, g, g1) && AckMoves(ep1, ep2, g1, g2)
    ensures AckMoves(ep, ep2, g, g2)
  {
    hide AckMoves;
    if |g2.msgs| < |g1.msgs| {
      AckMovesLater(ep, ep1, ep2, g, g1, g2);
    } else {
      AckMovesBefore(ep, ep1, ep2, g, g1, g2);
    }
  }

  lemma {:induction false} AckMovesLater(ep: Endpoint, ep1: Endpoint, ep2: Endpoint, g: Link, g1: Link, g2: Link)
    requires |g2.msgs| < |g1.msgs| <= |g.msgs| && g1.msgs == g.msgs[|g.msgs| - |g1.msgs|..]
    requires AckMoves(ep1, ep2, g1, g2)
    ensures AckMoves(ep, ep2, g, g2)
  {
    hide AckedAfter, SameAck;
    assert g1.msgs[|g1.msgs| - |g2.msgs| - 1] == g.msgs[|g.msgs| - |g2.msgs| - 1];
  }

  lemma {:induction false} AckMovesBefore(ep: Endpoint, ep1: Endpoint, ep2: Endpoint, g: Link, g1: Link, g2: Link)
    requires |g2.msgs| == |g1.msgs| <= |g.msgs|
    requires AckMoves(ep, ep1, g, g1) && AckMoves(ep1, ep2, g1, g2)
    ensures AckMoves(ep, ep2, g, g2)
  {
  }

  /** Before an answer, there is something to decode; after any other message only a frame gives something to decode. */
  lemma {:induction false} TakenLeaves(w: World, a: Endpoint, b: Endpoint, chan: Bytes, input: Bytes, output: Bytes, g: Link, back: seq<Message>)
    requires EndpointOk(a) && LinkOk(w, b, a, chan, input, output, g, back) && Settled(a.unknown, a.frame, g.toks, g.k)
    requires g.msgs != [] && Acceptable(w, a, g.msgs[0])
    ensures var m := g.msgs[0];
            var t := Taken(w, a, m);
            if m.Learn? then t.frame != []
            else if m.Frame? then !t.receivedEos
            else Settled(t.unknown, t.frame, g.toks, g.k)
  {
    hide WindowOk, EndpointOk, Met, Acceptable, Taken, Written, ReadSoFar, Follows, Holds, Queued, Wants, Asked, Ends, Settled;
    var m := g.msgs[0];
    assert SeeOne(SeenBy(a), m, b.uuid).Some?;
    TakenSame(w, a, m);
    if m.Learn? {
      AnswerHasFrame(w.hash, b.codecCache, a.unknown, a.frame, g, back);
    }
  }

  lemma {:induction false} TakenSame(w: World, a: Endpoint, m: Message)
    requires EndpointOk(a) && Acceptable(w, a, m)
    ensures var t := Taken(w, a, m);
            && (!m.Frame? ==> t.frame == a.frame)
            && (!m.Learn? ==> t.unknown == a.unknown)
            && (!m.Eos? ==> t.receivedEos == a.receivedEos)
  {
    hide WindowOk, EndpointOk, Met;
  }

  lemma {:induction false} AnswerHasFrame(hash: Hasher, cache: Cache, unknown: set<Word>, frame: Bytes, l: Link, back: seq<Message>)
    requires Asked(hash, cache, unknown, l, back) && Wants(unknown, frame, l.toks, l.k)
    requires l.msgs != [] && l.msgs[0].Learn?
    ensures frame != []
  {
    hide Asked, Put;
    LearnAnswers(hash, cache, unknown, frame, l, back);
    assert hash(l.msgs[0].seg) in unknown;
  }

  /** The branch in which an acknowledgement is forgotten: an answer that lets the last data be decoded. */
  lemma {:induction false} SettleAcks(w: World, s: System, t: Run, f: Link, g: Link, m: Message)
    requires EndpointOk(t.ep) && Working(w, At(s, t), f, g)
    requires if m.Learn? then t.ep.frame != []
             else if m.Frame? then !t.ep.receivedEos
             else Settled(t.ep.unknown, t.ep.frame, g.toks, g.k)
    ensures AckedAfter(Settle(w, t).ep, m)
  {
    hide WindowOk, Written, ReadSoFar, Follows, Holds, Queued, Wants, Asked, See, Settled, DecodeOutcome;
    if t.ep.receivedEos && !m.Learn? && !m.Frame? {
      RestedAtEnd(w, s.b, t.ep, s.ba, s.inB, s.outA + t.delivered, g, f.msgs);
    }
  }

  // --- After a message ------------------------------------------------------------------------------------

  lemma {:induction false} SettleIdle(w: World, s: System, t: Run, f: Link, g: Link)
    requires EndpointOk(t.ep) && Working(w, At(s, t), f, g) && !t.failed && !t.ep.closed
    requires t.ep.frame == [] || t.ep.unknown != {}
    requires t.ep.frame == [] ==> !t.ep.receivedEos || t.ep.sentEosAck
    ensures Between(w, s, Settle(w, t), f, g) && Settle(w, t) == t
  {
    hide WindowOk, LinkOk, Put, EndpointOk;
  }

  lemma {:induction false} SettleAck(w: World, s: System, t: Run, f: Link, g: Link)
    requires EndpointOk(t.ep) && Working(w, At(s, t), f, g) && !t.failed && !t.ep.closed
    requires t.ep.frame == [] && t.ep.receivedEos && !t.ep.sentEosAck
    ensures Between(w, s, Settle(w, t), f.(msgs := f.msgs + [EosAck]), g) && Settle(w, t).paused == t.paused
  {
    hide WindowOk, LinkOk, Put;
    AckKeeps(w, At(s, t), f, g);
    assert s.ab + (t.sent + PutMessage(EosAck)) == s.ab + t.sent + PutMessage(EosAck);
  }

  lemma {:induction false} FrameOpen(w: World, x: Endpoint, y: Endpoint, chan: Bytes, input: Bytes, output: Bytes, l: Link, back: seq<Message>)
    requires LinkOk(w, x, y, chan, input, output, l, back) && y.frame != []
    ensures !y.sentEosOut
  {
  }

  lemma {:induction false} SettleDecode(w: World, s: System, t: Run, f: Link, g: Link) returns (f': Link, g': Link)
    requires EndpointOk(t.ep) && Working(w, At(s, t), f, g) && !t.failed && !t.ep.closed
    requires t.ep.frame != [] && t.ep.unknown == {}
    ensures Between(w, s, Settle(w, t), f', g') && Settle(w, t).paused == t.paused
    ensures Moves(f, f', g, g') && g'.msgs == g.msgs
  {
    hide WindowOk, LinkOk, Put, DecodeOutcome, Settled, ReadSoFar, Holds;
    var k := DecodeKeeps(w, At(s, t), f, g);
    var d := DecodeOutcome(t.ep, w.hash);
    FrameOpen(w, s.b, t.ep, s.ba, s.inB, s.outA + t.delivered, g, f.msgs);
    f', g' := AskLink(f, d), g.(k := k);
    assert t.ep.unknown + {} == {};
    if d.ask.Some? {
      assert d.ask.value in Absorb(t.ep, d).unknown;
      assert s.ab + (t.sent + PutMessage(Ask(d.ask.value))) == s.ab + t.sent + PutMessage(Ask(d.ask.value));
    } else {
      assert s.ab + t.sent + [] == s.ab + t.sent;
    }
    assert s.outA + (t.delivered + d.out) == s.outA + t.delivered + d.out;
    assert At(s, Settle(w, t)) == AfterDecode(w, At(s, t));
  }

  lemma {:induction false} SettleKeeps(w: World, s: System, t: Run, f: Link, g: Link) returns (f': Link, g': Link)
    requires EndpointOk(t.ep) && Working(w, At(s, t), f, g) && !t.failed && !t.ep.closed
    ensures Between(w, s, Settle(w, t), f', g') && Settle(w, t).paused == t.paused
    ensures Moves(f, f', g, g') && g'.msgs == g.msgs
  {
    hide WindowOk, LinkOk, Settle, Between, Working, EndpointOk;
    if t.ep.frame == [] && t.ep.receivedEos && !t.ep.sentEosAck {
      SettleAck(w, s, t, f, g);
      f', g' := f.(msgs := f.msgs + [EosAck]), g;
    } else if t.ep.frame != [] && t.ep.unknown == {} {
      f', g' := SettleDecode(w, s, t, f, g);
    } else {
      SettleIdle(w, s, t, f, g);
      f', g' := f, g;
    }
  }

  // --- The loop ------------------------------------------------------------------------------------------------

  /** The first message is either wholly in the buffer or the buffer is part of it. */
  lemma {:induction false} FirstMessage(buffer: Bytes, chan: Bytes, msgs: seq<Message>)
    requires Queued(buffer, chan, msgs) && buffer != []
    ensures msgs != [] && MessageOk(msgs[0])
    ensures |buffer| < |PutMessage(msgs[0])| ==> buffer < PutMessage(msgs[0])
    ensures |buffer| >= |PutMessage(msgs[0])| ==> buffer == PutMessage(msgs[0]) + buffer[|PutMessage(msgs[0])|..]
  {
    hide PutMessage, MessageOk;
    var first, all := PutMessage(msgs[0]), buffer + chan;
    assert all == first + PutMessages(msgs[1..]);
    if |buffer| < |first| {
      assert buffer == all[..|buffer|] == first[..|buffer|];
    } else {
      assert buffer[..|first|] == all[..|first|] == first;
    }
  }

  lemma {:induction false} LoopTakes(w: World, s: System, r: Run, f: Link, g: Link) returns (f': Link, g': Link)
    requires Between(w, s, r, f, g) && !r.paused && r.ep.buffer != []
    requires g.msgs != [] && MessageOk(g.msgs[0]) && |r.ep.buffer| >= |PutMessage(g.msgs[0])|
    requires r.ep.buffer == PutMessage(g.msgs[0]) + r.ep.buffer[|PutMessage(g.msgs[0])|..]
    ensures var t := Take(w, r);
            && !t.failed && !t.paused
            && Between(w, s, Settle(w, t), f', g') && !Settle(w, t).paused
            && AckMoves(r.ep, Settle(w, t).ep, g, g')
    ensures Moves(f, f', g, g')
  {
    hide WindowOk, LinkOk, PutMessage, EndpointOk, Take, Settle, Acceptable, MessageOk, Settled, Taken, Replied, AfterTake;
    var m, rest := g.msgs[0], r.ep.buffer[|PutMessage(g.msgs[0])|..];
    var here := At(s, r);
    AcceptableHead(w, here, f, g);
    TakeWhole(w, r, m, rest);
    if m.Ask? {
      AskAcceptable(w, r.ep, m);
    }
    TakeKeeps(w, here, f, g, rest);
    var t := Take(w, r);
    TakenAt(w, s, r, m, rest);
    var f1, g1 := ReplyLink(f, r.ep, m), g.(msgs := g.msgs[1..]);
    f', g' := SettleKeeps(w, s, t, f1, g1);
    MovesTrans(f, f1, f', g, g1, g');
    TakenAcks(w, s, r, t, f, f1, g, g1, rest);
  }

  /** The decoder starts with a reference that it knows. */
  lemma {:induction false} DecodesKnown(hash: Hasher, cache: Cache, win: Window, h: Word, frame: Bytes)
    requires WindowOk(win) && h in cache && Put(Ref(h)) <= frame
    ensures cache[h] <= Decode(hash, cache, win, frame).out
  {
    hide WindowOk, Declared;
    var s := Put(Ref(h));
    assert frame[..|s|] == s;
    assert frame[0] == s[0] && frame[1] == s[1] && frame[2..10] == s[2..] == PutWord(h);
    WordRoundTrip(h);
  }

  /** The reference that A waits for is the one that the answer teaches. */
  lemma {:induction false} AnswerFits(hash: Hasher, cache: Cache, unknown: set<Word>, frame: Bytes, l: Link, back: seq<Message>)
    requires Asked(hash, cache, unknown, l, back) && Wants(unknown, frame, l.toks, l.k)
    requires l.msgs != [] && l.msgs[0].Learn?
    ensures var h := hash(l.msgs[0].seg);
            unknown == {h} && Put(Ref(h)) <= frame
  {
    hide Asked, Put;
    LearnAnswers(hash, cache, unknown, frame, l, back);
    var h := hash(l.msgs[0].seg);
    assert h in unknown;
    assert l.toks[l.k] == Ref(h);
  }

  lemma {:induction false} LearnTaken(w: World, a: Endpoint, seg: Bytes)
    requires EndpointOk(a) && Acceptable(w, a, Learn(seg))
    ensures var t, h := Taken(w, a, Learn(seg)), w.hash(seg);
            && t.decoder == a.decoder && t.frame == a.frame && t.unknown == a.unknown - {h}
            && t.decoder.Some? && t.decoder.value.uuid in t.registry
            && h in t.registry[t.decoder.value.uuid] && t.registry[t.decoder.value.uuid][h] == seg
  {
  }

  /** With the hash known, the frame buffer that waited for it is decoded, and the segment delivered. */
  lemma {:induction false} SettleDelivers(w: World, t: Run, h: Word, seg: Bytes)
    requires EndpointOk(t.ep) && t.ep.decoder.Some? && t.ep.unknown == {} && Put(Ref(h)) <= t.ep.frame
    requires h in t.ep.registry[t.ep.decoder.value.uuid] && t.ep.registry[t.ep.decoder.value.uuid][h] == seg
    ensures !Settle(w, t).failed ==> t.delivered + seg <= Settle(w, t).delivered
  {
    hide WindowOk, Decode, Put;
    var reader := t.ep.decoder.value;
    DecodesKnown(w.hash, t.ep.registry[reader.uuid], reader.window, h, t.ep.frame);
    var d := DecodeOutcome(t.ep, w.hash);
    assert d.out == seg + d.out[|seg|..];
    assert t.delivered + d.out == t.delivered + seg + d.out[|seg|..];
  }

  lemma {:induction false} BetweenFits(w: World, s: System, r: Run, f: Link, g: Link)
    requires Between(w, s, r, f, g) && g.msgs != [] && g.msgs[0].Learn?
    ensures var h := w.hash(g.msgs[0].seg);
            r.ep.unknown == {h} && Put(Ref(h)) <= r.ep.frame
  {
    hide WindowOk, EndpointOk, Settled, Written, ReadSoFar, Follows, Holds, Queued, Wants, Asked, See, Ends, Put;
    AnswerFits(w.hash, s.b.codecCache, r.ep.unknown, r.ep.frame, g, f.msgs);
  }

  /** An answer is used at once: the segment that it teaches is the next to be delivered. */
  lemma {:induction false} AnswerDelivers(w: World, s: System, r: Run, f: Link, g: Link)
    requires Between(w, s, r, f, g) && !r.paused && r.ep.buffer != []
    requires g.msgs != [] && MessageOk(g.msgs[0]) && g.msgs[0].Learn? && |r.ep.buffer| >= |PutMessage(g.msgs[0])|
    requires r.ep.buffer == PutMessage(g.msgs[0]) + r.ep.buffer[|PutMessage(g.msgs[0])|..]
    ensures r.delivered + g.msgs[0].seg <= Settle(w, Take(w, r)).delivered
  {
    hide WindowOk, LinkOk, PutMessage, EndpointOk, Take, Settle, Acceptable, MessageOk, Settled, Taken, Put;
    var m, rest := g.msgs[0], r.ep.buffer[|PutMessage(g.msgs[0])|..];
    AcceptableHead(w, At(s, r), f, g);
    TakeWhole(w, r, m, rest);
    BetweenFits(w, s, r, f, g);
    hide Between;
    var f', g' := LoopTakes(w, s, r, f, g);
    var t := Take(w, r);
    TakenDelivers(w, r, t, m.seg, rest);
    NotFailed(w, s, Settle(w, t), f', g');
  }

  lemma {:induction false} NotFailed(w: World, s: System, r: Run, f: Link, g: Link)
    requires Between(w, s, r, f, g)
    ensures !r.failed
  {
  }

  lemma {:induction false} TakenDelivers(w: World, r: Run, t: Run, seg: Bytes, rest: Bytes)
    requires EndpointOk(r.ep) && Acceptable(w, r.ep, Learn(seg)) && EndpointOk(t.ep)
    requires t == r.(ep := Taken(w, r.ep, Learn(seg)).(buffer := rest))
    requires r.ep.unknown == {w.hash(seg)} && Put(Ref(w.hash(seg))) <= r.ep.frame
    ensures !Settle(w, t).failed ==> r.delivered + seg <= Settle(w, t).delivered
  {
    hide WindowOk, EndpointOk, Settle, Acceptable, Taken, Put;
    var h := w.hash(seg);
    LearnTaken(w, r.ep, seg);
    assert {h} - {h} == {};
    SettleDelivers(w, t, h, seg);
  }

  lemma {:induction false} TakenAcks(w: World, s: System, r: Run, t: Run, f: Link, f1: Link, g: Link, g1: Link, rest: Bytes)
    requires Between(w, s, r, f, g) && g.msgs != [] && g1 == g.(msgs := g.msgs[1..])
    requires Acceptable(w, r.ep, g.msgs[0]) && t.ep == Taken(w, r.ep, g.msgs[0]).(buffer := rest)
    requires EndpointOk(t.ep) && Working(w, At(s, t), f1, g1)
    ensures AckedAfter(Settle(w, t).ep, g.msgs[0])
  {
    hide WindowOk, LinkOk, EndpointOk, Settle, Acceptable, Settled, Taken, AckedAfter;
    TakenLeaves(w, r.ep, s.b, s.ba, s.inB, s.outA + r.delivered, g, f.msgs);
    SettleAcks(w, s, t, f1, g1, g.msgs[0]);
  }

  lemma {:induction false} TakenAt(w: World, s: System, r: Run, m: Message, rest: Bytes)
    requires EndpointOk(r.ep) && Acceptable(w, r.ep, m) && !r.ep.closed && !r.failed && !r.paused
    requires m.Ask? ==> m.hash in r.ep.codecCache
    ensures var t := Replied(r.(ep := Taken(w, r.ep, m).(buffer := rest)), m);
            && !t.failed && !t.paused && !t.ep.closed
            && At(s, t) == AfterTake(w, At(s, r), m, rest)
  {
    hide WindowOk, PutMessage, EmptyWindow;
    if m.Ask? {
      var reply := PutMessage(Learn(r.ep.codecCache[m.hash]));
      assert s.ab + (r.sent + reply) == s.ab + r.sent + reply;
    } else {
      assert s.ab + r.sent + [] == s.ab + r.sent;
    }
  }

  lemma {:induction false} LoopKeeps(w: World, s: System, r: Run, f: Link, g: Link) returns (f': Link, g': Link)
    requires Between(w, s, r, f, g) && !r.paused
    ensures var r' := Consuming(w, r);
            && Between(w, s, r', f', g')
            && Drained(r'.ep.buffer, g'.msgs)
            && (r'.paused <==> r'.ep.buffer != [])
            && AckMoves(r.ep, r'.ep, g, g')
    ensures Moves(f, f', g, g')
    decreases |r.ep.buffer|
  {
    hide WindowOk, LinkOk, PutMessage, Take, Settle, MessageOk, EndpointOk, Acceptable, Settled;
    f', g' := f, g;
    assert Moves(f, f, g, g) && AckMoves(r.ep, r.ep, g, g);
    hide Moves, AckMoves;
    if r.ep.buffer != [] {
      var m := NextMessage(w, At(s, r), f, g);
      if |r.ep.buffer| < |PutMessage(m)| {
        AcceptableHead(w, At(s, r), f, g);
        TakePartial(w, r, m);
      } else {
        var f1, g1 := LoopTakes(w, s, r, f, g);
        f', g' := LoopKeeps(w, s, Settle(w, Take(w, r)), f1, g1);
        MovesTrans(f, f1, f', g, g1, g');
        AckMovesTrans(r.ep, Settle(w, Take(w, r)).ep, Consuming(w, r).ep, f, f1, f', g, g1, g');
      }
    }
  }

  lemma {:induction false} NextMessage(w: World, s: System, f: Link, g: Link) returns (m: Message)
    requires Working(w, s, f, g) && s.a.buffer != []
    ensures g.msgs != [] && m == g.msgs[0] && MessageOk(m)
    ensures |s.a.buffer| < |PutMessage(m)| ==> s.a.buffer < PutMessage(m)
    ensures |s.a.buffer| >= |PutMessage(m)| ==> s.a.buffer == PutMessage(m) + s.a.buffer[|PutMessage(m)|..]
  {
    hide PutMessage, MessageOk, Queued, WindowOk;
    FirstMessage(s.a.buffer, s.ba, g.msgs);
    m := g.msgs[0];
  }

  // --- After the loop -------------------------------------------------------------------------------------------

  lemma {:induction false} FlagsKeep(w: World, s: System, f: Link, g: Link, a: Endpoint)
    requires Working(w, s, f, g)
    requires a == s.a.(sentEosOut := a.sentEosOut, closed := a.closed) && Ends(a)
    ensures EndpointOk(a) && Working(w, s.(a := a), f, g)
  {
    hide WindowOk, Written, ReadSoFar, Follows, Holds, Queued, Wants, Asked, See, Settled;
  }

  lemma {:induction false} EndingKeeps(w: World, s: System, r: Run, f: Link, g: Link)
    requires Between(w, s, r, f, g) && !r.paused && r.ep.buffer == []
    ensures var r' := Ending(r);
            && !r'.failed
            && Working(w, At(s, r'), f, g)
            && Settled(r'.ep.unknown, r'.ep.frame, g.toks, g.k)
            && r'.ep.buffer == []
            && SameAck(r.ep, r'.ep) && Concluded(r'.ep)
  {
    hide WindowOk, Written, ReadSoFar, Follows, Holds, Queued, Wants, Asked, See, Settled;
    var here := At(s, r);
    if r.ep.receivedEos {
      RestedAtEnd(w, s.b, r.ep, s.ba, s.inB, s.outA + r.delivered, g, f.msgs);
    }
    FlagsKeep(w, here, f, g, Ending(r).ep);
  }

  /** One whole call with some more bytes of the channel. */
  lemma {:induction false} ConsumeKeeps(w: World, s: System, f: Link, g: Link, buf: Bytes, more: Bytes) returns (f': Link, g': Link)
    requires Working(w, s, f, g) && Settled(s.a.unknown, s.a.frame, g.toks, g.k)
    requires buf != [] && s.ba == buf + more
    ensures var r := DecoderConsume(w, s.a, buf);
            && !r.failed
            && Working(w, At(s.(ba := more), r), f', g')
            && Settled(r.ep.unknown, r.ep.frame, g'.toks, g'.k)
            && Drained(r.ep.buffer, g'.msgs)
            && AckMoves(s.a, r.ep, g, g') && Concluded(r.ep)
    ensures Moves(f, f', g, g')
  {
    hide WindowOk, LinkOk, Consuming, Ending, EndpointOk, Settled, PutMessage, Moves;
    NotClosed(w, s, f, g);
    var s0 := s.(ba := more);
    var r0 := Run(s.a.(buffer := s.a.buffer + buf), [], [], false, false);
    Arrives(w, s, f, g, buf, more);
    assert At(s0, r0) == s0.(a := r0.ep) by {
      assert s.ab + [] == s.ab && s.outA + [] == s.outA;
    }
    f', g' := LoopKeeps(w, s0, r0, f, g);
    var r := Consuming(w, r0);
    if r.paused {
      PausedIsOpen(w, s0, r, f', g');
    } else {
      EndingKeeps(w, s0, r, f', g');
    }
  }

  /** With part of a message in its buffer, an end cannot have acknowledged and been acknowledged. */
  lemma {:induction false} PausedIsOpen(w: World, s: System, r: Run, f: Link, g: Link)
    requires Between(w, s, r, f, g) && r.ep.buffer != []
    ensures Concluded(r.ep)
  {
    hide WindowOk, LinkOk, EndpointOk, Settled;
    if r.ep.sentEosAck && r.ep.receivedEosAck {
      NothingComes(w, At(s, r), f, g);
    }
  }

  lemma {:induction false} NotClosed(w: World, s: System, f: Link, g: Link)
    requires Working(w, s, f, g) && s.ba != []
    ensures !s.a.closed
  {
    hide WindowOk, Written, ReadSoFar, Follows, Holds, Queued, Wants, Asked, See, Settled;
    if s.a.closed {
      NothingComes(w, s, f, g);
      assert false;
    }
  }

  /** Bytes move from the channel into the buffer. */
  lemma {:induction false} Arrives(w: World, s: System, f: Link, g: Link, buf: Bytes, more: Bytes)
    requires Working(w, s, f, g) && s.ba == buf + more
    ensures EndpointOk(s.a.(buffer := s.a.buffer + buf))
    ensures Working(w, s.(a := s.a.(buffer := s.a.buffer + buf), ba := more), f, g)
  {
    hide WindowOk, Written, ReadSoFar, Follows, Holds, Wants, Asked, See, Settled, PutMessages;
    assert s.a.buffer + s.ba == s.a.buffer + buf + more;
  }
}
