/** From bytes to messages: what the switch of `decoder_consume` does with whole and partial messages. */
module PipeParse {
  import opened Bytes
  import opened Hash
  import opened Window
  import opened Pipe

  // --- Message lists ------------------------------------------------------------------------------

  lemma {:induction false} PutMessagesConcat(a: seq<Message>, b: seq<Message>)
    ensures PutMessages(a + b) == PutMessages(a) + PutMessages(b)
  {
    hide PutMessage;
    if a == [] {
      assert [] + b == b;
    } else {
      assert (a + b)[0] == a[0] && (a + b)[1..] == a[1..] + b;
      PutMessagesConcat(a[1..], b);
    }
  }

  lemma {:induction false} PutMessagesOne(m: Message)
    ensures PutMessages([m]) == PutMessage(m)
  {
    assert [m][1..] == [];
  }

  /** The encoded data that the frames of a message list carry. */
  function FrameData(ms: seq<Message>): Bytes {
    if ms == [] then []
    else (if ms[0].Frame? then ms[0].data else []) + FrameData(ms[1..])
  }

  lemma {:induction false} FrameDataConcat(a: seq<Message>, b: seq<Message>)
    ensures FrameData(a + b) == FrameData(a) + FrameData(b)
  {
    if a == [] {
      assert [] + b == b;
    } else {
      assert (a + b)[0] == a[0] && (a + b)[1..] == a[1..] + b;
      FrameDataConcat(a[1..], b);
    }
  }

  /** `encode_frame` loses and reorders nothing. */
  lemma {:induction false} FramesCarry(data: Bytes)
    ensures FrameData(Frames(data)) == data
    decreases |data|
  {
    if data != [] {
      var n := Min(|data|, MAX_FRAME);
      FramesCarry(data[n..]);
      assert Frames(data)[1..] == Frames(data[n..]);
      assert data[..n] + data[n..] == data;
    }
  }

  /** Every frame but the last is full, so there are as few as can be. */
  lemma {:induction false} FramesFull(data: Bytes)
    ensures forall i :: 0 <= i < |Frames(data)| - 1 ==> |Frames(data)[i].data| == MAX_FRAME
    ensures (|Frames(data)| - 1) * MAX_FRAME < |data| || data == []
    ensures |data| <= |Frames(data)| * MAX_FRAME
    decreases |data|
  {
    if data != [] {
      var n := Min(|data|, MAX_FRAME);
      FramesFull(data[n..]);
      var rest := Frames(data[n..]);
      assert Frames(data) == [Frame(data[..n])] + rest;
    }
  }

  /** The hashes asked for in a message list. */
  function AskedIn(ms: seq<Message>): seq<Word> {
    if ms == [] then []
    else (if ms[0].Ask? then [ms[0].hash] else []) + AskedIn(ms[1..])
  }

  /** The hashes of the segments taught in a message list. */
  function TaughtIn(hash: Hasher, ms: seq<Message>): seq<Word> {
    if ms == [] then []
    else (if ms[0].Learn? then [hash(ms[0].seg)] else []) + TaughtIn(hash, ms[1..])
  }

  lemma {:induction false} AskedConcat(a: seq<Message>, b: seq<Message>)
    ensures AskedIn(a + b) == AskedIn(a) + AskedIn(b)
  {
    if a == [] {
      assert [] + b == b;
    } else {
      assert (a + b)[0] == a[0] && (a + b)[1..] == a[1..] + b;
      AskedConcat(a[1..], b);
    }
  }

  lemma {:induction false} TaughtConcat(hash: Hasher, a: seq<Message>, b: seq<Message>)
    ensures TaughtIn(hash, a + b) == TaughtIn(hash, a) + TaughtIn(hash, b)
  {
    if a == [] {
      assert [] + b == b;
    } else {
      assert (a + b)[0] == a[0] && (a + b)[1..] == a[1..] + b;
      TaughtConcat(hash, a[1..], b);
    }
  }

  lemma {:induction false} NothingAsked(hash: Hasher, ms: seq<Message>)
    requires forall i :: 0 <= i < |ms| ==> !ms[i].Ask? && !ms[i].Learn?
    ensures AskedIn(ms) == [] && TaughtIn(hash, ms) == []
  {
    if ms != [] {
      NothingAsked(hash, ms[1..]);
    }
  }

  // --- Taking a message -----------------------------------------------------------------------------

  /** The conditions under which a message is not an error. */
  ghost predicate Acceptable(w: World, ep: Endpoint, m: Message)
    requires EndpointOk(ep)
  {
    match m
    case Hello(uuid) => ep.decoder.None? && w.parses(uuid)
    case Ask(h) => ep.encoder.Some? && h in ep.codecCache
    case Learn(seg) =>
      && ep.decoder.Some?
      && var cache := ep.registry[ep.decoder.value.uuid];
         w.hash(seg) in cache ==> cache[w.hash(seg)] == seg
    case Eos => !ep.receivedEos
    case EosAck => ep.sentEos && !ep.receivedEosAck
    case Frame(_) => ep.decoder.Some?
  }

  /** The end after a message, apart from the buffer. */
  function Taken(w: World, ep: Endpoint, m: Message): Endpoint
    requires EndpointOk(ep) && Acceptable(w, ep, m)
  {
    match m
    case Hello(uuid) => Met(ep, uuid)
    case Ask(_) => ep
    case Learn(seg) =>
      var peer := ep.decoder.value.uuid;
      var learned: Cache := ep.registry[peer][w.hash(seg) := seg];
      ep.(unknown := ep.unknown - {w.hash(seg)}, registry := ep.registry[peer := learned])
    case Eos => ep.(receivedEos := true)
    case EosAck => ep.(receivedEosAck := true)
    case Frame(data) => ep.(frame := ep.frame + data)
  }

  function Replied(r: Run, m: Message): (r': Run)
    requires m.Ask? ==> m.hash in r.ep.codecCache
    ensures r'.ep == r.ep
  {
    if m.Ask? then Send(r, PutMessage(Learn(r.ep.codecCache[m.hash]))) else r
  }

  lemma {:induction false} FrameHeader(data: Bytes)
    requires |data| <= MAX_FRAME
    ensures FromBE(ToBE(2, |data|)) == |data|
  {
    assert Radix(2) == 65536;
    FromToBE(2, |data|);
  }

  /** A whole message at the front of the buffer is taken, exactly. */
  lemma {:induction false} TakeWhole(w: World, r: Run, m: Message, rest: Bytes)
    requires EndpointOk(r.ep) && MessageOk(m) && Acceptable(w, r.ep, m)
    requires r.ep.buffer == PutMessage(m) + rest
    ensures Take(w, r) == Replied(r.(ep := Taken(w, r.ep, m).(buffer := rest)), m)
  {
    hide WindowOk, EndpointOk, Take, Taken, Acceptable;
    match m
    case Hello(uuid) => TakeWholeHello(w, r, uuid, rest);
    case Ask(h) => TakeWholeAsk(w, r, h, rest);
    case Learn(seg) => TakeWholeLearn(w, r, seg, rest);
    case Frame(data) => TakeWholeFrame(w, r, data, rest);
    case _ => TakeWholeEnd(w, r, m, rest);
  }

  lemma {:induction false} TakeWholeHello(w: World, r: Run, uuid: Bytes, rest: Bytes)
    requires EndpointOk(r.ep) && |uuid| == UUID_SIZE && Acceptable(w, r.ep, Hello(uuid))
    requires r.ep.buffer == PutMessage(Hello(uuid)) + rest
    ensures Take(w, r) == r.(ep := Taken(w, r.ep, Hello(uuid)).(buffer := rest))
  {
    hide WindowOk, EmptyWindow;
    var buffer := r.ep.buffer;
    assert buffer[0] == OP_HELLO && buffer[1] == UUID_SIZE;
    assert buffer[2..2 + UUID_SIZE] == uuid;
    assert buffer[2 + UUID_SIZE..] == rest;
  }

  lemma {:induction false} TakeWholeAsk(w: World, r: Run, h: Word, rest: Bytes)
    requires EndpointOk(r.ep) && Acceptable(w, r.ep, Ask(h))
    requires r.ep.buffer == PutMessage(Ask(h)) + rest
    ensures Take(w, r) == Replied(r.(ep := Taken(w, r.ep, Ask(h)).(buffer := rest)), Ask(h))
  {
    hide WindowOk;
    var buffer := r.ep.buffer;
    assert buffer[0] == OP_ASK;
    assert buffer[1..9] == PutWord(h);
    assert buffer[9..] == rest;
    WordRoundTrip(h);
  }

  lemma {:induction false} TakeWholeFrame(w: World, r: Run, data: Bytes, rest: Bytes)
    requires EndpointOk(r.ep) && 0 < |data| <= MAX_FRAME && Acceptable(w, r.ep, Frame(data))
    requires r.ep.buffer == PutMessage(Frame(data)) + rest
    ensures Take(w, r) == r.(ep := Taken(w, r.ep, Frame(data)).(buffer := rest))
  {
    hide WindowOk;
    var buffer := r.ep.buffer;
    assert buffer[0] == OP_FRAME;
    assert buffer[1..3] == ToBE(2, |data|);
    FrameHeader(data);
    assert buffer[3..3 + |data|] == data;
    assert buffer[3 + |data|..] == rest;
  }

  lemma {:induction false} TakeWholeEnd(w: World, r: Run, m: Message, rest: Bytes)
    requires EndpointOk(r.ep) && (m.Eos? || m.EosAck?) && Acceptable(w, r.ep, m)
    requires r.ep.buffer == PutMessage(m) + rest
    ensures Take(w, r) == r.(ep := Taken(w, r.ep, m).(buffer := rest))
  {
    hide WindowOk;
    assert r.ep.buffer[1..] == rest;
  }

  lemma {:induction false} TakeWholeLearn(w: World, r: Run, seg: Bytes, rest: Bytes)
    requires EndpointOk(r.ep) && |seg| == SEGMENT_LENGTH && Acceptable(w, r.ep, Learn(seg))
    requires r.ep.buffer == PutMessage(Learn(seg)) + rest
    ensures Take(w, r) == r.(ep := Taken(w, r.ep, Learn(seg)).(buffer := rest))
  {
    hide WindowOk;
    var buffer := r.ep.buffer;
    assert buffer[1..1 + SEGMENT_LENGTH] == seg;
    assert buffer[1 + SEGMENT_LENGTH..] == rest;
    var peer := r.ep.decoder.value.uuid;
    var h := w.hash(seg);
    if h in r.ep.registry[peer] {
      assert r.ep.registry[peer][h := seg] == r.ep.registry[peer];
      assert r.ep.registry[peer := r.ep.registry[peer]] == r.ep.registry;
    }
  }

  /** A partial message makes the end wait, without any other effect. */
  lemma {:induction false} TakePartial(w: World, r: Run, m: Message)
    requires EndpointOk(r.ep) && MessageOk(m) && Acceptable(w, r.ep, m)
    requires r.ep.buffer < PutMessage(m) && r.ep.buffer != []
    ensures Take(w, r) == r.(paused := true)
  {
    hide WindowOk;
    var s, buffer := PutMessage(m), r.ep.buffer;
    assert buffer[0] == s[0];
    if m.Hello? && |buffer| > 1 {
      assert buffer[1] == s[1];
    }
    if m.Frame? && |buffer| >= 3 {
      assert buffer[1..3] == s[1..3] == ToBE(2, |m.data|);
      FrameHeader(m.data);
    }
  }
}
