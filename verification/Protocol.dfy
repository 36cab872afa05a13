/** Two ends and the bytes between them: the invariant of every run. */
module Protocol {
  import opened Bytes
  import opened Window
  import opened Stream
  import opened Pipe
  import opened PipeParse

  /**
    Two ends joined by two byte channels. `inA` is what A's encoder has consumed, `outA` what A's
    decoder has delivered; `failed` records any error or failed assertion at either end.
  */
  datatype System = System(
    a: Endpoint, b: Endpoint,
    ab: Bytes, ba: Bytes,
    inA: Bytes, inB: Bytes,
    outA: Bytes, outB: Bytes,
    failed: bool)

  /** One direction: the tokens ever written, how many are decoded, and the messages in transit. */
  datatype Link = Link(toks: seq<Token>, k: nat, msgs: seq<Message>)

  // --- The order of messages ------------------------------------------------------------------------

  /** The once-only messages that have gone by. */
  datatype Seen = Seen(hello: bool, eos: bool, ack: bool)

  function SeeOne(seen: Seen, m: Message, uuid: Bytes): Option<Seen> {
    match m
    case Hello(u) => if !seen.hello && u == uuid then Some(seen.(hello := true)) else None
    case Ask(_) => Some(seen)
    case Learn(_) => if seen.hello then Some(seen) else None
    case Eos => if seen.hello && !seen.eos then Some(seen.(eos := true)) else None
    case EosAck => if !seen.ack then Some(seen.(ack := true)) else None
    case Frame(_) => if seen.hello && !seen.eos then Some(seen) else None
  }

  function See(seen: Seen, ms: seq<Message>, uuid: Bytes): Option<Seen>
    decreases |ms|
  {
    if ms == [] then Some(seen)
    else
      var next := SeeOne(seen, ms[0], uuid);
      if next.None? then None else See(next.value, ms[1..], uuid)
  }

  function SeenBy(ep: Endpoint): Seen {
    Seen(ep.decoder.Some?, ep.receivedEos, ep.receivedEosAck)
  }

  function SentBy(ep: Endpoint): Seen {
    Seen(ep.encoder.Some?, ep.sentEos, ep.sentEosAck)
  }

  lemma {:induction false} SeeConcat(seen: Seen, a: seq<Message>, b: seq<Message>, uuid: Bytes)
    ensures See(seen, a + b, uuid) ==
            var mid := See(seen, a, uuid);
            if mid.None? then None else See(mid.value, b, uuid)
    decreases |a|
  {
    if a == [] {
      assert [] + b == b;
    } else {
      assert (a + b)[0] == a[0] && (a + b)[1..] == a[1..] + b;
      var next := SeeOne(seen, a[0], uuid);
      if next.Some? {
        SeeConcat(next.value, a[1..], b, uuid);
      }
    }
  }

  lemma {:induction false} SeeLast(seen: Seen, ms: seq<Message>, m: Message, uuid: Bytes)
    ensures See(seen, ms + [m], uuid) ==
            var mid := See(seen, ms, uuid);
            if mid.None? then None else SeeOne(mid.value, m, uuid)
  {
    SeeConcat(seen, ms, [m], uuid);
    assert [m][1..] == [];
  }

  /** What has been seen stays seen. */
  lemma {:induction false} SeeGrows(seen: Seen, ms: seq<Message>, uuid: Bytes)
    requires See(seen, ms, uuid).Some?
    ensures var end := See(seen, ms, uuid).value;
            (seen.hello ==> end.hello) && (seen.eos ==> end.eos) && (seen.ack ==> end.ack)
    ensures seen.eos && seen.hello ==> FrameData(ms) == []
    decreases |ms|
  {
    if ms != [] {
      SeeGrows(SeeOne(seen, ms[0], uuid).value, ms[1..], uuid);
    }
  }

  lemma {:induction false} SeeFrames(seen: Seen, ms: seq<Message>, uuid: Bytes)
    requires seen.hello && !seen.eos && forall i :: 0 <= i < |ms| ==> ms[i].Frame?
    ensures See(seen, ms, uuid) == Some(seen)
  {
    if ms != [] {
      SeeFrames(seen, ms[1..], uuid);
    }
  }

  // --- One direction ------------------------------------------------------------------------------------

  function PeerCache(registry: map<Bytes, Cache>, uuid: Bytes): Cache {
    if uuid in registry then registry[uuid] else map[]
  }

  function ReaderWindow(decoder: Option<Reader>): Window {
    if decoder.None? then EmptyWindow() else decoder.value.window
  }

  /** Everything the writer has put into tokens stands for everything it has consumed. */
  ghost predicate Written(hash: Hasher, cache: Cache, encoder: Option<Window>, toks: seq<Token>, input: Bytes) {
    && WindowOk(WriterWindow(encoder))
    && CacheOk(hash, cache)
    && WindowFrom(WriterWindow(encoder), cache)
    && (encoder.None? ==> toks == [])
    && Play(hash, toks, EmptyWindow(), cache) == Some(Played(input, WriterWindow(encoder)))
  }

  /** The reader has delivered exactly what the first `k` tokens stand for; its window is theirs. */
  ghost predicate ReadSoFar(hash: Hasher, cache: Cache, decoder: Option<Reader>, toks: seq<Token>, k: nat, output: Bytes) {
    && k <= |toks|
    && WindowOk(ReaderWindow(decoder))
    && Play(hash, toks[..k], EmptyWindow(), cache) == Some(Played(output, ReaderWindow(decoder)))
  }

  /** What the reader knows of the writer's cache is true. */
  ghost predicate Follows(registry: map<Bytes, Cache>, decoder: Option<Reader>, uuid: Bytes, cache: Cache) {
    && SubCache(PeerCache(registry, uuid), cache)
    && (decoder.Some? ==> decoder.value.uuid == uuid)
  }

  /** The rest of the token stream is in the frame buffer and the frames in transit. */
  ghost predicate Holds(frame: Bytes, l: Link) {
    && l.k <= |l.toks|
    && PutAll(l.toks[l.k..]) == frame + FrameData(l.msgs)
  }

  /** The unread bytes are the messages in transit. */
  ghost predicate Queued(buffer: Bytes, chan: Bytes, msgs: seq<Message>) {
    && buffer + chan == PutMessages(msgs)
    && forall i :: 0 <= i < |msgs| ==> MessageOk(msgs[i])
  }

  /** At most one hash is unknown, and the frame buffer starts with the reference to it. */
  ghost predicate Wants(unknown: set<Word>, frame: Bytes, toks: seq<Token>, k: nat) {
    unknown != {} ==>
      && k < |toks|
      && toks[k].Ref?
      && unknown == {toks[k].hash}
      && Put(toks[k]) <= frame
  }

  /** Between calls the frame buffer holds nothing that could be decoded. */
  ghost predicate Settled(unknown: set<Word>, frame: Bytes, toks: seq<Token>, k: nat) {
    unknown == {} ==>
      if k < |toks| then frame < Put(toks[k]) else frame == []
  }

  function Wanted(unknown: set<Word>, toks: seq<Token>, k: nat): seq<Word> {
    if unknown == {} || k >= |toks| || !toks[k].Ref? then [] else [toks[k].hash]
  }

  /** Every unknown hash has exactly one question or one answer under way, and answers are true. */
  ghost predicate Asked(hash: Hasher, cache: Cache, unknown: set<Word>, l: Link, back: seq<Message>) {
    && AskedIn(back) + TaughtIn(hash, l.msgs) == Wanted(unknown, l.toks, l.k)
    && forall i :: 0 <= i < |l.msgs| && l.msgs[i].Learn? ==>
         hash(l.msgs[i].seg) in cache && cache[hash(l.msgs[i].seg)] == l.msgs[i].seg
  }

  /** What an end has announced about the end of its peer's stream is true. */
  ghost predicate Ends(y: Endpoint) {
    && (y.sentEosAck ==> y.receivedEos && y.frame == [])
    && (y.sentEosOut ==> y.receivedEos && y.frame == [] && y.unknown == {})
    && (y.receivedEos ==> y.decoder.Some?)
    && (y.closed ==> y.sentEosAck && y.receivedEosAck)
  }

  /** The direction from `x` to `y`; `back` are the messages in transit the other way. */
  ghost predicate LinkOk(w: World, x: Endpoint, y: Endpoint, chan: Bytes, input: Bytes, output: Bytes, l: Link, back: seq<Message>) {
    && |x.uuid| == UUID_SIZE && w.parses(x.uuid) && w.encodes(x.uuid)
    && Written(w.hash, x.codecCache, x.encoder, l.toks, input)
    && ReadSoFar(w.hash, x.codecCache, y.decoder, l.toks, l.k, output)
    && Follows(y.registry, y.decoder, x.uuid, x.codecCache)
    && Holds(y.frame, l)
    && Queued(y.buffer, chan, l.msgs)
    && Wants(y.unknown, y.frame, l.toks, l.k)
    && Asked(w.hash, x.codecCache, y.unknown, l, back)
    && See(SeenBy(y), l.msgs, x.uuid) == Some(SentBy(x))
    && Ends(y)
  }

  /** Both directions, while A is working and B is at rest. */
  ghost predicate Working(w: World, s: System, f: Link, g: Link) {
    && EndpointOk(s.a) && EndpointOk(s.b)
    && LinkOk(w, s.a, s.b, s.ab, s.inA, s.outB, f, g.msgs)
    && LinkOk(w, s.b, s.a, s.ba, s.inB, s.outA, g, f.msgs)
    && Settled(s.b.unknown, s.b.frame, f.toks, f.k)
    && !s.failed
  }

  // --- Consequences -----------------------------------------------------------------------------------------

  /** The output is a prefix of the input. */
  lemma {:induction false} OutputIsPrefix(w: World, x: Endpoint, y: Endpoint, chan: Bytes, input: Bytes, output: Bytes, l: Link, back: seq<Message>)
    requires LinkOk(w, x, y, chan, input, output, l, back)
    ensures output <= input
  {
    hide Play, WindowOk, Follows, Holds, Queued, Wants, Asked, See, Ends;
    PlayPrefix(w.hash, l.toks, l.k, EmptyWindow(), x.codecCache);
  }

  /** An end that has seen the end of the stream, with nothing left to decode, has delivered everything. */
  lemma {:induction false} AllDelivered(w: World, x: Endpoint, y: Endpoint, chan: Bytes, input: Bytes, output: Bytes, l: Link, back: seq<Message>)
    requires LinkOk(w, x, y, chan, input, output, l, back)
    requires y.receivedEos && y.frame == []
    ensures output == input && l.k == |l.toks| && y.unknown == {}
  {
    hide Play, WindowOk, Follows, Queued, Asked, PutAll;
    SeeGrows(SeenBy(y), l.msgs, x.uuid);
    PutAllNonEmpty(l.toks[l.k..]);
    assert l.toks[..l.k] == l.toks;
  }

  /** Everything that can be decoded is: at rest, after the end of the stream, a hash is unknown or nothing is left. */
  lemma {:induction false} RestedAtEnd(w: World, x: Endpoint, y: Endpoint, chan: Bytes, input: Bytes, output: Bytes, l: Link, back: seq<Message>)
    requires LinkOk(w, x, y, chan, input, output, l, back)
    requires y.receivedEos && Settled(y.unknown, y.frame, l.toks, l.k)
    ensures (y.unknown == {}) == (y.frame == [])
  {
    hide Play, WindowOk, Follows, Queued, Asked, Put, Written, ReadSoFar;
    SeeGrows(SeenBy(y), l.msgs, x.uuid);
    var rest := l.toks[l.k..];
    assert PutAll(rest) == y.frame;
    assert rest != [] ==> Put(rest[0]) <= PutAll(rest);
  }

  /** Once an end has acknowledged and been acknowledged, nothing is on its way to it any more. */
  lemma {:induction false} NothingComes(w: World, s: System, f: Link, g: Link)
    requires Working(w, s, f, g)
    requires s.a.sentEosAck && s.a.receivedEosAck
    ensures g.msgs == [] && s.a.buffer == [] && s.ba == []
    ensures s.outA == s.inB && s.outB == s.inA && s.b.frame == [] && s.b.unknown == {}
  {
    hide Play, WindowOk, Follows, Written, ReadSoFar, PutAll, MessageOk, PutMessage, EndpointOk, Holds;
    SeeGrows(SeenBy(s.a), g.msgs, s.b.uuid);
    assert s.b.sentEosAck;
    AllDelivered(w, s.a, s.b, s.ab, s.inA, s.outB, f, g.msgs);
    AllDelivered(w, s.b, s.a, s.ba, s.inB, s.outA, g, f.msgs);
    assert AskedIn(g.msgs) == [] && TaughtIn(w.hash, g.msgs) == [];
    if g.msgs != [] {
      assert false;
    }
  }
}
