/** One end of the pipe protocol: its messages, its state and what it does with its input. */
module Pipe {
  import opened Bytes
  import opened Hash
  import opened Window
  import opened Stream
  import opened Encoder
  import opened Decoder

  const OP_HELLO: byte := 0xff
  const OP_LEARN: byte := 0xfe
  const OP_ASK: byte := 0xfd
  const OP_EOS: byte := 0xfc
  const OP_EOS_ACK: byte := 0xfb
  const OP_FRAME: byte := 0x00

  const UUID_SIZE: nat := 36
  const MAX_FRAME: nat := 32768

  // --- Messages -----------------------------------------------------------------------------------

  datatype Message =
    | Hello(uuid: Bytes)
    | Ask(hash: Word)
    | Learn(seg: Bytes)
    | Eos
    | EosAck
    | Frame(data: Bytes)

  predicate MessageOk(m: Message) {
    match m
    case Hello(uuid) => |uuid| == UUID_SIZE
    case Learn(seg) => |seg| == SEGMENT_LENGTH
    case Frame(data) => 0 < |data| <= MAX_FRAME
    case _ => true
  }

  function PutMessage(m: Message): (s: Bytes)
    ensures s != []
  {
    match m
    case Hello(uuid) => [OP_HELLO, |uuid| % 256] + uuid
    case Ask(h) => [OP_ASK] + PutWord(h)
    case Learn(seg) => [OP_LEARN] + seg
    case Eos => [OP_EOS]
    case EosAck => [OP_EOS_ACK]
    case Frame(data) => [OP_FRAME] + ToBE(2, |data|) + data
  }

  function PutMessages(ms: seq<Message>): Bytes {
    if ms == [] then [] else PutMessage(ms[0]) + PutMessages(ms[1..])
  }

  /** `encode_frame`: the encoded bytes in frames of at most `MAX_FRAME` bytes. */
  function Frames(data: Bytes): (r: seq<Message>)
    ensures data != [] ==> r != []
    ensures forall i :: 0 <= i < |r| ==> r[i].Frame? && MessageOk(r[i])
    decreases |data|
  {
    if data == [] then []
    else
      var n := Min(|data|, MAX_FRAME);
      [Frame(data[..n])] + Frames(data[n..])
  }

  // --- The state of one end -------------------------------------------------------------------------

  /** The hash function, whether the bytes of an identifier parse as a UUID, and whether a UUID can be written out. */
  datatype World = World(hash: Hasher, parses: Bytes -> bool, encodes: Bytes -> bool)

  /** A decoder: whose cache it reads from, and its window. */
  datatype Reader = Reader(uuid: Bytes, window: Window)

  /** The fields of an `XCodecPipePair` and the caches behind them. */
  datatype Endpoint = Endpoint(
    uuid: Bytes,
    codecCache: Cache,
    registry: map<Bytes, Cache>,
    encoder: Option<Window>,
    decoder: Option<Reader>,
    unknown: set<Word>,
    buffer: Bytes,
    frame: Bytes,
    receivedEos: bool,
    receivedEosAck: bool,
    sentEosOut: bool,
    sentEos: bool,
    sentEosAck: bool,
    closed: bool)

  ghost predicate EndpointOk(ep: Endpoint) {
    && (ep.encoder.Some? ==> WindowOk(ep.encoder.value))
    && (ep.decoder.Some? ==> WindowOk(ep.decoder.value.window) && ep.decoder.value.uuid in ep.registry)
    && (ep.frame != [] ==> ep.decoder.Some?)
  }

  /**
    An end in the middle of a call: what it has sent to its peer and delivered to its consumer.
    `failed` stands for `decoder_error` and for every failed assertion, `paused` for a return
    while waiting for the rest of a message.
  */
  datatype Run = Run(ep: Endpoint, sent: Bytes, delivered: Bytes, failed: bool, paused: bool)

  /** `encoder_produce`, which must not be called after the channel was closed. */
  function Send(r: Run, s: Bytes): Run {
    r.(sent := r.sent + s, failed := r.failed || r.ep.closed)
  }

  function Failure(r: Run): Run {
    r.(failed := true)
  }

  // --- Reading one message --------------------------------------------------------------------------

  lemma {:induction false} BufferIsFree(ep: Endpoint, buffer: Bytes)
    requires EndpointOk(ep)
    ensures EndpointOk(ep.(buffer := buffer))
  {
  }

  /** The end with a decoder for its peer, whose cache is looked up by UUID, or created. */
  function Met(ep: Endpoint, uuid: Bytes): (ep': Endpoint)
    requires EndpointOk(ep)
    ensures EndpointOk(ep') && ep' == ep.(registry := ep'.registry, decoder := ep'.decoder)
    ensures ep'.uuid == ep.uuid && ep'.encoder == ep.encoder && ep'.buffer == ep.buffer
  {
    hide WindowOk, EmptyWindow;
    ep.(registry := if uuid in ep.registry then ep.registry else ep.registry[uuid := map[]],
        decoder := Some(Reader(uuid, EmptyWindow())))
  }

  function TakeHello(w: World, r: Run): (r': Run)
    requires EndpointOk(r.ep) && r.ep.buffer != []
    ensures EndpointOk(r'.ep) && r'.ep.uuid == r.ep.uuid && r'.ep.encoder == r.ep.encoder
    ensures r'.failed || r'.paused || |r'.ep.buffer| < |r.ep.buffer|
  {
    hide EndpointOk, Met;
    var ep := r.ep;
    if ep.decoder.Some? then Failure(r)
    else if |ep.buffer| < 2 then r.(paused := true)
    else
      var len: nat := ep.buffer[1];
      if |ep.buffer| < 2 + len then r.(paused := true)
      else if len != UUID_SIZE then Failure(r)
      else
        var uuid := ep.buffer[2..2 + UUID_SIZE];
        BufferIsFree(ep, ep.buffer[2 + UUID_SIZE..]);
        var rest := ep.(buffer := ep.buffer[2 + UUID_SIZE..]);
        if !w.parses(uuid) then Failure(r.(ep := rest)) else r.(ep := Met(rest, uuid))
  }

  function TakeAsk(r: Run): (r': Run)
    requires EndpointOk(r.ep) && r.ep.buffer != []
    ensures EndpointOk(r'.ep) && r'.ep.uuid == r.ep.uuid && r'.ep.encoder == r.ep.encoder
    ensures r'.failed || r'.paused || |r'.ep.buffer| < |r.ep.buffer|
  {
    var ep := r.ep;
    if ep.encoder.None? then Failure(r)
    else if |ep.buffer| < 9 then r.(paused := true)
    else
      var h := GetWord(ep.buffer[1..9]);
      var r' := r.(ep := ep.(buffer := ep.buffer[9..]));
      if h !in ep.codecCache then Failure(r')
      else Send(r', PutMessage(Learn(ep.codecCache[h])))
  }

  function TakeLearn(w: World, r: Run): (r': Run)
    requires EndpointOk(r.ep) && r.ep.buffer != []
    ensures EndpointOk(r'.ep) && r'.ep.uuid == r.ep.uuid && r'.ep.encoder == r.ep.encoder
    ensures r'.failed || r'.paused || |r'.ep.buffer| < |r.ep.buffer|
  {
    var ep := r.ep;
    if ep.decoder.None? then Failure(r)
    else if |ep.buffer| < 1 + SEGMENT_LENGTH then r.(paused := true)
    else
      var seg := ep.buffer[1..1 + SEGMENT_LENGTH];
      var h := w.hash(seg);
      var peer := ep.decoder.value.uuid;
      var cache := ep.registry[peer];
      var learned: Cache := cache[h := seg];
      var ep' := ep.(buffer := ep.buffer[1 + SEGMENT_LENGTH..], unknown := ep.unknown - {h});
      if h in cache then
        if cache[h] == seg then r.(ep := ep') else Failure(r.(ep := ep'))
      else
        r.(ep := ep'.(registry := ep.registry[peer := learned]))
  }

  function TakeEos(r: Run): (r': Run)
    requires EndpointOk(r.ep) && r.ep.buffer != []
    ensures EndpointOk(r'.ep) && r'.ep.uuid == r.ep.uuid && r'.ep.encoder == r.ep.encoder
    ensures r'.failed || r'.paused || |r'.ep.buffer| < |r.ep.buffer|
  {
    if r.ep.receivedEos then Failure(r)
    else r.(ep := r.ep.(buffer := r.ep.buffer[1..], receivedEos := true))
  }

  function TakeEosAck(r: Run): (r': Run)
    requires EndpointOk(r.ep) && r.ep.buffer != []
    ensures EndpointOk(r'.ep) && r'.ep.uuid == r.ep.uuid && r'.ep.encoder == r.ep.encoder
    ensures r'.failed || r'.paused || |r'.ep.buffer| < |r.ep.buffer|
  {
    if !r.ep.sentEos || r.ep.receivedEosAck then Failure(r)
    else r.(ep := r.ep.(buffer := r.ep.buffer[1..], receivedEosAck := true))
  }

  function TakeFrame(r: Run): (r': Run)
    requires EndpointOk(r.ep) && r.ep.buffer != []
    ensures EndpointOk(r'.ep) && r'.ep.uuid == r.ep.uuid && r'.ep.encoder == r.ep.encoder
    ensures r'.failed || r'.paused || |r'.ep.buffer| < |r.ep.buffer|
  {
    var ep := r.ep;
    if ep.decoder.None? then Failure(r)
    else if |ep.buffer| < 3 then r.(paused := true)
    else
      var len := FromBE(ep.buffer[1..3]);
      if len == 0 || len > MAX_FRAME then Failure(r)
      else if |ep.buffer| < 3 + len then r.(paused := true)
      else r.(ep := ep.(buffer := ep.buffer[3 + len..], frame := ep.frame + ep.buffer[3..3 + len]))
  }

  /** The switch over the first byte of the buffer. */
  function Take(w: World, r: Run): (r': Run)
    requires EndpointOk(r.ep) && r.ep.buffer != []
    ensures EndpointOk(r'.ep) && r'.ep.uuid == r.ep.uuid && r'.ep.encoder == r.ep.encoder
    ensures r'.failed || r'.paused || |r'.ep.buffer| < |r.ep.buffer|
  {
    var op := r.ep.buffer[0];
    if op == OP_HELLO then TakeHello(w, r)
    else if op == OP_ASK then TakeAsk(r)
    else if op == OP_LEARN then TakeLearn(w, r)
    else if op == OP_EOS then TakeEos(r)
    else if op == OP_EOS_ACK then TakeEosAck(r)
    else if op == OP_FRAME then TakeFrame(r)
    else Failure(r)
  }

  // --- After each message ---------------------------------------------------------------------------

  /** The end after its decoder has returned `d`. */
  function Absorb(ep: Endpoint, d: Decoded): (ep': Endpoint)
    requires EndpointOk(ep) && ep.decoder.Some? && WindowOk(d.window)
    ensures EndpointOk(ep') && ep'.buffer == ep.buffer && ep'.uuid == ep.uuid && ep'.encoder == ep.encoder
  {
    hide WindowOk;
    var reader := ep.decoder.value;
    ep.(registry := ep.registry[reader.uuid := d.cache],
        decoder := Some(Reader(reader.uuid, d.window)),
        frame := d.rest,
        unknown := if d.ask.Some? then ep.unknown + {d.ask.value} else ep.unknown)
  }

  function DecodeOutcome(ep: Endpoint, hash: Hasher): (d: Decoded)
    requires EndpointOk(ep) && ep.decoder.Some?
    ensures WindowOk(d.window)
  {
    Decode(hash, ep.registry[ep.decoder.value.uuid], ep.decoder.value.window, ep.frame)
  }

  /** Runs the decoder over the frame buffer, delivers what it produced and asks for what it lacks. */
  function DecodeFrame(w: World, r: Run): (r': Run)
    requires EndpointOk(r.ep) && r.ep.frame != []
    ensures EndpointOk(r'.ep) && r'.ep.uuid == r.ep.uuid && r'.ep.encoder == r.ep.encoder
    ensures r'.ep.buffer == r.ep.buffer
  {
    hide WindowOk, DecodeOutcome, Absorb;
    var d := DecodeOutcome(r.ep, w.hash);
    var ep' := Absorb(r.ep, d);
    if !d.ok then Failure(r.(ep := ep'))
    else if if d.out != [] then r.ep.sentEosOut else ep'.frame == [] && ep'.unknown == {} then
      Failure(r.(ep := ep'))
    else
      var r' := r.(ep := ep', delivered := r.delivered + d.out);
      if d.ask.Some? then Send(r', PutMessage(Ask(d.ask.value))) else r'
  }

  /** The rest of the loop body: acknowledge a finished stream, wait for a segment, or decode. */
  function Settle(w: World, r: Run): (r': Run)
    requires EndpointOk(r.ep)
    ensures EndpointOk(r'.ep) && r'.ep.uuid == r.ep.uuid && r'.ep.encoder == r.ep.encoder
    ensures r'.ep.buffer == r.ep.buffer
  {
    if r.ep.frame == [] then
      if r.ep.receivedEos && !r.ep.sentEosAck then
        var r' := Send(r, PutMessage(EosAck));
        r'.(ep := r'.ep.(sentEosAck := true))
      else r
    else if r.ep.unknown != {} then r
    else DecodeFrame(w, r)
  }

  /** The loop of `decoder_consume`. */
  function Consuming(w: World, r: Run): (r': Run)
    requires EndpointOk(r.ep)
    ensures EndpointOk(r'.ep) && r'.ep.uuid == r.ep.uuid && r'.ep.encoder == r.ep.encoder
    decreases |r.ep.buffer|
  {
    hide WindowOk, Take, Settle;
    if r.ep.buffer == [] || r.failed || r.paused then r
    else
      var t := Take(w, r);
      if t.failed || t.paused then t
      else
        Consuming(w, Settle(w, t))
  }

  /** After the loop: end-of-stream for the consumer, and the end of the channel to the peer. */
  function Ending(r: Run): (r': Run)
    requires EndpointOk(r.ep)
    ensures EndpointOk(r'.ep) && r'.ep.uuid == r.ep.uuid && r'.ep.encoder == r.ep.encoder
  {
    var ep := r.ep;
    var endsOut := ep.receivedEos && !ep.sentEosOut;
    if endsOut && (ep.unknown == {}) != (ep.frame == []) then Failure(r)
    else
      var ep1 := if endsOut && ep.unknown == {} then ep.(sentEosOut := true) else ep;
      if ep1.sentEosAck && ep1.receivedEosAck then
        if ep1.buffer != [] || ep1.frame != [] || ep1.closed then Failure(r.(ep := ep1))
        else r.(ep := ep1.(closed := true))
      else r.(ep := ep1)
  }

  /** `decoder_consume`; an empty buffer means that the peer closed its channel. */
  function DecoderConsume(w: World, ep: Endpoint, buf: Bytes): (r: Run)
    requires EndpointOk(ep)
    ensures EndpointOk(r.ep) && r.ep.uuid == ep.uuid && r.ep.encoder == ep.encoder
  {
    hide WindowOk, Consuming, Ending;
    if buf == [] then
      Run(ep.(sentEosOut := true), [], [], false, false)
    else
      var r := Consuming(w, Run(ep.(buffer := ep.buffer + buf), [], [], false, false));
      if r.failed || r.paused then r else Ending(r)
  }

  /** The window of an encoder, which is created when it is first needed. */
  function WriterWindow(encoder: Option<Window>): (w: Window)
    ensures (encoder.Some? ==> WindowOk(encoder.value)) ==> WindowOk(w)
  {
    if encoder.None? then EmptyWindow() else encoder.value
  }

  /** The end after its encoder has taken in data. */
  function Encoded(ep: Endpoint, st: State): (ep': Endpoint)
    requires EndpointOk(ep) && WindowOk(st.window)
    ensures EndpointOk(ep') && ep'.uuid == ep.uuid
    ensures ep'.registry == ep.registry && ep'.codecCache == st.cache
  {
    hide WindowOk;
    ep.(encoder := Some(st.window), codecCache := st.cache)
  }

  /** `encoder_consume`; an empty buffer means that the source has ended. */
  function EncoderConsume(w: World, ep: Endpoint, buf: Bytes): (r: Run)
    requires EndpointOk(ep)
    ensures EndpointOk(r.ep) && r.ep.uuid == ep.uuid
  {
    hide WindowOk, Encode, WriterWindow, Encoded, Frames, PutMessages;
    var hello := if ep.encoder.None? then PutMessage(Hello(ep.uuid)) else [];
    var window := WriterWindow(ep.encoder);
    if ep.sentEos || (ep.encoder.None? && (!w.encodes(ep.uuid) || |ep.uuid| != UUID_SIZE)) then
      Run(ep, [], [], true, false)
    else if buf != [] then
      var st := Encode(w.hash, true, ep.codecCache, window, buf);
      var data := PutAll(st.toks);
      Send(Run(Encoded(ep, st), [], [], data == [], false), hello + PutMessages(Frames(data)))
    else
      Send(Run(ep.(encoder := Some(window), sentEos := true), [], [], false, false), hello + PutMessage(Eos))
  }
}
