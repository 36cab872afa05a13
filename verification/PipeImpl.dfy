/** `XCodecPipePair` as it runs: fields updated message by message. */
module PipeImpl {
  import opened Bytes
  import opened Hash
  import opened Window
  import opened Stream
  import opened Encoder
  import opened Decoder
  import opened Pipe
  import opened PipeParse

  /** `encode_frame`: drains the encoded bytes into frames. */
  method EncodeFrame(output: Bytes, input: Bytes) returns (output': Bytes)
    requires input != []
    ensures output' == output + PutMessages(Frames(input))
  {
    hide PutMessages, PutMessage, Frames;
    var left := input;
    output' := output;
    NoFrames();
    while left != []
      invariant output' + PutMessages(Frames(left)) == output + PutMessages(Frames(input))
      decreases |left|
    {
      var n := if |left| <= MAX_FRAME then |left| else MAX_FRAME;
      FirstFrame(left);
      ghost var before := output';
      output' := output' + PutMessage(Frame(left[..n]));
      assert before + (PutMessage(Frame(left[..n])) + PutMessages(Frames(left[n..]))) == output' + PutMessages(Frames(left[n..]));
      left := left[n..];
    }
    assert output' + [] == output';
  }

  lemma {:induction false} NoFrames()
    ensures PutMessages(Frames([])) == []
  {
  }

  lemma {:induction false} FirstFrame(data: Bytes)
    requires data != []
    ensures var n := Min(|data|, MAX_FRAME);
            PutMessages(Frames(data)) == PutMessage(Frame(data[..n])) + PutMessages(Frames(data[n..]))
  {
    var n := Min(|data|, MAX_FRAME);
    PutMessagesConcat([Frame(data[..n])], Frames(data[n..]));
    PutMessagesOne(Frame(data[..n]));
  }

  class XCodecPipePair {
    const world: World
    const uuid: Bytes
    var codecCache: Cache
    var registry: map<Bytes, Cache>
    var encoder: Option<Window>
    var decoder: Option<Reader>
    var unknown: set<Word>
    var buffer: Bytes
    var frame: Bytes
    var receivedEos: bool
    var receivedEosAck: bool
    var sentEosOut: bool
    var sentEos: bool
    var sentEosAck: bool
    var closed: bool

    ghost function Value(): Endpoint
      reads this
    {
      Endpoint(uuid, codecCache, registry, encoder, decoder, unknown, buffer, frame,
               receivedEos, receivedEosAck, sentEosOut, sentEos, sentEosAck, closed)
    }

    ghost predicate Valid()
      reads this
    {
      EndpointOk(Value())
    }

    constructor (world: World, uuid: Bytes, codecCache: Cache, registry: map<Bytes, Cache>)
      ensures Valid()
      ensures Value() == Endpoint(uuid, codecCache, registry, None, None, {}, [], [], false, false, false, false, false, false)
    {
      this.world, this.uuid, this.codecCache, this.registry := world, uuid, codecCache, registry;
      encoder, decoder, unknown, buffer, frame := None, None, {}, [], [];
      receivedEos, receivedEosAck, sentEosOut := false, false, false;
      sentEos, sentEosAck, closed := false, false, false;
    }

    method OnHello() returns (failed: bool, paused: bool)
      requires Valid() && buffer != []
      modifies this
      ensures Valid()
      ensures forall sent, delivered ::
                TakeHello(world, Run(old(Value()), sent, delivered, false, false)) == Run(Value(), sent, delivered, failed, paused)
    {
      hide WindowOk, EmptyWindow;
      failed, paused := false, false;
      if decoder.Some? {
        failed := true;
        return;
      }
      if |buffer| < 2 {
        paused := true;
        return;
      }
      var len: nat := buffer[1];
      if |buffer| < 2 + len {
        paused := true;
        return;
      }
      if len != UUID_SIZE {
        failed := true;
        return;
      }
      var peer := buffer[2..2 + UUID_SIZE];
      buffer := buffer[2 + UUID_SIZE..];
      if !world.parses(peer) {
        failed := true;
        return;
      }
      if peer !in registry {
        registry := registry[peer := map[]];
      }
      decoder := Some(Reader(peer, EmptyWindow()));
    }

    method OnAsk(sent: Bytes) returns (sent': Bytes, failed: bool, paused: bool)
      requires Valid() && buffer != []
      modifies this
      ensures Valid()
      ensures forall delivered ::
                TakeAsk(Run(old(Value()), sent, delivered, false, false)) == Run(Value(), sent', delivered, failed, paused)
    {
      hide WindowOk;
      sent', failed, paused := sent, false, false;
      if encoder.None? {
        failed := true;
        return;
      }
      if |buffer| < 9 {
        paused := true;
        return;
      }
      var h := GetWord(buffer[1..9]);
      buffer := buffer[9..];
      if h !in codecCache {
        failed := true;
        return;
      }
      sent' := sent + PutMessage(Learn(codecCache[h]));
      failed := closed;
    }

    method OnLearn() returns (failed: bool, paused: bool)
      requires Valid() && buffer != []
      modifies this
      ensures Valid()
      ensures forall sent, delivered ::
                TakeLearn(world, Run(old(Value()), sent, delivered, false, false)) == Run(Value(), sent, delivered, failed, paused)
    {
      hide WindowOk;
      failed, paused := false, false;
      if decoder.None? {
        failed := true;
        return;
      }
      if |buffer| < 1 + SEGMENT_LENGTH {
        paused := true;
        return;
      }
      var seg := buffer[1..1 + SEGMENT_LENGTH];
      buffer := buffer[1 + SEGMENT_LENGTH..];
      var h := world.hash(seg);
      unknown := unknown - {h};
      var peer := decoder.value.uuid;
      var cache := registry[peer];
      if h in cache {
        failed := cache[h] != seg;
      } else {
        var learned: Cache := cache[h := seg];
        registry := registry[peer := learned];
      }
    }

    method OnFrame() returns (failed: bool, paused: bool)
      requires Valid() && buffer != []
      modifies this
      ensures Valid()
      ensures forall sent, delivered ::
                TakeFrame(Run(old(Value()), sent, delivered, false, false)) == Run(Value(), sent, delivered, failed, paused)
    {
      hide WindowOk;
      failed, paused := false, false;
      if decoder.None? {
        failed := true;
        return;
      }
      if |buffer| < 3 {
        paused := true;
        return;
      }
      var len := FromBE(buffer[1..3]);
      if len == 0 || len > MAX_FRAME {
        failed := true;
        return;
      }
      if |buffer| < 3 + len {
        paused := true;
        return;
      }
      frame := frame + buffer[3..3 + len];
      buffer := buffer[3 + len..];
    }

    /** The switch over the first byte. */
    method OnMessage(sent: Bytes) returns (sent': Bytes, failed: bool, paused: bool)
      requires Valid() && buffer != []
      modifies this
      ensures Valid()
      ensures forall delivered ::
                Take(world, Run(old(Value()), sent, delivered, false, false)) == Run(Value(), sent', delivered, failed, paused)
    {
      hide EndpointOk, TakeHello, TakeAsk, TakeLearn, TakeFrame;
      sent', failed, paused := sent, false, false;
      var op := buffer[0];
      if op == OP_HELLO {
        failed, paused := OnHello();
      } else if op == OP_ASK {
        sent', failed, paused := OnAsk(sent);
      } else if op == OP_LEARN {
        failed, paused := OnLearn();
      } else if op == OP_EOS {
        if receivedEos {
          failed := true;
          return;
        }
        buffer := buffer[1..];
        receivedEos := true;
        SameWindows(old(Value()), Value());
      } else if op == OP_EOS_ACK {
        if !sentEos || receivedEosAck {
          failed := true;
          return;
        }
        buffer := buffer[1..];
        receivedEosAck := true;
        SameWindows(old(Value()), Value());
      } else if op == OP_FRAME {
        failed, paused := OnFrame();
      } else {
        failed := true;
      }
    }

    /** The decoder's work on the frame buffer. */
    method RunDecoder() returns (d: Decoded)
      requires Valid() && frame != []
      modifies this
      ensures Valid() && d == DecodeOutcome(old(Value()), world.hash) && Value() == Absorb(old(Value()), d)
    {
      hide WindowOk, Decode;
      var reader := decoder.value;
      d := Decode(world.hash, registry[reader.uuid], reader.window, frame);
      registry := registry[reader.uuid := d.cache];
      decoder := Some(Reader(reader.uuid, d.window));
      frame := d.rest;
      if d.ask.Some? {
        unknown := unknown + {d.ask.value};
      }
    }

    /** Decodes, delivers the output and asks for what is unknown. */
    method OnFrameData(sent: Bytes, delivered: Bytes) returns (sent': Bytes, delivered': Bytes, failed: bool)
      requires Valid() && frame != []
      modifies this
      ensures Valid()
      ensures DecodeFrame(world, Run(old(Value()), sent, delivered, false, false)) == Run(Value(), sent', delivered', failed, false)
    {
      hide EndpointOk, PutMessage, DecodeOutcome, WindowOk;
      sent', delivered', failed := sent, delivered, false;
      var d := RunDecoder();
      if !d.ok {
        failed := true;
        return;
      }
      if d.out != [] {
        if sentEosOut {
          failed := true;
          return;
        }
        delivered' := delivered + d.out;
      } else {
        if frame == [] && unknown == {} {
          failed := true;
          return;
        }
        assert delivered + [] == delivered;
      }
      if d.ask.Some? {
        sent', failed := sent + PutMessage(Ask(d.ask.value)), closed;
      }
    }

    /** The rest of the loop body. */
    method AfterMessage(sent: Bytes, delivered: Bytes) returns (sent': Bytes, delivered': Bytes, failed: bool)
      requires Valid()
      modifies this
      ensures Valid()
      ensures Settle(world, Run(old(Value()), sent, delivered, false, false)) == Run(Value(), sent', delivered', failed, false)
    {
      hide WindowOk, PutMessage, DecodeFrame;
      sent', delivered', failed := sent, delivered, false;
      if frame == [] {
        if receivedEos && !sentEosAck {
          sent', failed := sent + PutMessage(EosAck), closed;
          sentEosAck := true;
        }
        return;
      }
      if unknown != {} {
        return;
      }
      sent', delivered', failed := OnFrameData(sent, delivered);
    }

    /** After the loop: end-of-stream to the consumer, and the end of the channel to the peer. */
    method AtEnd() returns (failed: bool)
      requires Valid()
      modifies this
      ensures Valid()
      ensures forall sent, delivered ::
                Ending(Run(old(Value()), sent, delivered, false, false)) == Run(Value(), sent, delivered, failed, false)
    {
      hide WindowOk;
      failed := false;
      if receivedEos && !sentEosOut {
        if (unknown == {}) != (frame == []) {
          failed := true;
          return;
        }
        if unknown == {} {
          sentEosOut := true;
        }
      }
      if sentEosAck && receivedEosAck {
        if buffer != [] || frame != [] || closed {
          failed := true;
          return;
        }
        closed := true;
      }
    }

    /** The loop of `decoder_consume`. */
    method ConsumeBuffer() returns (sent: Bytes, delivered: Bytes, failed: bool, paused: bool)
      requires Valid()
      modifies this
      ensures Valid()
      ensures Consuming(world, Run(old(Value()), [], [], false, false)) == Run(Value(), sent, delivered, failed, paused)
    {
      hide EndpointOk, Take, Settle, Consuming;
      sent, delivered, failed, paused := [], [], false, false;
      while buffer != []
        invariant Valid() && !failed && !paused
        invariant Consuming(world, Run(Value(), sent, delivered, false, false)) ==
                  Consuming(world, Run(old(Value()), [], [], false, false))
        decreases |buffer|
      {
        ConsumingStep(world, Run(Value(), sent, delivered, false, false));
        sent, failed, paused := OnMessage(sent);
        if failed || paused {
          return;
        }
        sent, delivered, failed := AfterMessage(sent, delivered);
        if failed {
          ConsumingEnd(world, Run(Value(), sent, delivered, true, false));
          return;
        }
      }
      ConsumingEnd(world, Run(Value(), sent, delivered, false, false));
    }

    /** `decoder_consume`. */
    method DecoderConsume(buf: Bytes) returns (sent: Bytes, delivered: Bytes, failed: bool)
      requires Valid()
      modifies this
      ensures Valid()
      ensures var r := Pipe.DecoderConsume(world, old(Value()), buf);
              Value() == r.ep && sent == r.sent && delivered == r.delivered && failed == r.failed
    {
      hide EndpointOk, Ending, Consuming;
      sent, delivered, failed := [], [], false;
      if buf == [] {
        SentEosOutOk(Value());
        sentEosOut := true;
        return;
      }
      BufferIsFree(Value(), buffer + buf);
      buffer := buffer + buf;
      var paused;
      sent, delivered, failed, paused := ConsumeBuffer();
      if !failed && !paused {
        failed := AtEnd();
      }
    }

    /** `encoder_consume`. */
    method EncoderConsume(buf: Bytes) returns (sent: Bytes, failed: bool)
      requires Valid()
      modifies this
      ensures Valid()
      ensures var r := Pipe.EncoderConsume(world, old(Value()), buf);
              Value() == r.ep && sent == r.sent && failed == r.failed
    {
      hide WindowOk, Encode, EmptyWindow, PutMessage, PutAll, PutMessages, Frames;
      sent, failed := [], false;
      if sentEos {
        failed := true;
        return;
      }
      var output := [];
      var window := EmptyWindow();
      if encoder.None? {
        if !world.encodes(uuid) || |uuid| != UUID_SIZE {
          failed := true;
          return;
        }
        output := PutMessage(Hello(uuid));
      } else {
        window := encoder.value;
      }
      assert window == WriterWindow(old(Value()).encoder);
      if buf != [] {
        var st := Encode(world.hash, true, codecCache, window, buf);
        encoder, codecCache := Some(st.window), st.cache;
        assert Value() == Encoded(old(Value()), st);
        var encoded := PutAll(st.toks);
        failed := encoded == [];
        if encoded != [] {
          output := EncodeFrame(output, encoded);
        } else {
          NoFrames();
          assert output + [] == output;
        }
      } else {
        encoder := Some(window);
        output := output + PutMessage(Eos);
        sentEos := true;
      }
      sent := sent + output;
      failed := failed || closed;
    }
  }

  lemma {:induction false} ConsumingStep(w: World, r: Run)
    requires EndpointOk(r.ep) && r.ep.buffer != [] && !r.failed && !r.paused
    ensures var t := Take(w, r);
            Consuming(w, r) == if t.failed || t.paused then t else Consuming(w, Settle(w, t))
  {
    hide EndpointOk, Take, Settle;
  }

  lemma {:induction false} ConsumingEnd(w: World, r: Run)
    requires EndpointOk(r.ep) && (r.ep.buffer == [] || r.failed)
    ensures Consuming(w, r) == r
  {
  }

  lemma {:induction false} SameWindows(before: Endpoint, after: Endpoint)
    requires EndpointOk(before)
    requires after.encoder == before.encoder && after.decoder == before.decoder
    requires after.registry == before.registry && after.frame == before.frame
    ensures EndpointOk(after)
  {
  }

  lemma {:induction false} SentEosOutOk(ep: Endpoint)
    requires EndpointOk(ep)
    ensures EndpointOk(ep.(sentEosOut := true))
  {
  }
}
