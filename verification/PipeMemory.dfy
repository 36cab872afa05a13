/** What an end has learned it keeps: caches only grow, over every call and every run. */
module PipeMemory {
  import opened Bytes
  import opened Hash
  import opened Window
  import opened Encoder
  import EncoderThrift
  import opened Decoder
  import opened Pipe
  import opened Protocol
  import opened ProtocolRun
  import opened ProtocolHistory

  /** Nothing that was known of any peer is lost. */
  ghost predicate Remembers(before: map<Bytes, Cache>, after: map<Bytes, Cache>) {
    forall uuid :: uuid in before ==> uuid in after && SubCache(before[uuid], after[uuid])
  }

  lemma {:induction false} RemembersTrans(a: map<Bytes, Cache>, b: map<Bytes, Cache>, c: map<Bytes, Cache>)
    requires Remembers(a, b) && Remembers(b, c)
    ensures Remembers(a, c)
  {
    forall uuid | uuid in a
      ensures uuid in c && SubCache(a[uuid], c[uuid])
    {
      SubTrans(a[uuid], b[uuid], c[uuid]);
    }
  }

  lemma {:induction false} DecodeOneRemembers(hash: Hasher, cache: Cache, w: Window, input: Bytes)
    requires WindowOk(w) && input != []
    ensures var t := DecodeOne(hash, cache, w, input); t.Took? ==> SubCache(cache, t.cache)
  {
    hide WindowOk, Declared, Dereferenced;
  }

  /** The decoder's cache only grows, whatever its input. */
  lemma {:induction false} DecodeRemembers(hash: Hasher, cache: Cache, w: Window, input: Bytes)
    requires WindowOk(w)
    ensures SubCache(cache, Decode(hash, cache, w, input).cache)
    decreases |input|
  {
    hide WindowOk, DecodeOne;
    if input != [] {
      DecodeOneRemembers(hash, cache, w, input);
      match DecodeOne(hash, cache, w, input)
      case Took(n, _, cache', w') =>
        DecodeRemembers(hash, cache', w', input[n..]);
        SubTrans(cache, cache', Decode(hash, cache', w', input[n..]).cache);
      case _ =>
    }
  }

  /** What an end knows of its peers has not shrunk, and its encoder's cache is untouched. */
  ghost predicate Keeps(ep: Endpoint, ep': Endpoint) {
    Remembers(ep.registry, ep'.registry) && ep'.codecCache == ep.codecCache
  }

  lemma {:induction false} SameKeeps(ep: Endpoint, ep': Endpoint)
    requires ep'.registry == ep.registry && ep'.codecCache == ep.codecCache
    ensures Keeps(ep, ep')
  {
  }

  lemma {:induction false} KeepsTrans(a: Endpoint, b: Endpoint, c: Endpoint)
    requires Keeps(a, b) && Keeps(b, c)
    ensures Keeps(a, c)
  {
    hide Remembers;
    RemembersTrans(a.registry, b.registry, c.registry);
  }

  lemma {:induction false} EnterKeeps(registry: map<Bytes, Cache>, uuid: Bytes, cache: Cache)
    requires uuid in registry ==> SubCache(registry[uuid], cache)
    ensures Remembers(registry, registry[uuid := cache])
  {
  }

  lemma {:induction false} MetKeeps(ep: Endpoint, uuid: Bytes)
    requires EndpointOk(ep)
    ensures Keeps(ep, Met(ep, uuid))
  {
    hide EndpointOk, WindowOk, EmptyWindow;
  }

  lemma {:induction false} HelloKeeps(w: World, r: Run)
    requires EndpointOk(r.ep) && r.ep.buffer != []
    ensures Keeps(r.ep, TakeHello(w, r).ep)
  {
    hide EndpointOk, Met;
    SameKeeps(r.ep, r.ep);
    if |r.ep.buffer| >= 2 + UUID_SIZE {
      var rest := r.ep.(buffer := r.ep.buffer[2 + UUID_SIZE..]);
      BufferIsFree(r.ep, rest.buffer);
      MetKeeps(rest, r.ep.buffer[2..2 + UUID_SIZE]);
    }
  }

  lemma {:induction false} LearnKeeps(w: World, r: Run)
    requires EndpointOk(r.ep) && r.ep.buffer != []
    ensures Keeps(r.ep, TakeLearn(w, r).ep)
  {
    hide WindowOk;
    SameKeeps(r.ep, r.ep);
    if r.ep.decoder.Some? && |r.ep.buffer| >= 1 + SEGMENT_LENGTH {
      var seg := r.ep.buffer[1..1 + SEGMENT_LENGTH];
      var cache := r.ep.registry[r.ep.decoder.value.uuid];
      if w.hash(seg) !in cache {
        EnterKeeps(r.ep.registry, r.ep.decoder.value.uuid, cache[w.hash(seg) := seg]);
      }
      hide Remembers, EndpointOk;
    }
  }

  lemma {:induction false} AskKeeps(r: Run)
    requires EndpointOk(r.ep) && r.ep.buffer != []
    ensures Keeps(r.ep, TakeAsk(r).ep)
  {
    hide EndpointOk, Keeps, PutMessage, GetWord;
    SameKeeps(r.ep, r.ep);
    if |r.ep.buffer| >= 9 {
      SameKeeps(r.ep, r.ep.(buffer := r.ep.buffer[9..]));
    }
  }

  lemma {:induction false} EosKeeps(r: Run)
    requires EndpointOk(r.ep) && r.ep.buffer != []
    ensures Keeps(r.ep, TakeEos(r).ep)
  {
    hide EndpointOk, Keeps, PutMessage;
    SameKeeps(r.ep, TakeEos(r).ep);
  }

  lemma {:induction false} EosAckKeeps(r: Run)
    requires EndpointOk(r.ep) && r.ep.buffer != []
    ensures Keeps(r.ep, TakeEosAck(r).ep)
  {
    hide EndpointOk, Keeps, PutMessage;
    SameKeeps(r.ep, TakeEosAck(r).ep);
  }

  lemma {:induction false} FrameKeeps(r: Run)
    requires EndpointOk(r.ep) && r.ep.buffer != []
    ensures Keeps(r.ep, TakeFrame(r).ep)
  {
    hide EndpointOk, Keeps, FromBE;
    if r.ep.decoder.Some? && |r.ep.buffer| >= 3 {
      var len := FromBE(r.ep.buffer[1..3]);
      if 0 < len <= MAX_FRAME && |r.ep.buffer| >= 3 + len {
        SameKeeps(r.ep, r.ep.(buffer := r.ep.buffer[3 + len..], frame := r.ep.frame + r.ep.buffer[3..3 + len]));
        return;
      }
    }
    SameKeeps(r.ep, r.ep);
  }

  lemma {:induction false} TakeKeepsAll(w: World, r: Run)
    requires EndpointOk(r.ep) && r.ep.buffer != []
    ensures Keeps(r.ep, Take(w, r).ep)
  {
    hide EndpointOk, Keeps, TakeHello, TakeAsk, TakeLearn, TakeEos, TakeEosAck, TakeFrame;
    SameKeeps(r.ep, r.ep);
    HelloKeeps(w, r);
    LearnKeeps(w, r);
    AskKeeps(r);
    EosKeeps(r);
    EosAckKeeps(r);
    FrameKeeps(r);
  }

  lemma {:induction false} AbsorbKeeps(ep: Endpoint, d: Decoded)
    requires EndpointOk(ep) && ep.decoder.Some? && WindowOk(d.window)
    requires ep.decoder.value.uuid in ep.registry ==> SubCache(ep.registry[ep.decoder.value.uuid], d.cache)
    ensures Keeps(ep, Absorb(ep, d))
  {
    hide WindowOk, EndpointOk;
    EnterKeeps(ep.registry, ep.decoder.value.uuid, d.cache);
    hide Remembers;
  }

  lemma {:induction false} DecodeFrameKeeps(w: World, r: Run)
    requires EndpointOk(r.ep) && r.ep.frame != []
    ensures Keeps(r.ep, DecodeFrame(w, r).ep)
  {
    hide WindowOk, Absorb, DecodeOutcome, Keeps, SubCache;
    var d := DecodeOutcome(r.ep, w.hash);
    OutcomeRemembers(r.ep, w.hash);
    AbsorbKeeps(r.ep, d);
    hide EndpointOk;
  }

  lemma {:induction false} OutcomeRemembers(ep: Endpoint, hash: Hasher)
    requires EndpointOk(ep) && ep.decoder.Some?
    ensures SubCache(ep.registry[ep.decoder.value.uuid], DecodeOutcome(ep, hash).cache)
  {
    hide WindowOk, Decode, SubCache;
    DecodeRemembers(hash, ep.registry[ep.decoder.value.uuid], ep.decoder.value.window, ep.frame);
  }

  lemma {:induction false} SettleKeepsAll(w: World, r: Run)
    requires EndpointOk(r.ep)
    ensures Keeps(r.ep, Settle(w, r).ep)
  {
    hide DecodeFrame, WindowOk;
    if r.ep.frame != [] {
      DecodeFrameKeeps(w, r);
    }
    hide EndpointOk;
    SameKeeps(r.ep, r.ep);
    hide Keeps;
    if r.ep.frame == [] {
      SameKeeps(r.ep, Settle(w, r).ep);
    }
  }

  lemma {:induction false} ConsumingKeeps(w: World, r: Run)
    requires EndpointOk(r.ep)
    ensures Keeps(r.ep, Consuming(w, r).ep)
    decreases |r.ep.buffer|
  {
    hide EndpointOk, Take, Settle, Keeps;
    SameKeeps(r.ep, r.ep);
    if r.ep.buffer != [] && !r.failed && !r.paused {
      var t := Take(w, r);
      TakeKeepsAll(w, r);
      if !t.failed && !t.paused {
        SettleKeepsAll(w, t);
        ConsumingKeeps(w, Settle(w, t));
        KeepsTrans(r.ep, t.ep, Settle(w, t).ep);
        KeepsTrans(r.ep, Settle(w, t).ep, Consuming(w, r).ep);
      }
    }
  }

  lemma {:induction false} EndingSame(r: Run)
    requires EndpointOk(r.ep)
    ensures Ending(r).ep.registry == r.ep.registry && Ending(r).ep.codecCache == r.ep.codecCache
  {
    hide EndpointOk;
    var ep := r.ep;
    var ep1 := if ep.receivedEos && !ep.sentEosOut && ep.unknown == {} then ep.(sentEosOut := true) else ep;
    assert ep1.registry == ep.registry && ep1.codecCache == ep.codecCache;
    var ep2 := ep1.(closed := true);
    assert ep2.registry == ep.registry && ep2.codecCache == ep.codecCache;
    assert Ending(r).ep == ep || Ending(r).ep == ep1 || Ending(r).ep == ep2;
  }

  /** A call of `decoder_consume`, failing or not, forgets nothing. */
  lemma {:induction false} ConsumeKeepsAll(w: World, ep: Endpoint, buf: Bytes)
    requires EndpointOk(ep)
    ensures Keeps(ep, DecoderConsume(w, ep, buf).ep)
  {
    hide EndpointOk, Consuming, Ending;
    if buf == [] {
      SameKeeps(ep, DecoderConsume(w, ep, buf).ep);
    } else {
      BufferIsFree(ep, ep.buffer + buf);
      var r := Run(ep.(buffer := ep.buffer + buf), [], [], false, false);
      ConsumingKeeps(w, r);
      EndingSame(Consuming(w, r));
      hide Remembers;
    }
  }

  /** A call of `encoder_consume` only adds to the cache. */
  lemma {:induction false} EncodingRemembers(w: World, ep: Endpoint, buf: Bytes)
    requires EndpointOk(ep)
    ensures var ep' := EncoderConsume(w, ep, buf).ep;
            ep'.registry == ep.registry && SubCache(ep.codecCache, ep'.codecCache)
  {
    hide EncoderConsume, Encode, EncoderThrift.Spare, EncoderThrift.DeclaredOnce;
    EncodingWrites(w, ep, buf);
    EncoderThrift.EncodeIsThrifty(w.hash, true, ep.codecCache, WriterWindow(ep.encoder), buf);
    hide EndpointOk, WindowOk, WriterWindow;
  }

  lemma {:induction false} EncodingWrites(w: World, ep: Endpoint, buf: Bytes)
    requires EndpointOk(ep)
    ensures WindowOk(WriterWindow(ep.encoder))
    ensures var ep' := EncoderConsume(w, ep, buf).ep;
            && ep'.registry == ep.registry
            && (ep'.codecCache == ep.codecCache || ep'.codecCache == Encode(w.hash, true, ep.codecCache, WriterWindow(ep.encoder), buf).cache)
  {
    assert WindowOk(WriterWindow(ep.encoder));
    hide EndpointOk, WindowOk, Encode, WriterWindow;
    if buf == [] {
      EndingWrites(w, ep);
    } else {
      DataWrites(w, ep, buf);
    }
    hide EncoderConsume;
  }

  lemma {:induction false} EndingWrites(w: World, ep: Endpoint)
    requires EndpointOk(ep)
    ensures EncoderConsume(w, ep, []).ep.registry == ep.registry && EncoderConsume(w, ep, []).ep.codecCache == ep.codecCache
  {
    hide EndpointOk, WindowOk, Encode, Encoded, WriterWindow, Frames, PutMessages, PutMessage;
  }

  lemma {:induction false} DataWrites(w: World, ep: Endpoint, buf: Bytes)
    requires EndpointOk(ep) && WindowOk(WriterWindow(ep.encoder)) && buf != []
    ensures var ep', st := EncoderConsume(w, ep, buf).ep, Encode(w.hash, true, ep.codecCache, WriterWindow(ep.encoder), buf);
            ep' == ep || ep' == Encoded(ep, st)
  {
    hide EndpointOk, WindowOk, Encode, Encoded, WriterWindow, Frames, PutMessages, PutMessage;
  }

  /** A has forgotten nothing. */
  ghost predicate KeepsMind(s: System, s': System) {
    Remembers(s.a.registry, s'.a.registry) && SubCache(s.a.codecCache, s'.a.codecCache)
  }

  lemma {:induction false} StepRemembers(w: World, s: System, e: Event, s': System)
    requires StepOf(w, s, e, s') && !e.Hear?
    ensures KeepsMind(s, s')
  {
    hide EndpointOk, EncoderConsume, DecoderConsume, CacheOk;
    match e
    case Data(buf) => EncodingRemembers(w, s.a, buf);
    case End => EncodingRemembers(w, s.a, []);
    case Deliver(n) => ConsumeKeepsAll(w, s.a, s.ba[..n]);
    case PeerClosed => ConsumeKeepsAll(w, s.a, []);
    case Grow(_) =>
  }

  /** Over every run, unless another stream changes what is known of peers, an end forgets nothing that it has learned or declared. */
  lemma {:induction false} EveryRunRemembers(w: World, ss: seq<System>, ls: seq<Label>, i: nat, n: nat)
    requires IsLabelledRun(w, ss, ls) && i <= n <= |ls|
    requires forall k :: i <= k < n ==> !(ls[k].ByA? && ls[k].e.Hear?)
    ensures KeepsMind(ss[i], ss[n])
    decreases n
  {
    hide Init, StepOf;
    if i < n {
      var s, l, s' := ss[n - 1], ls[n - 1], ss[n - 1 + 1];
      assert LabelledStep(w, s, l, s');
      EveryRunRemembers(w, ss, ls, i, n - 1);
      if l.ByA? {
        StepRemembers(w, s, l.e, s');
      } else {
        DoMoves(w, Swap(s), l.e, Swap(s'));
      }
      RemembersTrans(ss[i].a.registry, s.a.registry, s'.a.registry);
      SubTrans(ss[i].a.codecCache, s.a.codecCache, s'.a.codecCache);
    }
  }
}
