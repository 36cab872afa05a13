/** Taking one message keeps the invariant of the protocol. */
module ProtocolTake {
  import opened Bytes
  import opened Hash
  import opened Window
  import opened Stream
  import opened Pipe
  import opened PipeParse
  import opened Protocol

  // --- No message is an error ---------------------------------------------------------------------------

  /** A reference in a meaningful stream is to a segment the writer has. */
  lemma {:induction false} RefIsKnown(hash: Hasher, toks: seq<Token>, k: nat, w: Window, cache: Cache)
    requires WindowOk(w) && Play(hash, toks, w, cache).Some?
    requires k < |toks| && toks[k].Ref?
    ensures toks[k].hash in cache
  {
    hide WindowOk, Declared, Dereferenced, PlayOne;
    PlayPrefix(hash, toks, k, w, cache);
    var w' := Play(hash, toks[..k], w, cache).value.window;
    assert toks[k..][0] == toks[k];
    assert PlayOne(hash, toks[k], w', cache).Some?;
    KnownRef(hash, toks[k], w', cache);
  }

  lemma {:induction false} KnownRef(hash: Hasher, t: Token, w: Window, cache: Cache)
    requires WindowOk(w) && t.Ref? && PlayOne(hash, t, w, cache).Some?
    ensures t.hash in cache
  {
  }

  /** The asked end has an encoder and knows the hash. */
  lemma {:induction false} AskIsAnswerable(w: World, s: System, f: Link, g: Link)
    requires Working(w, s, f, g) && g.msgs != [] && g.msgs[0].Ask?
    ensures Wanted(s.b.unknown, f.toks, f.k) == [g.msgs[0].hash]
    ensures TaughtIn(w.hash, f.msgs) == [] && AskedIn(g.msgs[1..]) == []
    ensures s.a.encoder.Some? && g.msgs[0].hash in s.a.codecCache
  {
    hide Play, WindowOk, Follows, ReadSoFar, PutAll, Holds, Queued, EndpointOk, See, Ends;
    var h := g.msgs[0].hash;
    assert AskedIn(g.msgs) == [h] + AskedIn(g.msgs[1..]);
    var wanted := Wanted(s.b.unknown, f.toks, f.k);
    assert wanted[0] == h;
    assert |wanted| == 1;
    assert |AskedIn(g.msgs)| == 1 + |AskedIn(g.msgs[1..])|;
    RefIsKnown(w.hash, f.toks, f.k, EmptyWindow(), s.a.codecCache);
  }

  lemma {:induction false} AcceptableHead(w: World, s: System, f: Link, g: Link)
    requires Working(w, s, f, g) && g.msgs != []
    ensures Acceptable(w, s.a, g.msgs[0])
  {
    hide Play, WindowOk, ReadSoFar, Written, PutAll, Holds, Queued, Wants, Settled;
    var m := g.msgs[0];
    assert SeeOne(SeenBy(s.a), m, s.b.uuid).Some?;
    if m.Ask? {
      AskIsAnswerable(w, s, f, g);
    } else if m.EosAck? {
      SeeGrows(SeeOne(SeenBy(s.a), m, s.b.uuid).value, g.msgs[1..], s.b.uuid);
      SeeGrows(SeenBy(s.b), f.msgs, s.a.uuid);
    }
  }

  // --- One message ------------------------------------------------------------------------------------------

  lemma {:induction false} PopQueued(m: Message, rest: Bytes, chan: Bytes, msgs: seq<Message>)
    requires msgs != [] && msgs[0] == m && Queued(PutMessage(m) + rest, chan, msgs)
    ensures Queued(rest, chan, msgs[1..])
  {
    hide PutMessage, MessageOk;
    var all := PutMessages(msgs);
    assert all == PutMessage(m) + (rest + chan);
    assert all[|PutMessage(m)|..] == rest + chan;
    assert all == PutMessage(m) + PutMessages(msgs[1..]);
    assert all[|PutMessage(m)|..] == PutMessages(msgs[1..]);
    assert forall i :: 0 <= i < |msgs| - 1 ==> msgs[1..][i] == msgs[i + 1];
  }

  lemma {:induction false} PushQueued(buffer: Bytes, chan: Bytes, msgs: seq<Message>, m: Message)
    requires Queued(buffer, chan, msgs) && MessageOk(m)
    ensures Queued(buffer, chan + PutMessage(m), msgs + [m])
  {
    hide PutMessage, MessageOk;
    PutMessagesConcat(msgs, [m]);
    PutMessagesOne(m);
    assert buffer + (chan + PutMessage(m)) == buffer + chan + PutMessage(m);
  }

  /** A message that is neither question nor answer leaves the questions alone. */
  lemma {:induction false} PopOther(hash: Hasher, cache: Cache, unknown: set<Word>, l: Link, back: seq<Message>)
    requires Asked(hash, cache, unknown, l, back) && l.msgs != [] && !l.msgs[0].Learn?
    ensures Asked(hash, cache, unknown, l.(msgs := l.msgs[1..]), back)
  {
    assert [] + TaughtIn(hash, l.msgs[1..]) == TaughtIn(hash, l.msgs[1..]);
    assert forall i :: 0 <= i < |l.msgs| - 1 ==> l.msgs[1..][i] == l.msgs[i + 1];
  }

  lemma {:induction false} PopBack(hash: Hasher, cache: Cache, unknown: set<Word>, l: Link, back: seq<Message>)
    requires Asked(hash, cache, unknown, l, back) && back != [] && !back[0].Ask?
    ensures Asked(hash, cache, unknown, l, back[1..])
  {
    assert [] + AskedIn(back[1..]) == AskedIn(back[1..]);
  }

  /** The system after A has taken the first message, whose bytes are followed by `rest`. */
  function AfterTake(w: World, s: System, m: Message, rest: Bytes): System
    requires EndpointOk(s.a) && Acceptable(w, s.a, m)
  {
    s.(a := Taken(w, s.a, m).(buffer := rest),
       ab := s.ab + if m.Ask? then PutMessage(Learn(s.a.codecCache[m.hash])) else [])
  }

  function ReplyLink(f: Link, a: Endpoint, m: Message): Link
    requires m.Ask? ==> m.hash in a.codecCache
  {
    if m.Ask? then f.(msgs := f.msgs + [Learn(a.codecCache[m.hash])]) else f
  }

  /** As a writer, A is the same before and after any message but a question. */
  lemma {:induction false} WriterUnmoved(w: World, s: System, f: Link, g: Link, m: Message, rest: Bytes)
    requires Working(w, s, f, g) && g.msgs != [] && g.msgs[0] == m && Acceptable(w, s.a, m) && !m.Ask?
    ensures var a := Taken(w, s.a, m).(buffer := rest);
            LinkOk(w, a, s.b, s.ab, s.inA, s.outB, f, g.msgs[1..])
  {
    hide Written, ReadSoFar, Follows, Holds, Queued, Wants, Ends, See, Asked, EndpointOk, WindowOk;
    PopBack(w.hash, s.a.codecCache, s.b.unknown, f, g.msgs);
  }

  lemma {:induction false} TakeHelloKeeps(w: World, s: System, f: Link, g: Link, m: Message, rest: Bytes)
    requires Working(w, s, f, g) && g.msgs != [] && g.msgs[0] == m && Acceptable(w, s.a, m) && m.Hello?
    requires s.a.buffer == PutMessage(m) + rest
    ensures LinkOk(w, s.b, Taken(w, s.a, m).(buffer := rest), s.ba, s.inB, s.outA, g.(msgs := g.msgs[1..]), f.msgs)
    ensures EndpointOk(Taken(w, s.a, m).(buffer := rest))
  {
    hide Written, Queued, Wants, Asked, WindowOk, PutMessage, PutAll, EmptyWindow, Play;
    PopQueued(m, rest, s.ba, g.msgs);
    PopOther(w.hash, s.b.codecCache, s.a.unknown, g, f.msgs);
    assert [] + FrameData(g.msgs[1..]) == FrameData(g.msgs);
    assert SeeOne(SeenBy(s.a), m, s.b.uuid) == Some(SeenBy(Taken(w, s.a, m)));
  }

  lemma {:induction false} TakeEndKeeps(w: World, s: System, f: Link, g: Link, m: Message, rest: Bytes)
    requires Working(w, s, f, g) && g.msgs != [] && g.msgs[0] == m && Acceptable(w, s.a, m) && (m.Eos? || m.EosAck?)
    requires s.a.buffer == PutMessage(m) + rest
    ensures LinkOk(w, s.b, Taken(w, s.a, m).(buffer := rest), s.ba, s.inB, s.outA, g.(msgs := g.msgs[1..]), f.msgs)
    ensures EndpointOk(Taken(w, s.a, m).(buffer := rest))
  {
    hide Written, Queued, Wants, Asked, WindowOk, PutMessage, PutAll, EmptyWindow, Play, Follows;
    PopQueued(m, rest, s.ba, g.msgs);
    PopOther(w.hash, s.b.codecCache, s.a.unknown, g, f.msgs);
    assert [] + FrameData(g.msgs[1..]) == FrameData(g.msgs);
    assert SeeOne(SeenBy(s.a), m, s.b.uuid) == Some(SeenBy(Taken(w, s.a, m)));
  }

  lemma {:induction false} TakeFrameKeeps(w: World, s: System, f: Link, g: Link, m: Message, rest: Bytes)
    requires Working(w, s, f, g) && g.msgs != [] && g.msgs[0] == m && Acceptable(w, s.a, m) && m.Frame?
    requires s.a.buffer == PutMessage(m) + rest
    ensures LinkOk(w, s.b, Taken(w, s.a, m).(buffer := rest), s.ba, s.inB, s.outA, g.(msgs := g.msgs[1..]), f.msgs)
    ensures EndpointOk(Taken(w, s.a, m).(buffer := rest))
  {
    hide Written, Queued, Asked, WindowOk, PutMessage, PutAll, EmptyWindow, Play, Follows, Put;
    PopQueued(m, rest, s.ba, g.msgs);
    PopOther(w.hash, s.b.codecCache, s.a.unknown, g, f.msgs);
    assert s.a.frame + (m.data + FrameData(g.msgs[1..])) == s.a.frame + m.data + FrameData(g.msgs[1..]);
    assert SeeOne(SeenBy(s.a), m, s.b.uuid) == Some(SeenBy(s.a));
  }

  /** An answer: the hash it teaches is the one hash that was unknown. */
  lemma {:induction false} TakeLearnKeeps(w: World, s: System, f: Link, g: Link, m: Message, rest: Bytes)
    requires Working(w, s, f, g) && g.msgs != [] && g.msgs[0] == m && Acceptable(w, s.a, m) && m.Learn?
    requires s.a.buffer == PutMessage(m) + rest
    ensures LinkOk(w, s.b, Taken(w, s.a, m).(buffer := rest), s.ba, s.inB, s.outA, g.(msgs := g.msgs[1..]), f.msgs)
    ensures EndpointOk(Taken(w, s.a, m).(buffer := rest))
  {
    hide Written, Queued, WindowOk, PutMessage, PutAll, EmptyWindow, Play, Put, Ends, Follows, PeerCache;
    PopQueued(m, rest, s.ba, g.msgs);
    LearnFollows(w, s.a, s.b.uuid, s.b.codecCache, m);
    LearnAnswers(w.hash, s.b.codecCache, s.a.unknown, s.a.frame, g, f.msgs);
    assert [] + FrameData(g.msgs[1..]) == FrameData(g.msgs);
    assert SeeOne(SeenBy(s.a), m, s.b.uuid) == Some(SeenBy(s.a));
    assert Ends(Taken(w, s.a, m).(buffer := rest)) by {
      LearnEnds(w, s.a, m, rest);
    }
  }

  lemma {:induction false} LearnFollows(w: World, a: Endpoint, uuid: Bytes, cache: Cache, m: Message)
    requires EndpointOk(a) && Acceptable(w, a, m) && m.Learn?
    requires Follows(a.registry, a.decoder, uuid, cache)
    requires w.hash(m.seg) in cache && cache[w.hash(m.seg)] == m.seg
    ensures Follows(Taken(w, a, m).registry, Taken(w, a, m).decoder, uuid, cache)
  {
    hide WindowOk;
  }

  lemma {:induction false} LearnEnds(w: World, a: Endpoint, m: Message, rest: Bytes)
    requires EndpointOk(a) && Acceptable(w, a, m) && m.Learn? && Ends(a)
    ensures Ends(Taken(w, a, m).(buffer := rest))
  {
  }

  lemma {:induction false} LearnAnswers(hash: Hasher, cache: Cache, unknown: set<Word>, frame: Bytes, l: Link, back: seq<Message>)
    requires Asked(hash, cache, unknown, l, back) && Wants(unknown, frame, l.toks, l.k)
    requires l.msgs != [] && l.msgs[0].Learn?
    ensures unknown == {hash(l.msgs[0].seg)}
    ensures Asked(hash, cache, {}, l.(msgs := l.msgs[1..]), back)
  {
    hide Put;
    var h := hash(l.msgs[0].seg);
    var rest := TaughtIn(hash, l.msgs[1..]);
    var wanted := Wanted(unknown, l.toks, l.k);
    assert TaughtIn(hash, l.msgs) == [h] + rest;
    assert |AskedIn(back)| + 1 + |rest| == |wanted| <= 1;
    assert AskedIn(back) == [] && rest == [];
    assert wanted == [h];
    assert forall i :: 0 <= i < |l.msgs| - 1 ==> l.msgs[1..][i] == l.msgs[i + 1];
  }

  lemma {:induction false} HoldsPush(frame: Bytes, l: Link, m: Message)
    requires Holds(frame, l) && !m.Frame?
    ensures Holds(frame, l.(msgs := l.msgs + [m]))
  {
    FrameDataConcat(l.msgs, [m]);
    assert FrameData([m]) == [];
    assert FrameData(l.msgs) + [] == FrameData(l.msgs);
  }

  /** The one question under way becomes the one answer under way. */
  lemma {:induction false} AnswerAsked(hash: Hasher, cache: Cache, unknown: set<Word>, l: Link, back: seq<Message>, seg: Bytes)
    requires Asked(hash, cache, unknown, l, back) && back != [] && back[0] == Ask(hash(seg))
    requires hash(seg) in cache && cache[hash(seg)] == seg
    ensures Asked(hash, cache, unknown, l.(msgs := l.msgs + [Learn(seg)]), back[1..])
  {
    var h := hash(seg);
    OnlyOne(h, AskedIn(back[1..]), TaughtIn(hash, l.msgs), Wanted(unknown, l.toks, l.k));
    TaughtOne(hash, l.msgs, seg);
    var msgs := l.msgs + [Learn(seg)];
    hide TaughtIn, AskedIn, Wanted;
    forall i | 0 <= i < |msgs| && msgs[i].Learn?
      ensures hash(msgs[i].seg) in cache && cache[hash(msgs[i].seg)] == msgs[i].seg
    {
      if i < |l.msgs| {
        assert msgs[i] == l.msgs[i];
      }
    }
  }

  lemma {:induction false} TaughtOne(hash: Hasher, msgs: seq<Message>, seg: Bytes)
    ensures TaughtIn(hash, msgs + [Learn(seg)]) == TaughtIn(hash, msgs) + [hash(seg)]
  {
    TaughtConcat(hash, msgs, [Learn(seg)]);
    assert [Learn(seg)][1..] == [];
  }

  lemma {:induction false} OnlyOne(h: Word, rest: seq<Word>, others: seq<Word>, all: seq<Word>)
    requires [h] + rest + others == all && |all| <= 1
    ensures rest == [] && others == [] && all == [h]
  {
  }

  /** The direction in which the answer travels. */
  lemma {:induction false} AnswerEnters(w: World, s: System, f: Link, g: Link, m: Message)
    requires Working(w, s, f, g) && g.msgs != [] && g.msgs[0] == m && Acceptable(w, s.a, m) && m.Ask?
    ensures LinkOk(w, s.a, s.b, s.ab + PutMessage(Learn(s.a.codecCache[m.hash])), s.inA, s.outB,
                   ReplyLink(f, s.a, m), g.msgs[1..])
  {
    hide WindowOk, PutMessage, Follows, Queued, Ends, Written, ReadSoFar, Wants, Settled, EndpointOk, Taken, Asked, Holds, See;
    var reply := Learn(s.a.codecCache[m.hash]);
    AskIsAnswerable(w, s, f, g);
    CachedSegment(w.hash, s.a.codecCache, s.a.encoder, f.toks, s.inA, m.hash);
    PushQueued(s.b.buffer, s.ab, f.msgs, reply);
    HoldsPush(s.b.frame, f, reply);
    AnswerAsked(w.hash, s.a.codecCache, s.b.unknown, f, g.msgs, s.a.codecCache[m.hash]);
    SeeLast(SeenBy(s.b), f.msgs, reply, s.a.uuid);
  }

  /** The direction in which the question travelled. */
  lemma {:induction false} QuestionLeaves(w: World, s: System, f: Link, g: Link, m: Message, rest: Bytes)
    requires Working(w, s, f, g) && g.msgs != [] && g.msgs[0] == m && Acceptable(w, s.a, m) && m.Ask?
    requires s.a.buffer == PutMessage(m) + rest
    ensures LinkOk(w, s.b, s.a.(buffer := rest), s.ba, s.inB, s.outA, g.(msgs := g.msgs[1..]), ReplyLink(f, s.a, m).msgs)
  {
    hide Written, Queued, WindowOk, PutMessage, PutAll, Put, Follows, ReadSoFar, Wants, Asked, EndpointOk;
    PopQueued(m, rest, s.ba, g.msgs);
    PopOther(w.hash, s.b.codecCache, s.a.unknown, g, f.msgs);
    PushReply(w.hash, s.b.codecCache, s.a.unknown, g.(msgs := g.msgs[1..]), f.msgs, s.a.codecCache[m.hash]);
    assert [] + FrameData(g.msgs[1..]) == FrameData(g.msgs);
  }

  lemma {:induction false} PushReply(hash: Hasher, cache: Cache, unknown: set<Word>, l: Link, back: seq<Message>, seg: Bytes)
    requires Asked(hash, cache, unknown, l, back)
    ensures Asked(hash, cache, unknown, l, back + [Learn(seg)])
  {
    AskedConcat(back, [Learn(seg)]);
    assert AskedIn([Learn(seg)]) == [];
    assert AskedIn(back) + [] == AskedIn(back);
  }

  /** A question is answered at once: it leaves one direction and its answer enters the other. */
  lemma {:induction false} TakeAskKeeps(w: World, s: System, f: Link, g: Link, m: Message, rest: Bytes)
    requires Working(w, s, f, g) && g.msgs != [] && g.msgs[0] == m && Acceptable(w, s.a, m) && m.Ask?
    requires s.a.buffer == PutMessage(m) + rest
    ensures Working(w, AfterTake(w, s, m, rest), ReplyLink(f, s.a, m), g.(msgs := g.msgs[1..]))
  {
    hide WindowOk, PutMessage;
    AnswerEnters(w, s, f, g, m);
    QuestionLeaves(w, s, f, g, m, rest);
    BufferIrrelevant(w, s.a, rest, s.b, s.ab + PutMessage(Learn(s.a.codecCache[m.hash])), s.inA, s.outB,
                     ReplyLink(f, s.a, m), g.msgs[1..]);
  }

  lemma {:induction false} BufferIrrelevant(w: World, x: Endpoint, rest: Bytes, y: Endpoint, chan: Bytes, input: Bytes, output: Bytes, l: Link, back: seq<Message>)
    requires LinkOk(w, x, y, chan, input, output, l, back)
    ensures LinkOk(w, x.(buffer := rest), y, chan, input, output, l, back)
  {
    hide Written, Queued, WindowOk, Holds, Wants, Asked, See, Ends, ReadSoFar, Follows;
  }

  lemma {:induction false} CachedSegment(hash: Hasher, cache: Cache, encoder: Option<Window>, toks: seq<Token>, input: Bytes, h: Word)
    requires Written(hash, cache, encoder, toks, input) && h in cache
    ensures |cache[h]| == SEGMENT_LENGTH && hash(cache[h]) == h
  {
  }

  /** Taking any message keeps the invariant, apart from decoding what has become decodable. */
  lemma {:induction false} TakeKeeps(w: World, s: System, f: Link, g: Link, rest: Bytes)
    requires Working(w, s, f, g) && g.msgs != []
    requires s.a.buffer == PutMessage(g.msgs[0]) + rest
    ensures Acceptable(w, s.a, g.msgs[0])
    ensures Working(w, AfterTake(w, s, g.msgs[0], rest), ReplyLink(f, s.a, g.msgs[0]), g.(msgs := g.msgs[1..]))
  {
    hide LinkOk, WindowOk, PutMessage, Acceptable, Taken, EndpointOk, Settled;
    AcceptableHead(w, s, f, g);
    var m := g.msgs[0];
    assert s.ab + [] == s.ab;
    if m.Ask? {
      AskAcceptable(w, s.a, m);
      TakeAskKeeps(w, s, f, g, m, rest);
    } else {
      WriterUnmoved(w, s, f, g, m, rest);
      match m
      case Hello(_) => TakeHelloKeeps(w, s, f, g, m, rest);
      case Learn(_) => TakeLearnKeeps(w, s, f, g, m, rest);
      case Frame(_) => TakeFrameKeeps(w, s, f, g, m, rest);
      case _ => TakeEndKeeps(w, s, f, g, m, rest);
    }
  }

  lemma {:induction false} AskAcceptable(w: World, ep: Endpoint, m: Message)
    requires EndpointOk(ep) && m.Ask? && Acceptable(w, ep, m)
    ensures m.hash in ep.codecCache
  {
  }
}
