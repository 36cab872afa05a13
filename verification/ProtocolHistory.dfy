/** What the two ends have ever said to each other: the order of messages, and questions against answers. */
module ProtocolHistory {
  import opened Bytes
  import opened Window
  import opened Pipe
  import opened PipeParse
  import opened Protocol
  import opened ProtocolCall
  import opened ProtocolRun

  // --- Runs that say who did what -----------------------------------------------------------------------

  datatype Label = ByA(e: Event) | ByB(e: Event)

  /** The bytes that A sends in a step of its own. */
  function Sends(w: World, s: System, e: Event): Bytes
    requires EndpointOk(s.a) && Enabled(w, s, e)
  {
    match e
    case Data(buf) => EncoderConsume(w, s.a, buf).sent
    case End => EncoderConsume(w, s.a, []).sent
    case Deliver(n) => DecoderConsume(w, s.a, s.ba[..n]).sent
    case PeerClosed => DecoderConsume(w, s.a, []).sent
    case Grow(_) => []
    case Hear(_) => []
  }

  /** The bytes that A sends in a step that it can take. */
  ghost function Output(w: World, s: System, e: Event): Bytes {
    if EndpointOk(s.a) && Enabled(w, s, e) then Sends(w, s, e) else []
  }

  ghost predicate StepOf(w: World, s: System, e: Event, s': System) {
    EndpointOk(s.a) && EndpointOk(s.b) && Enabled(w, s, e) && s' == Do(w, s, e)
  }

  ghost predicate LabelledStep(w: World, s: System, l: Label, s': System) {
    if l.ByA? then StepOf(w, s, l.e, s') else StepOf(w, Swap(s), l.e, Swap(s'))
  }

  ghost predicate IsLabelledRun(w: World, ss: seq<System>, ls: seq<Label>) {
    && |ss| == |ls| + 1
    && Init(w, ss[0])
    && forall i :: 0 <= i < |ls| ==> LabelledStep(w, ss[i], ls[i], ss[i + 1])
  }

  lemma {:induction false} LabelledIsRun(w: World, ss: seq<System>, ls: seq<Label>)
    requires IsLabelledRun(w, ss, ls)
    ensures IsRun(w, ss)
  {
    hide Init, Enabled, Do, EndpointOk;
    forall i | 0 <= i < |ss| - 1
      ensures Step(w, ss[i], ss[i + 1])
    {
      assert LabelledStep(w, ss[i], ls[i], ss[i + 1]);
    }
  }

  lemma {:induction false} StepHasLabel(w: World, s: System, s': System) returns (l: Label)
    requires Step(w, s, s')
    ensures LabelledStep(w, s, l, s')
  {
    hide Enabled, Do, EndpointOk;
    if e :| Enabled(w, s, e) && s' == Do(w, s, e) {
      l := ByA(e);
    } else {
      var e :| Enabled(w, Swap(s), e) && Swap(s') == Do(w, Swap(s), e);
      l := ByB(e);
    }
  }

  /** Every run is a labelled one. */
  lemma {:induction false} RunHasLabels(w: World, ss: seq<System>) returns (ls: seq<Label>)
    requires IsRun(w, ss)
    ensures IsLabelledRun(w, ss, ls)
  {
    hide Init, Step, LabelledStep;
    ls := [];
    while |ls| < |ss| - 1
      invariant |ls| <= |ss| - 1
      invariant forall i :: 0 <= i < |ls| ==> LabelledStep(w, ss[i], ls[i], ss[i + 1])
    {
      var i := |ls|;
      assert Step(w, ss[i], ss[i + 1]);
      var l := StepHasLabel(w, ss[i], ss[i + 1]);
      ls := ls + [l];
    }
  }

  /** Runs and labelled runs are the same runs. */
  lemma {:induction false} RunsAreLabelled(w: World, ss: seq<System>)
    ensures IsRun(w, ss) <==> exists ls :: IsLabelledRun(w, ss, ls)
  {
    hide IsRun, IsLabelledRun;
    if IsRun(w, ss) {
      var ls := RunHasLabels(w, ss);
    } else if ls :| IsLabelledRun(w, ss, ls) {
      LabelledIsRun(w, ss, ls);
    }
  }

  /** All bytes that A has sent before state `n`. */
  ghost function WroteA(w: World, ss: seq<System>, ls: seq<Label>, n: nat): Bytes
    requires n <= |ls| && n <= |ss|
  {
    if n == 0 then []
    else WroteA(w, ss, ls, n - 1) + if ls[n - 1].ByA? then Output(w, ss[n - 1], ls[n - 1].e) else []
  }

  ghost function WroteB(w: World, ss: seq<System>, ls: seq<Label>, n: nat): Bytes
    requires n <= |ls| && n <= |ss|
  {
    if n == 0 then []
    else WroteB(w, ss, ls, n - 1) + if ls[n - 1].ByB? then Output(w, Swap(ss[n - 1]), ls[n - 1].e) else []
  }

  // --- Histories ------------------------------------------------------------------------------------------

  const NOTHING_SEEN := Seen(false, false, false)

  /** `h` are all messages that `x` has written as `wrote`, in a proper order; `l.msgs` are the last of them. */
  ghost predicate Said(x: Endpoint, l: Link, h: seq<Message>, wrote: Bytes) {
    && PutMessages(h) == wrote
    && |l.msgs| <= |h| && h[|h| - |l.msgs|..] == l.msgs
    && See(NOTHING_SEEN, h, x.uuid) == Some(SentBy(x))
  }

  /** What has been taken of a history. */
  function Heard(h: seq<Message>, l: Link): seq<Message>
    requires |l.msgs| <= |h|
  {
    h[..|h| - |l.msgs|]
  }

  ghost predicate Histories(w: World, s: System, f: Link, g: Link, ha: seq<Message>, hb: seq<Message>, wroteA: Bytes, wroteB: Bytes) {
    && Said(s.a, f, ha, wroteA)
    && Said(s.b, g, hb, wroteB)
    // Every question that was heard was answered, in its turn.
    && AskedIn(Heard(ha, f)) == TaughtIn(w.hash, hb)
    && AskedIn(Heard(hb, g)) == TaughtIn(w.hash, ha)
    && AckHeard(s.a, Heard(hb, g))
    && AckHeard(s.b, Heard(ha, f))
  }

  /** An end that has read its peer's stream to the end has acknowledged that unless the last message it heard is an answer. */
  predicate AckHeard(ep: Endpoint, heard: seq<Message>) {
    if heard == [] then !(ep.receivedEos && ep.frame == []) else AckedAfter(ep, heard[|heard| - 1])
  }

  /** The writer's side of a step: new messages behind the old ones. */
  lemma {:induction false} SaysMore(w: World, x: Endpoint, x': Endpoint, y: Endpoint, chan: Bytes, f: Link, f': Link, h: seq<Message>, wrote: Bytes, out: Bytes)
    requires Said(x, f, h, wrote) && x'.uuid == x.uuid && f.msgs <= f'.msgs
    requires y.buffer + chan == PutMessages(f.msgs) && y.buffer + (chan + out) == PutMessages(f'.msgs)
    requires See(SeenBy(y), f.msgs, x.uuid) == Some(SentBy(x)) && See(SeenBy(y), f'.msgs, x.uuid) == Some(SentBy(x'))
    ensures Said(x', f', h + f'.msgs[|f.msgs|..], wrote + out)
    ensures Heard(h + f'.msgs[|f.msgs|..], f') == Heard(h, f)
  {
    hide PutMessages, See;
    var more := f'.msgs[|f.msgs|..];
    assert f'.msgs == f.msgs + more;
    PutMessagesConcat(f.msgs, more);
    assert y.buffer + (chan + out) == y.buffer + chan + out;
    SameEnd(PutMessages(f.msgs), PutMessages(more), out);
    PutMessagesConcat(h, more);
    SeeConcat(SeenBy(y), f.msgs, more, x.uuid);
    SeeConcat(NOTHING_SEEN, h, more, x.uuid);
    assert (h + more)[|h + more| - |f'.msgs|..] == f'.msgs;
  }

  lemma {:induction false} SameEnd(a: Bytes, b: Bytes, c: Bytes)
    requires a + b == a + c
    ensures b == c
  {
    assert b == (a + b)[|a|..] == (a + c)[|a|..] == c;
  }

  /** The reader's side of a step: more of the old messages are heard. */
  lemma {:induction false} HearsMore(x: Endpoint, g: Link, g': Link, h: seq<Message>, wrote: Bytes)
    requires Said(x, g, h, wrote)
    requires |g'.msgs| <= |g.msgs| && g'.msgs == g.msgs[|g.msgs| - |g'.msgs|..]
    ensures Said(x, g', h, wrote)
    ensures Heard(h, g') == Heard(h, g) + g.msgs[..|g.msgs| - |g'.msgs|]
  {
    hide See, PutMessages;
    assert g.msgs == g.msgs[..|g.msgs| - |g'.msgs|] + g'.msgs;
    assert h == Heard(h, g) + g.msgs;
  }

  /** At most one hash is pending, and it is in `unknown`. */
  ghost predicate Pending(hs: seq<Word>, unknown: set<Word>) {
    |hs| == |unknown| <= 1 && forall h :: h in hs ==> h in unknown
  }

  lemma {:induction false} SamePending(a: seq<Word>, b: seq<Word>, unknown: set<Word>)
    requires Pending(a, unknown) && Pending(b, unknown)
    ensures a == b
  {
    if a != [] {
      assert a[0] in unknown && b[0] in unknown;
      if a[0] != b[0] {
        assert {a[0], b[0]} <= unknown;
        SubsetSize({a[0], b[0]}, unknown);
      }
    }
  }

  lemma {:induction false} SubsetSize(a: set<Word>, b: set<Word>)
    requires a <= b
    ensures |a| <= |b|
  {
    assert b == a + (b - a);
  }

  /** The questions heard in a step are the answers given in it. */
  lemma {:induction false} AnswersMove(hash: Hasher, unknown: set<Word>, g: seq<Message>, heard: seq<Message>, g': seq<Message>, f: seq<Message>, more: seq<Message>, f': seq<Message>)
    requires g == heard + g' && f' == f + more
    requires Pending(AskedIn(g) + TaughtIn(hash, f), unknown) && Pending(AskedIn(g') + TaughtIn(hash, f'), unknown)
    ensures AskedIn(heard) == TaughtIn(hash, more)
  {
    hide AskedIn, TaughtIn;
    AskedConcat(heard, g');
    TaughtConcat(hash, f, more);
    SamePending(AskedIn(g) + TaughtIn(hash, f), AskedIn(g') + TaughtIn(hash, f'), unknown);
    var rest := AskedIn(g') + TaughtIn(hash, f);
    assert AskedIn(heard) + AskedIn(g') + TaughtIn(hash, f) == AskedIn(heard) + rest;
    assert AskedIn(g') + (TaughtIn(hash, f) + TaughtIn(hash, more)) == rest + TaughtIn(hash, more);
    Cancel(AskedIn(heard), rest, TaughtIn(hash, more));
  }

  lemma {:induction false} Cancel(a: seq<Word>, b: seq<Word>, c: seq<Word>)
    requires a + b == b + c && |a + b| <= 1
    ensures a == c
  {
    assert a + [] == a && [] + c == c;
  }

  lemma {:induction false} AckHeardMoves(ep: Endpoint, ep': Endpoint, g: Link, g': Link, heard: seq<Message>)
    requires AckHeard(ep, heard) && AckMoves(ep, ep', g, g') && |g'.msgs| <= |g.msgs|
    ensures AckHeard(ep', heard + g.msgs[..|g.msgs| - |g'.msgs|])
  {
    var n := |g.msgs| - |g'.msgs|;
    if n == 0 {
      assert heard + g.msgs[..n] == heard;
    } else {
      assert (heard + g.msgs[..n])[|heard| + n - 1] == g.msgs[n - 1];
    }
  }

  /** The counts of a state, without the invariant behind them. */
  lemma {:induction false} StateCounts(w: World, s: System, f: Link, g: Link)
    requires Inv(w, s, f, g)
    ensures s.b.buffer + s.ab == PutMessages(f.msgs)
    ensures Pending(AskedIn(f.msgs) + TaughtIn(w.hash, g.msgs), s.a.unknown)
    ensures Pending(AskedIn(g.msgs) + TaughtIn(w.hash, f.msgs), s.b.unknown)
    ensures See(SeenBy(s.b), f.msgs, s.a.uuid) == Some(SentBy(s.a))
  {
    hide Inv;
    OneEach(w, s, f, g);
    InvSwap(w, s, f, g);
    OneEach(w, Swap(s), g, f);
    InvSees(w, s, f, g);
  }

  lemma {:induction false} InvSees(w: World, s: System, f: Link, g: Link)
    requires Inv(w, s, f, g)
    ensures See(SeenBy(s.b), f.msgs, s.a.uuid) == Some(SentBy(s.a))
  {
    hide WindowOk, Written, ReadSoFar, Follows, Holds, Queued, Wants, Asked, See, Settled, Drained, Ends, EndpointOk;
  }

  /** A step of A touches neither B nor what B has sent, but for what A takes. */
  lemma {:induction false} DoMoves(w: World, s: System, e: Event, s': System)
    requires StepOf(w, s, e, s')
    ensures s'.b == s.b && s'.ab == s.ab + Output(w, s, e) && s'.a.uuid == s.a.uuid
  {
    hide EndpointOk, EncoderConsume, DecoderConsume, CacheOk, SubCache;
    assert s.ab + [] == s.ab;
  }

  // --- Every run ------------------------------------------------------------------------------------------------

  /** A step of A: it answers exactly the questions that it hears. */
  lemma {:induction false} StepByA(w: World, s: System, f: Link, g: Link, ha: seq<Message>, hb: seq<Message>, wroteA: Bytes, wroteB: Bytes, e: Event, s': System)
      returns (f': Link, g': Link, ha': seq<Message>)
    requires Inv(w, s, f, g) && StepOf(w, s, e, s')
    requires Histories(w, s, f, g, ha, hb, wroteA, wroteB)
    ensures Inv(w, s', f', g')
    ensures Histories(w, s', f', g', ha', hb, wroteA + Output(w, s, e), wroteB)
  {
    hide Inv, Enabled, Do, Sends, EndpointOk, See, PutMessages, Said, Moves, AskedIn, TaughtIn, Heard, Output, AckMoves, AckHeard;
    f', g' := DoKeeps(w, s, f, g, e);
    DoMoves(w, s, e, s');
    ha' := ha + NewMessages(f, f', g, g');
    HistoryMoves(w, s, s', f, f', g, g', ha, hb, wroteA, wroteB, Output(w, s, e));
  }

  function NewMessages(f: Link, f': Link, g: Link, g': Link): seq<Message>
    requires Moves(f, f', g, g')
  {
    f'.msgs[|f.msgs|..]
  }

  lemma {:induction false} HistoryMoves(w: World, s: System, s': System, f: Link, f': Link, g: Link, g': Link, ha: seq<Message>, hb: seq<Message>, wroteA: Bytes, wroteB: Bytes, out: Bytes)
    requires Inv(w, s, f, g) && Inv(w, s', f', g') && Moves(f, f', g, g') && AckMoves(s.a, s'.a, g, g')
    requires s'.b == s.b && s'.ab == s.ab + out && s'.a.uuid == s.a.uuid
    requires Histories(w, s, f, g, ha, hb, wroteA, wroteB)
    ensures Histories(w, s', f', g', ha + NewMessages(f, f', g, g'), hb, wroteA + out, wroteB)
  {
    hide Inv, See, PutMessages, AskedIn, TaughtIn, Pending, AckMoves, AckHeard;
    StateCounts(w, s, f, g);
    StateCounts(w, s', f', g');
    var more, heard := NewMessages(f, f', g, g'), g.msgs[..|g.msgs| - |g'.msgs|];
    SaysMore(w, s.a, s'.a, s.b, s.ab, f, f', ha, wroteA, out);
    HearsMore(s.b, g, g', hb, wroteB);
    assert f'.msgs == f.msgs + more && g.msgs == heard + g'.msgs;
    AnswersMove(w.hash, s.b.unknown, g.msgs, heard, g'.msgs, f.msgs, more, f'.msgs);
    AskedConcat(Heard(hb, g), heard);
    TaughtConcat(w.hash, ha, more);
    AckHeardMoves(s.a, s'.a, g, g', Heard(hb, g));
    hide Said, Moves, Heard;
  }

  lemma {:induction false} HistoriesSwap(w: World, s: System, f: Link, g: Link, ha: seq<Message>, hb: seq<Message>, wroteA: Bytes, wroteB: Bytes)
    requires Histories(w, s, f, g, ha, hb, wroteA, wroteB)
    ensures Histories(w, Swap(s), g, f, hb, ha, wroteB, wroteA)
  {
    hide AskedIn, TaughtIn, See, PutMessages, AckHeard, Said;
  }

  lemma {:induction false} InitHistories(w: World, s: System)
    requires Init(w, s)
    ensures Histories(w, s, Link([], 0, []), Link([], 0, []), [], [], [], [])
  {
  }

  lemma {:induction false} RunHistories(w: World, ss: seq<System>, ls: seq<Label>, n: nat)
      returns (f: Link, g: Link, ha: seq<Message>, hb: seq<Message>)
    requires IsLabelledRun(w, ss, ls) && n < |ss|
    ensures Inv(w, ss[n], f, g)
    ensures Histories(w, ss[n], f, g, ha, hb, WroteA(w, ss, ls, n), WroteB(w, ss, ls, n))
  {
    hide Inv, Init, StepOf, Output, Histories;
    if n == 0 {
      InitInv(w, ss[0]);
      InitHistories(w, ss[0]);
      f, g, ha, hb := Link([], 0, []), Link([], 0, []), [], [];
    } else {
      f, g, ha, hb := RunHistories(w, ss, ls, n - 1);
      var s, l, s' := ss[n - 1], ls[n - 1], ss[n - 1 + 1];
      var wroteA, wroteB := WroteA(w, ss, ls, n - 1), WroteB(w, ss, ls, n - 1);
      assert LabelledStep(w, s, l, s');
      assert wroteA + [] == wroteA && wroteB + [] == wroteB;
      if l.ByA? {
        f, g, ha := StepByA(w, s, f, g, ha, hb, wroteA, wroteB, l.e, s');
      } else {
        InvSwap(w, s, f, g);
        HistoriesSwap(w, s, f, g, ha, hb, wroteA, wroteB);
        g, f, hb := StepByA(w, Swap(s), g, f, hb, ha, wroteB, wroteA, l.e, Swap(s'));
        InvSwap(w, Swap(s'), g, f);
        HistoriesSwap(w, Swap(s'), g, f, hb, ha, wroteB + Output(w, Swap(s), l.e), wroteA);
      }
    }
  }

  // --- Order and counts --------------------------------------------------------------------------------------------

  ghost predicate SaysHello(h: seq<Message>) {
    exists i :: 0 <= i < |h| && h[i].Hello?
  }

  ghost predicate SaysEos(h: seq<Message>) {
    exists i :: 0 <= i < |h| && h[i].Eos?
  }

  ghost predicate SaysAck(h: seq<Message>) {
    exists i :: 0 <= i < |h| && h[i].EosAck?
  }

  /** HELLO comes before any FRAME, LEARN or EOS; no FRAME follows EOS; HELLO, EOS and EOS_ACK are said once. */
  ghost predicate Orderly(h: seq<Message>) {
    forall i :: 0 <= i < |h| ==> Timely(h[..i], h[i])
  }

  ghost predicate Timely(before: seq<Message>, m: Message) {
    match m
    case Hello(_) => !SaysHello(before)
    case Ask(_) => true
    case Learn(_) => SaysHello(before)
    case Eos => SaysHello(before) && !SaysEos(before)
    case EosAck => !SaysAck(before)
    case Frame(_) => SaysHello(before) && !SaysEos(before)
  }

  lemma {:induction false} SaysMoreOf(h: seq<Message>, m: Message)
    ensures SaysHello(h + [m]) <==> SaysHello(h) || m.Hello?
    ensures SaysEos(h + [m]) <==> SaysEos(h) || m.Eos?
    ensures SaysAck(h + [m]) <==> SaysAck(h) || m.EosAck?
  {
    var all := h + [m];
    assert all[|h|] == m && forall i :: 0 <= i < |h| ==> all[i] == h[i];
  }

  /** What has been seen after a history is what was said in it, and each message came in time. */
  lemma {:induction false} SeenIsSaid(h: seq<Message>, uuid: Bytes)
    requires See(NOTHING_SEEN, h, uuid).Some?
    ensures Orderly(h)
    ensures See(NOTHING_SEEN, h, uuid).value == Seen(SaysHello(h), SaysEos(h), SaysAck(h))
  {
    if h != [] {
      var k := |h| - 1;
      var front, m := h[..k], h[k];
      assert h == front + [m];
      SeeLast(NOTHING_SEEN, front, m, uuid);
      SeenIsSaid(front, uuid);
      SaysMoreOf(front, m);
      hide See, SaysHello, SaysEos, SaysAck;
      forall i | 0 <= i < |h|
        ensures Timely(h[..i], h[i])
      {
        if i < k {
          assert h[..i] == front[..i] && h[i] == front[i];
        }
      }
    }
  }

  lemma {:induction false} HistoryCounts(w: World, s: System, f: Link, g: Link, ha: seq<Message>, hb: seq<Message>, wroteA: Bytes, wroteB: Bytes)
    requires Inv(w, s, f, g) && Histories(w, s, f, g, ha, hb, wroteA, wroteB)
    ensures Orderly(ha) && PutMessages(f.msgs) == s.b.buffer + s.ab
    ensures Answered(AskedIn(ha), TaughtIn(w.hash, Heard(hb, g)), s.a.unknown)
  {
    hide Inv, See, PutMessages, AskedIn, TaughtIn, Orderly, AckHeard;
    SeenIsSaid(ha, s.a.uuid);
    StateCounts(w, s, f, g);
    assert ha == Heard(ha, f) + f.msgs && hb == Heard(hb, g) + g.msgs;
    AskedConcat(Heard(ha, f), f.msgs);
    TaughtConcat(w.hash, Heard(hb, g), g.msgs);
    AnsweredFrom(TaughtIn(w.hash, Heard(hb, g)), TaughtIn(w.hash, g.msgs), AskedIn(f.msgs), s.a.unknown);
  }

  /** The answers heard are the questions asked, in their order, but for a last question about a hash not known yet. */
  ghost predicate Answered(asked: seq<Word>, taught: seq<Word>, unknown: set<Word>) {
    && taught <= asked
    && |asked| == |taught| + |unknown| && |unknown| <= 1
    && forall i :: |taught| <= i < |asked| ==> asked[i] in unknown
  }

  lemma {:induction false} AnsweredFrom(taught: seq<Word>, onItsWay: seq<Word>, asking: seq<Word>, unknown: set<Word>)
    requires Pending(asking + onItsWay, unknown)
    ensures Answered(taught + onItsWay + asking, taught, unknown)
  {
    var asked := taught + onItsWay + asking;
    forall i | |taught| <= i < |asked|
      ensures asked[i] in unknown
    {
      assert asked[i] in asking + onItsWay;
    }
  }

  /**
    `ha` and `hb` are all messages that the ends have sent, of which the other has taken the first
    `heardB` and `heardA`: whole messages in a proper order. Each end has taken the answers to its
    questions in the order in which it asked them, all but one for a hash that it does not know; and
    it has answered every question that it has heard, in order. An end that has read all of its
    peer's stream has acknowledged its end exactly if the last message that it took is not a LEARN.
  */
  ghost predicate HistoryOk(w: World, s: System, ha: seq<Message>, hb: seq<Message>, heardA: nat, heardB: nat) {
    && Orderly(ha) && Orderly(hb)
    && heardA <= |hb| && PutMessages(hb[heardA..]) == s.a.buffer + s.ba
    && heardB <= |ha| && PutMessages(ha[heardB..]) == s.b.buffer + s.ab
    && Answered(AskedIn(ha), TaughtIn(w.hash, hb[..heardA]), s.a.unknown)
    && Answered(AskedIn(hb), TaughtIn(w.hash, ha[..heardB]), s.b.unknown)
    && AskedIn(ha[..heardB]) == TaughtIn(w.hash, hb)
    && AskedIn(hb[..heardA]) == TaughtIn(w.hash, ha)
    && AckHeard(s.a, hb[..heardA]) && AckHeard(s.b, ha[..heardB])
  }

  lemma {:induction false} FromHistories(w: World, s: System, f: Link, g: Link, ha: seq<Message>, hb: seq<Message>, wroteA: Bytes, wroteB: Bytes)
    requires Inv(w, s, f, g) && Histories(w, s, f, g, ha, hb, wroteA, wroteB)
    ensures |g.msgs| <= |hb| && |f.msgs| <= |ha|
    ensures HistoryOk(w, s, ha, hb, |hb| - |g.msgs|, |ha| - |f.msgs|)
  {
    hide Inv, See, PutMessages, AskedIn, TaughtIn, Orderly, Answered, AckHeard;
    HistoryCounts(w, s, f, g, ha, hb, wroteA, wroteB);
    InvSwap(w, s, f, g);
    HistoriesSwap(w, s, f, g, ha, hb, wroteA, wroteB);
    HistoryCounts(w, Swap(s), g, f, hb, ha, wroteB, wroteA);
  }

  /** Every run has such histories, and they are what was sent. */
  lemma {:induction false} EveryHistoryIsOrderly(w: World, ss: seq<System>, ls: seq<Label>, n: nat)
      returns (ha: seq<Message>, hb: seq<Message>, heardA: nat, heardB: nat)
    requires IsLabelledRun(w, ss, ls) && n < |ss|
    ensures n <= |ls| && PutMessages(ha) == WroteA(w, ss, ls, n) && PutMessages(hb) == WroteB(w, ss, ls, n)
    ensures HistoryOk(w, ss[n], ha, hb, heardA, heardB)
  {
    hide Init, LabelledStep, Inv, See, PutMessages, AskedIn, TaughtIn, WroteA, WroteB, HistoryOk;
    var f, g;
    f, g, ha, hb := RunHistories(w, ss, ls, n);
    heardA, heardB := |hb| - |g.msgs|, |ha| - |f.msgs|;
    FromHistories(w, ss[n], f, g, ha, hb, WroteA(w, ss, ls, n), WroteB(w, ss, ls, n));
  }

  /**
    When the end of a stream is acknowledged: of an end that has been told of it and has nothing left
    to decode, the acknowledgement has been sent if and only if the last message taken is not a LEARN.
  */
  lemma {:induction false} AcknowledgedExactly(w: World, ss: seq<System>, ls: seq<Label>, n: nat)
      returns (hb: seq<Message>, heard: nat)
    requires IsLabelledRun(w, ss, ls) && n < |ss|
    requires ss[n].a.receivedEos && ss[n].a.frame == []
    ensures n <= |ls| && PutMessages(hb) == WroteB(w, ss, ls, n)
    ensures 0 < heard <= |hb| && PutMessages(hb[heard..]) == ss[n].a.buffer + ss[n].ba
    ensures ss[n].a.sentEosAck <==> !hb[heard - 1].Learn?
  {
    hide Init, LabelledStep, PutMessages, AskedIn, TaughtIn, WroteA, WroteB, Orderly, Answered;
    var ha, heardB;
    ha, hb, heard, heardB := EveryHistoryIsOrderly(w, ss, ls, n);
  }

  // --- The first word -----------------------------------------------------------------------------------------------

  lemma {:induction false} WroteGrows(w: World, ss: seq<System>, ls: seq<Label>, i: nat, n: nat)
    requires i <= n <= |ls| && n <= |ss|
    ensures WroteA(w, ss, ls, i) <= WroteA(w, ss, ls, n)
    decreases n
  {
    hide Output;
    if i < n {
      WroteGrows(w, ss, ls, i, n - 1);
    }
  }

  /** Who has written nothing has no encoder. */
  lemma {:induction false} SilentSoFar(x: Endpoint, l: Link, h: seq<Message>)
    requires Said(x, l, h, [])
    ensures x.encoder.None?
  {
  }

  /** The encoder starts with HELLO; the decoder never makes an encoder. */
  lemma {:induction false} Speaks(w: World, s: System, e: Event, s': System)
    requires StepOf(w, s, e, s') && s.a.encoder.None? && Output(w, s, e) != []
    ensures e.Data? || e.End? || e.Deliver?
    ensures e.Data? || e.End? ==> Output(w, s, e)[0] == OP_HELLO
    ensures e.Deliver? ==> s'.a.encoder.None?
  {
    hide EndpointOk, WindowOk, Consuming, Ending, CacheOk, SubCache, WriterWindow, Frames, PutMessages;
  }

  /** The first message of an end that has no encoder is a question or an acknowledgement. */
  lemma {:induction false} FirstMessageOf(x: Endpoint, l: Link, h: seq<Message>, wrote: Bytes)
    requires Said(x, l, h, wrote) && x.encoder.None? && wrote != []
    ensures wrote[0] == OP_ASK || wrote[0] == OP_EOS_ACK
  {
    hide See;
    SeenIsSaid(h, x.uuid);
    assert h != [] && Timely(h[..0], h[0]);
    assert wrote[0] == PutMessage(h[0])[0];
  }

  lemma {:induction false} RunSaid(w: World, ss: seq<System>, ls: seq<Label>, n: nat) returns (f: Link, ha: seq<Message>)
    requires IsLabelledRun(w, ss, ls) && n < |ss|
    ensures Said(ss[n].a, f, ha, WroteA(w, ss, ls, n))
  {
    hide Init, Inv, LabelledStep, Said, AskedIn, TaughtIn, AckHeard, WroteA, WroteB;
    var g, hb;
    f, g, ha, hb := RunHistories(w, ss, ls, n);
  }

  ghost predicate StartsBy(e: Event, wrote: Bytes) {
    && wrote != []
    && (wrote[0] == OP_HELLO <==> e.Data? || e.End?)
    && (e.Deliver? <==> wrote[0] == OP_ASK || wrote[0] == OP_EOS_ACK)
  }

  lemma {:induction false} StartsNow(w: World, ss: seq<System>, ls: seq<Label>, i: nat)
    requires IsLabelledRun(w, ss, ls) && i < |ls|
    requires ls[i].ByA? && WroteA(w, ss, ls, i) == [] && Output(w, ss[i], ls[i].e) != []
    ensures StartsBy(ls[i].e, WroteA(w, ss, ls, i + 1))
  {
    hide Init, StepOf, Output, Said;
    var s, e, s' := ss[i], ls[i].e, ss[i + 1];
    assert LabelledStep(w, s, ls[i], s');
    var f, ha := RunSaid(w, ss, ls, i);
    SilentSoFar(s.a, f, ha);
    Speaks(w, s, e, s');
    var wrote := WroteA(w, ss, ls, i + 1);
    assert wrote == Output(w, s, e);
    hide WroteA;
    if e.Deliver? {
      f, ha := RunSaid(w, ss, ls, i + 1);
      FirstMessageOf(s'.a, f, ha, wrote);
    }
  }

  /**
    The first message that A ever sends is HELLO if and only if A first speaks because its own stream
    brings data or ends. If it first speaks because of what B has sent, then it starts with ASK or EOS_ACK.
  */
  lemma {:induction false} FirstWord(w: World, ss: seq<System>, ls: seq<Label>, i: nat, n: nat)
    requires IsLabelledRun(w, ss, ls) && i < n <= |ls|
    requires ls[i].ByA? && WroteA(w, ss, ls, i) == [] && Output(w, ss[i], ls[i].e) != []
    ensures StartsBy(ls[i].e, WroteA(w, ss, ls, n))
    ensures forall h: seq<Message> :: PutMessages(h) == WroteA(w, ss, ls, n) ==>
              h != [] && (h[0].Hello? <==> ls[i].e.Data? || ls[i].e.End?)
  {
    hide Init, LabelledStep, Output, WroteA;
    StartsNow(w, ss, ls, i);
    WroteGrows(w, ss, ls, i + 1, n);
  }

  // --- The other end ------------------------------------------------------------------------------------------------

  function Mirror(ss: seq<System>): seq<System> {
    seq(|ss|, i requires 0 <= i < |ss| => Swap(ss[i]))
  }

  function MirrorLabels(ls: seq<Label>): seq<Label> {
    seq(|ls|, i requires 0 <= i < |ls| => if ls[i].ByA? then ByB(ls[i].e) else ByA(ls[i].e))
  }

  /** A run seen from B is a run, in which A has written what B wrote: all that is said of A holds of B. */
  lemma {:induction false} MirrorRun(w: World, ss: seq<System>, ls: seq<Label>, n: nat)
    requires IsLabelledRun(w, ss, ls) && n <= |ls|
    ensures IsLabelledRun(w, Mirror(ss), MirrorLabels(ls))
    ensures WroteA(w, Mirror(ss), MirrorLabels(ls), n) == WroteB(w, ss, ls, n)
    ensures WroteB(w, Mirror(ss), MirrorLabels(ls), n) == WroteA(w, ss, ls, n)
  {
    hide Enabled, Do, EndpointOk, Output, StepOf, FreshEnd, PeerCache, SubCache;
    forall i | 0 <= i < |ls|
      ensures LabelledStep(w, Mirror(ss)[i], MirrorLabels(ls)[i], Mirror(ss)[i + 1])
    {
      assert LabelledStep(w, ss[i], ls[i], ss[i + 1]);
    }
    if n > 0 {
      MirrorRun(w, ss, ls, n - 1);
    }
  }
}
