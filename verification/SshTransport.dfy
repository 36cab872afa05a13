/** `TransportPipe`: sending, chunks arriving and packets being asked for, in any order. */
module SshTransport {
  import opened Bytes
  import opened SshPacket
  import opened SshStream

  // --- The receive loop ------------------------------------------------------------------------------------

  /** `taken` are the payloads of one call, of which only the last goes to the caller, if `done`. */
  datatype Loop<+S> = Loop(r: Receiver<S>, taken: seq<Bytes>, done: bool, failed: bool)

  function ReceiveDo<S>(suite: Suite<S>, r: Receiver<S>): Loop<S>
    requires 8 <= BlockOf(suite) <= 251
    decreases Left(r)
  {
    if r.input == [] then Loop(r, [], false, false)
    else
      match Open(suite, r)
      case Wait(r') => Loop(r', [], false, false)
      case Bad => Loop(r, [], false, true)
      case Packet(r', payload) =>
        match suite.handle(payload)
        case Handled =>
          var l := ReceiveDo(suite, r');
          l.(taken := [payload] + l.taken)
        case Refused => Loop(r', [], false, true)
        case ForCaller => Loop(r', [payload], true, false)
  }

  /** The payloads that the receiver reports as errors: empty ones, and those that a handler fails on. */
  predicate Rejected<S>(suite: Suite<S>, payload: Bytes) {
    payload == [] || suite.handle(payload).Refused?
  }

  /** Sender and receiver after the payloads `ps`. */
  datatype Point<+S> = Point(state: S, seqno: nat)

  function After<S>(suite: Suite<S>, s: S, seqno: nat, ps: seq<Bytes>): Point<S>
    requires 8 <= BlockOf(suite) <= 251
    decreases |ps|
  {
    if ps == [] then Point(s, seqno)
    else After(suite, Seal(suite, s, seqno, ps[0]).state, (seqno + 1) % TWO_32, ps[1..])
  }

  lemma {:induction false} AfterConcat<S>(suite: Suite<S>, s: S, seqno: nat, a: seq<Bytes>, b: seq<Bytes>)
    requires 8 <= BlockOf(suite) <= 251
    ensures After(suite, s, seqno, a + b) ==
            var p := After(suite, s, seqno, a); After(suite, p.state, p.seqno, b)
    decreases |a|
  {
    hide Seal;
    if a == [] {
      assert [] + b == b;
    } else {
      assert (a + b)[0] == a[0] && (a + b)[1..] == a[1..] + b;
      AfterConcat(suite, Seal(suite, s, seqno, a[0]).state, (seqno + 1) % TWO_32, a[1..], b);
    }
  }

  lemma {:induction false} SealAllAppend<S>(suite: Suite<S>, s: S, seqno: nat, ps: seq<Bytes>, p: Bytes)
    requires 8 <= BlockOf(suite) <= 251
    ensures var at := After(suite, s, seqno, ps);
            SealAll(suite, s, seqno, ps + [p]) == SealAll(suite, s, seqno, ps) + Seal(suite, at.state, at.seqno, p).data
    decreases |ps|
  {
    hide Seal;
    if ps == [] {
      assert [] + [p] == [p] && [p][1..] == [];
      var d := Seal(suite, s, seqno, p);
      assert SealAll(suite, d.state, (seqno + 1) % TWO_32, []) == [];
      assert d.data + [] == [] + d.data;
    } else {
      assert (ps + [p])[0] == ps[0] && (ps + [p])[1..] == ps[1..] + [p];
      var d := Seal(suite, s, seqno, ps[0]);
      SealAllAppend(suite, d.state, (seqno + 1) % TWO_32, ps[1..], p);
    }
  }

  /** A packet sent behind everything else leaves the receiver where it is. */
  lemma {:induction false} SyncSend<S(!new)>(suite: Suite<S>, s: S, ps: seq<Bytes>, r: Receiver<S>, chan: Bytes, p: Bytes)
    requires Ready(suite) && Sync(suite, s, ps, r, chan)
    requires forall i :: 0 <= i < |ps| ==> Sendable(ps[i])
    ensures var at := After(suite, s, r.seqno, ps);
            Sync(suite, s, ps + [p], r, chan + Seal(suite, at.state, at.seqno, p).data)
  {
    hide Plain, MacOf, SuiteOk, Crypt, SealAll, Sendable;
    var at := After(suite, s, r.seqno, ps);
    var more := Seal(suite, at.state, at.seqno, p).data;
    assert r.input + (chan + more) == r.input + chan + more;
    if r.first == [] {
      SealAllAppend(suite, s, r.seqno, ps, p);
    } else {
      var c := suite.cipher.value;
      SealSplit(suite, s, r.seqno, ps[0]);
      var plain := Plain(c.block, ps[0]);
      var head := c.encrypt(s, plain[..c.block]);
      var body := Crypt(c.encrypt, c.block, head.state, plain[c.block..]);
      SealAllAppend(suite, body.state, (r.seqno + 1) % TWO_32, ps[1..], p);
      assert (ps + [p])[0] == ps[0] && (ps + [p])[1..] == ps[1..] + [p];
      var rest := SealAll(suite, body.state, (r.seqno + 1) % TWO_32, ps[1..]);
      var front := body.data + MacOf(suite, r.seqno, plain);
      assert front + rest + more == front + (rest + more);
    }
  }

  /** From `s` and `seqno` the receiver has got through `taken`, the beginning of `ps`. */
  ghost predicate Within<S(!new)>(suite: Suite<S>, s: S, seqno: nat, taken: seq<Bytes>, ps: seq<Bytes>, r: Receiver<S>, chan: Bytes)
    requires Ready(suite)
  {
    var at := After(suite, s, seqno, taken);
    && taken <= ps
    && r.seqno == at.seqno
    && Sync(suite, at.state, ps[|taken|..], r, chan)
    && FirstOk(suite, ps[|taken|..], r)
  }

  /** The receiver can do nothing without more bytes. */
  ghost predicate Stuck<S>(suite: Suite<S>, r: Receiver<S>)
    requires 8 <= BlockOf(suite) <= 251
  {
    r.input == [] || Open(suite, r) == Wait(r)
  }

  /** Waiting is final: a second look changes nothing. */
  lemma {:induction false} WaitIsStuck<S>(suite: Suite<S>, r: Receiver<S>)
    requires 8 <= BlockOf(suite) <= 251 && Open(suite, r).Wait?
    ensures Stuck(suite, Open(suite, r).r)
  {
    hide Crypt, Finish;
  }

  /** What a call of the loop does with the next payloads. */
  ghost predicate GoodLoop<S(!new)>(suite: Suite<S>, s: S, seqno: nat, ps: seq<Bytes>, l: Loop<S>, chan: Bytes)
    requires Ready(suite)
  {
    && l.taken <= ps
    && (forall i :: 0 <= i < |l.taken| ==> !Rejected(suite, l.taken[i]))
    && (forall i :: 0 <= i < |l.taken| - (if l.done then 1 else 0) ==> suite.handle(l.taken[i]).Handled?)
    && (l.done ==> l.taken != [] && suite.handle(l.taken[|l.taken| - 1]).ForCaller?)
    && (if l.failed then !l.done && |l.taken| < |ps| && Rejected(suite, ps[|l.taken|])
        else (!l.done ==> Stuck(suite, l.r)) && Within(suite, s, seqno, l.taken, ps, l.r, chan))
  }

  /** A call of the loop takes the next payloads in order, and fails only at one that it must reject. */
  lemma {:induction false} LoopSync<S(!new)>(suite: Suite<S>, s: S, ps: seq<Bytes>, r: Receiver<S>, chan: Bytes)
    requires Ready(suite) && Sync(suite, s, ps, r, chan) && FirstOk(suite, ps, r)
    requires forall i :: 0 <= i < |ps| ==> Sendable(ps[i])
    ensures GoodLoop(suite, s, r.seqno, ps, ReceiveDo(suite, r), chan)
    decreases Left(r)
  {
    hide Sync, Open, Seal, SuiteOk, Sendable, TotalOf;
    var l := ReceiveDo(suite, r);
    assert ps[0..] == ps;
    if r.input != [] {
      OpenSync(suite, s, ps, r, chan);
      OpenFirstOk(suite, s, ps, r, chan);
      var t := Open(suite, r);
      if t.Wait? {
        WaitIsStuck(suite, r);
      } else if t.Packet? {
        assert ps == [ps[0]] + ps[1..];
        var s' := Seal(suite, s, r.seqno, ps[0]).state;
        if suite.handle(t.payload).Handled? {
          LoopSync(suite, s', ps[1..], t.r, chan);
          LoopOneMore(suite, s, r.seqno, ps, ReceiveDo(suite, t.r), chan);
        } else if suite.handle(t.payload).ForCaller? {
          assert l.taken == [ps[0]] && l.taken[1..] == [];
          assert After(suite, s, r.seqno, l.taken) == Point(s', (r.seqno + 1) % TWO_32);
          assert ps[|l.taken|..] == ps[1..];
        }
      }
    }
  }

  lemma {:induction false} LoopOneMore<S(!new)>(suite: Suite<S>, s: S, seqno: nat, ps: seq<Bytes>, l: Loop<S>, chan: Bytes)
    requires Ready(suite) && ps != [] && ps[0] != [] && suite.handle(ps[0]).Handled?
    requires GoodLoop(suite, Seal(suite, s, seqno, ps[0]).state, (seqno + 1) % TWO_32, ps[1..], l, chan)
    ensures GoodLoop(suite, s, seqno, ps, l.(taken := [ps[0]] + l.taken), chan)
  {
    hide Sync, Stuck, Seal, SuiteOk, TotalOf;
    var taken := [ps[0]] + l.taken;
    assert ps == [ps[0]] + ps[1..];
    assert taken[1..] == l.taken && taken[0] == ps[0];
    assert ps[1..][|l.taken|..] == ps[|taken|..];
  }

  // --- Connections ---------------------------------------------------------------------------------------------

  /**
    One direction of a connection; `taken` are all payloads the receiver has got out so far, also one whose
    delivery is cancelled.
  */
  datatype Conn<+S> = Conn(
    sent: seq<Bytes>, chan: Bytes, sendState: S, sendSeqno: nat,
    r: Receiver<S>, waiting: bool, taken: seq<Bytes>, failed: bool)

  datatype Event = Send(payload: Bytes) | Arrive(n: nat) | Ask | CancelAsk

  /** A pipe that has reported an error does nothing more. */
  predicate Enabled<S>(c: Conn<S>, e: Event) {
    && !c.failed
    && match e
       case Send(payload) => Sendable(payload)
       case Arrive(n) => 0 < n <= |c.chan|
       case Ask => !c.waiting
       case CancelAsk => true
  }

  /** Runs the receive loop if somebody is waiting for a packet. */
  function Receive<S>(suite: Suite<S>, c: Conn<S>): Conn<S>
    requires 8 <= BlockOf(suite) <= 251
  {
    if !c.waiting then c
    else
      var l := ReceiveDo(suite, c.r);
      c.(r := l.r, waiting := !l.done, taken := c.taken + l.taken, failed := c.failed || l.failed)
  }

  function Step<S>(suite: Suite<S>, c: Conn<S>, e: Event): Conn<S>
    requires 8 <= BlockOf(suite) <= 251 && Enabled(c, e)
  {
    match e
    case Send(payload) =>
      var sealed := Seal(suite, c.sendState, c.sendSeqno, payload);
      c.(sent := c.sent + [payload], chan := c.chan + sealed.data,
         sendState := sealed.state, sendSeqno := (c.sendSeqno + 1) % TWO_32)
    case Arrive(n) =>
      Receive(suite, c.(chan := c.chan[n..], r := c.r.(input := c.r.input + c.chan[..n])))
    case Ask =>
      Receive(suite, c.(waiting := true))
    case CancelAsk =>
      c.(waiting := false)
  }

  ghost predicate ConnOk<S(!new)>(suite: Suite<S>, s0: S, n0: nat, c: Conn<S>)
    requires Ready(suite)
  {
    && (forall i :: 0 <= i < |c.sent| ==> Sendable(c.sent[i]))
    && (forall i :: 0 <= i < |c.taken| ==> !Rejected(suite, c.taken[i]))
    && c.taken <= c.sent
    && After(suite, s0, n0, c.sent) == Point(c.sendState, c.sendSeqno)
    && (if c.failed then |c.taken| < |c.sent| && Rejected(suite, c.sent[|c.taken|])
        else Within(suite, s0, n0, c.taken, c.sent, c.r, c.chan) && (c.waiting ==> Stuck(suite, c.r)))
  }

  function Start<S>(s0: S, n0: nat): Conn<S> {
    Conn([], [], s0, n0, Receiver([], [], n0, s0), false, [], false)
  }

  lemma {:induction false} ReceiveKeeps<S(!new)>(suite: Suite<S>, s0: S, n0: nat, c: Conn<S>)
    requires Ready(suite) && !c.failed && ConnOk(suite, s0, n0, c.(waiting := false))
    ensures ConnOk(suite, s0, n0, Receive(suite, c))
  {
    hide Sync, SuiteOk, Sendable, ReceiveDo, Stuck;
    if c.waiting {
      var at := After(suite, s0, n0, c.taken);
      var rest := c.sent[|c.taken|..];
      LoopSync(suite, at.state, rest, c.r, c.chan);
      var l := ReceiveDo(suite, c.r);
      AfterConcat(suite, s0, n0, c.taken, l.taken);
      PrefixJoin(c.sent, c.taken, l.taken);
    }
  }

  lemma {:induction false} PrefixJoin(all: seq<Bytes>, a: seq<Bytes>, b: seq<Bytes>)
    requires a <= all && b <= all[|a|..]
    ensures a + b <= all && all[|a|..][|b|..] == all[|a + b|..]
  {
    assert all == a + all[|a|..];
  }

  lemma {:induction false} WithinSend<S(!new)>(suite: Suite<S>, s0: S, n0: nat, taken: seq<Bytes>, sent: seq<Bytes>, r: Receiver<S>, chan: Bytes, payload: Bytes)
    requires Ready(suite) && Within(suite, s0, n0, taken, sent, r, chan)
    requires forall i :: 0 <= i < |sent| ==> Sendable(sent[i])
    ensures var at := After(suite, s0, n0, sent);
            Within(suite, s0, n0, taken, sent + [payload], r, chan + Seal(suite, at.state, at.seqno, payload).data)
  {
    hide Sync, SuiteOk, Sendable, Seal, TotalOf;
    var rest := sent[|taken|..];
    assert sent == taken + rest;
    AfterConcat(suite, s0, n0, taken, rest);
    SyncSend(suite, After(suite, s0, n0, taken).state, rest, r, chan, payload);
    assert (sent + [payload])[|taken|..] == rest + [payload];
  }

  lemma {:induction false} SendKeeps<S(!new)>(suite: Suite<S>, s0: S, n0: nat, c: Conn<S>, payload: Bytes)
    requires Ready(suite) && ConnOk(suite, s0, n0, c) && !c.failed && Sendable(payload)
    ensures ConnOk(suite, s0, n0, Step(suite, c, Send(payload)))
  {
    hide Within, SuiteOk, Sendable, Seal, Stuck;
    AfterConcat(suite, s0, n0, c.sent, [payload]);
    assert [payload][1..] == [];
    WithinSend(suite, s0, n0, c.taken, c.sent, c.r, c.chan, payload);
  }

  lemma {:induction false} ArriveSync<S(!new)>(suite: Suite<S>, s: S, ps: seq<Bytes>, r: Receiver<S>, chan: Bytes, n: nat)
    requires Ready(suite) && Sync(suite, s, ps, r, chan) && n <= |chan|
    ensures Sync(suite, s, ps, r.(input := r.input + chan[..n]), chan[n..])
  {
    hide Plain, MacOf, SuiteOk, Crypt, SealAll;
    assert r.input + chan[..n] + chan[n..] == r.input + chan;
  }

  lemma {:induction false} StepKeeps<S(!new)>(suite: Suite<S>, s0: S, n0: nat, c: Conn<S>, e: Event)
    requires Ready(suite) && ConnOk(suite, s0, n0, c) && Enabled(c, e)
    ensures ConnOk(suite, s0, n0, Step(suite, c, e))
  {
    hide Sync, SuiteOk, Sendable, Seal, Stuck, Receive;
    if e.Send? {
      SendKeeps(suite, s0, n0, c, e.payload);
    } else if e.Arrive? {
      var at := After(suite, s0, n0, c.taken);
      ArriveSync(suite, at.state, c.sent[|c.taken|..], c.r, c.chan, e.n);
      ReceiveKeeps(suite, s0, n0, c.(chan := c.chan[e.n..], r := c.r.(input := c.r.input + c.chan[..e.n])));
    } else if e.Ask? {
      ReceiveKeeps(suite, s0, n0, c.(waiting := true));
    }
  }

  ghost predicate IsRun<S>(suite: Suite<S>, s0: S, n0: nat, cs: seq<Conn<S>>, es: seq<Event>)
    requires 8 <= BlockOf(suite) <= 251
  {
    && |cs| == |es| + 1
    && cs[0] == Start(s0, n0)
    && forall i :: 0 <= i < |es| ==> Enabled(cs[i], es[i]) && cs[i + 1] == Step(suite, cs[i], es[i])
  }

  lemma {:induction false} RunKeeps<S(!new)>(suite: Suite<S>, s0: S, n0: nat, cs: seq<Conn<S>>, es: seq<Event>, i: nat)
    requires Ready(suite) && IsRun(suite, s0, n0, cs, es) && i < |cs|
    ensures ConnOk(suite, s0, n0, cs[i])
  {
    hide SuiteOk, Step, Sendable;
    if i == 0 {
      assert [] + [] == SealAll(suite, s0, n0, []);
    } else {
      RunKeeps(suite, s0, n0, cs, es, i - 1);
      assert cs[i - 1 + 1] == Step(suite, cs[i - 1], es[i - 1]);
      StepKeeps(suite, s0, n0, cs[i - 1], es[i - 1]);
    }
  }

  /**
    Whatever the chunks and whenever packets are asked for: what has been received is the beginning of
    what was sent, in order, and there is an error only at a payload that must be rejected; none of
    those is received.
  */
  lemma {:induction false} PacketsArriveInOrder<S(!new)>(suite: Suite<S>, s0: S, n0: nat, cs: seq<Conn<S>>, es: seq<Event>, i: nat)
    requires Ready(suite) && IsRun(suite, s0, n0, cs, es) && i < |cs|
    ensures cs[i].taken <= cs[i].sent
    ensures forall k :: 0 <= k < |cs[i].taken| ==> !Rejected(suite, cs[i].taken[k])
    ensures cs[i].failed ==> |cs[i].taken| < |cs[i].sent| && Rejected(suite, cs[i].sent[|cs[i].taken|])
  {
    RunKeeps(suite, s0, n0, cs, es, i);
  }

  // --- When a packet that has arrived is delivered ------------------------------------------------------------------

  /**
    The last packet, with nothing behind it and the channel empty, is left waiting exactly when it is
    encrypted and too short: no more than one block in all, or no more than one block behind a first
    block that was decrypted on its own.
  */
  lemma {:induction false} StallsExactly<S(!new)>(suite: Suite<S>, s: S, p: Bytes, r: Receiver<S>)
    requires Ready(suite) && Sync(suite, s, [p], r, []) && Sendable(p)
    ensures Open(suite, r).Wait? <==>
            suite.cipher.Some? && TotalOf(suite, p) <= if r.first == [] then BlockOf(suite) else 2 * BlockOf(suite)
  {
    hide Plain, MacOf, SuiteOk, Crypt, Open, Sendable;
    WaitsExactly(suite, s, [p], r, []);
    var plain := Plain(BlockOf(suite), p);
    PlainHeader(BlockOf(suite), p);
    MacLength(suite, r.seqno, plain);
    SealLength(suite, s, r.seqno, p);
    assert r.input + [] == r.input && [p][1..] == [];
    if r.first != [] {
      SealSplit(suite, s, r.seqno, p);
    }
  }

  lemma {:induction false} SealLength<S(!new)>(suite: Suite<S>, s: S, seqno: nat, p: Bytes)
    requires Ready(suite) && Sendable(p)
    ensures var plain := Plain(BlockOf(suite), p);
            && |Seal(suite, s, seqno, p).data| == |plain| + MacSize(suite)
            && SealAll(suite, s, seqno, [p]) == Seal(suite, s, seqno, p).data
            && (suite.cipher.None? ==> plain <= Seal(suite, s, seqno, p).data)
  {
    hide Plain, MacOf, SuiteOk, Crypt, Sendable;
    var plain := Plain(BlockOf(suite), p);
    MacLength(suite, seqno, plain);
    if suite.cipher.Some? {
      SealSplit(suite, s, seqno, p);
    }
    assert [p][1..] == [];
    var d := Seal(suite, s, seqno, p);
    assert d.data + [] == d.data;
  }

  lemma {:induction false} SealAllStarts<S>(suite: Suite<S>, s: S, seqno: nat, ps: seq<Bytes>)
    requires 8 <= BlockOf(suite) <= 251 && ps != []
    ensures Seal(suite, s, seqno, ps[0]).data <= SealAll(suite, s, seqno, ps)
  {
    hide Seal;
  }

  /** A stuck receiver lacks part of the next packet, or holds no more than a block of encrypted input. */
  lemma {:induction false} StuckMeans<S(!new)>(suite: Suite<S>, s: S, ps: seq<Bytes>, r: Receiver<S>, chan: Bytes)
    requires Ready(suite) && Sync(suite, s, ps, r, chan) && FirstOk(suite, ps, r) && ps != []
    requires forall i :: 0 <= i < |ps| ==> Sendable(ps[i])
    requires Stuck(suite, r)
    ensures !Arrived(suite, ps[0], r) || (suite.cipher.Some? && |r.input| <= BlockOf(suite))
    ensures suite.cipher.None? || MacSize(suite) > BlockOf(suite) ==> !Arrived(suite, ps[0], r)
  {
    hide Plain, SuiteOk, Sync, Open, Sendable;
    WaitsExactly(suite, s, ps, r, chan);
    PlainHeader(BlockOf(suite), ps[0]);
  }

  /** What is still to come, when nothing is in the channel, is in the input. */
  lemma {:induction false} AllArrived<S(!new)>(suite: Suite<S>, s: S, ps: seq<Bytes>, r: Receiver<S>)
    requires Ready(suite) && Sync(suite, s, ps, r, []) && ps != []
    requires forall i :: 0 <= i < |ps| ==> Sendable(ps[i])
    ensures var rest := SealAll(suite, Seal(suite, s, r.seqno, ps[0]).state, (r.seqno + 1) % TWO_32, ps[1..]);
            |r.input| + (if r.first == [] then 0 else BlockOf(suite)) == TotalOf(suite, ps[0]) + |rest|
  {
    hide Plain, MacOf, SuiteOk, Crypt, Sendable;
    MacLength(suite, r.seqno, Plain(BlockOf(suite), ps[0]));
    SealLength(suite, s, r.seqno, ps[0]);
    assert r.input + [] == r.input;
    if r.first != [] {
      SealSplit(suite, s, r.seqno, ps[0]);
    }
  }

  /** With two packets to come, all arrived, there is more than a block of input. */
  lemma {:induction false} TwoArrived<S(!new)>(suite: Suite<S>, s: S, ps: seq<Bytes>, r: Receiver<S>)
    requires Ready(suite) && Sync(suite, s, ps, r, []) && FirstOk(suite, ps, r) && |ps| > 1
    requires forall i :: 0 <= i < |ps| ==> Sendable(ps[i])
    ensures |r.input| > BlockOf(suite)
  {
    hide Plain, MacOf, SuiteOk, Crypt, Sendable, Sync, Seal;
    var seqno, next := (r.seqno + 1) % TWO_32, Seal(suite, s, r.seqno, ps[0]).state;
    AllArrived(suite, s, ps, r);
    PlainHeader(BlockOf(suite), ps[0]);
    PlainHeader(BlockOf(suite), ps[1]);
    SealLength(suite, next, seqno, ps[1]);
    SealAllStarts(suite, next, seqno, ps[1..]);
  }

  /**
    In every state of every run, whatever is in the channel: a receiver that waits has taken
    everything, or lacks part of the next packet, or holds that packet in an encrypted input of no
    more than one block.
  */
  lemma {:induction false} WaitingMeans<S(!new)>(suite: Suite<S>, s0: S, n0: nat, cs: seq<Conn<S>>, es: seq<Event>, i: nat)
    requires Ready(suite) && IsRun(suite, s0, n0, cs, es) && i < |cs|
    requires cs[i].waiting
    ensures cs[i].taken <= cs[i].sent
    ensures var c := cs[i];
            || c.failed
            || c.taken == c.sent
            || !Arrived(suite, c.sent[|c.taken|], c.r)
            || (suite.cipher.Some? && |c.r.input| <= BlockOf(suite))
  {
    hide SuiteOk, Step, Sendable, Sync, Stuck, Arrived;
    RunKeeps(suite, s0, n0, cs, es, i);
    var c := cs[i];
    var rest := c.sent[|c.taken|..];
    if rest != [] && !c.failed {
      StuckMeans(suite, After(suite, s0, n0, c.taken).state, rest, c.r, c.chan);
    }
  }

  /**
    Unencrypted, or with a MAC longer than a block, every packet that has wholly arrived is delivered:
    a receiver that waits has taken everything or lacks part of the next packet.
  */
  lemma {:induction false} EverythingDelivered<S(!new)>(suite: Suite<S>, s0: S, n0: nat, cs: seq<Conn<S>>, es: seq<Event>, i: nat)
    requires Ready(suite) && IsRun(suite, s0, n0, cs, es) && i < |cs|
    requires suite.cipher.None? || MacSize(suite) > BlockOf(suite)
    requires cs[i].waiting
    ensures cs[i].taken <= cs[i].sent
    ensures cs[i].failed || cs[i].taken == cs[i].sent || !Arrived(suite, cs[i].sent[|cs[i].taken|], cs[i].r)
    ensures cs[i].failed || cs[i].taken == cs[i].sent || cs[i].chan != []
  {
    hide SuiteOk, Step, Sendable, Sync, Stuck, Seal;
    RunKeeps(suite, s0, n0, cs, es, i);
    var c := cs[i];
    var s, rest := After(suite, s0, n0, c.taken).state, c.sent[|c.taken|..];
    if rest != [] && !c.failed {
      StuckMeans(suite, s, rest, c.r, c.chan);
      if c.chan == [] {
        AllArrived(suite, s, rest, c.r);
      }
    }
  }

  /** With any algorithms, a receiver that waits with nothing in the channel lacks at most the last packet. */
  lemma {:induction false} AllButTheLast<S(!new)>(suite: Suite<S>, s0: S, n0: nat, cs: seq<Conn<S>>, es: seq<Event>, i: nat)
    requires Ready(suite) && IsRun(suite, s0, n0, cs, es) && i < |cs|
    requires cs[i].waiting && cs[i].chan == []
    ensures cs[i].taken <= cs[i].sent && (cs[i].failed || |cs[i].sent| <= |cs[i].taken| + 1)
  {
    hide SuiteOk, Step, Sendable, Sync, Stuck, Seal;
    RunKeeps(suite, s0, n0, cs, es, i);
    var c := cs[i];
    var s, rest := After(suite, s0, n0, c.taken).state, c.sent[|c.taken|..];
    if rest != [] && !c.failed {
      StuckMeans(suite, s, rest, c.r, c.chan);
      AllArrived(suite, s, rest, c.r);
      if |rest| > 1 {
        TwoArrived(suite, s, rest, c.r);
      }
    }
  }

  /** A cipher that changes nothing, to exhibit a packet. */
  function Identity(): (c: Cipher<nat>)
    ensures CipherOk(c) && c.block == 16
  {
    Cipher(16, (s, b) => Keyed(s, b), (s, b) => Keyed(s, b))
  }

  /** Without a MAC, a packet of exactly one block arrives and is never delivered. */
  lemma {:induction false} OneBlockPacketStalls()
    ensures var suite := Suite(Some(Identity()), None, (p: Bytes) => ForCaller);
            && Ready(suite)
            && Open(suite, Receiver(SealAll(suite, 0, 0, [[1]]), [], 0, 0)).Wait?
  {
    var suite := Suite(Some(Identity()), None, (p: Bytes) => ForCaller);
    var r := Receiver(SealAll(suite, 0, 0, [[1]]), [], 0, 0);
    assert r.input + [] == r.input;
    assert Sync(suite, 0, [[1]], r, []);
    StallsExactly(suite, 0, [1], r);
  }

  /** Twelve bytes, as of a truncated hash. */
  function ShortMac(): (m: Mac)
    ensures m.size == 12 && forall s :: |m.compute(s)| == 12
  {
    Mac(12, (s: Bytes) => seq(12, _ => 0))
  }

  /** A receiver that is asked for a packet before any has been sent. */
  function Asked<S>(suite: Suite<S>, s0: S, payload: Bytes): Conn<S>
    requires 8 <= BlockOf(suite) <= 251 && Sendable(payload)
  {
    Step(suite, Step(suite, Start(s0, 0), Ask), Send(payload))
  }

  /**
    With a MAC shorter than a block, a packet of one block that arrives in two parts, the first just
    over a block, is never delivered.
  */
  lemma {:induction false} ShortMacStalls()
    ensures var suite := Suite(Some(Identity()), Some(ShortMac()), (p: Bytes) => ForCaller);
            && Ready(suite)
            && var c := Asked(suite, 0, [1]);
               && |c.chan| == 28
               && var c' := Step(suite, c, Arrive(17));
                  && |c'.chan| == 11 && !c'.failed
                  && var c'' := Step(suite, c', Arrive(11));
                     c''.waiting && c''.chan == [] && c''.taken == [] && c''.sent == [[1]]
  {
    var suite := Suite(Some(Identity()), Some(ShortMac()), (p: Bytes) => ForCaller);
    var c := Asked(suite, 0, [1]);
    assert c.sent == [[1]];
    assert [[1]][1..] == [];
    SealLength(suite, 0, 0, [1]);
    assert TotalOf(suite, [1]) == 28;
    var r := c.r.(input := c.r.input + c.chan[..17]);
    assert c.chan[..17] + c.chan[17..] == c.chan;
    assert Sync(suite, 0, [[1]], r, c.chan[17..]);
    CipheredWaits(suite, 0, [[1]], r, c.chan[17..]);
    hide Seal, SealAll, Sync, Crypt;
    var c' := Step(suite, c, Arrive(17));
    assert c'.r == Open(suite, r).r && c'.taken == [];
    var c'' := Step(suite, c', Arrive(11));
  }
}
