/** A stream of SSH packets from one end to the other: in order, without error, whatever the chunks. */
module SshStream {
  import opened Bytes
  import opened SshPacket

  ghost predicate Ready<S(!new)>(suite: Suite<S>) {
    SuiteOk(suite) && 8 <= BlockOf(suite) <= 251
  }

  /**
    The receiver is where the sender was before it sent `ps`: between packets, or holding the
    decrypted first block of the next one.
  */
  ghost predicate Sync<S(!new)>(suite: Suite<S>, s: S, ps: seq<Bytes>, r: Receiver<S>, chan: Bytes)
    requires Ready(suite)
  {
    if r.first == [] then
      r.state == s && r.input + chan == SealAll(suite, s, r.seqno, ps)
    else
      && suite.cipher.Some? && ps != []
      && var c := suite.cipher.value;
         var plain := Plain(c.block, ps[0]);
         |plain| >= c.block
         && var head := c.encrypt(s, plain[..c.block]);
            var body := Crypt(c.encrypt, c.block, head.state, plain[c.block..]);
            && r.first == plain[..c.block]
            && r.state == head.state
            && r.input + chan == body.data + MacOf(suite, r.seqno, plain)
                                 + SealAll(suite, body.state, (r.seqno + 1) % TWO_32, ps[1..])
  }

  /** How a sealed packet starts: the first block, then the rest of it. */
  lemma {:induction false} SealSplit<S(!new)>(suite: Suite<S>, s: S, seqno: nat, payload: Bytes)
    requires Ready(suite) && suite.cipher.Some? && Sendable(payload)
    ensures var c := suite.cipher.value;
            var plain := Plain(c.block, payload);
            |plain| >= c.block && Whole(c.block, |plain| - c.block)
            && var head := c.encrypt(s, plain[..c.block]);
               var body := Crypt(c.encrypt, c.block, head.state, plain[c.block..]);
               && Seal(suite, s, seqno, payload) == Keyed(body.state, head.data + body.data + MacOf(suite, seqno, plain))
               && |head.data| == c.block && |body.data| == |plain| - c.block
               && c.decrypt(s, head.data) == Keyed(head.state, plain[..c.block])
               && Crypt(c.decrypt, c.block, head.state, body.data) == Keyed(body.state, plain[c.block..])
  {
    hide Plain, MacOf, Crypt;
    var c := suite.cipher.value;
    var plain := Plain(c.block, payload);
    PlainHeader(c.block, payload);
    WholeFromMod(c.block, |plain|);
    var head := c.encrypt(s, plain[..c.block]);
    CryptSplit(c.encrypt, c.block, s, plain[..c.block], plain[c.block..]);
    assert plain[..c.block] + plain[c.block..] == plain;
    CryptLength(c, head.state, plain[c.block..]);
    CryptInverse(c, head.state, plain[c.block..]);
  }

  // --- One turn of the receiver --------------------------------------------------------------------------------

  /** Decrypting the first block keeps the two ends together. */
  lemma {:induction false} OpenFirstSync<S(!new)>(suite: Suite<S>, s: S, ps: seq<Bytes>, r: Receiver<S>, chan: Bytes)
    requires Ready(suite) && Sync(suite, s, ps, r, chan) && suite.cipher.Some? && |r.input| > BlockOf(suite)
    requires forall i :: 0 <= i < |ps| ==> Sendable(ps[i])
    ensures ps != [] && Sync(suite, s, ps, OpenFirst(suite.cipher.value, r), chan)
    ensures OpenFirst(suite.cipher.value, r).first != []
  {
    hide Plain, MacOf, SuiteOk, Sendable;
    if r.first == [] {
      var c := suite.cipher.value;
      SealSplit(suite, s, r.seqno, ps[0]);
      var plain := Plain(c.block, ps[0]);
      var head := c.encrypt(s, plain[..c.block]);
      var body := Crypt(c.encrypt, c.block, head.state, plain[c.block..]);
      var mac := MacOf(suite, r.seqno, plain);
      var rest := SealAll(suite, body.state, (r.seqno + 1) % TWO_32, ps[1..]);
      FrontOf(r.input, chan, head.data, body.data + mac + rest);
      assert head.data + body.data + mac + rest == head.data + (body.data + mac + rest);
      BlockPositive(suite);
      CryptOne(c.decrypt, c.block, s, head.data);
    }
  }

  lemma {:induction false} BlockPositive<S(!new)>(suite: Suite<S>)
    requires Ready(suite) && suite.cipher.Some?
    ensures 8 <= suite.cipher.value.block == BlockOf(suite)
  {
  }

  lemma {:induction false} FrontOf(input: Bytes, chan: Bytes, a: Bytes, b: Bytes)
    requires |a| <= |input|
    requires input + chan == a + b
    ensures input[..|a|] == a && input[|a|..] + chan == b
  {
    assert input[..|a|] == (input + chan)[..|a|] == a;
    assert input[|a|..] + chan == (input + chan)[|a|..] == b;
  }

  /** What a turn may do when the ends are together. */
  ghost predicate GoodTurn<S(!new)>(suite: Suite<S>, s: S, seqno: nat, ps: seq<Bytes>, t: Turn<S>, chan: Bytes)
    requires Ready(suite)
  {
    match t
    case Wait(r) => r.seqno == seqno && Sync(suite, s, ps, r, chan)
    case Bad => ps != [] && ps[0] == []
    case Packet(r, payload) =>
      && ps != [] && payload == ps[0] != []
      && r.seqno == (seqno + 1) % TWO_32
      && Sync(suite, Seal(suite, s, seqno, ps[0]).state, ps[1..], r, chan)
  }

  lemma {:induction false} OpenCipheredSync<S(!new)>(suite: Suite<S>, s: S, ps: seq<Bytes>, r: Receiver<S>, chan: Bytes)
    requires Ready(suite) && Sync(suite, s, ps, r, chan) && suite.cipher.Some? && |r.input| > BlockOf(suite)
    requires forall i :: 0 <= i < |ps| ==> Sendable(ps[i])
    ensures suite.cipher.value.block >= 8
    ensures GoodTurn(suite, s, r.seqno, ps, OpenCiphered(suite, r), chan)
  {
    hide Plain, MacOf, SuiteOk, Sendable, Crypt, Finish, SealAll;
    BlockPositive(suite);
    OpenFirstSync(suite, s, ps, r, chan);
    var c := suite.cipher.value;
    var r1 := OpenFirst(c, r);
    var plain := Plain(c.block, ps[0]);
    SealSplit(suite, s, r1.seqno, ps[0]);
    PlainHeader(c.block, ps[0]);
    assert r1.first[..4] == plain[..4];
    var len := PacketLength(c.block, |ps[0]|);
    MacLength(suite, r1.seqno, plain);
    if c.block + |r1.input| >= 4 + len + MacSize(suite) {
      OpenBodySync(suite, s, ps, r1, chan);
      assert r1.first + [] == r1.first && r1.input[0..] == r1.input;
    }
  }

  lemma {:induction false} MacLength<S(!new)>(suite: Suite<S>, seqno: nat, plain: Bytes)
    requires Ready(suite)
    ensures |MacOf(suite, seqno, plain)| == MacSize(suite)
  {
  }

  /** All of the packet and its MAC have arrived behind the first block. */
  lemma {:induction false} OpenBodySync<S(!new)>(suite: Suite<S>, s: S, ps: seq<Bytes>, r: Receiver<S>, chan: Bytes)
    requires Ready(suite) && Sync(suite, s, ps, r, chan) && suite.cipher.Some? && r.first != []
    requires forall i :: 0 <= i < |ps| ==> Sendable(ps[i])
    requires ps != [] && BlockOf(suite) + |r.input| >= 4 + PacketLength(BlockOf(suite), |ps[0]|) + MacSize(suite)
    ensures var c := suite.cipher.value;
            var len := PacketLength(c.block, |ps[0]|);
            && c.block >= 8 && 4 + len >= c.block && |r.input| >= 4 + len - c.block + MacSize(suite)
            && var body := Crypt(c.decrypt, c.block, r.state, r.input[..4 + len - c.block]);
               && r.first + body.data == Plain(c.block, ps[0])
               && GoodTurn(suite, s, r.seqno, ps,
                           Finish(suite, Receiver(r.input[4 + len - c.block..], [], r.seqno, body.state), r.first + body.data), chan)
               && (4 + len == c.block ==> body == Keyed(r.state, []))
  {
    hide Plain, MacOf, SuiteOk, Crypt, Finish, SealAll;
    BlockPositive(suite);
    var c := suite.cipher.value;
    var plain := Plain(c.block, ps[0]);
    SealSplit(suite, s, r.seqno, ps[0]);
    MacLength(suite, r.seqno, plain);
    var head := c.encrypt(s, plain[..c.block]);
    var sealed := Crypt(c.encrypt, c.block, head.state, plain[c.block..]);
    var mac := MacOf(suite, r.seqno, plain);
    var rest := SealAll(suite, sealed.state, (r.seqno + 1) % TWO_32, ps[1..]);
    assert sealed.data + mac + rest == sealed.data + (mac + rest);
    FrontOf(r.input, chan, sealed.data, mac + rest);
    var after := r.input[|sealed.data|..];
    FrontOf(after, chan, mac, rest);
    assert after == mac + after[|mac|..];
    assert plain[..c.block] + plain[c.block..] == plain;
    FinishHonest(suite, after, r.seqno, sealed.state, ps[0], after[|mac|..]);
    CryptNothing(c.decrypt, c.block, r.state);
  }

  lemma {:induction false} CryptNothing<S>(f: (S, Bytes) -> Keyed<S>, block: nat, s: S)
    requires block > 0
    ensures Crypt(f, block, s, []) == Keyed(s, [])
  {
  }

  lemma {:induction false} OpenPlainSync<S(!new)>(suite: Suite<S>, s: S, ps: seq<Bytes>, r: Receiver<S>, chan: Bytes)
    requires Ready(suite) && Sync(suite, s, ps, r, chan) && suite.cipher.None? && |r.input| > 8
    requires forall i :: 0 <= i < |ps| ==> Sendable(ps[i])
    ensures ps != [] && GoodTurn(suite, s, r.seqno, ps, OpenPlain(suite, r), chan)
  {
    hide Plain, MacOf, SuiteOk, Finish, Sendable;
    assert ps != [];
    var plain := Plain(8, ps[0]);
    PlainHeader(8, ps[0]);
    MacLength(suite, r.seqno, plain);
    var mac := MacOf(suite, r.seqno, plain);
    var rest := SealAll(suite, s, (r.seqno + 1) % TWO_32, ps[1..]);
    assert r.input + chan == plain + (mac + rest) by {
      assert plain + mac + rest == plain + (mac + rest);
    }
    assert r.input[..4] == (r.input + chan)[..4] == plain[..4];
    hide SealAll;
    if |r.input| >= |plain| + |mac| {
      FrontOf(r.input, chan, plain, mac + rest);
      PlainFinishes(suite, s, ps[0], r.input[|plain|..], r.seqno, chan, rest);
    }
  }

  lemma {:induction false} PlainFinishes<S(!new)>(suite: Suite<S>, s: S, p: Bytes, after: Bytes, seqno: nat, chan: Bytes, rest: Bytes)
    requires Ready(suite) && |after| >= MacSize(suite)
    requires after + chan == MacOf(suite, seqno, Plain(BlockOf(suite), p)) + rest
    ensures var left := after[MacSize(suite)..];
            && left + chan == rest
            && Finish(suite, Receiver(after, [], seqno, s), Plain(BlockOf(suite), p)) ==
               if p == [] then Bad else Packet(Receiver(left, [], (seqno + 1) % TWO_32, s), p)
  {
    hide Plain, MacOf, Finish;
    var mac := MacOf(suite, seqno, Plain(BlockOf(suite), p));
    MacLength(suite, seqno, Plain(BlockOf(suite), p));
    FrontOf(after, chan, mac, rest);
    assert after == mac + after[|mac|..];
    FinishHonest(suite, after, seqno, s, p, after[|mac|..]);
  }

  /** One turn takes nothing but the next payload, and fails only if that is empty. */
  lemma {:induction false} OpenSync<S(!new)>(suite: Suite<S>, s: S, ps: seq<Bytes>, r: Receiver<S>, chan: Bytes)
    requires Ready(suite) && Sync(suite, s, ps, r, chan)
    requires forall i :: 0 <= i < |ps| ==> Sendable(ps[i])
    ensures GoodTurn(suite, s, r.seqno, ps, Open(suite, r), chan)
  {
    hide SuiteOk, Sync, OpenCiphered, OpenPlain, Sendable;
    if |r.input| > BlockOf(suite) {
      if suite.cipher.Some? {
        OpenCipheredSync(suite, s, ps, r, chan);
      } else {
        OpenPlainSync(suite, s, ps, r, chan);
      }
    }
  }

  // --- What has arrived ------------------------------------------------------------------------------------------

  /** The bytes of the next packet, its MAC included. */
  function TotalOf<S>(suite: Suite<S>, payload: Bytes): nat
    requires 8 <= BlockOf(suite) <= 251
  {
    |Plain(BlockOf(suite), payload)| + MacSize(suite)
  }

  /** The next packet, `payload`, has wholly arrived, counting a first block that was decrypted already. */
  predicate Arrived<S>(suite: Suite<S>, payload: Bytes, r: Receiver<S>)
    requires 8 <= BlockOf(suite) <= 251
  {
    |r.input| + (if r.first == [] then 0 else BlockOf(suite)) >= TotalOf(suite, payload)
  }

  /** A first block is kept only while more of its packet is to come. */
  ghost predicate FirstOk<S>(suite: Suite<S>, ps: seq<Bytes>, r: Receiver<S>)
    requires 8 <= BlockOf(suite) <= 251
  {
    r.first != [] ==> ps != [] && TotalOf(suite, ps[0]) > BlockOf(suite)
  }

  /**
    The receiver waits exactly when the next packet has not wholly arrived, or when it is encrypted
    and the input holds no more than one block, whatever is still in the channel.
  */
  lemma {:induction false} WaitsExactly<S(!new)>(suite: Suite<S>, s: S, ps: seq<Bytes>, r: Receiver<S>, chan: Bytes)
    requires Ready(suite) && Sync(suite, s, ps, r, chan) && ps != []
    requires forall i :: 0 <= i < |ps| ==> Sendable(ps[i])
    ensures Open(suite, r).Wait? <==>
            !Arrived(suite, ps[0], r) || (suite.cipher.Some? && |r.input| <= BlockOf(suite))
  {
    hide Plain, MacOf, SuiteOk, Crypt, Finish, Sendable, SealAll;
    PlainHeader(BlockOf(suite), ps[0]);
    if |r.input| > BlockOf(suite) {
      OpenSync(suite, s, ps, r, chan);
      if suite.cipher.Some? {
        CipheredWaits(suite, s, ps, r, chan);
      } else {
        PlainStarts(suite, s, ps, r, chan);
      }
    }
  }

  lemma {:induction false} PlainStarts<S(!new)>(suite: Suite<S>, s: S, ps: seq<Bytes>, r: Receiver<S>, chan: Bytes)
    requires Ready(suite) && Sync(suite, s, ps, r, chan) && ps != [] && suite.cipher.None? && |r.input| > 8
    ensures r.first == [] && r.input[..4] == Plain(8, ps[0])[..4]
  {
    hide Plain, MacOf, SuiteOk;
    var plain := Plain(8, ps[0]);
    var rest := SealAll(suite, s, (r.seqno + 1) % TWO_32, ps[1..]);
    assert plain + MacOf(suite, r.seqno, plain) + rest == plain + (MacOf(suite, r.seqno, plain) + rest);
    assert r.input[..4] == (r.input + chan)[..4] == plain[..4];
  }

  /** With a first block at hand, only the length of the packet decides. */
  lemma {:induction false} CipheredWaits<S(!new)>(suite: Suite<S>, s: S, ps: seq<Bytes>, r: Receiver<S>, chan: Bytes)
    requires Ready(suite) && Sync(suite, s, ps, r, chan) && suite.cipher.Some? && |r.input| > BlockOf(suite)
    requires forall i :: 0 <= i < |ps| ==> Sendable(ps[i])
    ensures ps != [] && (Open(suite, r).Wait? <==> !Arrived(suite, ps[0], r))
    ensures Open(suite, r).Wait? ==> Open(suite, r).r.first != [] && TotalOf(suite, ps[0]) > BlockOf(suite)
  {
    hide Plain, MacOf, SuiteOk, Crypt, Finish, Sendable, SealAll;
    BlockPositive(suite);
    OpenFirstSync(suite, s, ps, r, chan);
    var c := suite.cipher.value;
    var r1 := OpenFirst(c, r);
    var plain := Plain(c.block, ps[0]);
    PlainHeader(c.block, ps[0]);
    assert r1.first[..4] == plain[..4];
  }

  lemma {:induction false} OpenFirstOk<S(!new)>(suite: Suite<S>, s: S, ps: seq<Bytes>, r: Receiver<S>, chan: Bytes)
    requires Ready(suite) && Sync(suite, s, ps, r, chan) && FirstOk(suite, ps, r)
    requires forall i :: 0 <= i < |ps| ==> Sendable(ps[i])
    ensures Open(suite, r).Wait? ==> FirstOk(suite, ps, Open(suite, r).r)
    ensures Open(suite, r).Packet? ==> Open(suite, r).r.first == []
  {
    hide Plain, MacOf, SuiteOk, Crypt, Sendable, SealAll, Sync;
    if |r.input| > BlockOf(suite) && suite.cipher.Some? {
      CipheredWaits(suite, s, ps, r, chan);
    }
  }
}
