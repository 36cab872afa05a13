/** SSH binary packets (section 6 of RFC 4253): sealing, and reassembly from arbitrary chunks. */
module SshPacket {
  import opened Bytes

  // --- Ciphers -------------------------------------------------------------------------------------------

  datatype Keyed<+S> = Keyed(state: S, data: Bytes)

  /** A stateful cipher that works on whole blocks; `block` is at least 8, as the source rounds it up. */
  datatype Cipher<!S> = Cipher(block: nat, encrypt: (S, Bytes) -> Keyed<S>, decrypt: (S, Bytes) -> Keyed<S>)

  /** Decryption of one block undoes encryption and leaves the cipher in the same state. */
  ghost predicate CipherOk<S(!new)>(c: Cipher<S>) {
    && 8 <= c.block <= 251
    && forall s: S, b: Bytes :: |b| == c.block ==>
         && |c.encrypt(s, b).data| == c.block
         && c.decrypt(s, c.encrypt(s, b).data) == Keyed(c.encrypt(s, b).state, b)
  }

  /** A cipher run over whole blocks. */
  function Crypt<S>(f: (S, Bytes) -> Keyed<S>, block: nat, s: S, data: Bytes): Keyed<S>
    requires block > 0
    decreases |data|
  {
    if |data| < block then Keyed(s, [])
    else
      var head := f(s, data[..block]);
      var tail := Crypt(f, block, head.state, data[block..]);
      Keyed(tail.state, head.data + tail.data)
  }

  /** `n` bytes are a whole number of blocks. */
  predicate Whole(block: nat, n: nat)
    requires block > 0
    decreases n
  {
    n == 0 || (n >= block && Whole(block, n - block))
  }

  lemma {:induction false} CryptLength<S(!new)>(c: Cipher<S>, s: S, data: Bytes)
    requires CipherOk(c) && Whole(c.block, |data|)
    ensures |Crypt(c.encrypt, c.block, s, data).data| == |data|
    decreases |data|
  {
    if data != [] {
      CryptLength(c, c.encrypt(s, data[..c.block]).state, data[c.block..]);
    }
  }

  /** Decrypting in one go undoes encrypting in one go. */
  lemma {:induction false} CryptInverse<S(!new)>(c: Cipher<S>, s: S, data: Bytes)
    requires CipherOk(c) && Whole(c.block, |data|)
    ensures var sealed := Crypt(c.encrypt, c.block, s, data);
            Crypt(c.decrypt, c.block, s, sealed.data) == Keyed(sealed.state, data)
    decreases |data|
  {
    if data != [] {
      var block := c.block;
      var head := c.encrypt(s, data[..block]);
      var tail := Crypt(c.encrypt, block, head.state, data[block..]);
      CryptLength(c, head.state, data[block..]);
      CryptInverse(c, head.state, data[block..]);
      CryptSplit(c.decrypt, block, s, head.data, tail.data);
      assert data[..block] + data[block..] == data;
    }
  }

  /** Two calls on consecutive blocks are one call on all of them. */
  lemma {:induction false} CryptSplit<S>(f: (S, Bytes) -> Keyed<S>, block: nat, s: S, a: Bytes, b: Bytes)
    requires block > 0 && |a| == block
    ensures var head := f(s, a);
            var tail := Crypt(f, block, head.state, b);
            Crypt(f, block, s, a + b) == Keyed(tail.state, head.data + tail.data)
  {
    assert (a + b)[..block] == a && (a + b)[block..] == b;
  }

  lemma {:induction false} CryptOne<S>(f: (S, Bytes) -> Keyed<S>, block: nat, s: S, a: Bytes)
    requires block > 0 && |a| == block
    ensures Crypt(f, block, s, a) == f(s, a)
  {
    assert a[..block] == a && a[block..] == [];
    assert f(s, a).data + [] == f(s, a).data;
  }

  // --- Sending ---------------------------------------------------------------------------------------------

  datatype Mac = Mac(size: nat, compute: Bytes -> Bytes)

  /** Who a received payload is for: the caller, or a handler of the session, which may fail. */
  datatype Handling = ForCaller | Handled | Refused

  /** The algorithms in force, and what becomes of a payload that has been received. */
  datatype Suite<!S> = Suite(cipher: Option<Cipher<S>>, mac: Option<Mac>, handle: Bytes -> Handling)

  ghost predicate SuiteOk<S(!new)>(suite: Suite<S>) {
    && (suite.cipher.Some? ==> CipherOk(suite.cipher.value))
    && (suite.mac.Some? ==> suite.mac.value.size > 0 && forall s :: |suite.mac.value.compute(s)| == suite.mac.value.size)
  }

  function BlockOf<S>(suite: Suite<S>): nat {
    if suite.cipher.Some? then suite.cipher.value.block else 8
  }

  function MacSize<S>(suite: Suite<S>): nat {
    if suite.mac.Some? then suite.mac.value.size else 0
  }

  /** The padding that `send` adds to a payload of `n` bytes. */
  function Padding(block: nat, n: nat): nat
    requires block > 0
  {
    4 + (block - ((4 + (1 + n) + 4) % block))
  }

  /** At least four bytes of padding and at most four more than a block, to a multiple of the block size. */
  lemma {:induction false} PaddingFits(block: nat, n: nat)
    requires 8 <= block <= 251
    ensures 4 < Padding(block, n) <= 4 + block <= 255
    ensures (4 + 1 + n + Padding(block, n)) % block == 0
  {
    var x := 4 + (1 + n) + 4;
    var q, r := x / block, x % block;
    assert x == q * block + r;
    var total := 4 + 1 + n + Padding(block, n);
    assert total == q * block + block == (q + 1) * block + 0;
    DivUnique(total, block, q + 1, 0);
  }

  /** Padding that section 6 of RFC 4253 would accept. */
  predicate Acceptable(block: nat, n: nat, p: nat)
    requires block > 0
  {
    p >= 4 && (4 + 1 + n + p) % block == 0
  }

  ghost predicate Minimal(block: nat, n: nat)
    requires block > 0
  {
    forall p: nat :: Acceptable(block, n, p) ==> Padding(block, n) <= p
  }

  /** The padding is the least acceptable one, unless four bytes would do; then it is a whole block too much. */
  lemma {:induction false} MinimalExactly(block: nat, n: nat)
    requires 8 <= block <= 251
    ensures Minimal(block, n) <==> !Acceptable(block, n, 4)
    ensures !Minimal(block, n) ==> Padding(block, n) == 4 + block
  {
    var x := 4 + (1 + n) + 4;
    var q, r := x / block, x % block;
    assert x == q * block + r;
    assert 4 + 1 + n + 4 == x;
    if r != 0 {
      forall p: nat | Acceptable(block, n, p)
        ensures Padding(block, n) <= p
      {
        if p < Padding(block, n) {
          assert 4 + 1 + n + p == q * block + (r + (p - 4));
          DivUnique(4 + 1 + n + p, block, q, r + (p - 4));
        }
      }
    } else {
      assert Acceptable(block, n, 4) && Padding(block, n) == 4 + block;
    }
  }

  /** Seven bytes of payload and blocks of eight: twelve bytes of padding, where four would do. */
  lemma {:induction false} PaddingWastesABlock()
    ensures Padding(8, 7) == 12 && Acceptable(8, 7, 4) && !Minimal(8, 7)
  {
    MinimalExactly(8, 7);
  }

  lemma {:induction false} WholeFromMod(block: nat, n: nat)
    requires block > 0 && n % block == 0
    ensures Whole(block, n)
  {
    if n > 0 {
      var q := n / block;
      assert n == q * block;
      assert n >= block;
      assert n - block == (q - 1) * block + 0;
      DivUnique(n - block, block, q - 1, 0);
      WholeFromMod(block, n - block);
    }
  }

  function PacketLength(block: nat, n: nat): nat
    requires block > 0
  {
    1 + n + Padding(block, n)
  }

  /** The packet before encryption: length, padding length, payload, zero padding. */
  function Plain(block: nat, payload: Bytes): (r: Bytes)
    requires 8 <= block <= 251
    ensures |r| == 4 + PacketLength(block, |payload|)
  {
    PaddingFits(block, |payload|);
    var pad := Padding(block, |payload|);
    ToBE(4, PacketLength(block, |payload|)) + [pad] + payload + seq(pad, _ => 0)
  }

  function MacOf<S>(suite: Suite<S>, seqno: nat, plain: Bytes): Bytes {
    if suite.mac.Some? then suite.mac.value.compute(ToBE(4, seqno) + plain) else []
  }

  /** `send`: the bytes of one packet and the cipher state after it. */
  function Seal<S>(suite: Suite<S>, s: S, seqno: nat, payload: Bytes): Keyed<S>
    requires 8 <= BlockOf(suite) <= 251
  {
    var plain := Plain(BlockOf(suite), payload);
    var mac := MacOf(suite, seqno, plain);
    if suite.cipher.Some? then
      var sealed := Crypt(suite.cipher.value.encrypt, suite.cipher.value.block, s, plain);
      Keyed(sealed.state, sealed.data + mac)
    else
      Keyed(s, plain + mac)
  }

  /** Payloads sent one after the other, with the sequence number wrapping at 32 bits. */
  function SealAll<S>(suite: Suite<S>, s: S, seqno: nat, ps: seq<Bytes>): Bytes
    requires 8 <= BlockOf(suite) <= 251
    decreases |ps|
  {
    if ps == [] then []
    else
      var first := Seal(suite, s, seqno, ps[0]);
      first.data + SealAll(suite, first.state, (seqno + 1) % TWO_32, ps[1..])
  }

  // --- Receiving ----------------------------------------------------------------------------------------------

  /** `input_buffer_`, the decrypted `first_block_` if any, the sequence number and the cipher state. */
  datatype Receiver<+S> = Receiver(input: Bytes, first: Bytes, seqno: nat, state: S)

  datatype Turn<+S> =
    | Wait(r: Receiver<S>)
    | Bad
    | Packet(r: Receiver<S>, payload: Bytes)

  /** What is left to do: input bytes count double, a pending first block once. */
  function Left<S>(r: Receiver<S>): nat {
    2 * |r.input| + if r.first != [] then 1 else 0
  }

  /** From the decrypted packet and the bytes after it: check the MAC, strip length and padding. */
  function Finish<S>(suite: Suite<S>, r: Receiver<S>, packet: Bytes): (t: Turn<S>)
    requires |packet| >= 5 && |r.input| >= MacSize(suite)
    ensures !t.Wait? && (t.Packet? ==> t.payload != [] && Left(t.r) <= 2 * |r.input|)
  {
    if suite.mac.Some? && r.input[..MacSize(suite)] != MacOf(suite, r.seqno, packet) then Bad
    else
      var pad := packet[4];
      var rest := packet[5..];
      if |rest| < pad then Bad
      else
        var payload := rest[..|rest| - pad];
        if payload == [] then Bad
        else Packet(Receiver(r.input[MacSize(suite)..], [], (r.seqno + 1) % TWO_32, r.state), payload)
  }

  /** With a cipher, the first block is decrypted on its own, as soon as more than a block is there. */
  function OpenFirst<S>(c: Cipher<S>, r: Receiver<S>): Receiver<S>
    requires c.block > 0 && |r.input| > c.block
  {
    if r.first != [] then r
    else
      var head := Crypt(c.decrypt, c.block, r.state, r.input[..c.block]);
      Receiver(r.input[c.block..], head.data, r.seqno, head.state)
  }

  function OpenCiphered<S>(suite: Suite<S>, r: Receiver<S>): (t: Turn<S>)
    requires suite.cipher.Some? && suite.cipher.value.block >= 8 && |r.input| > suite.cipher.value.block
    ensures t.Packet? ==> Left(t.r) < Left(r)
  {
    var c := suite.cipher.value;
    var r1 := OpenFirst(c, r);
    if |r1.first| < 4 then Bad
    else
      var len := FromBE(r1.first[..4]);
      if len == 0 then Bad
      else if c.block + |r1.input| < 4 + len + MacSize(suite) then Wait(r1)
      else if 4 + len > c.block then
        var body := Crypt(c.decrypt, c.block, r1.state, r1.input[..4 + len - c.block]);
        var packet := r1.first + body.data;
        if |packet| != 4 + len then Bad
        else Finish(suite, Receiver(r1.input[4 + len - c.block..], [], r1.seqno, body.state), packet)
      else if |r1.first| != 4 + len || |r1.input| < MacSize(suite) then Bad
      else Finish(suite, r1.(first := []), r1.first)
  }

  function OpenPlain<S>(suite: Suite<S>, r: Receiver<S>): (t: Turn<S>)
    requires suite.cipher.None? && |r.input| > 8
    ensures t.Packet? ==> Left(t.r) < Left(r)
  {
    var len := FromBE(r.input[..4]);
    if len == 0 then Bad
    else if |r.input| < 4 + len + MacSize(suite) then Wait(r)
    else Finish(suite, r.(input := r.input[4 + len..]), r.input[..4 + len])
  }

  /** One turn of the loop of `receive_do`. */
  function Open<S>(suite: Suite<S>, r: Receiver<S>): (t: Turn<S>)
    requires 8 <= BlockOf(suite) <= 251
    ensures t.Packet? ==> Left(t.r) < Left(r)
  {
    if |r.input| <= BlockOf(suite) then Wait(r)
    else if suite.cipher.Some? then OpenCiphered(suite, r)
    else OpenPlain(suite, r)
  }

  // --- One honest packet -----------------------------------------------------------------------------------------

  /** Payloads short enough for a 32-bit length. */
  predicate Sendable(payload: Bytes) {
    |payload| + 260 < TWO_32
  }

  lemma {:induction false} LengthField(n: nat)
    requires n < TWO_32
    ensures FromBE(ToBE(4, n)) == n
  {
    assert Radix(2) == 65536;
    assert Radix(4) == 65536 * 65536;
    FromToBE(4, n);
  }

  /** The header of a packet says how long it is. */
  lemma {:induction false} PlainHeader(block: nat, payload: Bytes)
    requires 8 <= block <= 251 && Sendable(payload)
    ensures var plain := Plain(block, payload);
            && FromBE(plain[..4]) == PacketLength(block, |payload|) > 0
            && |plain| % block == 0 && |plain| >= block && |plain| > 8
  {
    PaddingFits(block, |payload|);
    var plain := Plain(block, payload);
    assert plain[..4] == ToBE(4, PacketLength(block, |payload|));
    assert |plain| == 4 + 1 + |payload| + Padding(block, |payload|);
    hide Padding, Plain;
    LengthField(PacketLength(block, |payload|));
    WholeFromMod(block, |plain|);
  }

  /** A decrypted packet with the right MAC behind it yields its payload; an empty one is refused. */
  lemma {:induction false} FinishHonest<S(!new)>(suite: Suite<S>, input: Bytes, seqno: nat, state: S, payload: Bytes, rest: Bytes)
    requires SuiteOk(suite) && 8 <= BlockOf(suite) <= 251
    requires input == MacOf(suite, seqno, Plain(BlockOf(suite), payload)) + rest
    ensures |input| >= MacSize(suite)
    ensures Finish(suite, Receiver(input, [], seqno, state), Plain(BlockOf(suite), payload)) ==
            if payload == [] then Bad else Packet(Receiver(rest, [], (seqno + 1) % TWO_32, state), payload)
  {
    var block := BlockOf(suite);
    PaddingFits(block, |payload|);
    var plain := Plain(block, payload);
    var mac := MacOf(suite, seqno, plain);
    assert |mac| == MacSize(suite);
    assert input[..|mac|] == mac && input[|mac|..] == rest;
    var pad := Padding(block, |payload|);
    assert plain[4] == pad;
    assert plain[5..] == payload + seq(pad, _ => 0);
    assert plain[5..][..|plain[5..]| - pad] == payload;
  }

  // --- What the MAC protects ---------------------------------------------------------------------------------------

  /** No two inputs have the same MAC. */
  ghost predicate Injective(compute: Bytes -> Bytes) {
    forall a, b :: compute(a) == compute(b) ==> a == b
  }

  /** A MAC that was made for one packet at one place in the stream fits no other packet and no other place. */
  lemma {:induction false} MacBinds<S>(suite: Suite<S>, n: nat, m: nat, p: Bytes, q: Bytes)
    requires suite.mac.Some? && Injective(suite.mac.value.compute) && n < TWO_32 && m < TWO_32
    ensures MacOf(suite, n, p) == MacOf(suite, m, q) <==> n == m && p == q
  {
    if MacOf(suite, n, p) == MacOf(suite, m, q) {
      var a, b := ToBE(4, n) + p, ToBE(4, m) + q;
      assert a == b;
      assert ToBE(4, n) == a[..4] == b[..4] == ToBE(4, m);
      assert p == a[4..] == b[4..] == q;
      LengthField(n);
      LengthField(m);
    }
  }

  /** A receiver refuses a packet whose MAC was made for another packet, or for another sequence number. */
  lemma {:induction false} ForgeryRefused<S>(suite: Suite<S>, r: Receiver<S>, packet: Bytes, n: nat, other: Bytes)
    requires suite.mac.Some? && Injective(suite.mac.value.compute) && n < TWO_32 && r.seqno < TWO_32
    requires |packet| >= 5 && |r.input| >= MacSize(suite) && r.input[..MacSize(suite)] == MacOf(suite, n, other)
    requires n != r.seqno || other != packet
    ensures Finish(suite, r, packet).Bad?
  {
    hide MacOf;
    MacBinds(suite, n, r.seqno, other, packet);
  }

  /** Whatever a receiver has accepted, it refuses the very same packet and MAC if they come again as the next. */
  lemma {:induction false} ReplayRefused<S>(suite: Suite<S>, r: Receiver<S>, packet: Bytes, later: Receiver<S>)
    requires suite.mac.Some? && Injective(suite.mac.value.compute) && r.seqno < TWO_32
    requires |packet| >= 5 && |r.input| >= MacSize(suite) && Finish(suite, r, packet).Packet?
    requires |later.input| >= MacSize(suite) && later.input[..MacSize(suite)] == r.input[..MacSize(suite)]
    requires later.seqno == Finish(suite, r, packet).r.seqno
    ensures Finish(suite, later, packet).Bad?
  {
    hide MacOf;
    ForgeryRefused(suite, later, packet, r.seqno, packet);
  }
}
