/** `TransportPipe` as it runs: buffers and sequence numbers updated packet by packet. */
module SshImpl {
  import opened Bytes
  import opened SshPacket
  import opened SshTransport

  class TransportPipe<S(!new)> {
    const suite: Suite<S>
    var input: Bytes
    var first: Bytes
    var remoteSeqno: nat
    var decryptState: S
    var localSeqno: nat
    var encryptState: S
    var waiting: bool

    ghost function Value(): Receiver<S>
      reads this
    {
      Receiver(input, first, remoteSeqno, decryptState)
    }

    ghost predicate Valid() {
      8 <= BlockOf(suite) <= 251
    }

    constructor (suite: Suite<S>, state: S)
      requires 8 <= BlockOf(suite) <= 251
      ensures Valid() && this.suite == suite && !waiting
      ensures Value() == Receiver([], [], 0, state) && localSeqno == 0 && encryptState == state
    {
      this.suite := suite;
      input, first, remoteSeqno, decryptState := [], [], 0, state;
      localSeqno, encryptState, waiting := 0, state, false;
    }

    /** `send`; `macOk` and `cipherOk` say whether the MAC can be computed and the packet encrypted. */
    method Send(payload: Bytes, macOk: bool, cipherOk: bool) returns (failed: bool, packet: Bytes)
      requires Valid()
      modifies this`localSeqno, this`encryptState
      ensures failed <==> (suite.mac.Some? && !macOk) || (suite.cipher.Some? && !cipherOk)
      ensures failed ==> packet == [] && localSeqno == old(localSeqno) && encryptState == old(encryptState)
      ensures !failed ==>
                && Keyed(encryptState, packet) == Seal(suite, old(encryptState), old(localSeqno), payload)
                && localSeqno == (old(localSeqno) + 1) % TWO_32
    {
      failed := false;
      var block := if suite.cipher.Some? then suite.cipher.value.block else 8;
      PaddingFits(block, |payload|);
      var length := 1 + |payload|;
      var pad := 4 + (block - ((4 + length + 4) % block));
      length := length + pad;
      packet := ToBE(4, length) + [pad] + payload + seq(pad, _ => 0);
      assert packet == Plain(block, payload);
      var mac := [];
      if suite.mac.Some? {
        if !macOk {
          return true, [];
        }
        mac := suite.mac.value.compute(ToBE(4, localSeqno) + packet);
      }
      if suite.cipher.Some? {
        if !cipherOk {
          return true, [];
        }
        var sealed := Crypt(suite.cipher.value.encrypt, block, encryptState, packet);
        encryptState := sealed.state;
        packet := sealed.data;
      }
      packet := packet + mac;
      localSeqno := (localSeqno + 1) % TWO_32;
    }

    /** With a cipher: the first block on its own, then the rest of the packet. */
    method TakeCiphered() returns (wait: bool, failed: bool, payload: Bytes)
      requires Valid() && suite.cipher.Some? && |input| > suite.cipher.value.block
      modifies this`input, this`first, this`remoteSeqno, this`decryptState
      ensures var t := OpenCiphered(suite, old(Value()));
              && (wait <==> t.Wait?) && (failed <==> t.Bad?)
              && (t.Wait? ==> Value() == t.r)
              && (t.Packet? ==> Value() == t.r && payload == t.payload)
    {
      hide Crypt, Finish;
      wait, failed, payload := false, false, [];
      var c := suite.cipher.value;
      if first == [] {
        var head := Crypt(c.decrypt, c.block, decryptState, input[..c.block]);
        input, first, decryptState := input[c.block..], head.data, head.state;
      }
      assert Value() == OpenFirst(c, old(Value()));
      if |first| < 4 {
        failed := true;
        return;
      }
      var len := FromBE(first[..4]);
      if len == 0 {
        failed := true;
        return;
      }
      if c.block + |input| < 4 + len + MacSize(suite) {
        wait := true;
        return;
      }
      var packet := first;
      first := [];
      if 4 + len > c.block {
        var body := Crypt(c.decrypt, c.block, decryptState, input[..4 + len - c.block]);
        input, decryptState := input[4 + len - c.block..], body.state;
        packet := packet + body.data;
      }
      if |packet| != 4 + len || |input| < MacSize(suite) {
        failed := true;
        return;
      }
      failed, payload := Unpack(packet);
    }

    method TakePlain() returns (wait: bool, failed: bool, payload: Bytes)
      requires Valid() && suite.cipher.None? && |input| > 8
      modifies this`input, this`first, this`remoteSeqno, this`decryptState
      ensures var t := OpenPlain(suite, old(Value()));
              && (wait <==> t.Wait?) && (failed <==> t.Bad?)
              && (t.Wait? ==> Value() == t.r)
              && (t.Packet? ==> Value() == t.r && payload == t.payload)
    {
      hide Finish;
      wait, failed, payload := false, false, [];
      var len := FromBE(input[..4]);
      if len == 0 {
        failed := true;
        return;
      }
      if |input| < 4 + len + MacSize(suite) {
        wait := true;
        return;
      }
      var packet := input[..4 + len];
      input := input[4 + len..];
      failed, payload := Unpack(packet);
    }

    /** One turn of the receive loop: whether to wait, fail or hand over a payload. */
    method TakePacket() returns (wait: bool, failed: bool, payload: Bytes)
      requires Valid()
      modifies this`input, this`first, this`remoteSeqno, this`decryptState
      ensures var t := Open(suite, old(Value()));
              && (wait <==> t.Wait?) && (failed <==> t.Bad?)
              && (t.Wait? ==> Value() == t.r)
              && (t.Packet? ==> Value() == t.r && payload == t.payload)
    {
      hide OpenCiphered, OpenPlain;
      if |input| <= BlockOf(suite) {
        return true, false, [];
      }
      if suite.cipher.Some? {
        wait, failed, payload := TakeCiphered();
      } else {
        wait, failed, payload := TakePlain();
      }
    }

    /** Checks the MAC, counts the packet and strips header and padding. */
    method Unpack(packet: Bytes) returns (failed: bool, payload: Bytes)
      requires |packet| >= 5 && |input| >= MacSize(suite)
      modifies this`input, this`first, this`remoteSeqno
      ensures var t := Finish(suite, old(Value()), packet);
              && (failed <==> t.Bad?)
              && (t.Packet? ==> Value() == t.r && payload == t.payload)
    {
      failed, payload := false, [];
      if suite.mac.Some? && input[..MacSize(suite)] != suite.mac.value.compute(ToBE(4, remoteSeqno) + packet) {
        failed := true;
        return;
      }
      input, first := input[MacSize(suite)..], [];
      remoteSeqno := (remoteSeqno + 1) % TWO_32;
      var pad, rest := packet[4], packet[5..];
      if |rest| < pad {
        failed := true;
        return;
      }
      payload := rest[..|rest| - pad];
      failed := payload == [];
    }

    /** `receive_do`: packets for the session itself do not end the wait. */
    method ReceiveDo() returns (taken: seq<Bytes>, failed: bool)
      requires Valid() && waiting
      modifies this`input, this`first, this`remoteSeqno, this`decryptState, this`waiting
      ensures var l := SshTransport.ReceiveDo(suite, old(Value()));
              taken == l.taken && failed == l.failed && waiting == !l.done && (!failed ==> Value() == l.r)
    {
      hide Open;
      taken, failed := [], false;
      ghost var all := SshTransport.ReceiveDo(suite, Value());
      while input != []
        invariant waiting && !failed
        invariant var l := SshTransport.ReceiveDo(suite, Value()); all == l.(taken := taken + l.taken)
        decreases Left(Value())
      {
        ghost var before := Value();
        var wait, payload;
        wait, failed, payload := TakePacket();
        if wait || failed {
          assert taken + [] == taken;
          return;
        }
        ghost var l := SshTransport.ReceiveDo(suite, Value());
        assert taken + ([payload] + l.taken) == taken + [payload] + l.taken;
        var handling := suite.handle(payload);
        if handling == Refused {
          assert taken + [] == taken;
          failed := true;
          return;
        }
        taken := taken + [payload];
        if handling == ForCaller {
          waiting := false;
          return;
        }
      }
      assert taken + [] == taken;
    }
  }
}
