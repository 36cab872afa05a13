/** `BufferSegment` and `Buffer` as they run: shared segments, copied before they are written. */
module BufferImpl {
  import opened Bytes
  import opened Segments

  /** Every reference in `pins` still reads the same bytes. */
  ghost predicate PinsKept(h: Heap, h': Heap, pins: multiset<nat>)
    requires HeapOk(h) && HeapOk(h')
  {
    forall id :: id in pins ==> id in h.segs && id in h'.segs && SegBytes(h', id) == SegBytes(h, id)
  }

  lemma {:induction false} PinsTrans(h: Heap, h1: Heap, h2: Heap, pins: multiset<nat>)
    requires HeapOk(h) && HeapOk(h1) && HeapOk(h2)
    requires PinsKept(h, h1, pins) && PinsKept(h1, h2, pins)
    ensures PinsKept(h, h2, pins)
  {
    hide HeapOk;
  }

  lemma {:induction false} PinsFewer(h: Heap, h': Heap, pins: multiset<nat>, fewer: multiset<nat>)
    requires HeapOk(h) && HeapOk(h') && PinsKept(h, h', pins) && fewer <= pins
    ensures PinsKept(h, h', fewer)
  {
    hide HeapOk;
  }

  /** References that are held stay alive, and agreement on live segments covers them. */
  lemma {:induction false} PinsFromAgree(h: Heap, h': Heap, pins: multiset<nat>, skip: set<nat>)
    requires HeapOk(h) && HeapOk(h') && Agree(h, h', skip)
    requires pins <= h.pins && pins <= h'.pins
    requires forall id :: id in skip ==> id !in pins
    ensures PinsKept(h, h', pins)
  {
    hide Listed;
    forall id | id in pins
      ensures id in h.segs && id in h'.segs
    {
      assert id in h.pins && id in h'.pins;
    }
  }

  /** A segment whose only reference is this one is in no list and pinned once. */
  lemma {:induction false} SoleReference(h: Heap, id: nat)
    requires HeapOk(h) && id in h.pins && h.segs[id].refs == 1
    ensures id in h.segs && id !in h.pins - multiset{id}
  {
    hide Listed;
    assert h.pins[id] == 1;
  }

  lemma {:induction false} LiveSegment(h: Heap, id: nat)
    requires HeapOk(h) && id in h.segs
    ensures SegmentOk(h.segs[id])
  {
  }

  // --- Buffers as plain byte strings -----------------------------------------------------------------------

  /** The operations, by what they are called on. */
  datatype Op =
    | AppendData(b: nat, s: Bytes)
    | AppendAll(b: nat, src: nat)
    | AppendFirst(b: nat, src: nat, n: nat)
    | SkipBytes(b: nat, n: nat)
    | MoveBytes(b: nat, n: nat, dst: nat)
    | TrimBytes(b: nat, n: nat)
    | Empty(b: nat)
    | MoveAll(b: nat, dst: nat)
    | Pop(b: nat)
    | Hold(b: nat, n: nat)
    | HoldSegment(b: nat)
    | MoveSegment(b: nat)
    | AppendHeld(b: nat, i: nat)
    | Release(i: nat)

  datatype View = View(contents: seq<Bytes>, held: seq<Bytes>)

  /** What the assertions of the source ask of the caller. */
  predicate Allowed(v: View, op: Op) {
    match op
    case AppendData(b, s) => b < |v.contents| && s != []
    case AppendAll(b, src) => b < |v.contents| && src < |v.contents| && b != src
    case AppendFirst(b, src, n) => b < |v.contents| && src < |v.contents| && b != src && 0 < n <= |v.contents[src]|
    case SkipBytes(b, n) => b < |v.contents| && 0 < n && v.contents[b] != []
    case MoveBytes(b, n, dst) => b < |v.contents| && dst < |v.contents| && b != dst && 0 < n && v.contents[b] != []
    case TrimBytes(b, n) => b < |v.contents| && 0 < n <= |v.contents[b]|
    case Empty(b) => b < |v.contents|
    case MoveAll(b, dst) => b < |v.contents| && dst < |v.contents| && b != dst
    case Pop(b) => b < |v.contents| && v.contents[b] != []
    case Hold(b, n) => b < |v.contents| && 0 < n <= SEGMENT_SIZE && n <= |v.contents[b]|
    case HoldSegment(b) => b < |v.contents| && v.contents[b] != []
    case MoveSegment(b) => b < |v.contents| && v.contents[b] != []
    case AppendHeld(b, i) => b < |v.contents| && i < |v.held|
    case Release(i) => i < |v.held|
  }

  /**
    What an operation may report. The bytes of a buffer do not say where its segments end, so the
    length of a first segment is an outcome: any that fits. The others have one outcome each.
  */
  predicate Outcome(v: View, op: Op, out: nat)
    requires Allowed(v, op)
  {
    match op
    case Pop(b) => out == v.contents[b][0]
    case HoldSegment(b) => 0 < out <= SEGMENT_SIZE && out <= |v.contents[b]|
    case MoveSegment(b) => 0 < out <= SEGMENT_SIZE && out <= |v.contents[b]|
    case _ => out == 0
  }

  /** What an operation means when nothing is shared. */
  function Do(v: View, op: Op, out: nat): (r: View)
    requires Allowed(v, op) && Outcome(v, op, out)
    ensures |r.contents| == |v.contents|
  {
    var c := v.contents;
    match op
    case AppendData(b, s) => v.(contents := c[b := c[b] + s])
    case AppendAll(b, src) => v.(contents := c[b := c[b] + c[src]])
    case AppendFirst(b, src, n) => v.(contents := c[b := c[b] + c[src][..n]])
    case SkipBytes(b, n) => v.(contents := c[b := c[b][Min(n, |c[b]|)..]])
    case MoveBytes(b, n, dst) =>
      var k := Min(n, |c[b]|);
      v.(contents := c[b := c[b][k..]][dst := c[dst] + c[b][..k]])
    case TrimBytes(b, n) => v.(contents := c[b := c[b][..|c[b]| - n]])
    case Empty(b) => v.(contents := c[b := []])
    case MoveAll(b, dst) => v.(contents := c[dst := c[dst] + c[b]][b := []])
    case Pop(b) => v.(contents := c[b := c[b][1..]])
    case Hold(b, n) => v.(held := v.held + [c[b][..n]])
    case HoldSegment(b) => v.(held := v.held + [c[b][..out]])
    case MoveSegment(b) => View(c[b := c[b][out..]], v.held + [c[b][..out]])
    case AppendHeld(b, i) => v.(contents := c[b := c[b] + v.held[i]])
    case Release(i) => v.(held := v.held[..i] + v.held[i + 1..])
  }

  /** The buffers that an operation is meant to change. */
  function Targets(op: Op): set<nat> {
    match op
    case AppendData(b, _) => {b}
    case AppendAll(b, _) => {b}
    case AppendFirst(b, _, _) => {b}
    case SkipBytes(b, _) => {b}
    case MoveBytes(b, _, dst) => {b, dst}
    case TrimBytes(b, _) => {b}
    case Empty(b) => {b}
    case MoveAll(b, dst) => {b, dst}
    case Pop(b) => {b}
    case Hold(_, _) => {}
    case HoldSegment(_) => {}
    case MoveSegment(b) => {b}
    case AppendHeld(b, _) => {b}
    case Release(_) => {}
  }

  /** Over any run, a buffer that is no target keeps its bytes, and without a release every held segment does. */
  lemma {:induction false} RunIsolates(v: View, ops: seq<Op>, outs: seq<nat>, b: nat)
    requires AllAllowed(v, ops, outs) && b < |v.contents|
    ensures |DoAll(v, ops, outs).contents| == |v.contents|
    ensures (forall i :: 0 <= i < |ops| ==> b !in Targets(ops[i])) ==> DoAll(v, ops, outs).contents[b] == v.contents[b]
    ensures (forall i :: 0 <= i < |ops| ==> !ops[i].Release?) ==> v.held <= DoAll(v, ops, outs).held
  {
    if ops != [] {
      var k := |ops| - 1;
      RunIsolates(v, ops[..k], outs[..k], b);
      assert forall i :: 0 <= i < k ==> ops[..k][i] == ops[i];
      DoIsolates(DoAll(v, ops[..k], outs[..k]), ops[k], outs[k], b);
      hide Do, Allowed, Outcome;
    }
  }

  lemma {:induction false} DoIsolates(v: View, op: Op, out: nat, b: nat)
    requires Allowed(v, op) && Outcome(v, op, out) && b < |v.contents|
    ensures b !in Targets(op) ==> Do(v, op, out).contents[b] == v.contents[b]
    ensures !op.Release? ==> v.held <= Do(v, op, out).held
  {
  }

  /** Each operation is allowed when its turn comes, and reports what it may. */
  predicate AllAllowed(v: View, ops: seq<Op>, outs: seq<nat>)
    decreases |ops|, 0
  {
    && |outs| == |ops|
    && (ops != [] ==>
          var k := |ops| - 1;
          && AllAllowed(v, ops[..k], outs[..k])
          && Allowed(DoAll(v, ops[..k], outs[..k]), ops[k])
          && Outcome(DoAll(v, ops[..k], outs[..k]), ops[k], outs[k]))
  }

  function DoAll(v: View, ops: seq<Op>, outs: seq<nat>): View
    requires AllAllowed(v, ops, outs)
    decreases |ops|, 1
  {
    if ops == [] then v
    else
      var k := |ops| - 1;
      Do(DoAll(v, ops[..k], outs[..k]), ops[k], outs[k])
  }

  lemma {:induction false} DoNothing(v: View)
    ensures AllAllowed(v, [], []) && DoAll(v, [], []) == v
  {
  }

  lemma {:induction false} DoOneMore(v: View, ops: seq<Op>, outs: seq<nat>, op: Op, out: nat)
    requires AllAllowed(v, ops, outs)
    requires Allowed(DoAll(v, ops, outs), op) && Outcome(DoAll(v, ops, outs), op, out)
    ensures AllAllowed(v, ops + [op], outs + [out])
    ensures DoAll(v, ops + [op], outs + [out]) == Do(DoAll(v, ops, outs), op, out)
  {
    assert (ops + [op])[..|ops|] == ops && (outs + [out])[..|outs|] == outs;
  }

  class BufferHeap {
    var segs: map<nat, Segment>
    var bufs: seq<seq<nat>>
    var pins: multiset<nat>
    /** The cached length of each buffer. */
    var lengths: seq<nat>
    /** Names from here on are unused. */
    var next: nat

    ghost function Value(): Heap
      reads this
    {
      Heap(segs, bufs, pins)
    }

    ghost predicate Valid()
      reads this
    {
      && HeapOk(Value())
      && (forall id :: id in segs ==> id < next)
      && |lengths| == |bufs|
      && forall b :: 0 <= b < |bufs| ==> lengths[b] == |Contents(Value())[b]|
    }

    constructor (n: nat)
      ensures Valid() && bufs == seq(n, _ => []) && pins == multiset{}
      ensures Contents(Value()) == seq(n, _ => [])
    {
      segs, bufs, pins := map[], seq(n, _ => []), multiset{};
      lengths, next := seq(n, _ => 0), 0;
      new;
      AllEmpty(bufs);
    }

    // --- Segments --------------------------------------------------------------------------------------

    method Ref(id: nat)
      requires Valid() && id in segs
      modifies this
      ensures Valid() && bufs == old(bufs) && pins == old(pins) + multiset{id}
      ensures Contents(Value()) == old(Contents(Value()))
      ensures Agree(old(Value()), Value(), {}) && segs.Keys == old(segs.Keys)
    {
      hide HeapOk, Contents, Agree;
      ghost var h := Pin(Value(), id);
      segs := segs[id := segs[id].(refs := segs[id].refs + 1)];
      pins := pins + multiset{id};
      assert Value() == h;
    }

    /** Dropping the last reference frees the segment; dropping any other does not. */
    method Unref(id: nat)
      requires Valid() && id in pins
      modifies this
      ensures Valid() && bufs == old(bufs) && pins == old(pins) - multiset{id}
      ensures Contents(Value()) == old(Contents(Value()))
      ensures old(id in segs) && (id in segs <==> old(segs[id].refs > 1)) && segs.Keys + {id} == old(segs.Keys)
      ensures PinsKept(old(Value()), Value(), pins)
    {
      hide Counted, Contents, Agree, PinsKept;
      ghost var h := Unpin(Value(), id);
      PinsFromAgree(Value(), h, h.pins, {});
      if segs[id].refs > 1 {
        segs := segs[id := segs[id].(refs := segs[id].refs - 1)];
      } else {
        segs := segs - {id};
      }
      pins := pins - multiset{id};
      assert Value() == h;
    }

    method New(s: Bytes) returns (id: nat)
      requires Valid() && 0 < |s| <= SEGMENT_SIZE
      modifies this
      ensures Valid() && bufs == old(bufs) && pins == old(pins) + multiset{id}
      ensures Contents(Value()) == old(Contents(Value()))
      ensures id in segs && SegBytes(Value(), id) == s && segs[id].refs == 1
      ensures PinsKept(old(Value()), Value(), old(pins))
    {
      hide Counted, Contents, Agree, PinsKept;
      id := next;
      ghost var h := Create(Value(), id, s);
      PinsFromAgree(Value(), h, pins, {});
      segs := segs[id := NewSegment(s)];
      pins := pins + multiset{id};
      assert Value() == h;
      next := next + 1;
    }

    /** Replaces the caller's reference by one to a new segment with these bytes. */
    method Replace(id: nat, s: Bytes) returns (id': nat)
      requires Valid() && id in pins && 0 < |s| <= SEGMENT_SIZE
      modifies this
      ensures Valid() && bufs == old(bufs) && pins == old(pins) - multiset{id} + multiset{id'}
      ensures Contents(Value()) == old(Contents(Value()))
      ensures id' in segs && SegBytes(Value(), id') == s
      ensures PinsKept(old(Value()), Value(), old(pins) - multiset{id})
    {
      hide HeapOk, Contents, PinsKept;
      ghost var h0 := Value();
      id' := New(s);
      ghost var h1 := Value();
      Unref(id);
      assert pins == h0.pins - multiset{id} + multiset{id'};
      PinsFewer(h0, h1, h0.pins, h0.pins - multiset{id});
      PinsFewer(h1, Value(), pins, h0.pins - multiset{id});
      PinsTrans(h0, h1, Value(), h0.pins - multiset{id});
      PinnedBytes(h1, Value(), pins, id');
    }

    /** Overwrites a segment whose only holder is the caller. */
    method Overwrite(id: nat, s: Segment)
      requires Valid() && id in pins && id in segs && segs[id].refs == 1 && SegmentOk(s) && s.refs == 1
      modifies this
      ensures Valid() && bufs == old(bufs) && pins == old(pins)
      ensures Contents(Value()) == old(Contents(Value()))
      ensures id in segs && SegBytes(Value(), id) == BytesOf(s)
      ensures PinsKept(old(Value()), Value(), old(pins) - multiset{id})
    {
      hide Counted, Contents, Agree, PinsKept;
      SoleReference(Value(), id);
      ghost var h := Rewrite(Value(), id, s);
      PinsFromAgree(Value(), h, pins - multiset{id}, {id});
      segs := segs[id := s];
      assert Value() == h;
    }

    /** `BufferSegment::skip`: in place for the only holder, else on a copy. */
    method SegmentSkip(id: nat, n: nat) returns (id': nat)
      requires Valid() && id in pins && id in segs && 0 < n < |SegBytes(Value(), id)|
      modifies this
      ensures Valid() && bufs == old(bufs) && pins == old(pins) - multiset{id} + multiset{id'}
      ensures Contents(Value()) == old(Contents(Value()))
      ensures id' in segs && SegBytes(Value(), id') == old(SegBytes(Value(), id))[n..]
      ensures PinsKept(old(Value()), Value(), old(pins) - multiset{id})
    {
      hide HeapOk, Contents, PinsKept;
      LiveSegment(Value(), id);
      var s := segs[id];
      if s.refs != 1 {
        id' := Replace(id, BytesOf(s)[n..]);
        return;
      }
      id' := id;
      assert pins == pins - multiset{id} + multiset{id};
      assert s.store[s.offset + n..s.offset + s.length] == BytesOf(s)[n..];
      Overwrite(id, s.(offset := s.offset + n, length := s.length - n));
    }

    /** `BufferSegment::trim`. */
    method SegmentTrim(id: nat, n: nat) returns (id': nat)
      requires Valid() && id in pins && id in segs && 0 < n < |SegBytes(Value(), id)|
      modifies this
      ensures Valid() && bufs == old(bufs) && pins == old(pins) - multiset{id} + multiset{id'}
      ensures Contents(Value()) == old(Contents(Value()))
      ensures id' in segs
      ensures var s := old(SegBytes(Value(), id)); SegBytes(Value(), id') == s[..|s| - n]
      ensures PinsKept(old(Value()), Value(), old(pins) - multiset{id})
    {
      hide HeapOk, Contents, PinsKept;
      LiveSegment(Value(), id);
      var s := segs[id];
      if s.refs != 1 {
        id' := Replace(id, BytesOf(s)[..s.length - n]);
        return;
      }
      id' := id;
      assert pins == pins - multiset{id} + multiset{id};
      assert s.store[s.offset..s.offset + s.length - n] == BytesOf(s)[..s.length - n];
      Overwrite(id, s.(length := s.length - n));
    }

    /** `BufferSegment::append`: moves the data to the front of the storage when that makes room. */
    method SegmentAppend(id: nat, more: Bytes) returns (id': nat)
      requires Valid() && id in pins && id in segs
      requires 0 < |more| <= SEGMENT_SIZE - |SegBytes(Value(), id)|
      modifies this
      ensures Valid() && bufs == old(bufs) && pins == old(pins) - multiset{id} + multiset{id'}
      ensures Contents(Value()) == old(Contents(Value()))
      ensures id' in segs && SegBytes(Value(), id') == old(SegBytes(Value(), id)) + more
      ensures PinsKept(old(Value()), Value(), old(pins) - multiset{id})
    {
      hide HeapOk, Contents, PinsKept;
      LiveSegment(Value(), id);
      var s := segs[id];
      if s.refs != 1 {
        id' := Replace(id, BytesOf(s) + more);
        return;
      }
      id' := id;
      assert pins == pins - multiset{id} + multiset{id};
      var t := s;
      if SEGMENT_SIZE - s.length - s.offset < |more| {
        t := Pulled(s);
      }
      var end := t.offset + t.length;
      var store := t.store[..end] + more + t.store[end + |more|..];
      assert store[t.offset..end + |more|] == BytesOf(t) + more;
      Overwrite(id, t.(store := store, length := t.length + |more|));
    }

    // --- Segment lists -----------------------------------------------------------------------------------

    /** The contents and cached lengths are those before, with buffer `b` now holding `s`. */
    twostate predicate OnlyChanged(b: nat, s: Bytes)
      reads this
    {
      && old(Valid()) && Valid() && b < |old(bufs)|
      && Contents(Value()) == old(Contents(Value()))[b := s]
    }

    /** Takes the first reference out of a list: `Buffer::moveout` of a segment. */
    method PopFront(b: nat) returns (id: nat)
      requires Valid() && b < |bufs| && bufs[b] != []
      modifies this
      ensures bufs == old(bufs)[b := old(bufs)[b][1..]] && id == old(bufs)[b][0] && segs == old(segs)
      ensures Valid() && pins == old(pins) + multiset{id} && id in segs
      ensures old(Contents(Value())[b]) == SegBytes(Value(), id) + Contents(Value())[b]
      ensures OnlyChanged(b, Contents(Value())[b])
      ensures PinsKept(old(Value()), Value(), old(pins))
    {
      hide Counted, Agree, PinsKept;
      ghost var h := TakeFront(Value(), b);
      PinsFromAgree(Value(), h, pins, {});
      id := bufs[b][0];
      bufs := bufs[b := bufs[b][1..]];
      pins := pins + multiset{id};
      lengths := lengths[b := lengths[b] - segs[id].length];
      assert Value() == h;
    }

    method PopBack(b: nat) returns (id: nat)
      requires Valid() && b < |bufs| && bufs[b] != []
      modifies this
      ensures bufs == old(bufs)[b := old(bufs)[b][..|old(bufs)[b]| - 1]] && id == old(bufs)[b][|old(bufs)[b]| - 1] && segs == old(segs)
      ensures Valid() && pins == old(pins) + multiset{id} && id in segs
      ensures old(Contents(Value())[b]) == Contents(Value())[b] + SegBytes(Value(), id)
      ensures OnlyChanged(b, Contents(Value())[b])
      ensures PinsKept(old(Value()), Value(), old(pins))
    {
      hide Counted, Agree, PinsKept;
      ghost var h := TakeBack(Value(), b);
      PinsFromAgree(Value(), h, pins, {});
      id := bufs[b][|bufs[b]| - 1];
      bufs := bufs[b := bufs[b][..|bufs[b]| - 1]];
      pins := pins + multiset{id};
      lengths := lengths[b := lengths[b] - segs[id].length];
      assert Value() == h;
    }

    method PushBack(b: nat, id: nat)
      requires Valid() && b < |bufs| && id in pins && id in segs
      modifies this
      ensures Valid() && pins == old(pins) - multiset{id}
      ensures OnlyChanged(b, old(Contents(Value())[b]) + old(SegBytes(Value(), id)))
      ensures PinsKept(old(Value()), Value(), pins)
      ensures bufs == old(bufs)[b := old(bufs)[b] + [id]] && segs == old(segs)
    {
      hide Counted, Agree, PinsKept;
      ghost var h := PutBack(Value(), b, id);
      PinsFromAgree(Value(), h, h.pins, {});
      bufs := bufs[b := bufs[b] + [id]];
      pins := pins - multiset{id};
      lengths := lengths[b := lengths[b] + segs[id].length];
      assert Value() == h;
    }

    method PushFront(b: nat, id: nat)
      requires Valid() && b < |bufs| && id in pins && id in segs
      modifies this
      ensures Valid() && pins == old(pins) - multiset{id}
      ensures OnlyChanged(b, old(SegBytes(Value(), id)) + old(Contents(Value())[b]))
      ensures PinsKept(old(Value()), Value(), pins)
      ensures bufs == old(bufs)[b := [id] + old(bufs)[b]]
    {
      hide Counted, Agree, PinsKept;
      ghost var h := PutFront(Value(), b, id);
      PinsFromAgree(Value(), h, h.pins, {});
      bufs := bufs[b := [id] + bufs[b]];
      pins := pins - multiset{id};
      lengths := lengths[b := lengths[b] + segs[id].length];
      assert Value() == h;
    }

    // --- Buffers ------------------------------------------------------------------------------------------

    /** `Buffer::append` of one segment, which is shared from now on. */
    method AppendSegment(b: nat, id: nat)
      requires Valid() && b < |bufs| && id in segs
      modifies this
      ensures Valid() && pins == old(pins) && bufs == old(bufs)[b := old(bufs)[b] + [id]]
      ensures OnlyChanged(b, old(Contents(Value())[b]) + old(SegBytes(Value(), id)))
      ensures segs.Keys == old(segs.Keys) && Agree(old(Value()), Value(), {})
    {
      hide HeapOk, PinsKept, Contents;
      ghost var h0 := Value();
      Ref(id);
      AgreeOn(h0, Value(), id);
      PushBack(b, id);
      assert pins == h0.pins;
    }

    /** `Buffer::append` of another buffer: every segment becomes shared. */
    method AppendBuffer(b: nat, src: nat)
      requires Valid() && b < |bufs| && src < |bufs| && b != src
      modifies this
      ensures Valid() && pins == old(pins) && |bufs| == |old(bufs)|
      ensures OnlyChanged(b, old(Contents(Value())[b]) + old(Contents(Value())[src]))
      ensures PinsKept(old(Value()), Value(), old(pins))
    {
      hide HeapOk, PinsKept, Contents, Agree, Flat, BytesOf;
      ghost var h0 := Value();
      ghost var had := Contents(h0)[b];
      ghost var got: Bytes := [];
      ListedOk(h0, src);
      assert bufs[src][0..] == bufs[src];
      ContentsAt(h0, src);
      ContentsAt(h0, b);
      assert had + [] == had;
      assert Contents(h0) == Contents(h0)[b := had];
      AgreeSame(h0, h0);
      var i := 0;
      while i < |bufs[src]|
        invariant |bufs| == |h0.bufs| && bufs[src] == h0.bufs[src] && pins == h0.pins
        invariant 0 <= i <= |bufs[src]|
        invariant Valid() && Agree(h0, Value(), {}) && segs.Keys == h0.segs.Keys
        invariant Contents(Value()) == Contents(h0)[b := had + got]
        invariant got + Flat(h0.segs, h0.bufs[src][i..]) == Contents(h0)[src]
      {
        ghost var h := Value();
        var id := bufs[src][i];
        FlatHead(h0.segs, h0.bufs[src], i);
        AgreeOn(h0, h, id);
        AppendSegment(b, id);
        AgreeTrans(h0, h, Value());
        ghost var s := SegBytes(h0, id);
        Assoc(had, got, s);
        Assoc(got, s, Flat(h0.segs, h0.bufs[src][i + 1..]));
        got := got + s;
        i := i + 1;
      }
      assert h0.bufs[src][i..] == [];
      FlatNone(h0.segs);
      assert got + [] == got;
      PinsSteady(h0, Value());
    }

    /** Erases the first segment of a list and drops the list's reference to it. */
    method DropFront(b: nat)
      requires Valid() && b < |bufs| && bufs[b] != []
      modifies this
      ensures Valid() && pins == old(pins) && bufs == old(bufs)[b := old(bufs)[b][1..]]
      ensures old(bufs[b][0] in segs)
      ensures old(Contents(Value())[b]) == old(SegBytes(Value(), bufs[b][0])) + Contents(Value())[b]
      ensures OnlyChanged(b, Contents(Value())[b])
      ensures PinsKept(old(Value()), Value(), old(pins))
    {
      hide HeapOk, PinsKept, Contents;
      ghost var h0 := Value();
      ListedOk(h0, b);
      var id := PopFront(b);
      ghost var h1 := Value();
      assert id == h0.bufs[b][0];
      Unref(id);
      assert pins == h0.pins;
      PinsTrans(h0, h1, Value(), h0.pins);
    }

    method DropBack(b: nat)
      requires Valid() && b < |bufs| && bufs[b] != []
      modifies this
      ensures Valid() && pins == old(pins) && bufs == old(bufs)[b := old(bufs)[b][..|old(bufs)[b]| - 1]]
      ensures old(bufs[b][|bufs[b]| - 1] in segs)
      ensures old(Contents(Value())[b]) == Contents(Value())[b] + old(SegBytes(Value(), bufs[b][|bufs[b]| - 1]))
      ensures OnlyChanged(b, Contents(Value())[b])
      ensures PinsKept(old(Value()), Value(), old(pins))
    {
      hide HeapOk, PinsKept, Contents;
      ghost var h0 := Value();
      ListedOk(h0, b);
      var id := PopBack(b);
      ghost var h1 := Value();
      Unref(id);
      assert pins == h0.pins;
      PinsTrans(h0, h1, Value(), h0.pins);
    }

    /** `Buffer::clear`. */
    method Clear(b: nat)
      requires Valid() && b < |bufs|
      modifies this
      ensures Valid() && pins == old(pins) && |bufs| == |old(bufs)| && bufs[b] == []
      ensures OnlyChanged(b, [])
      ensures PinsKept(old(Value()), Value(), old(pins))
    {
      hide HeapOk, PinsKept, Contents;
      ghost var h0 := Value();
      PinsSame(h0);
      ContentsAt(h0, b);
      while bufs[b] != []
        invariant Valid() && pins == h0.pins && |bufs| == |h0.bufs|
        invariant PinsKept(h0, Value(), h0.pins)
        invariant Contents(Value()) == Contents(h0)[b := Contents(Value())[b]]
        decreases |bufs[b]|
      {
        ghost var h := Value();
        DropFront(b);
        PinsTrans(h0, h, Value(), h0.pins);
      }
      EmptyContent(Value(), b);
    }

    /** Drops the first `n` bytes of the first segment. */
    method CutFront(b: nat, n: nat)
      requires Valid() && b < |bufs| && bufs[b] != []
      requires bufs[b][0] in segs && 0 < n < |SegBytes(Value(), bufs[b][0])|
      modifies this
      ensures Valid() && pins == old(pins) && |bufs| == |old(bufs)|
      ensures n <= |old(Contents(Value())[b])| && OnlyChanged(b, old(Contents(Value())[b])[n..])
      ensures PinsKept(old(Value()), Value(), old(pins))
    {
      hide HeapOk, PinsKept, Contents;
      ghost var h0 := Value();
      var id := PopFront(b);
      ghost var h1 := Value();
      assert pins - multiset{id} == h0.pins;
      var id' := SegmentSkip(id, n);
      ghost var h2 := Value();
      PushFront(b, id');
      assert pins == h0.pins;
      PinsTrans(h0, h1, h2, h0.pins);
      PinsTrans(h0, h2, Value(), h0.pins);
      DropConcat(SegBytes(h1, id), Contents(h1)[b], n);
    }

    /** Drops the last `n` bytes of the last segment. */
    method CutBack(b: nat, n: nat)
      requires Valid() && b < |bufs| && bufs[b] != []
      requires bufs[b][|bufs[b]| - 1] in segs && 0 < n < |SegBytes(Value(), bufs[b][|bufs[b]| - 1])|
      modifies this
      ensures Valid() && pins == old(pins) && |bufs| == |old(bufs)|
      ensures var s := old(Contents(Value())[b]); n <= |s| && OnlyChanged(b, s[..|s| - n])
      ensures PinsKept(old(Value()), Value(), old(pins))
    {
      hide HeapOk, PinsKept, Contents;
      ghost var h0 := Value();
      var id := PopBack(b);
      ghost var h1 := Value();
      assert pins - multiset{id} == h0.pins;
      var id' := SegmentTrim(id, n);
      ghost var h2 := Value();
      PushBack(b, id');
      assert pins == h0.pins;
      PinsTrans(h0, h1, h2, h0.pins);
      PinsTrans(h0, h2, Value(), h0.pins);
      TakeConcat(Contents(h1)[b], SegBytes(h1, id), n);
    }

    /** `Buffer::skip` without a clip: removes the first `n` bytes, or all of them if there are fewer. */
    method Skip(b: nat, n: nat)
      requires Valid() && b < |bufs| && 0 < n && lengths[b] != 0
      modifies this
      ensures Valid() && pins == old(pins) && |bufs| == |old(bufs)|
      ensures var s := old(Contents(Value())[b]); OnlyChanged(b, s[Min(n, |s|)..])
      ensures PinsKept(old(Value()), Value(), old(pins))
    {
      hide HeapOk, PinsKept, Contents;
      ghost var h0 := Value();
      ghost var all := Contents(h0)[b];
      if n == lengths[b] {
        Clear(b);
        assert all[n..] == [];
        return;
      }
      var skipped := 0;
      PinsSame(h0);
      ContentsAt(h0, b);
      assert all[0..] == all;
      while bufs[b] != [] && skipped != n
        invariant Valid() && pins == h0.pins && |bufs| == |h0.bufs| && 0 <= skipped <= n && skipped <= |all|
        invariant PinsKept(h0, Value(), h0.pins)
        invariant Contents(Value()) == Contents(h0)[b := all[skipped..]]
        decreases |all| - skipped
      {
        ghost var h := Value();
        ListedOk(h, b);
        var id := bufs[b][0];
        FirstFits(h, b);
        LiveSegment(h, id);
        if n - skipped >= segs[id].length {
          DropConcat(SegBytes(h, id), Contents(h)[b][segs[id].length..], segs[id].length);
          DropDrop(all, skipped, segs[id].length);
          skipped := skipped + segs[id].length;
          DropFront(b);
          PinsTrans(h0, h, Value(), h0.pins);
        } else {
          DropDrop(all, skipped, n - skipped);
          CutFront(b, n - skipped);
          PinsTrans(h0, h, Value(), h0.pins);
          skipped := n;
        }
      }
      if bufs[b] == [] {
        EmptyContent(Value(), b);
      }
      assert all[skipped..] == all[Min(n, |all|)..];
    }

    /** One turn of the loop of `trim`: the whole last segment, or the end of it. */
    method TrimLast(b: nat, n: nat) returns (k: nat)
      requires Valid() && b < |bufs| && 0 < n <= lengths[b]
      modifies this
      ensures Valid() && pins == old(pins) && |bufs| == |old(bufs)|
      ensures var s := old(Contents(Value())[b]); 0 < k <= n && k <= |s| && OnlyChanged(b, s[..|s| - k])
      ensures PinsKept(old(Value()), Value(), old(pins))
    {
      hide HeapOk, PinsKept, Contents;
      ghost var h := Value();
      ContentsAt(h, b);
      NotEmpty(h, b);
      ListedOk(h, b);
      var id := bufs[b][|bufs[b]| - 1];
      LastFits(h, b);
      LiveSegment(h, id);
      k := Min(n, segs[id].length);
      if n >= segs[id].length {
        DropBack(b);
        TakeConcat(Contents(Value())[b], SegBytes(h, id), 0);
      } else {
        CutBack(b, n);
      }
    }

    /** `Buffer::trim` without a clip: removes the last `n` bytes. */
    method Trim(b: nat, n: nat)
      requires Valid() && b < |bufs| && 0 < n <= lengths[b]
      modifies this
      ensures Valid() && pins == old(pins) && |bufs| == |old(bufs)|
      ensures var s := old(Contents(Value())[b]); OnlyChanged(b, s[..|s| - n])
      ensures PinsKept(old(Value()), Value(), old(pins))
    {
      hide HeapOk, PinsKept, Contents;
      ghost var h0 := Value();
      ghost var all := Contents(h0)[b];
      if n == lengths[b] {
        Clear(b);
        assert all[..0] == [];
        return;
      }
      var trimmed := 0;
      PinsSame(h0);
      ContentsAt(h0, b);
      assert all[..|all|] == all;
      while trimmed != n
        invariant Valid() && pins == h0.pins && |bufs| == |h0.bufs| && 0 <= trimmed <= n < |all|
        invariant PinsKept(h0, Value(), h0.pins)
        invariant Contents(Value()) == Contents(h0)[b := all[..|all| - trimmed]]
        decreases n - trimmed
      {
        ghost var h := Value();
        ContentsAt(h, b);
        var k := TrimLast(b, n - trimmed);
        TakeTake(all, trimmed, k);
        PinsTrans(h0, h, Value(), h0.pins);
        trimmed := trimmed + k;
      }
    }

    /** `Buffer::append` of the first `n` bytes of another buffer: share everything, then trim. */
    method AppendPrefix(b: nat, src: nat, n: nat)
      requires Valid() && b < |bufs| && src < |bufs| && b != src && 0 < n <= lengths[src]
      modifies this
      ensures Valid() && pins == old(pins) && |bufs| == |old(bufs)|
      ensures OnlyChanged(b, old(Contents(Value())[b]) + old(Contents(Value())[src])[..n])
      ensures PinsKept(old(Value()), Value(), old(pins))
    {
      hide HeapOk, PinsKept, Contents;
      ghost var h0 := Value();
      ghost var had, more := Contents(h0)[b], Contents(h0)[src];
      var extra := lengths[src] - n;
      AppendBuffer(b, src);
      ghost var h1 := Value();
      TakeConcat(had, more, extra);
      if extra != 0 {
        Trim(b, extra);
        PinsTrans(h0, h1, Value(), h0.pins);
      } else {
        assert more[..n] == more;
      }
    }

    /** `Buffer::moveout` of everything: the list changes hands, no reference count does. */
    method Moveout(b: nat, dst: nat)
      requires Valid() && b < |bufs| && dst < |bufs| && b != dst
      modifies this
      ensures Valid() && pins == old(pins) && |bufs| == |old(bufs)|
      ensures Contents(Value()) == Do(View(old(Contents(Value())), []), MoveAll(b, dst), 0).contents
      ensures PinsKept(old(Value()), Value(), old(pins))
    {
      hide Counted, Agree, PinsKept, Contents;
      ghost var h := Splice(Value(), b, dst);
      PinsFromAgree(Value(), h, pins, {});
      bufs := bufs[dst := bufs[dst] + bufs[b]][b := []];
      lengths := lengths[dst := lengths[dst] + lengths[b]][b := 0];
      assert Value() == h;
    }

    /** Appends the bytes of a new segment. */
    method AppendNew(b: nat, s: Bytes)
      requires Valid() && b < |bufs| && 0 < |s| <= SEGMENT_SIZE
      modifies this
      ensures Valid() && pins == old(pins) && |bufs| == |old(bufs)|
      ensures OnlyChanged(b, old(Contents(Value())[b]) + s)
      ensures PinsKept(old(Value()), Value(), old(pins))
    {
      hide HeapOk, PinsKept, Contents;
      ghost var h0 := Value();
      var id := New(s);
      ghost var h1 := Value();
      PushBack(b, id);
      assert pins == h0.pins;
      PinsTrans(h0, h1, Value(), h0.pins);
    }

    /** Appends to the last segment, which has room. */
    method AppendLast(b: nat, s: Bytes)
      requires Valid() && b < |bufs| && bufs[b] != [] && bufs[b][|bufs[b]| - 1] in segs
      requires 0 < |s| <= SEGMENT_SIZE - |SegBytes(Value(), bufs[b][|bufs[b]| - 1])|
      modifies this
      ensures Valid() && pins == old(pins) && |bufs| == |old(bufs)|
      ensures OnlyChanged(b, old(Contents(Value())[b]) + s)
      ensures PinsKept(old(Value()), Value(), old(pins))
    {
      hide HeapOk, PinsKept, Contents;
      ghost var h0 := Value();
      var id := PopBack(b);
      ghost var h1 := Value();
      assert pins - multiset{id} == h0.pins;
      var id' := SegmentAppend(id, s);
      ghost var h2 := Value();
      PushBack(b, id');
      assert pins == h0.pins;
      PinsTrans(h0, h1, h2, h0.pins);
      PinsTrans(h0, h2, Value(), h0.pins);
      Assoc(Contents(h1)[b], SegBytes(h1, id), s);
    }

    /** `Buffer::append` of bytes: into the last segment if it is not shared and has room, else in new ones. */
    method AppendBytes(b: nat, s: Bytes)
      requires Valid() && b < |bufs| && s != []
      modifies this
      ensures Valid() && pins == old(pins) && |bufs| == |old(bufs)|
      ensures OnlyChanged(b, old(Contents(Value())[b]) + s)
      ensures PinsKept(old(Value()), Value(), old(pins))
    {
      hide HeapOk, PinsKept, Contents;
      ghost var h0 := Value();
      if |s| < SEGMENT_SIZE && bufs[b] != [] {
        ListedOk(h0, b);
        var id := bufs[b][|bufs[b]| - 1];
        if segs[id].refs == 1 && SEGMENT_SIZE - segs[id].length >= |s| {
          AppendLast(b, s);
          return;
        }
      }
      PinsSame(h0);
      ContentsAt(h0, b);
      ghost var had := Contents(h0)[b];
      var done := 0;
      assert had + s[..0] == had;
      while done < |s|
        invariant Valid() && pins == h0.pins && |bufs| == |h0.bufs| && 0 <= done <= |s|
        invariant PinsKept(h0, Value(), h0.pins)
        invariant Contents(Value()) == Contents(h0)[b := had + s[..done]]
      {
        ghost var h := Value();
        var n := Min(|s| - done, SEGMENT_SIZE);
        AppendNew(b, s[done..done + n]);
        Assoc(had, s[..done], s[done..done + n]);
        assert s[..done] + s[done..done + n] == s[..done + n];
        PinsTrans(h0, h, Value(), h0.pins);
        done := done + n;
      }
      assert s[..done] == s;
    }

    /** Moves the first segment of `b` to the end of `clip`, as `skip` with a clip does. */
    method ShiftSegment(b: nat, clip: nat)
      requires Valid() && b < |bufs| && clip < |bufs| && b != clip && bufs[b] != []
      modifies this
      ensures Valid() && pins == old(pins) && |bufs| == |old(bufs)| && old(bufs[b][0] in segs)
      ensures var c, s := old(Contents(Value())), old(SegBytes(Value(), bufs[b][0]));
              |s| <= |c[b]| && Contents(Value()) == c[b := c[b][|s|..]][clip := c[clip] + s]
      ensures PinsKept(old(Value()), Value(), old(pins))
    {
      hide HeapOk, PinsKept, Contents;
      ghost var h0 := Value();
      var id := PopFront(b);
      ghost var h1 := Value();
      DropConcat(SegBytes(h1, id), Contents(h1)[b], |SegBytes(h1, id)|);
      AppendSegment(clip, id);
      ghost var h2 := Value();
      PinsSteady(h1, h2);
      Unref(id);
      assert pins == h0.pins;
      PinsFewer(h1, h2, h1.pins, h0.pins);
      PinsTrans(h0, h1, h2, h0.pins);
      PinsTrans(h0, h2, Value(), h0.pins);
    }

    /** `Buffer::skip` with a clip, which is also `Buffer::moveout` of a prefix. */
    method SkipInto(b: nat, n: nat, clip: nat)
      requires Valid() && b < |bufs| && clip < |bufs| && b != clip && 0 < n && lengths[b] != 0
      modifies this
      ensures Valid() && pins == old(pins) && |bufs| == |old(bufs)|
      ensures Contents(Value()) == Do(View(old(Contents(Value())), []), MoveBytes(b, n, clip), 0).contents
      ensures PinsKept(old(Value()), Value(), old(pins))
    {
      hide HeapOk, PinsKept, Contents;
      ghost var h0 := Value();
      ghost var c, all, had := Contents(h0), Contents(h0)[b], Contents(h0)[clip];
      if n == lengths[b] {
        Moveout(b, clip);
        assert all[n..] == [] && all[..n] == all;
        return;
      }
      var skipped := 0;
      PinsSame(h0);
      assert all[0..] == all && had + all[..0] == had;
      assert c == c[b := all][clip := had];
      while bufs[b] != [] && skipped != n
        invariant Valid() && pins == h0.pins && |bufs| == |h0.bufs| && 0 <= skipped <= n && skipped <= |all|
        invariant PinsKept(h0, Value(), h0.pins)
        invariant Contents(Value()) == c[b := all[skipped..]][clip := had + all[..skipped]]
        decreases |all| - skipped
      {
        ghost var h := Value();
        ListedOk(h, b);
        var id := bufs[b][0];
        FirstFits(h, b);
        LiveSegment(h, id);
        var len := segs[id].length;
        if n - skipped >= len {
          PieceOf(all, had, skipped, len, SegBytes(h, id), Contents(h)[b][len..]);
          ShiftSegment(b, clip);
          PinsTrans(h0, h, Value(), h0.pins);
          skipped := skipped + len;
        } else {
          PartOf(all, had, skipped, n - skipped, SegBytes(h, id), Contents(h)[b][len..]);
          ShiftPart(b, clip, n - skipped);
          PinsTrans(h0, h, Value(), h0.pins);
          skipped := n;
        }
      }
      if bufs[b] == [] {
        EmptyContent(Value(), b);
      }
      assert skipped == Min(n, |all|);
    }

    /** Copies the first `n` bytes of the first segment to `clip`, then drops them. */
    method ShiftPart(b: nat, clip: nat, n: nat)
      requires Valid() && b < |bufs| && clip < |bufs| && b != clip && bufs[b] != []
      requires bufs[b][0] in segs && 0 < n < |SegBytes(Value(), bufs[b][0])|
      modifies this
      ensures Valid() && pins == old(pins) && |bufs| == |old(bufs)|
      ensures var c, s := old(Contents(Value())), old(SegBytes(Value(), bufs[b][0]));
              n <= |c[b]| && Contents(Value()) == c[b := c[b][n..]][clip := c[clip] + s[..n]]
      ensures PinsKept(old(Value()), Value(), old(pins))
    {
      hide HeapOk, PinsKept, Contents;
      ghost var h0 := Value();
      LiveSegment(h0, bufs[b][0]);
      var part := BytesOf(segs[bufs[b][0]])[..n];
      CutFront(b, n);
      ghost var h1 := Value();
      AppendBytes(clip, part);
      PinsTrans(h0, h1, Value(), h0.pins);
    }

    /**
      `Buffer::copyout` of a segment: shares the first segment if it has the right length, else
      makes a new one from the front of the buffer.
    */
    method CopyoutSegment(b: nat, n: nat) returns (id: nat)
      requires Valid() && b < |bufs| && 0 < n <= SEGMENT_SIZE && n <= lengths[b]
      modifies this
      ensures Valid() && pins == old(pins) + multiset{id} && bufs == old(bufs) && id in segs
      ensures Contents(Value()) == old(Contents(Value()))
      ensures SegBytes(Value(), id) == old(Contents(Value())[b])[..n]
      ensures PinsKept(old(Value()), Value(), old(pins))
    {
      hide HeapOk, PinsKept, Contents;
      ghost var h0 := Value();
      NotEmpty(h0, b);
      ListedOk(h0, b);
      FirstFits(h0, b);
      ContentsAt(h0, b);
      var src := bufs[b][0];
      if segs[src].length == n {
        id := src;
        Ref(id);
        AgreeOn(h0, Value(), id);
        PinsFromAgreeMore(h0, Value(), h0.pins);
        TakeConcat(SegBytes(h0, src), Contents(h0)[b][n..], 0);
        return;
      }
      var all := Copyout(bufs[b], 0, n);
      id := New(all);
    }

    /** `Buffer::copyout` of the first segment, which is shared from now on. */
    method CopyoutFirst(b: nat) returns (id: nat)
      requires Valid() && b < |bufs| && lengths[b] > 0
      modifies this
      ensures Valid() && pins == old(pins) + multiset{id} && bufs == old(bufs) && id in segs
      ensures Contents(Value()) == old(Contents(Value()))
      ensures SegBytes(Value(), id) <= old(Contents(Value())[b])
      ensures PinsKept(old(Value()), Value(), old(pins))
    {
      hide HeapOk, PinsKept, Contents;
      ghost var h0 := Value();
      NotEmpty(h0, b);
      FirstFits(h0, b);
      id := bufs[b][0];
      Ref(id);
      AgreeOn(h0, Value(), id);
      PinsFromAgreeMore(h0, Value(), h0.pins);
    }

    /** `Buffer::pop`: takes one byte off the front. */
    method PopByte(b: nat) returns (ch: byte)
      requires Valid() && b < |bufs| && lengths[b] > 0
      modifies this
      ensures Valid() && pins == old(pins) && |bufs| == |old(bufs)|
      ensures old(Contents(Value())[b]) != [] && ch == old(Contents(Value())[b])[0]
      ensures OnlyChanged(b, old(Contents(Value())[b])[1..])
      ensures PinsKept(old(Value()), Value(), old(pins))
    {
      hide HeapOk, PinsKept, Contents;
      ghost var h0 := Value();
      NotEmpty(h0, b);
      FirstFits(h0, b);
      LiveSegment(h0, bufs[b][0]);
      var seg := segs[bufs[b][0]];
      ch := seg.store[seg.offset];
      assert ch == SegBytes(h0, bufs[b][0])[0];
      if seg.length == 1 {
        DropFront(b);
      } else {
        CutFront(b, 1);
      }
    }

    /** `Buffer::copyout` of bytes: gathers `n` bytes from `offset` on, segment by segment. */
    method Copyout(list: seq<nat>, offset: nat, n: nat) returns (dst: Bytes)
      requires forall i :: 0 <= i < |list| ==> list[i] in segs && SegmentOk(segs[list[i]])
      requires offset + n <= |Flat(segs, list)|
      ensures dst == Flat(segs, list)[offset..offset + n]
    {
      hide BytesOf, Flat;
      dst := [];
      var off: nat, left: nat, i: nat := offset, n, 0;
      assert list[0..] == list;
      ghost var want := Flat(segs, list)[offset..offset + n];
      while i < |list| && left != 0
        invariant i <= |list|
        invariant off + left <= |Flat(segs, list[i..])|
        invariant dst + Flat(segs, list[i..])[off..off + left] == want
      {
        FlatHead(segs, list, i);
        var s := BytesOf(segs[list[i]]);
        CopyStep(dst, s, Flat(segs, list[i + 1..]), off, left);
        if off >= |s| {
          off := off - |s|;
        } else {
          var k := Min(left, |s| - off);
          dst := dst + s[off..off + k];
          left := left - k;
          off := 0;
        }
        i := i + 1;
      }
      FlatNone(segs);
      assert i == |list| ==> list[i..] == [];
      assert dst == want;
    }

    // --- Any program --------------------------------------------------------------------------------------

    /** What the user of these buffers sees: the bytes of every buffer and of every held segment. */
    ghost predicate Shows(v: View, holds: seq<nat>)
      reads this
    {
      Valid() && ShowsIn(Value(), v, holds)
    }

    /** Whether the assertions of the source let an operation through. */
    method Permits(op: Op, holds: seq<nat>, ghost v: View) returns (ok: bool)
      requires Shows(v, holds)
      ensures ok == Allowed(v, op)
    {
      hide HeapOk, Contents;
      assert |v.contents| == |bufs|;
      assert forall b :: 0 <= b < |bufs| ==> |v.contents[b]| == lengths[b];
      match op
      case AppendData(b, s) => ok := b < |bufs| && s != [];
      case AppendAll(b, src) => ok := b < |bufs| && src < |bufs| && b != src;
      case AppendFirst(b, src, n) => ok := b < |bufs| && src < |bufs| && b != src && 0 < n <= lengths[src];
      case SkipBytes(b, n) => ok := b < |bufs| && 0 < n && lengths[b] != 0;
      case MoveBytes(b, n, dst) => ok := b < |bufs| && dst < |bufs| && b != dst && 0 < n && lengths[b] != 0;
      case TrimBytes(b, n) => ok := b < |bufs| && 0 < n <= lengths[b];
      case Empty(b) => ok := b < |bufs|;
      case MoveAll(b, dst) => ok := b < |bufs| && dst < |bufs| && b != dst;
      case Pop(b) => ok := b < |bufs| && lengths[b] != 0;
      case Hold(b, n) => ok := b < |bufs| && 0 < n <= SEGMENT_SIZE && n <= lengths[b];
      case HoldSegment(b) => ok := b < |bufs| && lengths[b] != 0;
      case MoveSegment(b) => ok := b < |bufs| && lengths[b] != 0;
      case AppendHeld(b, i) => ok := b < |bufs| && i < |holds|;
      case Release(i) => ok := i < |holds|;
    }

    /** One operation on buffers. */
    method Execute(op: Op, holds: seq<nat>, ghost v: View) returns (holds': seq<nat>, out: nat)
      requires Shows(v, holds) && Allowed(v, op)
      modifies this
      ensures Outcome(v, op, out) && Shows(Do(v, op, out), holds')
    {
      if op.Hold? || op.HoldSegment? || op.MoveSegment? || op.Release? {
        holds', out := ExecuteHeld(op, holds, v);
      } else {
        out := ExecuteOnBuffers(op, holds, v);
        holds' := holds;
      }
    }

    /** Operations that only change buffers. */
    method ExecuteOnBuffers(op: Op, holds: seq<nat>, ghost v: View) returns (out: nat)
      requires Shows(v, holds) && Allowed(v, op)
      requires !op.Hold? && !op.HoldSegment? && !op.MoveSegment? && !op.Release?
      modifies this
      ensures Outcome(v, op, out) && Shows(Do(v, op, out), holds)
    {
      hide HeapOk, Contents, PinsKept;
      ghost var h0 := Value();
      out := 0;
      if op.AppendData? {
        AppendBytes(op.b, op.s);
      } else if op.AppendAll? {
        AppendBuffer(op.b, op.src);
      } else if op.AppendFirst? {
        AppendPrefix(op.b, op.src, op.n);
      } else if op.SkipBytes? {
        Skip(op.b, op.n);
      } else if op.MoveBytes? {
        SkipInto(op.b, op.n, op.dst);
      } else if op.TrimBytes? {
        Trim(op.b, op.n);
      } else if op.Empty? {
        Clear(op.b);
      } else if op.MoveAll? {
        Moveout(op.b, op.dst);
      } else if op.Pop? {
        out := PopByte(op.b);
      } else {
        AppendSegment(op.b, holds[op.i]);
        PinsSteady(h0, Value());
      }
      HeldSame(h0, Value(), v, holds, Do(v, op, out).contents);
    }

    /** Takes a reference to a segment, in one of three ways. */
    method Acquire(op: Op, ghost v: View) returns (id: nat, out: nat)
      requires Valid() && v.contents == Contents(Value()) && Allowed(v, op)
      requires op.Hold? || op.HoldSegment? || op.MoveSegment?
      modifies this
      ensures Valid() && pins == old(pins) + multiset{id} && id in segs && Outcome(v, op, out)
      ensures Do(v, op, out) == View(Contents(Value()), v.held + [SegBytes(Value(), id)])
      ensures PinsKept(old(Value()), Value(), old(pins))
    {
      hide HeapOk, Contents, PinsKept;
      out := 0;
      if op.Hold? {
        id := CopyoutSegment(op.b, op.n);
        return;
      }
      ghost var all := v.contents[op.b];
      if op.HoldSegment? {
        id := CopyoutFirst(op.b);
      } else {
        NotEmpty(Value(), op.b);
        id := PopFront(op.b);
        assert all == SegBytes(Value(), id) + Contents(Value())[op.b];
      }
      SegmentLength(Value(), id);
      out := segs[id].length;
      assert all[..out] == SegBytes(Value(), id);
    }

    /** Operations that change what is held outside buffers. */
    method ExecuteHeld(op: Op, holds: seq<nat>, ghost v: View) returns (holds': seq<nat>, out: nat)
      requires Shows(v, holds) && Allowed(v, op)
      requires op.Hold? || op.HoldSegment? || op.MoveSegment? || op.Release?
      modifies this
      ensures Outcome(v, op, out) && Shows(Do(v, op, out), holds')
    {
      hide HeapOk, Contents, PinsKept;
      ghost var h0 := Value();
      out := 0;
      if op.Release? {
        ReleaseHeld(pins, holds, op.i);
        Unref(holds[op.i]);
        holds' := holds[..op.i] + holds[op.i + 1..];
        HeldLess(h0, Value(), v, holds, op.i);
      } else {
        var id;
        id, out := Acquire(op, v);
        holds' := holds + [id];
        HeldMore(h0, Value(), v, holds, id, Contents(Value()));
      }
    }

    /**
      Any run of operations on any number of buffers that share segments: every buffer and every
      held segment reads as if each had always had its own bytes. What a caller does next may depend
      on what was reported before; the run stops where an assertion of the source would fail.
    */
    method ExecuteAll(ops: seq<Op>, holds: seq<nat>, ghost v: View) returns (holds': seq<nat>, outs: seq<nat>)
      requires Shows(v, holds)
      modifies this
      ensures |outs| <= |ops| && AllAllowed(v, ops[..|outs|], outs)
      ensures Shows(DoAll(v, ops[..|outs|], outs), holds')
      ensures |outs| < |ops| ==> !Allowed(DoAll(v, ops[..|outs|], outs), ops[|outs|])
    {
      hide Allowed, Outcome, Do, AllAllowed, DoAll, BufferHeap.Shows;
      holds', outs := holds, [];
      ghost var now := v;
      DoNothing(v);
      assert ops[..0] == [];
      while |outs| < |ops|
        invariant |outs| <= |ops|
        invariant AllAllowed(v, ops[..|outs|], outs) && now == DoAll(v, ops[..|outs|], outs) && Shows(now, holds')
      {
        var op, out := ops[|outs|], 0;
        var ok := Permits(op, holds', now);
        if !ok {
          return;
        }
        holds', out := Execute(op, holds', now);
        DoOneMore(v, ops[..|outs|], outs, op, out);
        assert ops[..|outs| + 1] == ops[..|outs|] + [op];
        now := Do(now, op, out);
        outs := outs + [out];
      }
    }
  }

  ghost predicate ShowsIn(h: Heap, v: View, holds: seq<nat>) {
    && HeapOk(h)
    && h.pins == multiset(holds)
    && v.contents == Contents(h)
    && |v.held| == |holds|
    && forall i :: 0 <= i < |holds| ==> holds[i] in h.segs && v.held[i] == SegBytes(h, holds[i])
  }

  /** Segments that are still held show the same bytes. */
  lemma {:induction false} HeldSame(h: Heap, h': Heap, v: View, holds: seq<nat>, contents: seq<Bytes>)
    requires ShowsIn(h, v, holds) && HeapOk(h') && h'.pins == h.pins
    requires PinsKept(h, h', h.pins) && contents == Contents(h')
    ensures ShowsIn(h', v.(contents := contents), holds)
  {
    hide HeapOk, Contents;
    assert forall i :: 0 <= i < |holds| ==> holds[i] in multiset(holds);
  }

  lemma {:induction false} SegmentLength(h: Heap, id: nat)
    requires HeapOk(h) && id in h.segs
    ensures |SegBytes(h, id)| == h.segs[id].length
  {
  }

  lemma {:induction false} HeldMore(h: Heap, h': Heap, v: View, holds: seq<nat>, id: nat, contents: seq<Bytes>)
    requires ShowsIn(h, v, holds) && HeapOk(h') && h'.pins == h.pins + multiset{id}
    requires PinsKept(h, h', h.pins) && contents == Contents(h') && id in h'.segs
    ensures ShowsIn(h', View(contents, v.held + [SegBytes(h', id)]), holds + [id])
  {
    hide HeapOk, Contents;
    assert forall i :: 0 <= i < |holds| ==> holds[i] in multiset(holds);
  }

  lemma {:induction false} ReleaseHeld(pins: multiset<nat>, holds: seq<nat>, i: nat)
    requires pins == multiset(holds) && i < |holds|
    ensures holds[i] in pins && pins - multiset{holds[i]} == multiset(holds[..i] + holds[i + 1..])
  {
    assert holds == holds[..i] + [holds[i]] + holds[i + 1..];
  }

  lemma {:induction false} HeldLess(h: Heap, h': Heap, v: View, holds: seq<nat>, i: nat)
    requires ShowsIn(h, v, holds) && i < |holds| && HeapOk(h') && Contents(h') == v.contents
    requires h'.pins == multiset(holds[..i] + holds[i + 1..]) && PinsKept(h, h', h'.pins)
    ensures ShowsIn(h', v.(held := v.held[..i] + v.held[i + 1..]), holds[..i] + holds[i + 1..])
  {
    hide HeapOk, Contents, PinsKept;
    var left, held := holds[..i] + holds[i + 1..], v.held[..i] + v.held[i + 1..];
    forall k | 0 <= k < |left|
      ensures left[k] in h'.segs && held[k] == SegBytes(h', left[k])
    {
      var j := if k < i then k else k + 1;
      assert left[k] == holds[j] && held[k] == v.held[j];
      assert left[k] in multiset(left);
      PinnedBytes(h, h', h'.pins, left[k]);
    }
  }

  /** `BufferSegment::pullup`. */
  function Pulled(s: Segment): (r: Segment)
    requires SegmentOk(s)
    ensures SegmentOk(r) && BytesOf(r) == BytesOf(s) && r.offset == 0 && r.refs == s.refs && r.length == s.length
  {
    s.(store := BytesOf(s) + s.store[s.length..], offset := 0)
  }

  lemma {:induction false} PinnedBytes(h: Heap, h': Heap, pins: multiset<nat>, id: nat)
    requires HeapOk(h) && HeapOk(h') && PinsKept(h, h', pins) && id in pins
    ensures id in h.segs && id in h'.segs && SegBytes(h', id) == SegBytes(h, id)
  {
    hide HeapOk;
  }

  lemma {:induction false} DropConcat(a: Bytes, b: Bytes, n: nat)
    requires n <= |a|
    ensures (a + b)[n..] == a[n..] + b && (a + b)[|a|..] == b
  {
  }

  lemma {:induction false} TakeConcat(a: Bytes, b: Bytes, n: nat)
    requires n <= |b|
    ensures (a + b)[..|a| + |b| - n] == a + b[..|b| - n] && (a + b)[..|a|] == a
  {
  }

  lemma {:induction false} DropDrop(s: Bytes, m: nat, n: nat)
    requires m + n <= |s|
    ensures s[m..][n..] == s[m + n..]
  {
  }

  lemma {:induction false} TakeTake(s: Bytes, m: nat, n: nat)
    requires m + n <= |s|
    ensures s[..|s| - m][..|s| - m - n] == s[..|s| - (m + n)]
  {
  }

  /** The last segment of a list is where its contents end. */
  lemma {:induction false} LastFits(h: Heap, b: nat)
    requires HeapOk(h) && b < |h.bufs| && h.bufs[b] != []
    ensures var id := h.bufs[b][|h.bufs[b]| - 1];
            && id in h.segs && |SegBytes(h, id)| == h.segs[id].length
            && h.segs[id].length <= |Contents(h)[b]|
  {
    hide HeapOk;
    ListedOk(h, b);
    var list := h.bufs[b];
    var n := |list| - 1;
    assert list == list[..n] + [list[n]];
    FlatConcat(h.segs, list[..n], [list[n]]);
    FlatOne(h.segs, list[n]);
  }

  /** A whole piece `s` at the front of what is left moves over. */
  lemma {:induction false} PieceOf(all: Bytes, had: Bytes, k: nat, n: nat, s: Bytes, rest: Bytes)
    requires k <= |all| && all[k..] == s + rest && n == |s|
    ensures k + n <= |all| && all[k..][n..] == all[k + n..] && had + all[..k] + s == had + all[..k + n]
  {
    assert all[k..k + n] == all[k..][..n] == s;
    assert all[..k] + all[k..k + n] == all[..k + n];
  }

  lemma {:induction false} PartOf(all: Bytes, had: Bytes, k: nat, n: nat, s: Bytes, rest: Bytes)
    requires k <= |all| && all[k..] == s + rest && n <= |s|
    ensures k + n <= |all| && all[k..][n..] == all[k + n..] && had + all[..k] + s[..n] == had + all[..k + n]
  {
    assert all[k..k + n] == all[k..][..n] == s[..n];
    assert all[..k] + all[k..k + n] == all[..k + n];
  }

  lemma {:induction false} PinsFromAgreeMore(h: Heap, h': Heap, pins: multiset<nat>)
    requires HeapOk(h) && HeapOk(h') && Agree(h, h', {}) && pins <= h.pins && pins <= h'.pins
    ensures PinsKept(h, h', pins)
  {
    hide HeapOk, Agree;
    PinsFromAgree(h, h', pins, {});
  }

  lemma {:induction false} NotEmpty(h: Heap, b: nat)
    requires HeapOk(h) && b < |h.bufs| && Contents(h)[b] != []
    ensures h.bufs[b] != []
  {
  }

  /** The first segment of a list is where its contents start. */
  lemma {:induction false} FirstFits(h: Heap, b: nat)
    requires HeapOk(h) && b < |h.bufs| && h.bufs[b] != []
    ensures var id := h.bufs[b][0];
            && id in h.segs && |SegBytes(h, id)| == h.segs[id].length
            && h.segs[id].length <= |Contents(h)[b]|
            && Contents(h)[b] == SegBytes(h, id) + Contents(h)[b][h.segs[id].length..]
  {
    hide HeapOk;
    ListedOk(h, b);
  }

  lemma {:induction false} CopyStep(dst: Bytes, s: Bytes, rest: Bytes, off: nat, left: nat)
    requires off + left <= |s| + |rest|
    ensures off >= |s| ==> (s + rest)[off..off + left] == rest[off - |s|..off - |s| + left]
    ensures off < |s| ==>
              var k := Min(left, |s| - off);
              dst + (s + rest)[off..off + left] == dst + s[off..off + k] + rest[0..left - k]
  {
    if off < |s| {
      var k := Min(left, |s| - off);
      assert (s + rest)[off..off + left] == s[off..off + k] + rest[0..left - k];
    }
  }

  lemma {:induction false} Assoc(a: Bytes, b: Bytes, c: Bytes)
    ensures a + b + c == a + (b + c)
  {
  }

  lemma {:induction false} FlatNone(segs: map<nat, Segment>)
    ensures Flat(segs, []) == []
  {
  }

  lemma {:induction false} FlatHead(segs: map<nat, Segment>, list: seq<nat>, i: nat)
    requires forall i :: 0 <= i < |list| ==> list[i] in segs && SegmentOk(segs[list[i]])
    requires i < |list|
    ensures Flat(segs, list[i..]) == BytesOf(segs[list[i]]) + Flat(segs, list[i + 1..])
  {
    assert list[i..][1..] == list[i + 1..];
  }

  lemma {:induction false} AgreeOn(h: Heap, h': Heap, id: nat)
    requires HeapOk(h) && HeapOk(h') && Agree(h, h', {}) && id in h.segs && h'.segs.Keys == h.segs.Keys
    ensures id in h'.segs && SegBytes(h', id) == SegBytes(h, id)
  {
    hide HeapOk;
    assert id in h'.segs.Keys;
  }

  lemma {:induction false} AgreeTrans(h: Heap, h1: Heap, h2: Heap)
    requires HeapOk(h) && HeapOk(h1) && HeapOk(h2) && Agree(h, h1, {}) && Agree(h1, h2, {})
    requires h1.segs.Keys == h.segs.Keys
    ensures Agree(h, h2, {})
  {
    hide HeapOk;
    assert forall id :: id in h.segs ==> id in h1.segs.Keys;
  }

  lemma {:induction false} PinsSteady(h: Heap, h': Heap)
    requires HeapOk(h) && HeapOk(h') && Agree(h, h', {}) && h'.pins == h.pins
    ensures PinsKept(h, h', h.pins)
  {
    hide HeapOk, Agree;
    PinsFromAgree(h, h', h.pins, {});
  }

  lemma {:induction false} PinsSame(h: Heap)
    requires HeapOk(h)
    ensures PinsKept(h, h, h.pins)
  {
  }

  lemma {:induction false} ContentsAt(h: Heap, b: nat)
    requires HeapOk(h) && b < |h.bufs|
    ensures Contents(h)[b] == Content(h, b)
    ensures Contents(h)[b := Contents(h)[b]] == Contents(h)
  {
  }

  lemma {:induction false} EmptyContent(h: Heap, b: nat)
    requires HeapOk(h) && b < |h.bufs| && h.bufs[b] == []
    ensures Contents(h)[b] == []
  {
  }

  lemma {:induction false} AllEmpty(bufs: seq<seq<nat>>)
    requires forall b :: 0 <= b < |bufs| ==> bufs[b] == []
    ensures HeapOk(Heap(map[], bufs, multiset{}))
    ensures Contents(Heap(map[], bufs, multiset{})) == seq(|bufs|, _ => [])
  {
    NothingListed(bufs);
  }

  lemma {:induction false} NothingListed(bufs: seq<seq<nat>>)
    requires forall b :: 0 <= b < |bufs| ==> bufs[b] == []
    ensures Listed(bufs) == multiset{}
  {
    if bufs != [] {
      NothingListed(bufs[1..]);
    }
  }
}
