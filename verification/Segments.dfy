/** Reference-counted segments shared by buffers: the state, its invariant and its elementary moves. */
module Segments {
  import opened Bytes

  /** `BUFFER_SEGMENT_SIZE`. */
  const SEGMENT_SIZE: nat := 2048

  /** A `BufferSegment`: raw storage, the part of it in use, and the reference count. */
  datatype Segment = Segment(store: Bytes, offset: nat, length: nat, refs: nat)

  predicate SegmentOk(s: Segment) {
    && |s.store| == SEGMENT_SIZE
    && s.offset + s.length <= SEGMENT_SIZE
    && s.length > 0
    && s.refs > 0
  }

  function BytesOf(s: Segment): (r: Bytes)
    requires SegmentOk(s)
    ensures |r| == s.length
  {
    s.store[s.offset..s.offset + s.length]
  }

  /**
    All live segments, the segment lists of all buffers, and the references held by anything
    else: caches, windows and local pointers.
  */
  datatype Heap = Heap(segs: map<nat, Segment>, bufs: seq<seq<nat>>, pins: multiset<nat>)

  /** How often each segment occurs in the lists of all buffers. */
  function Listed(bufs: seq<seq<nat>>): multiset<nat> {
    if bufs == [] then multiset{} else multiset(bufs[0]) + Listed(bufs[1..])
  }

  /** Counts are exact, and exactly the segments that somebody holds are alive. */
  ghost predicate Counted(segs: map<nat, Segment>, listed: multiset<nat>, pins: multiset<nat>) {
    && (forall id :: id in segs ==> SegmentOk(segs[id]) && segs[id].refs == listed[id] + pins[id])
    && (forall id :: id in pins ==> id in segs)
    && (forall id :: id in listed ==> id in segs)
  }

  ghost predicate HeapOk(h: Heap) {
    Counted(h.segs, Listed(h.bufs), h.pins)
  }

  /** The bytes that a segment list stands for. */
  function Flat(segs: map<nat, Segment>, list: seq<nat>): Bytes
    requires forall i :: 0 <= i < |list| ==> list[i] in segs && SegmentOk(segs[list[i]])
  {
    if list == [] then [] else BytesOf(segs[list[0]]) + Flat(segs, list[1..])
  }

  lemma {:induction false} ListedMember(bufs: seq<seq<nat>>, b: nat, id: nat)
    requires b < |bufs|
    ensures multiset(bufs[b])[id] <= Listed(bufs)[id]
    ensures id in bufs[b] ==> id in Listed(bufs)
  {
    if b > 0 {
      ListedMember(bufs[1..], b - 1, id);
    }
  }

  lemma {:induction false} ListedOk(h: Heap, b: nat)
    requires HeapOk(h) && b < |h.bufs|
    ensures forall i :: 0 <= i < |h.bufs[b]| ==> h.bufs[b][i] in h.segs && SegmentOk(h.segs[h.bufs[b][i]])
  {
    forall i | 0 <= i < |h.bufs[b]|
      ensures h.bufs[b][i] in h.segs && SegmentOk(h.segs[h.bufs[b][i]])
    {
      ListedMember(h.bufs, b, h.bufs[b][i]);
    }
  }

  /** What one buffer holds. */
  function Content(h: Heap, b: nat): Bytes
    requires HeapOk(h) && b < |h.bufs|
  {
    ListedOk(h, b);
    Flat(h.segs, h.bufs[b])
  }

  /** What every buffer holds: the state of the program as its users see it. */
  function Contents(h: Heap): (r: seq<Bytes>)
    requires HeapOk(h)
    ensures |r| == |h.bufs|
  {
    seq(|h.bufs|, b requires 0 <= b < |h.bufs| => Content(h, b))
  }

  lemma {:induction false} ListedUpdate(bufs: seq<seq<nat>>, b: nat, list: seq<nat>)
    requires b < |bufs|
    ensures Listed(bufs[b := list]) + multiset(bufs[b]) == Listed(bufs) + multiset(list)
  {
    var bufs' := bufs[b := list];
    if b == 0 {
      assert bufs'[1..] == bufs[1..];
    } else {
      var rest := bufs[1..];
      assert bufs'[1..] == rest[b - 1 := list] && bufs'[0] == bufs[0] && rest[b - 1] == bufs[b];
      ListedUpdate(rest, b - 1, list);
      calc {
        Listed(bufs') + multiset(bufs[b]);
        multiset(bufs[0]) + (Listed(rest[b - 1 := list]) + multiset(rest[b - 1]));
        multiset(bufs[0]) + (Listed(rest) + multiset(list));
        Listed(bufs) + multiset(list);
      }
    }
  }

  /** A segment list reads the same in any heap that has the same bytes for its segments. */
  lemma {:induction false} FlatSame(segs: map<nat, Segment>, segs': map<nat, Segment>, list: seq<nat>)
    requires forall i :: 0 <= i < |list| ==> list[i] in segs && SegmentOk(segs[list[i]])
    requires forall i :: 0 <= i < |list| ==>
               list[i] in segs' && SegmentOk(segs'[list[i]]) && BytesOf(segs'[list[i]]) == BytesOf(segs[list[i]])
    ensures Flat(segs', list) == Flat(segs, list)
  {
    if list != [] {
      FlatSame(segs, segs', list[1..]);
    }
  }

  lemma {:induction false} FlatOne(segs: map<nat, Segment>, id: nat)
    requires id in segs && SegmentOk(segs[id])
    ensures Flat(segs, [id]) == BytesOf(segs[id])
  {
    assert [id][1..] == [];
  }

  lemma {:induction false} FlatConcat(segs: map<nat, Segment>, a: seq<nat>, b: seq<nat>)
    requires forall i :: 0 <= i < |a| ==> a[i] in segs && SegmentOk(segs[a[i]])
    requires forall i :: 0 <= i < |b| ==> b[i] in segs && SegmentOk(segs[b[i]])
    ensures Flat(segs, a + b) == Flat(segs, a) + Flat(segs, b)
  {
    if a == [] {
      assert [] + b == b;
    } else {
      assert (a + b)[0] == a[0] && (a + b)[1..] == a[1..] + b;
      FlatConcat(segs, a[1..], b);
    }
  }

  // --- Elementary moves -----------------------------------------------------------------------------------

  /** The bytes of a segment that somebody holds. */
  function SegBytes(h: Heap, id: nat): (s: Bytes)
    requires HeapOk(h) && id in h.segs
    ensures 0 < |s| <= SEGMENT_SIZE
  {
    BytesOf(h.segs[id])
  }

  /** Every segment in both heaps, except `skip`, has the same bytes in both. */
  ghost predicate Agree(h: Heap, h': Heap, skip: set<nat>)
    requires HeapOk(h) && HeapOk(h')
  {
    forall id :: id in h.segs && id in h'.segs && id !in skip ==> SegBytes(h', id) == SegBytes(h, id)
  }

  /** Buffers whose lists did not change and whose segments did not change hold what they held. */
  lemma {:induction false} ContentSame(h: Heap, h': Heap, b: nat, skip: set<nat>)
    requires HeapOk(h) && HeapOk(h') && Agree(h, h', skip)
    requires b < |h.bufs| && b < |h'.bufs| && h'.bufs[b] == h.bufs[b]
    requires forall id :: id in skip ==> id !in h.bufs[b]
    ensures Content(h', b) == Content(h, b)
  {
    ListedOk(h, b);
    ListedOk(h', b);
    FlatSame(h.segs, h'.segs, h.bufs[b]);
  }

  lemma {:induction false} ContentsSame(h: Heap, h': Heap, skip: set<nat>)
    requires HeapOk(h) && HeapOk(h') && Agree(h, h', skip) && h'.bufs == h.bufs
    requires forall b, id :: 0 <= b < |h.bufs| && id in skip ==> id !in h.bufs[b]
    ensures Contents(h') == Contents(h)
  {
    hide HeapOk, Agree;
    forall b | 0 <= b < |h.bufs|
      ensures Content(h', b) == Content(h, b)
    {
      ContentSame(h, h', b, skip);
    }
  }

  /** One list changes, no segment does. */
  lemma {:induction false} ContentsUpdate(h: Heap, h': Heap, b: nat, list: seq<nat>)
    requires HeapOk(h) && HeapOk(h') && Agree(h, h', {})
    requires b < |h.bufs| && h'.bufs == h.bufs[b := list]
    ensures Contents(h') == Contents(h)[b := Content(h', b)]
  {
    hide HeapOk, Agree;
    forall c | 0 <= c < |h.bufs| && c != b
      ensures Content(h', c) == Content(h, c)
    {
      ContentSame(h, h', c, {});
    }
  }

  /** The segments of `segs` and `segs'` have the same bytes, except perhaps for `skip`. */
  ghost predicate SameBytes(segs: map<nat, Segment>, segs': map<nat, Segment>, skip: set<nat>) {
    forall id :: id in segs && id in segs' && id !in skip ==>
      SegmentOk(segs[id]) && SegmentOk(segs'[id]) && BytesOf(segs'[id]) == BytesOf(segs[id])
  }

  lemma {:induction false} AgreeFrom(h: Heap, h': Heap, skip: set<nat>)
    requires HeapOk(h) && HeapOk(h') && SameBytes(h.segs, h'.segs, skip)
    ensures Agree(h, h', skip)
  {
    hide HeapOk;
  }

  lemma {:induction false} PinCounted(segs: map<nat, Segment>, listed: multiset<nat>, pins: multiset<nat>, id: nat)
    requires Counted(segs, listed, pins) && id in segs
    ensures var segs' := segs[id := segs[id].(refs := segs[id].refs + 1)];
            Counted(segs', listed, pins + multiset{id}) && SameBytes(segs, segs', {})
  {
  }

  /** `BufferSegment::ref`, for a reference kept outside buffers. */
  function Pin(h: Heap, id: nat): (r: Heap)
    requires HeapOk(h) && id in h.segs
    ensures HeapOk(r) && Contents(r) == Contents(h) && Agree(h, r, {})
    ensures r.segs.Keys == h.segs.Keys && r.pins == h.pins + multiset{id} && r.bufs == h.bufs
  {
    hide Counted, SameBytes, Agree, Contents, Listed;
    PinCounted(h.segs, Listed(h.bufs), h.pins, id);
    var r := h.(segs := h.segs[id := h.segs[id].(refs := h.segs[id].refs + 1)], pins := h.pins + multiset{id});
    AgreeFrom(h, r, {});
    ContentsSame(h, r, {});
    r
  }

  lemma {:induction false} UnpinCounted(segs: map<nat, Segment>, listed: multiset<nat>, pins: multiset<nat>, id: nat)
    requires Counted(segs, listed, pins) && id in pins
    ensures id in segs
    ensures var segs' := Dropped(segs, id);
            Counted(segs', listed, pins - multiset{id}) && SameBytes(segs, segs', {})
  {
    if segs[id].refs == 1 {
      assert pins[id] == 1 && listed[id] == 0;
    }
  }

  function Dropped(segs: map<nat, Segment>, id: nat): map<nat, Segment>
    requires id in segs && segs[id].refs > 0
  {
    if segs[id].refs > 1 then segs[id := segs[id].(refs := segs[id].refs - 1)] else segs - {id}
  }

  /** `BufferSegment::unref`: the last reference frees the segment. */
  function Unpin(h: Heap, id: nat): (r: Heap)
    requires HeapOk(h) && id in h.pins
    ensures HeapOk(r) && Contents(r) == Contents(h) && Agree(h, r, {})
    ensures id in h.segs && r.pins == h.pins - multiset{id} && r.bufs == h.bufs
    ensures r.segs.Keys == if h.segs[id].refs > 1 then h.segs.Keys else h.segs.Keys - {id}
  {
    hide Counted, SameBytes, Agree, Contents;
    UnpinCounted(h.segs, Listed(h.bufs), h.pins, id);
    CountedOne(h.segs, Listed(h.bufs), h.pins, id);
    var r := h.(segs := Dropped(h.segs, id), pins := h.pins - multiset{id});
    AgreeFrom(h, r, {});
    ContentsSame(h, r, {});
    r
  }

  lemma {:induction false} CountedOne(segs: map<nat, Segment>, listed: multiset<nat>, pins: multiset<nat>, id: nat)
    requires Counted(segs, listed, pins)
    ensures id in pins ==> id in segs
    ensures id in segs ==> SegmentOk(segs[id]) && segs[id].refs == listed[id] + pins[id]
  {
  }

  function Padded(s: Bytes): (r: Bytes)
    requires |s| <= SEGMENT_SIZE
    ensures |r| == SEGMENT_SIZE && r[..|s|] == s
  {
    s + seq(SEGMENT_SIZE - |s|, _ => 0)
  }

  function NewSegment(s: Bytes): (r: Segment)
    requires 0 < |s| <= SEGMENT_SIZE
    ensures SegmentOk(r) && BytesOf(r) == s && r.refs == 1
  {
    Segment(Padded(s), 0, |s|, 1)
  }

  lemma {:induction false} CreateCounted(segs: map<nat, Segment>, listed: multiset<nat>, pins: multiset<nat>, id: nat, s: Segment)
    requires Counted(segs, listed, pins) && id !in segs && SegmentOk(s) && s.refs == 1
    ensures Counted(segs[id := s], listed, pins + multiset{id}) && SameBytes(segs, segs[id := s], {})
  {
    assert id !in pins && id !in listed;
  }

  /** `BufferSegment::create` with data, under an unused name. */
  function Create(h: Heap, id: nat, s: Bytes): (r: Heap)
    requires HeapOk(h) && id !in h.segs && 0 < |s| <= SEGMENT_SIZE
    ensures HeapOk(r) && Contents(r) == Contents(h) && Agree(h, r, {})
    ensures id in r.segs && SegBytes(r, id) == s && r.segs[id].refs == 1
    ensures r.pins == h.pins + multiset{id} && r.segs.Keys == h.segs.Keys + {id} && r.bufs == h.bufs
  {
    hide Counted, SameBytes, Agree, Contents;
    CreateCounted(h.segs, Listed(h.bufs), h.pins, id, NewSegment(s));
    var r := h.(segs := h.segs[id := NewSegment(s)], pins := h.pins + multiset{id});
    AgreeFrom(h, r, {});
    ContentsSame(h, r, {});
    r
  }

  lemma {:induction false} RewriteCounted(segs: map<nat, Segment>, listed: multiset<nat>, pins: multiset<nat>, id: nat, s: Segment)
    requires Counted(segs, listed, pins) && id in pins && segs[id].refs == 1 && SegmentOk(s) && s.refs == 1
    ensures Counted(segs[id := s], listed, pins) && SameBytes(segs, segs[id := s], {id}) && listed[id] == 0
  {
  }

  /** Writing to a segment in place; only its single holder may. */
  function Rewrite(h: Heap, id: nat, s: Segment): (r: Heap)
    requires HeapOk(h) && id in h.pins && h.segs[id].refs == 1
    requires SegmentOk(s) && s.refs == 1
    ensures HeapOk(r) && Contents(r) == Contents(h) && Agree(h, r, {id})
    ensures id in r.segs && SegBytes(r, id) == BytesOf(s) && r.segs[id].refs == 1
    ensures r.segs.Keys == h.segs.Keys && r.pins == h.pins && r.bufs == h.bufs
  {
    hide Counted, SameBytes, Agree, Contents;
    CountedOne(h.segs, Listed(h.bufs), h.pins, id);
    RewriteCounted(h.segs, Listed(h.bufs), h.pins, id, s);
    var r := h.(segs := h.segs[id := s]);
    NotListed(h.bufs, id);
    AgreeFrom(h, r, {id});
    ContentsSame(h, r, {id});
    r
  }

  lemma {:induction false} NotListed(bufs: seq<seq<nat>>, id: nat)
    requires Listed(bufs)[id] == 0
    ensures forall b :: 0 <= b < |bufs| ==> id !in bufs[b]
  {
    forall b | 0 <= b < |bufs|
      ensures id !in bufs[b]
    {
      ListedMember(bufs, b, id);
    }
  }

  lemma {:induction false} ExchangeCounted(segs: map<nat, Segment>, listed: multiset<nat>, pins: multiset<nat>, listed': multiset<nat>, pins': multiset<nat>)
    requires Counted(segs, listed, pins) && listed' + pins' == listed + pins
    ensures Counted(segs, listed', pins')
  {
    forall id
      ensures listed'[id] + pins'[id] == listed[id] + pins[id]
    {
      assert (listed' + pins')[id] == (listed + pins)[id];
    }
  }

  /** The list `b` changes by handing references to or taking them from the outside. */
  lemma {:induction false} Exchange(h: Heap, b: nat, list: seq<nat>, pins: multiset<nat>)
    requires HeapOk(h) && b < |h.bufs|
    requires multiset(h.bufs[b]) + h.pins == multiset(list) + pins
    ensures var r := h.(bufs := h.bufs[b := list], pins := pins);
            HeapOk(r) && Agree(h, r, {})
  {
    hide Counted, Listed;
    ListedUpdate(h.bufs, b, list);
    var r := h.(bufs := h.bufs[b := list], pins := pins);
    Balance(Listed(h.bufs), h.pins, Listed(r.bufs), pins, multiset(h.bufs[b]), multiset(list));
    ExchangeCounted(h.segs, Listed(h.bufs), h.pins, Listed(r.bufs), pins);
  }

  lemma {:induction false} Balance(listed: multiset<nat>, pins: multiset<nat>, listed': multiset<nat>, pins': multiset<nat>, a: multiset<nat>, a': multiset<nat>)
    requires listed' + a == listed + a' && a + pins == a' + pins'
    ensures listed' + pins' == listed + pins
  {
    forall id
      ensures (listed' + pins')[id] == (listed + pins)[id]
    {
      assert (listed' + a)[id] == (listed + a')[id];
      assert (a + pins)[id] == (a' + pins')[id];
    }
  }

  /** Takes the reference at the front of a list out of the buffer. */
  function TakeFront(h: Heap, b: nat): (r: Heap)
    requires HeapOk(h) && b < |h.bufs| && h.bufs[b] != []
    ensures HeapOk(r) && Agree(h, r, {}) && r.segs == h.segs
    ensures r.pins == h.pins + multiset{h.bufs[b][0]} && h.bufs[b][0] in h.segs
    ensures r.bufs == h.bufs[b := h.bufs[b][1..]]
    ensures Contents(r) == Contents(h)[b := Content(r, b)]
    ensures Content(h, b) == SegBytes(h, h.bufs[b][0]) + Content(r, b)
  {
    hide Counted, Listed, Flat, Agree;
    var id, list := h.bufs[b][0], h.bufs[b][1..];
    assert h.bufs[b] == [id] + list;
    ListedOk(h, b);
    Exchange(h, b, list, h.pins + multiset{id});
    var r := h.(bufs := h.bufs[b := list], pins := h.pins + multiset{id});
    ContentsUpdate(h, r, b, list);
    r
  }

  function TakeBack(h: Heap, b: nat): (r: Heap)
    requires HeapOk(h) && b < |h.bufs| && h.bufs[b] != []
    ensures var list := h.bufs[b];
            && HeapOk(r) && Agree(h, r, {}) && r.segs == h.segs
            && r.pins == h.pins + multiset{list[|list| - 1]} && list[|list| - 1] in h.segs
            && r.bufs == h.bufs[b := list[..|list| - 1]]
            && Contents(r) == Contents(h)[b := Content(r, b)]
            && Content(h, b) == Content(r, b) + SegBytes(h, list[|list| - 1])
  {
    hide Counted, Listed, Flat, Agree;
    var n := |h.bufs[b]| - 1;
    var id, list := h.bufs[b][n], h.bufs[b][..n];
    assert h.bufs[b] == list + [id];
    ListedOk(h, b);
    Exchange(h, b, list, h.pins + multiset{id});
    var r := h.(bufs := h.bufs[b := list], pins := h.pins + multiset{id});
    ContentsUpdate(h, r, b, list);
    FlatConcat(h.segs, list, [id]);
    FlatOne(h.segs, id);
    r
  }

  /** Gives a reference to a buffer, at its end. */
  function PutBack(h: Heap, b: nat, id: nat): (r: Heap)
    requires HeapOk(h) && b < |h.bufs| && id in h.pins
    ensures HeapOk(r) && Agree(h, r, {}) && r.segs == h.segs
    ensures r.pins == h.pins - multiset{id} && r.bufs == h.bufs[b := h.bufs[b] + [id]]
    ensures Contents(r) == Contents(h)[b := Content(h, b) + SegBytes(h, id)]
  {
    hide Counted, Listed, Flat, Agree;
    var list := h.bufs[b] + [id];
    Exchange(h, b, list, h.pins - multiset{id});
    var r := h.(bufs := h.bufs[b := list], pins := h.pins - multiset{id});
    ContentsUpdate(h, r, b, list);
    ListedOk(h, b);
    FlatConcat(h.segs, h.bufs[b], [id]);
    FlatOne(h.segs, id);
    r
  }

  /** Gives a reference to a buffer, at its front. */
  function PutFront(h: Heap, b: nat, id: nat): (r: Heap)
    requires HeapOk(h) && b < |h.bufs| && id in h.pins
    ensures HeapOk(r) && Agree(h, r, {}) && r.segs == h.segs
    ensures r.pins == h.pins - multiset{id} && r.bufs == h.bufs[b := [id] + h.bufs[b]]
    ensures Contents(r) == Contents(h)[b := SegBytes(h, id) + Content(h, b)]
  {
    hide Counted, Listed, Flat, Agree;
    var list := [id] + h.bufs[b];
    Exchange(h, b, list, h.pins - multiset{id});
    var r := h.(bufs := h.bufs[b := list], pins := h.pins - multiset{id});
    ContentsUpdate(h, r, b, list);
    ListedOk(h, b);
    FlatConcat(h.segs, [id], h.bufs[b]);
    FlatOne(h.segs, id);
    r
  }

  lemma {:induction false} SpliceCounted(h: Heap, b: nat, dst: nat)
    requires HeapOk(h) && b < |h.bufs| && dst < |h.bufs| && b != dst
    ensures HeapOk(h.(bufs := h.bufs[dst := h.bufs[dst] + h.bufs[b]][b := []]))
  {
    hide Counted, Listed;
    var mid := h.bufs[dst := h.bufs[dst] + h.bufs[b]];
    var bufs := mid[b := []];
    ListedUpdate(h.bufs, dst, h.bufs[dst] + h.bufs[b]);
    ListedUpdate(mid, b, []);
    assert mid[b] == h.bufs[b];
    var l0, l1, l2, mb, md := Listed(h.bufs), Listed(mid), Listed(bufs), multiset(h.bufs[b]), multiset(h.bufs[dst]);
    forall id
      ensures l2[id] == l0[id]
    {
      assert (l1 + md)[id] == (l0 + (md + mb))[id];
      assert (l2 + mb)[id] == (l1 + multiset{})[id];
    }
    assert l2 == l0;
  }

  /** Moves a whole list to the end of another buffer: `Buffer::moveout`. */
  function Splice(h: Heap, b: nat, dst: nat): (r: Heap)
    requires HeapOk(h) && b < |h.bufs| && dst < |h.bufs| && b != dst
    ensures HeapOk(r) && Agree(h, r, {}) && r.segs == h.segs && r.pins == h.pins
    ensures r.bufs == h.bufs[dst := h.bufs[dst] + h.bufs[b]][b := []]
    ensures Contents(r) == Contents(h)[dst := Contents(h)[dst] + Contents(h)[b]][b := []]
  {
    hide Counted, Listed, Flat, Agree;
    SpliceCounted(h, b, dst);
    var r := h.(bufs := h.bufs[dst := h.bufs[dst] + h.bufs[b]][b := []]);
    AgreeSame(h, r);
    SpliceContents(h, r, b, dst);
    r
  }

  lemma {:induction false} AgreeSame(h: Heap, h': Heap)
    requires HeapOk(h) && HeapOk(h') && h'.segs == h.segs
    ensures Agree(h, h', {})
  {
    hide HeapOk;
  }

  lemma {:induction false} SpliceContents(h: Heap, r: Heap, b: nat, dst: nat)
    requires HeapOk(h) && HeapOk(r) && Agree(h, r, {}) && r.segs == h.segs
    requires b < |h.bufs| && dst < |h.bufs| && b != dst
    requires r.bufs == h.bufs[dst := h.bufs[dst] + h.bufs[b]][b := []]
    ensures Contents(r) == Contents(h)[dst := Contents(h)[dst] + Contents(h)[b]][b := []]
  {
    hide HeapOk, Agree;
    ListedOk(h, b);
    ListedOk(h, dst);
    FlatConcat(h.segs, h.bufs[dst], h.bufs[b]);
    forall c | 0 <= c < |h.bufs| && c != b && c != dst
      ensures Content(r, c) == Content(h, c)
    {
      ContentSame(h, r, c, {});
    }
  }
}
