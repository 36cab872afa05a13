/** The segment cache and the sliding window of recently used segments. */
module Window {
  import opened Bytes
  import opened Hash

  // --- The cache -------------------------------------------------------------------------------

  /** What an `XCodecMemoryCache` holds: segments by hash. */
  type Cache = map<Word, Bytes>

  /** Any function from segments to 64-bit values; collisions are allowed. */
  type Hasher = Bytes -> Word

  /** Every entry is a whole segment filed under its own hash. */
  ghost predicate CacheOk(hash: Hasher, cache: Cache) {
    forall h :: h in cache ==> |cache[h]| == SEGMENT_LENGTH && hash(cache[h]) == h
  }

  /** `big` agrees with `small` wherever `small` is defined. */
  ghost predicate SubCache(small: Cache, big: Cache) {
    forall h :: h in small ==> h in big && big[h] == small[h]
  }

  /** `XCodecMemoryCache`. */
  class XCodecMemoryCache {
    var entries: Cache

    constructor ()
      ensures entries == map[]
    {
      entries := map[];
    }

    /** The two assertions of `enter` are its preconditions: a cache never overwrites an entry. */
    method Enter(h: Word, seg: Bytes)
      requires |seg| == SEGMENT_LENGTH && h !in entries
      modifies this
      ensures entries == old(entries)[h := seg]
      ensures SubCache(old(entries), entries)
    {
      entries := entries[h := seg];
    }

    method Lookup(h: Word) returns (r: Option<Bytes>)
      ensures r.Some? <==> h in entries
      ensures r.Some? ==> r.value == entries[h]
    {
      r := if h in entries then Some(entries[h]) else None;
    }
  }

  // --- The window ------------------------------------------------------------------------------

  /** `XCODEC_WINDOW_COUNT`. */
  const WINDOW_COUNT: nat := 256

  /** The value of an `XCodecWindow`; a slot holding 0 is empty. */
  datatype Window = Window(slots: seq<Word>, cursor: nat, present: map<Word, nat>, segments: map<Word, Bytes>)

  /** Slots and both maps describe the same set of non-zero hashes. */
  ghost predicate WindowOk(w: Window) {
    && |w.slots| == WINDOW_COUNT
    && w.cursor < WINDOW_COUNT
    && (forall h :: h in w.present ==> h != 0 && w.present[h] < WINDOW_COUNT && w.slots[w.present[h]] == h)
    && (forall i :: 0 <= i < WINDOW_COUNT && w.slots[i] != 0 ==> w.slots[i] in w.present && w.present[w.slots[i]] == i)
    && w.segments.Keys == w.present.Keys
  }

  function EmptyWindow(): (w: Window)
    ensures WindowOk(w)
  {
    Window(seq(WINDOW_COUNT, _ => 0), 0, map[], map[])
  }

  function Without<T>(m: map<Word, T>, h: Word): (r: map<Word, T>)
    ensures r.Keys == m.Keys - {h}
    ensures forall k :: k in r ==> r[k] == m[k]
  {
    m - {h}
  }

  /** `XCodecWindow::declare`: hash 0 and hashes already present change nothing. */
  function Declared(w: Window, h: Word, seg: Bytes): (r: Window)
    requires WindowOk(w)
    ensures WindowOk(r)
    ensures h != 0 ==> h in r.present
    ensures forall k :: k in r.segments ==> (k in w.segments && r.segments[k] == w.segments[k]) || (k == h && r.segments[k] == seg)
  {
    if h == 0 || h in w.present then
      w
    else
      var gone := w.slots[w.cursor];
      Window(w.slots[w.cursor := h],
             (w.cursor + 1) % WINDOW_COUNT,
             Without(w.present, gone)[h := w.cursor],
             Without(w.segments, gone)[h := seg])
  }

  /** `XCodecWindow::dereference`. */
  function Dereferenced(w: Window, c: nat): (r: Option<Bytes>)
    requires WindowOk(w) && c < WINDOW_COUNT
    ensures r.Some? <==> exists h :: h in w.present && w.present[h] == c
  {
    assert forall h :: h in w.present && w.present[h] == c ==> w.slots[c] == h;
    if w.slots[c] == 0 then None
    else
      assert w.slots[c] in w.present && w.present[w.slots[c]] == c;
      Some(w.segments[w.slots[c]])
  }

  /** The index that `present` reports for a hash dereferences to the segment declared for it. */
  lemma {:induction false} PresentDereferences(w: Window, h: Word)
    requires WindowOk(w) && h in w.present
    ensures w.present[h] < WINDOW_COUNT
    ensures Dereferenced(w, w.present[h]) == Some(w.segments[h])
  {
  }

  /** `XCodecWindow`. */
  class XCodecWindow {
    const window: array<Word>
    var cursor: nat
    var present: map<Word, nat>
    var segments: map<Word, Bytes>

    ghost function Value(): Window
      reads this, window
    {
      Window(window[..], cursor, present, segments)
    }

    ghost predicate Valid()
      reads this, window
    {
      WindowOk(Value())
    }

    constructor ()
      ensures Valid() && Value() == EmptyWindow() && fresh(window)
    {
      window := new Word[WINDOW_COUNT](_ => 0);
      cursor, present, segments := 0, map[], map[];
      new;
      assert window[..] == EmptyWindow().slots;
    }

    method Declare(h: Word, seg: Bytes)
      requires Valid()
      modifies this, window
      ensures Valid() && Value() == Declared(old(Value()), h, seg)
    {
      ghost var before := Value();
      if h == 0 || h in present {
        return;
      }
      var gone := window[cursor];
      // The assertions of the source: the evicted slot is indexed by both maps.
      assert gone != 0 ==> gone in present && present[gone] == cursor && gone in segments;
      assert gone == 0 ==> Without(present, gone) == present && Without(segments, gone) == segments;
      hide WindowOk;
      if gone != 0 {
        present := Without(present, gone);
        segments := Without(segments, gone);
      }
      window[cursor] := h;
      assert window[..] == before.slots[cursor := h];
      present := present[h := cursor];
      segments := segments[h := seg];
      cursor := (cursor + 1) % WINDOW_COUNT;
      assert Value() == Declared(before, h, seg);
    }

    method Dereference(c: nat) returns (r: Option<Bytes>)
      requires Valid() && c < WINDOW_COUNT
      ensures r == Dereferenced(Value(), c)
    {
      if window[c] == 0 {
        return None;
      }
      assert window[c] in segments;
      r := Some(segments[window[c]]);
    }

    method Present(h: Word) returns (r: Option<byte>)
      requires Valid()
      ensures r.Some? <==> h in Value().present
      ensures r.Some? ==> r.value == Value().present[h]
    {
      if h !in present {
        return None;
      }
      assert window[present[h]] == h;
      r := Some(present[h]);
    }
  }
}
