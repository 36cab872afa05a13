/** The read-only queries of `Buffer`: loops over segments that see only the bytes. */
module BufferQueries {
  import opened Bytes

  /** Buffers hold no empty segments. */
  ghost predicate Segmented(segs: seq<Bytes>) {
    forall i :: 0 <= i < |segs| ==> segs[i] != []
  }

  lemma {:induction false} FlattenFrom(segs: seq<Bytes>, i: nat)
    requires i < |segs|
    ensures Flatten(segs[i..]) == segs[i] + Flatten(segs[i + 1..])
  {
    assert segs[i..][1..] == segs[i + 1..];
  }

  lemma {:induction false} FlattenNone(segs: seq<Bytes>, i: nat)
    requires i == |segs|
    ensures Flatten(segs[i..]) == []
  {
  }

  /** `memchr`. */
  method FindIn(s: Bytes, ch: byte) returns (r: Option<nat>)
    ensures r.None? ==> ch !in s
    ensures r.Some? ==> r.value < |s| && s[r.value] == ch && ch !in s[..r.value]
  {
    var i := 0;
    while i < |s|
      invariant 0 <= i <= |s| && ch !in s[..i]
    {
      if s[i] == ch {
        return Some(i);
      }
      i := i + 1;
    }
    return None;
  }

  lemma {:induction false} NotInConcat(a: Bytes, b: Bytes, ch: byte)
    ensures ch !in a + b <==> ch !in a && ch !in b
  {
    if ch in a {
      var i :| 0 <= i < |a| && a[i] == ch;
      assert (a + b)[i] == ch;
    }
    if ch in b {
      var i :| 0 <= i < |b| && b[i] == ch;
      assert (a + b)[|a| + i] == ch;
    }
  }

  /** Where the first `k` bytes of the next segment lie in the whole. */
  lemma {:induction false} HeadAt(s: Bytes, offset: nat, seg: Bytes, rest: Bytes, k: nat)
    requires offset <= |s| && s[offset..] == seg + rest && k <= |seg|
    ensures offset + k <= |s| && s[..offset + k] == s[..offset] + seg[..k]
    ensures k < |seg| ==> s[offset + k] == seg[k]
    ensures k == |seg| ==> s[offset + k..] == rest
  {
    assert s == s[..offset] + (seg + rest);
  }

  /** `Buffer::find`: the first occurrence among the first `limit` bytes; 0 means no limit. */
  method Find(segs: seq<Bytes>, ch: byte, limit: nat) returns (r: Option<nat>)
    ensures var s := Flatten(segs);
            var n := if limit == 0 then |s| else Min(limit, |s|);
            && (r.None? ==> ch !in s[..n])
            && (r.Some? ==> r.value < n && s[r.value] == ch && ch !in s[..r.value])
  {
    hide Flatten;
    ghost var s := Flatten(segs);
    ghost var n := if limit == 0 then |s| else Min(limit, |s|);
    var left := if limit == 0 then LengthOf(segs) else limit;
    var offset, i := 0, 0;
    assert segs[0..] == segs && s[0..] == s;
    while i < |segs|
      invariant 0 <= i <= |segs| && 0 <= offset <= |s| && left >= 0
      invariant s[offset..] == Flatten(segs[i..])
      invariant ch !in s[..offset] && offset <= n
      invariant if limit == 0 then left == |s| - offset else left == limit - offset
    {
      FlattenFrom(segs, i);
      var len := Min(left, |segs[i]|);
      var p := FindIn(segs[i][..len], ch);
      var k := if p.Some? then p.value else len;
      HeadAt(s, offset, segs[i], Flatten(segs[i + 1..]), k);
      assert segs[i][..len][..k] == segs[i][..k];
      NotInConcat(s[..offset], segs[i][..k], ch);
      if p.Some? {
        return Some(offset + p.value);
      }
      offset := offset + len;
      left := left - len;
      if left == 0 {
        break;
      }
      i := i + 1;
    }
    if i == |segs| {
      FlattenNone(segs, i);
    }
    return None;
  }

  /** Comparing equal-length heads decides the prefix relation from the tails. */
  lemma {:induction false} PrefixStep(p: Bytes, q: Bytes, k: nat)
    requires k <= |p| && k <= |q|
    ensures p <= q <==> p[..k] == q[..k] && p[k..] <= q[k..]
  {
    if p[..k] == q[..k] && p[k..] <= q[k..] {
      assert p == p[..k] + p[k..] && q == q[..k] + q[k..];
    }
    if p <= q {
      assert p[..k] == q[..k];
      assert p[k..] == q[k..|p|];
    }
  }

  /** One comparison: `q` and `rest` are what is left of the buffer after `done` bytes. */
  lemma {:induction false} PrefixTurn(p: Bytes, all: Bytes, done: nat, q: Bytes, rest: Bytes, k: nat)
    requires done + k <= |p| && done <= |all| && all[done..] == q + rest && k <= |q|
    ensures p[done..] <= all[done..] <==> q[..k] == p[done..][..k] && p[done + k..] <= all[done + k..]
    ensures all[done + k..] == q[k..] + rest && p[done..][k..] == p[done + k..]
  {
    assert all[done..][..k] == q[..k];
    assert all[done..][k..] == all[done + k..] == q[k..] + rest;
    PrefixStep(p[done..], all[done..], k);
  }

  /** The inner loop of `Buffer::prefix`: compares one segment with the buffer, across its segments. */
  method PrefixSegment(segs: seq<Bytes>, big: nat, q: Bytes, p: Bytes) returns (ok: bool, big': nat, q': Bytes)
    requires Segmented(segs) && big < |segs| && q != [] && p != []
    requires |p| <= |q + Flatten(segs[big + 1..])|
    ensures ok <==> p <= q + Flatten(segs[big + 1..])
    ensures ok ==> big' <= |segs|
    ensures ok ==> (big' == |segs| ==> (q + Flatten(segs[big + 1..]))[|p|..] == [])
    ensures ok ==> (big' < |segs| ==> q' != [] && (q + Flatten(segs[big + 1..]))[|p|..] == q' + Flatten(segs[big' + 1..]))
  {
    hide Flatten;
    ghost var all := q + Flatten(segs[big + 1..]);
    big', q' := big, q;
    var p' := p;
    ghost var done := 0;
    assert all[0..] == all && p[0..] == p;
    while true
      invariant big' < |segs| && q' != [] && p' != []
      invariant 0 <= done <= |p| && p' == p[done..]
      invariant all[done..] == q' + Flatten(segs[big' + 1..])
      invariant p <= all <==> p' <= all[done..]
      decreases |p'|
    {
      // The assertions of the source: neither side has run out.
      var k := Min(|p'|, |q'|);
      PrefixTurn(p, all, done, q', Flatten(segs[big' + 1..]), k);
      if q'[..k] != p'[..k] {
        return false, big', q';
      }
      done := done + k;
      p' := p'[k..];
      q' := q'[k..];
      if q' == [] {
        big' := big' + 1;
        if big' == |segs| {
          FlattenNone(segs, big');
          assert all[done..] == [];
          assert p' == [];
          return true, big', q';
        }
        FlattenFrom(segs, big');
        q' := segs[big'];
      }
      if p' == [] {
        assert done == |p|;
        return true, big', q';
      }
    }
  }

  /** `Buffer::prefix` of a byte string. */
  method PrefixBytes(segs: seq<Bytes>, p: Bytes) returns (r: bool)
    requires Segmented(segs) && p != []
    ensures r <==> p <= Flatten(segs)
  {
    if |p| > LengthOf(segs) {
      return false;
    }
    FlattenFrom(segs, 0);
    assert segs[0..] == segs;
    var big, q;
    r, big, q := PrefixSegment(segs, 0, segs[0], p);
  }

  lemma {:induction false} SomeSegment(segs: seq<Bytes>)
    requires Segmented(segs)
    ensures Flatten(segs) == [] <==> segs == []
  {
  }

  /** `Buffer::prefix` of a buffer: two segmentations walked in step. */
  method Prefix(segs: seq<Bytes>, pfx: seq<Bytes>) returns (r: bool)
    requires Segmented(segs) && Segmented(pfx) && Flatten(pfx) != []
    ensures r <==> Flatten(pfx) <= Flatten(segs)
  {
    hide Flatten;
    ghost var want, all := Flatten(pfx), Flatten(segs);
    if LengthOf(pfx) > LengthOf(segs) {
      return false;
    }
    SomeSegment(segs);
    var big: nat, q, i: nat := 0, segs[0], 0;
    FlattenFrom(segs, 0);
    assert segs[0..] == segs && pfx[0..] == pfx;
    ghost var done := 0;
    assert all[0..] == all && want[0..] == want;
    while i < |pfx|
      invariant 0 <= i <= |pfx| && 0 <= done <= |want| && big <= |segs|
      invariant want[done..] == Flatten(pfx[i..])
      invariant big < |segs| ==> q != [] && all[done..] == q + Flatten(segs[big + 1..])
      invariant big == |segs| ==> all[done..] == []
      invariant want <= all <==> want[done..] <= all[done..]
    {
      FlattenFrom(pfx, i);
      var p := pfx[i];
      ghost var w, a := want[done..], all[done..];
      // The assertions of the source: the longer buffer is never exhausted first.
      assert p != [] && |p| <= |w| <= |a|;
      assert big < |segs|;
      assert w[..|p|] == p;
      PrefixStep(w, a, |p|);
      PrefixOf(p, a);
      var ok;
      ok, big, q := PrefixSegment(segs, big, q, p);
      if !ok {
        return false;
      }
      assert w[|p|..] == Flatten(pfx[i + 1..]);
      assert want[done + |p|..] == w[|p|..] && all[done + |p|..] == a[|p|..];
      done := done + |p|;
      i := i + 1;
    }
    FlattenNone(pfx, i);
    r := true;
  }

  lemma {:induction false} PrefixOf(p: Bytes, a: Bytes)
    requires |p| <= |a|
    ensures p <= a <==> p == a[..|p|]
  {
  }

  /** `Buffer::equal`. */
  method Equal(a: seq<Bytes>, b: seq<Bytes>) returns (r: bool)
    requires Segmented(a) && Segmented(b)
    ensures r <==> Flatten(a) == Flatten(b)
  {
    if LengthOf(a) != LengthOf(b) {
      return false;
    }
    if a == [] {
      return true;
    }
    SomeSegment(a);
    SomeSegment(b);
    r := Prefix(a, b);
    assert r ==> Flatten(b) == Flatten(a)[..|Flatten(b)|] == Flatten(a);
  }
}
