/** The window is first-in first-out: which hashes it holds, and where, after any declarations. */
module WindowOrder {
  import opened Bytes
  import opened Window

  datatype Declaration = Declaration(hash: Word, seg: Bytes)

  /** A new window after declarations, in order. */
  function DeclareAll(ds: seq<Declaration>): (w: Window)
    ensures WindowOk(w)
  {
    if ds == [] then EmptyWindow()
    else Declared(DeclareAll(ds[..|ds| - 1]), ds[|ds| - 1].hash, ds[|ds| - 1].seg)
  }

  /** `h` is among the last 256 of `ts`. */
  predicate Recent(ts: seq<Declaration>, h: Word) {
    exists j :: 0 <= j < |ts| && |ts| - WINDOW_COUNT <= j && ts[j].hash == h
  }

  /** The declarations that count: those of a hash that is not 0 and not among the last 256 that counted. */
  function Turns(ds: seq<Declaration>): seq<Declaration> {
    if ds == [] then []
    else
      var before, d := Turns(ds[..|ds| - 1]), ds[|ds| - 1];
      if d.hash == 0 || Recent(before, d.hash) then before else before + [d]
  }

  /** The slots hold the last 256 of `ts`, each in the slot of its turn. */
  ghost predicate InTurn(w: Window, ts: seq<Declaration>) {
    && |w.slots| == WINDOW_COUNT
    && w.cursor == |ts| % WINDOW_COUNT
    && (forall j :: 0 <= j < |ts| && |ts| - WINDOW_COUNT <= j ==> HeldAt(w, ts[j], j % WINDOW_COUNT))
    && (forall i :: |ts| <= i < WINDOW_COUNT ==> w.slots[i] == 0)
    && (forall h :: h in w.present <==> Recent(ts, h))
  }

  ghost predicate HeldAt(w: Window, d: Declaration, slot: nat) {
    && slot < |w.slots| && w.slots[slot] == d.hash && d.hash != 0
    && d.hash in w.present && w.present[d.hash] == slot
    && d.hash in w.segments && w.segments[d.hash] == d.seg
  }

  /** Two turns that are less than 256 apart have different slots; 256 apart, the same. */
  lemma {:induction false} SlotsDiffer(j: nat, n: nat)
    requires j < n <= j + WINDOW_COUNT
    ensures j % WINDOW_COUNT == n % WINDOW_COUNT <==> n == j + WINDOW_COUNT
  {
    var d := n - j;
    assert n == j + d;
    if d < WINDOW_COUNT {
      var q, r := j / WINDOW_COUNT, j % WINDOW_COUNT;
      assert j == WINDOW_COUNT * q + r;
      if r + d < WINDOW_COUNT {
        assert n == WINDOW_COUNT * q + (r + d);
      } else {
        assert n == WINDOW_COUNT * (q + 1) + (r + d - WINDOW_COUNT);
      }
    }
  }

  /** The slot under the cursor holds the turn that is 256 back, or nothing yet. */
  lemma {:induction false} Oldest(w: Window, ts: seq<Declaration>)
    requires WindowOk(w) && InTurn(w, ts)
    ensures w.slots[w.cursor] == if |ts| < WINDOW_COUNT then 0 else ts[|ts| - WINDOW_COUNT].hash
  {
    if |ts| >= WINDOW_COUNT {
      var j := |ts| - WINDOW_COUNT;
      SlotsDiffer(j, |ts|);
      assert HeldAt(w, ts[j], j % WINDOW_COUNT);
    }
  }

  /** Whoever is not evicted stays where it is. */
  lemma {:induction false} StaysHeld(w: Window, ts: seq<Declaration>, d: Declaration, j: nat)
    requires WindowOk(w) && InTurn(w, ts) && d.hash != 0 && d.hash !in w.present
    requires j < |ts| && |ts| + 1 - WINDOW_COUNT <= j
    ensures HeldAt(Declared(w, d.hash, d.seg), ts[j], j % WINDOW_COUNT)
  {
    assert HeldAt(w, ts[j], j % WINDOW_COUNT);
    SlotsDiffer(j, |ts|);
    Oldest(w, ts);
    var gone := w.slots[w.cursor];
    assert gone != ts[j].hash;
  }

  lemma {:induction false} NewIsHeld(w: Window, ts: seq<Declaration>, d: Declaration)
    requires WindowOk(w) && InTurn(w, ts) && d.hash != 0 && d.hash !in w.present
    ensures HeldAt(Declared(w, d.hash, d.seg), d, |ts| % WINDOW_COUNT)
  {
  }

  lemma {:induction false} PresentAfter(w: Window, h: Word, seg: Bytes, k: Word)
    requires WindowOk(w) && h != 0 && h !in w.present
    ensures k in Declared(w, h, seg).present <==> k == h || (k in w.present && k != w.slots[w.cursor])
  {
  }

  lemma {:induction false} RecentAfter(ts: seq<Declaration>, d: Declaration, k: Word)
    requires forall i, j :: 0 <= i < j < |ts| && |ts| - WINDOW_COUNT <= i ==> ts[i].hash != ts[j].hash
    ensures Recent(ts + [d], k) <==>
            k == d.hash || (Recent(ts, k) && (|ts| >= WINDOW_COUNT ==> k != ts[|ts| - WINDOW_COUNT].hash))
  {
    var all := ts + [d];
    assert all[|ts|] == d;
    if Recent(all, k) && k != d.hash {
      var j :| 0 <= j < |all| && |all| - WINDOW_COUNT <= j && all[j].hash == k;
      assert ts[j].hash == k;
    }
    if Recent(ts, k) && (|ts| >= WINDOW_COUNT ==> k != ts[|ts| - WINDOW_COUNT].hash) {
      var j :| 0 <= j < |ts| && |ts| - WINDOW_COUNT <= j && ts[j].hash == k;
      assert all[j].hash == k;
    }
  }

  lemma {:induction false} TurnsDiffer(w: Window, ts: seq<Declaration>)
    requires WindowOk(w) && InTurn(w, ts)
    ensures forall i, j :: 0 <= i < j < |ts| && |ts| - WINDOW_COUNT <= i ==> ts[i].hash != ts[j].hash
  {
    forall i, j | 0 <= i < j < |ts| && |ts| - WINDOW_COUNT <= i
      ensures ts[i].hash != ts[j].hash
    {
      assert HeldAt(w, ts[i], i % WINDOW_COUNT) && HeldAt(w, ts[j], j % WINDOW_COUNT);
      SlotsDiffer(i, j);
    }
  }

  lemma {:induction false} DeclareInTurn(w: Window, ts: seq<Declaration>, d: Declaration)
    requires WindowOk(w) && InTurn(w, ts) && d.hash != 0 && d.hash !in w.present
    ensures InTurn(Declared(w, d.hash, d.seg), ts + [d])
  {
    var w', all := Declared(w, d.hash, d.seg), ts + [d];
    NewIsHeld(w, ts, d);
    NextCursor(w, ts, d);
    forall j | 0 <= j < |all| && |all| - WINDOW_COUNT <= j
      ensures HeldAt(w', all[j], j % WINDOW_COUNT)
    {
      if j < |ts| {
        StaysHeld(w, ts, d, j);
      }
    }
    hide WindowOk, HeldAt, Recent, Declared;
    forall h
      ensures h in w'.present <==> Recent(all, h)
    {
      PresentInTurn(w, ts, d, h);
    }
  }

  lemma {:induction false} PresentInTurn(w: Window, ts: seq<Declaration>, d: Declaration, h: Word)
    requires WindowOk(w) && InTurn(w, ts) && d.hash != 0 && d.hash !in w.present
    ensures h in Declared(w, d.hash, d.seg).present <==> Recent(ts + [d], h)
  {
    hide Declared, HeldAt;
    TurnsDiffer(w, ts);
    Oldest(w, ts);
    PresentAfter(w, d.hash, d.seg, h);
    RecentAfter(ts, d, h);
    if |ts| < WINDOW_COUNT && h in w.present {
      OldestIsNotZero(w, ts, h);
    }
    hide WindowOk, Recent;
  }

  lemma {:induction false} OldestIsNotZero(w: Window, ts: seq<Declaration>, h: Word)
    requires WindowOk(w) && InTurn(w, ts) && |ts| < WINDOW_COUNT && h in w.present
    ensures h != w.slots[w.cursor]
  {
    Oldest(w, ts);
  }

  lemma {:induction false} NextCursor(w: Window, ts: seq<Declaration>, d: Declaration)
    requires WindowOk(w) && InTurn(w, ts) && d.hash != 0 && d.hash !in w.present
    ensures var w' := Declared(w, d.hash, d.seg);
            && w'.cursor == (|ts| + 1) % WINDOW_COUNT && |w'.slots| == WINDOW_COUNT
            && forall i :: |ts| + 1 <= i < WINDOW_COUNT ==> w'.slots[i] == 0
  {
  }

  /**
    After any declarations from an empty window, the window holds exactly the last 256 of those that
    counted, each with its segment, in the slot of its turn modulo 256; the next one goes to the slot
    of the oldest.
  */
  lemma {:induction false} FirstInFirstOut(ds: seq<Declaration>)
    ensures InTurn(DeclareAll(ds), Turns(ds))
  {
    hide WindowOk, Declared, InTurn;
    if ds == [] {
      EmptyInTurn();
    } else {
      var front, d := ds[..|ds| - 1], ds[|ds| - 1];
      FirstInFirstOut(front);
      PresentIsRecent(DeclareAll(front), Turns(front), d.hash);
      if d.hash == 0 || d.hash in DeclareAll(front).present {
        NothingDeclared(DeclareAll(front), d);
      } else {
        DeclareInTurn(DeclareAll(front), Turns(front), d);
      }
    }
  }

  lemma {:induction false} NothingDeclared(w: Window, d: Declaration)
    requires WindowOk(w) && (d.hash == 0 || d.hash in w.present)
    ensures Declared(w, d.hash, d.seg) == w
  {
  }

  lemma {:induction false} PresentIsRecent(w: Window, ts: seq<Declaration>, h: Word)
    requires InTurn(w, ts)
    ensures h in w.present <==> Recent(ts, h)
  {
  }

  lemma {:induction false} EmptyInTurn()
    ensures InTurn(EmptyWindow(), [])
  {
  }

  lemma {:induction false} TurnsGrow(ds: seq<Declaration>, more: seq<Declaration>)
    ensures Turns(ds) <= Turns(ds + more) && |Turns(ds + more)| <= |Turns(ds)| + |more|
    decreases |more|
  {
    hide Recent;
    if more == [] {
      assert ds + more == ds;
    } else {
      var front := more[..|more| - 1];
      TurnsGrow(ds, front);
      assert (ds + more)[..|ds + more| - 1] == ds + front;
    }
  }

  /** A hash that has just been declared stays in the window for the next 255 declarations, whatever they are. */
  lemma {:induction false} StaysInReach(ds: seq<Declaration>, d: Declaration, more: seq<Declaration>)
    requires d.hash != 0 && d.hash !in DeclareAll(ds).present && |more| < WINDOW_COUNT
    ensures d.hash in DeclareAll(ds + [d] + more).present
  {
    FirstInFirstOut(ds);
    FirstInFirstOut(ds + [d] + more);
    assert (ds + [d])[..|ds|] == ds;
    TurnsGrow(ds + [d], more);
    var ts := Turns(ds + [d] + more);
    assert ts[|Turns(ds)|] == d;
  }
}
