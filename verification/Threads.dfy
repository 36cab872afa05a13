/**
  The callback thread and its clients, interleaved step by step: the mutex built on a condition
  variable, the sleep queue, and the queue of callbacks they protect.

  A section run under the mutex is one step; so is each call that is made under the pthread mutex
  that guards the mutex's own fields. A callback that itself schedules or cancels does so without
  holding the mutex, and is one more client.
*/
module Threads {
  import opened Bytes

  // --- State ---------------------------------------------------------------------------------------------

  /** What a thread does once it owns the mutex. */
  datatype Work =
    | Schedule
    | Cancel(cb: nat)
    | Stop
    | MainStart
    | MainAfterSleep
    | MainAfterRun

  datatype Status =
    | Idle
    | Unstarted               // the callback thread before it runs `main`
    | Blocked(work: Work)     // waiting on the mutex's condition variable
    | Woken(work: Work)       // signalled, but yet to look at the mutex again
    | Holding(work: Work)
    | Asleep                  // waiting on the sleep queue
    | Roused                  // signalled there, but yet to reacquire the mutex
    | Running(cb: nat)        // executing a callback, without the mutex
    | Returned

  /**
    Thread 0 is the callback thread. Callbacks are numbered in the order in which they are queued:
    `count` is how many there have been. `cancelled` (those taken out of the queue by a cancel), `ran`
    and `deleted` record what happened, in order.
  */
  datatype State = State(
    threads: seq<Status>,
    owner: Option<nat>,
    waiters: nat,
    queue: seq<nat>,
    inflight: Option<nat>,
    idle: bool,
    stop: bool,
    halted: bool,
    count: nat,
    cancelled: set<nat>,
    ran: seq<nat>,
    deleted: seq<nat>)

  predicate Waiting(t: Status) {
    t.Blocked? || t.Woken?
  }

  predicate Busy(t: Status) {
    Waiting(t) || t.Holding?
  }

  // --- The mutex -------------------------------------------------------------------------------------------

  function Set(s: State, t: nat, st: Status): State
    requires t < |s.threads|
  {
    s.(threads := s.threads[t := st])
  }

  /** `lock_acquire`, up to the first wait. */
  function Acquire(s: State, t: nat, work: Work): State
    requires t < |s.threads|
  {
    if s.owner.Some? then Set(s, t, Blocked(work)).(waiters := s.waiters + 1)
    else Set(s, t, Holding(work)).(owner := Some(t))
  }

  /** A waiter looks again: it takes the mutex, or goes back to waiting. */
  function Retry(s: State, t: nat): State
    requires t < |s.threads| && s.threads[t].Woken? && s.waiters > 0
  {
    if s.owner.Some? then Set(s, t, Blocked(s.threads[t].work))
    else Set(s, t, Holding(s.threads[t].work)).(owner := Some(t), waiters := s.waiters - 1)
  }

  ghost predicate SomeBlocked(ts: seq<Status>) {
    exists i :: 0 <= i < |ts| && ts[i].Blocked?
  }

  ghost predicate SomeWoken(ts: seq<Status>) {
    exists i :: 0 <= i < |ts| && ts[i].Woken?
  }

  /** The thread that `lock_release` wakes: any that is blocked, if it sees a waiter and there is one. */
  ghost predicate Wakeable(ts: seq<Status>, waiters: nat, pick: Option<nat>) {
    match pick
    case None => waiters == 0 || !SomeBlocked(ts)
    case Some(i) => waiters != 0 && i < |ts| && ts[i].Blocked?
  }

  /** `lock_release`. */
  function Release(s: State, pick: Option<nat>): State
    requires pick.Some? ==> pick.value < |s.threads| && s.threads[pick.value].Blocked?
  {
    var s' := s.(owner := None);
    if pick.Some? then Set(s', pick.value, Woken(s.threads[pick.value].work)) else s'
  }

  /** `signal` on the sleep queue, where only the callback thread ever waits. */
  function SignalSleeper(s: State): State
    requires s.threads != []
  {
    if s.threads[0].Asleep? then Set(s, 0, Roused) else s
  }

  // --- Critical sections --------------------------------------------------------------------------------------

  function Without(q: seq<nat>, cb: nat): seq<nat> {
    if q == [] then [] else if q[0] == cb then q[1..] else [q[0]] + Without(q[1..], cb)
  }

  /** `main` finds the queue empty: it returns if it was told to stop, and waits otherwise. */
  function Rest(s: State): State
    requires s.threads != []
  {
    Set(s, 0, if s.stop then Returned else Asleep)
  }

  /** `main` takes the next callback, if there is one. */
  function Turn(s: State): State
    requires s.threads != []
  {
    if s.queue == [] then Rest(s.(idle := true))
    else
      Set(s, 0, Running(s.queue[0]))
        .(queue := s.queue[1..], inflight := Some(s.queue[0]), ran := s.ran + [s.queue[0]])
  }

  /** What thread `t` does while it owns the mutex; `HALT` and `NOTREACHED` set `halted`. */
  function Section(s: State, t: nat, work: Work): State
    requires t < |s.threads|
  {
    match work
    case Schedule =>
      var s1 := Set(s, t, Idle).(queue := s.queue + [s.count], count := s.count + 1);
      if s.queue == [] && s.idle then SignalSleeper(s1) else s1
    case Cancel(cb) =>
      if s.inflight == Some(cb) then Set(s, t, Idle).(inflight := None)
      else if cb in s.queue then
        Set(s, t, Idle).(queue := Without(s.queue, cb), cancelled := s.cancelled + {cb}, deleted := s.deleted + [cb])
      else Set(s, t, Idle).(halted := true)
    case Stop =>
      if s.stop then Set(s, t, Idle) else SignalSleeper(Set(s, t, Idle).(stop := true))
    case MainStart => Turn(s)
    case MainAfterSleep => if s.queue == [] then Rest(s) else Turn(s.(idle := false))
    case MainAfterRun => if s.inflight.Some? then Set(s, t, Idle).(halted := true) else Turn(s)
  }

  // --- Steps ------------------------------------------------------------------------------------------------------

  datatype Event =
    | Begin(t: nat, work: Work)               // a client calls schedule, cancel or stop
    | Try(t: nat, work: Work)                 // the same, but only if the mutex is free
    | Look(t: nat)                            // a woken waiter looks at the mutex
    | Spurious(t: nat)                        // a condition wait returns unasked
    | Finish(t: nat, pick: Option<nat>)       // the owner runs its section and releases
    | Launch                                  // the callback thread starts and goes for the mutex
    | Wake                                    // the roused callback thread goes for the mutex
    | Executed                                // a callback returns and is deleted

  predicate ClientWork(work: Work) {
    work.Schedule? || work.Cancel? || work.Stop?
  }

  ghost predicate Enabled(s: State, e: Event) {
    && !s.halted && s.threads != []
    && match e
       case Begin(t, work) => 0 < t < |s.threads| && s.threads[t].Idle? && ClientWork(work)
       case Try(t, work) => 0 < t < |s.threads| && s.threads[t].Idle? && ClientWork(work)
       case Look(t) => t < |s.threads| && s.threads[t].Woken? && s.waiters > 0
       case Spurious(t) => t < |s.threads| && (s.threads[t].Blocked? || s.threads[t].Asleep?)
       case Finish(t, pick) =>
         && t < |s.threads| && s.threads[t].Holding? && s.owner == Some(t)
         && Wakeable(Section(s, t, s.threads[t].work).threads, s.waiters, pick)
       case Launch => s.threads[0].Unstarted?
       case Wake => s.threads[0].Roused?
       case Executed => s.threads[0].Running?
  }

  ghost function Do(s: State, e: Event): State
    requires Enabled(s, e)
  {
    match e
    case Begin(t, work) => Acquire(s, t, work)
    case Try(t, work) => if s.owner.Some? then s else Acquire(s, t, work)
    case Look(t) => Retry(s, t)
    case Spurious(t) => Set(s, t, if s.threads[t].Asleep? then Roused else Woken(s.threads[t].work))
    case Finish(t, pick) => Release(Section(s, t, s.threads[t].work), pick)
    case Launch => Acquire(s, 0, MainStart)
    case Wake => Acquire(s, 0, MainAfterSleep)
    case Executed => Acquire(s.(deleted := s.deleted + [s.threads[0].cb]), 0, MainAfterRun)
  }

  /** Nobody has done anything yet; clients may well be at work before the callback thread is started. */
  ghost predicate Init(s: State) {
    && s.threads != []
    && s.threads[0].Unstarted? && s.owner.None?
    && (forall i :: 0 < i < |s.threads| ==> s.threads[i].Idle?)
    && s.waiters == 0 && s.queue == [] && s.inflight.None? && !s.idle && !s.stop && !s.halted
    && s.count == 0 && s.cancelled == {} && s.ran == [] && s.deleted == []
  }

  ghost predicate IsRun(ss: seq<State>, es: seq<Event>) {
    && |ss| == |es| + 1
    && Init(ss[0])
    && forall i :: 0 <= i < |es| ==> Enabled(ss[i], es[i]) && ss[i + 1] == Do(ss[i], es[i])
  }

  // --- The mutex is exclusive and never sleeps on a free lock ----------------------------------------------------------

  function CountWaiting(ts: seq<Status>): nat {
    if ts == [] then 0 else (if Waiting(ts[0]) then 1 else 0) + CountWaiting(ts[1..])
  }

  /** One owner at most; the waiters are counted; a free mutex that someone waits for has woken someone. */
  ghost predicate LockOk(ts: seq<Status>, owner: Option<nat>, waiters: nat) {
    && (forall i :: 0 <= i < |ts| ==> (ts[i].Holding? <==> owner == Some(i)))
    && (owner.Some? ==> owner.value < |ts|)
    && waiters == CountWaiting(ts)
    && (owner.None? && SomeBlocked(ts) ==> SomeWoken(ts))
  }

  lemma {:induction false} CountUpdate(ts: seq<Status>, i: nat, t: Status)
    requires i < |ts|
    ensures CountWaiting(ts[i := t]) + (if Waiting(ts[i]) then 1 else 0) == CountWaiting(ts) + (if Waiting(t) then 1 else 0)
  {
    if i == 0 {
      assert ts[i := t][1..] == ts[1..];
    } else {
      assert ts[i := t][1..] == ts[1..][i - 1 := t];
      CountUpdate(ts[1..], i - 1, t);
    }
  }

  lemma {:induction false} CountSame(ts: seq<Status>, us: seq<Status>)
    requires |ts| == |us|
    requires forall i :: 0 <= i < |ts| ==> (Waiting(ts[i]) <==> Waiting(us[i]))
    ensures CountWaiting(ts) == CountWaiting(us)
  {
    if ts != [] {
      assert forall i :: 0 <= i < |ts| - 1 ==> ts[1..][i] == ts[i + 1] && us[1..][i] == us[i + 1];
      CountSame(ts[1..], us[1..]);
    }
  }

  lemma {:induction false} CountSome(ts: seq<Status>, i: nat)
    requires i < |ts| && Waiting(ts[i])
    ensures CountWaiting(ts) > 0
  {
    if i > 0 {
      CountSome(ts[1..], i - 1);
    }
  }

  lemma {:induction false} AcquireKeepsLock(s: State, t: nat, work: Work)
    requires LockOk(s.threads, s.owner, s.waiters)
    requires t < |s.threads| && !Busy(s.threads[t])
    ensures LockOk(Acquire(s, t, work).threads, Acquire(s, t, work).owner, Acquire(s, t, work).waiters)
  {
    CountUpdate(s.threads, t, Acquire(s, t, work).threads[t]);
  }

  lemma {:induction false} RetryKeepsLock(s: State, t: nat)
    requires LockOk(s.threads, s.owner, s.waiters)
    requires t < |s.threads| && s.threads[t].Woken? && s.waiters > 0
    ensures LockOk(Retry(s, t).threads, Retry(s, t).owner, Retry(s, t).waiters)
  {
    CountUpdate(s.threads, t, Retry(s, t).threads[t]);
  }

  lemma {:induction false} SpuriousKeepsLock(ts: seq<Status>, owner: Option<nat>, waiters: nat, t: nat)
    requires LockOk(ts, owner, waiters)
    requires t < |ts| && (ts[t].Blocked? || ts[t].Asleep?)
    ensures LockOk(ts[t := if ts[t].Asleep? then Roused else Woken(ts[t].work)], owner, waiters)
  {
    var us := ts[t := if ts[t].Asleep? then Roused else Woken(ts[t].work)];
    CountSame(ts, us);
    if owner.None? && SomeBlocked(us) {
      var i :| 0 <= i < |us| && us[i].Blocked?;
      assert ts[i].Blocked?;
      var j :| 0 <= j < |ts| && ts[j].Woken?;
      assert us[j].Woken?;
    }
  }

  /** Running a section leaves the owner not busy, and does nothing to the other threads but rouse a sleeper. */
  ghost predicate Ran(ts: seq<Status>, us: seq<Status>, t: nat) {
    && |us| == |ts| && t < |ts|
    && !Busy(us[t])
    && forall i :: 0 <= i < |ts| && i != t ==> us[i] == ts[i] || (ts[i].Asleep? && us[i].Roused?)
  }

  lemma {:induction false} ReleaseKeepsLock(s: State, s': State, t: nat, pick: Option<nat>)
    requires LockOk(s.threads, s.owner, s.waiters)
    requires t < |s.threads| && s.owner == Some(t)
    requires Ran(s.threads, s'.threads, t) && s'.waiters == s.waiters
    requires Wakeable(s'.threads, s.waiters, pick)
    ensures LockOk(Release(s', pick).threads, None, s.waiters)
  {
    var us := Release(s', pick).threads;
    CountSame(s.threads, us);
    if SomeBlocked(us) {
      var i :| 0 <= i < |us| && us[i].Blocked?;
      assert s'.threads[i].Blocked?;
      CountSome(us, i);
      assert pick.Some?;
      assert us[pick.value].Woken?;
    }
  }

  // --- The callbacks ------------------------------------------------------------------------------------------------------

  /** The callbacks queued so far that no cancel took out, in the order in which they were queued. */
  function Survivors(n: nat, cancelled: set<nat>): seq<nat> {
    if n == 0 then [] else Survivors(n - 1, cancelled) + (if n - 1 in cancelled then [] else [n - 1])
  }

  ghost predicate NoRepeats(q: seq<nat>) {
    forall i, j :: 0 <= i < j < |q| ==> q[i] != q[j]
  }

  /** The callback thread sleeps unsignalled only with nothing to do and no order to stop. */
  ghost predicate SleepOk(main: Status, queue: seq<nat>, idle: bool, stop: bool) {
    && (main.Asleep? ==> queue == [] && !stop)
    && (idle <==> main.Asleep? || main.Roused? || (Busy(main) && main.work.MainAfterSleep?) || main.Returned?)
  }

  ghost predicate RolesOk(ts: seq<Status>, halted: bool) {
    && ts != []
    && (Busy(ts[0]) ==> !ClientWork(ts[0].work))
    && (ts[0].Idle? ==> halted)
    && forall i :: 0 < i < |ts| ==> ts[i].Idle? || (Busy(ts[i]) && ClientWork(ts[i].work))
  }

  /** The callback being executed, or just executed. */
  ghost predicate InflightOk(main: Status, inflight: Option<nat>, ran: seq<nat>) {
    && (main.Running? ==> ran != [] && main.cb == ran[|ran| - 1])
    && (inflight.Some? ==> ran != [] && inflight.value == ran[|ran| - 1])
    && (inflight.Some? ==> main.Running? || main.Idle? || (Busy(main) && main.work.MainAfterRun?))
  }

  /** What has been deleted: whatever was cancelled in the queue, and whatever has finished executing. */
  ghost predicate DeletedOk(main: Status, ran: seq<nat>, cancelled: set<nat>, deleted: seq<nat>) {
    && NoRepeats(deleted)
    && forall cb :: cb in deleted <==> cb in cancelled || (cb in ran && !(main == Running(cb)))
  }

  ghost predicate CallbacksOk(s: State) {
    && (forall cb :: cb in s.cancelled ==> cb < s.count)
    && s.ran + s.queue == Survivors(s.count, s.cancelled)
  }

  ghost predicate Inv(s: State) {
    && RolesOk(s.threads, s.halted)
    && LockOk(s.threads, s.owner, s.waiters)
    && SleepOk(s.threads[0], s.queue, s.idle, s.stop)
    && InflightOk(s.threads[0], s.inflight, s.ran)
    && DeletedOk(s.threads[0], s.ran, s.cancelled, s.deleted)
    && CallbacksOk(s)
  }

  lemma {:induction false} SurvivorsOrdered(n: nat, c: set<nat>)
    ensures forall i :: 0 <= i < |Survivors(n, c)| ==> Survivors(n, c)[i] < n && Survivors(n, c)[i] !in c
    ensures forall i, j :: 0 <= i < j < |Survivors(n, c)| ==> Survivors(n, c)[i] < Survivors(n, c)[j]
    ensures forall k: nat :: k < n && k !in c ==> k in Survivors(n, c)
  {
    if n > 0 {
      SurvivorsOrdered(n - 1, c);
    }
  }

  lemma {:induction false} SurvivorsIgnore(n: nat, c: set<nat>, k: nat)
    requires k >= n
    ensures Survivors(n, c + {k}) == Survivors(n, c)
  {
    if n > 0 {
      SurvivorsIgnore(n - 1, c, k);
    }
  }

  lemma {:induction false} WithoutTail(q: seq<nat>, x: nat, cb: nat)
    requires x != cb
    ensures Without(q + [x], cb) == Without(q, cb) + [x]
  {
    if q == [] {
      assert q + [x] == [x];
      assert [x][1..] == [];
      assert Without([], cb) == [];
    } else {
      assert (q + [x])[1..] == q[1..] + [x];
      if q[0] != cb {
        WithoutTail(q[1..], x, cb);
      }
    }
  }

  lemma {:induction false} WithoutLast(q: seq<nat>, cb: nat)
    requires cb !in q
    ensures Without(q + [cb], cb) == q
  {
    if q == [] {
      assert q + [cb] == [cb];
      assert [cb][1..] == [];
    } else {
      assert (q + [cb])[1..] == q[1..] + [cb];
      WithoutLast(q[1..], cb);
    }
  }

  lemma {:induction false} WithoutAfter(p: seq<nat>, q: seq<nat>, cb: nat)
    requires cb !in p
    ensures Without(p + q, cb) == p + Without(q, cb)
  {
    if p == [] {
      assert p + q == q;
    } else {
      assert (p + q)[1..] == p[1..] + q;
      WithoutAfter(p[1..], q, cb);
    }
  }

  lemma {:induction false} SurvivorsCancel(n: nat, c: set<nat>, cb: nat)
    requires cb < n && cb !in c
    ensures Survivors(n, c + {cb}) == Without(Survivors(n, c), cb)
  {
    SurvivorsOrdered(n - 1, c);
    if cb == n - 1 {
      SurvivorsIgnore(n - 1, c, cb);
      WithoutLast(Survivors(n - 1, c), cb);
    } else {
      SurvivorsCancel(n - 1, c, cb);
      if n - 1 !in c {
        WithoutTail(Survivors(n - 1, c), n - 1, cb);
      } else {
        assert Survivors(n, c) == Survivors(n - 1, c);
      }
    }
  }

  // --- Every step keeps the invariant -------------------------------------------------------------------------------------------

  lemma {:induction false} QueuedIsFresh(s: State, k: nat)
    requires CallbacksOk(s) && k < |s.queue|
    ensures s.queue[k] !in s.ran && s.queue[k] !in s.cancelled && s.queue[k] < s.count
  {
    SurvivorsOrdered(s.count, s.cancelled);
    var all := s.ran + s.queue;
    assert all[|s.ran| + k] == s.queue[k];
    assert forall i :: 0 <= i < |s.ran| ==> all[i] == s.ran[i];
  }

  lemma {:induction false} DeletedSteady(before: Status, after: Status, ran: seq<nat>, cancelled: set<nat>, deleted: seq<nat>)
    requires DeletedOk(before, ran, cancelled, deleted)
    requires before == after || (!before.Running? && !after.Running?)
    ensures DeletedOk(after, ran, cancelled, deleted)
  {
    if before != after {
      assert forall cb :: before != Running(cb) && after != Running(cb);
    }
  }

  /** Acquiring changes nothing but the mutex and the status of the thread. */
  lemma {:induction false} AcquireChanges(s: State, t: nat, work: Work)
    requires t < |s.threads|
    ensures exists st :: Busy(st) && st.work == work && Acquire(s, t, work).threads == s.threads[t := st]
    ensures var s' := Acquire(s, t, work); s' == s.(owner := s'.owner, waiters := s'.waiters, threads := s'.threads)
  {
    var st := if s.owner.Some? then Blocked(work) else Holding(work);
    assert Busy(st) && st.work == work && Acquire(s, t, work).threads == s.threads[t := st];
  }

  lemma {:induction false} AcquireKeeps(s: State, t: nat, work: Work)
    requires Inv(s) && t < |s.threads| && !Busy(s.threads[t])
    requires if t == 0 then !ClientWork(work) else ClientWork(work)
    requires t == 0 ==> !s.threads[0].Running? && (work.MainAfterSleep? <==> s.idle)
    requires t == 0 ==> s.inflight.None? || work.MainAfterRun?
    ensures Inv(Acquire(s, t, work))
  {
    var s' := Acquire(s, t, work);
    AcquireKeepsLock(s, t, work);
    AcquireChanges(s, t, work);
    hide Acquire, LockOk, Survivors, DeletedOk;
    DeletedSteady(s.threads[0], s'.threads[0], s.ran, s.cancelled, s.deleted);
    assert RolesOk(s'.threads, s'.halted);
    assert SleepOk(s'.threads[0], s'.queue, s'.idle, s'.stop);
    assert InflightOk(s'.threads[0], s'.inflight, s'.ran);
  }

  lemma {:induction false} DeleteRan(ran: seq<nat>, cancelled: set<nat>, deleted: seq<nat>, cb: nat, after: Status)
    requires DeletedOk(Running(cb), ran, cancelled, deleted)
    requires cb in ran && cb !in cancelled && !after.Running?
    ensures DeletedOk(after, ran, cancelled, deleted + [cb])
  {
    assert cb !in deleted;
  }

  lemma {:induction false} ExecutedKeeps(s: State)
    requires Inv(s) && s.threads[0].Running?
    ensures Inv(Acquire(s.(deleted := s.deleted + [s.threads[0].cb]), 0, MainAfterRun))
  {
    var s' := Acquire(s.(deleted := s.deleted + [s.threads[0].cb]), 0, MainAfterRun);
    AcquireKeepsLock(s, 0, MainAfterRun);
    RunningIsFresh(s);
    DeleteRan(s.ran, s.cancelled, s.deleted, s.threads[0].cb, s'.threads[0]);
    hide LockOk, Survivors, DeletedOk;
  }

  lemma {:induction false} RunningIsFresh(s: State)
    requires Inv(s) && s.threads[0].Running?
    ensures s.threads[0].cb !in s.cancelled
  {
    SurvivorsOrdered(s.count, s.cancelled);
    var all := s.ran + s.queue;
    assert all[|s.ran| - 1] == s.threads[0].cb;
  }

  lemma {:induction false} ScheduleKeeps(s: State, t: nat)
    requires Inv(s) && 0 < t < |s.threads| && s.owner == Some(t)
    ensures Ran(s.threads, Section(s, t, Schedule).threads, t)
    ensures Kept(Section(s, t, Schedule))
  {
    var s' := Section(s, t, Schedule);
    assert s'.ran + s'.queue == s.ran + s.queue + [s.count];
    assert s'.ran + s'.queue == Survivors(s'.count, s'.cancelled);
    hide Survivors, LockOk;
  }

  /** All of the invariant but the state of the mutex. */
  ghost predicate Kept(s: State) {
    && RolesOk(s.threads, s.halted)
    && SleepOk(s.threads[0], s.queue, s.idle, s.stop)
    && InflightOk(s.threads[0], s.inflight, s.ran)
    && DeletedOk(s.threads[0], s.ran, s.cancelled, s.deleted)
    && CallbacksOk(s)
  }

  lemma {:induction false} CancelKeeps(s: State, t: nat, cb: nat)
    requires Inv(s) && 0 < t < |s.threads| && s.owner == Some(t)
    ensures Ran(s.threads, Section(s, t, Cancel(cb)).threads, t)
    ensures Kept(Section(s, t, Cancel(cb)))
  {
    hide Survivors, LockOk;
    if s.inflight != Some(cb) && cb in s.queue {
      var k: nat :| k < |s.queue| && s.queue[k] == cb;
      QueuedIsFresh(s, k);
      SurvivorsCancel(s.count, s.cancelled, cb);
      WithoutAfter(s.ran, s.queue, cb);
    }
  }

  lemma {:induction false} StopKeeps(s: State, t: nat)
    requires Inv(s) && 0 < t < |s.threads| && s.owner == Some(t)
    ensures Ran(s.threads, Section(s, t, Stop).threads, t)
    ensures Kept(Section(s, t, Stop))
  {
    hide Survivors, LockOk;
  }

  lemma {:induction false} TurnKeeps(s: State)
    requires Kept(s) && s.threads[0].Holding? && s.inflight.None? && !s.idle
    ensures Ran(s.threads, Turn(s).threads, 0)
    ensures Kept(Turn(s))
  {
    hide Survivors;
    if s.queue != [] {
      QueuedIsFresh(s, 0);
      assert Turn(s).ran + Turn(s).queue == s.ran + s.queue;
    }
  }

  lemma {:induction false} MainKeeps(s: State)
    requires Inv(s) && s.owner == Some(0) && s.threads[0].Holding?
    ensures Ran(s.threads, Section(s, 0, s.threads[0].work).threads, 0)
    ensures Kept(Section(s, 0, s.threads[0].work))
  {
    hide Survivors, LockOk;
    match s.threads[0].work
    case MainStart => TurnKeeps(s);
    case MainAfterSleep =>
      if s.queue != [] {
        var s1 := s.(idle := false, threads := s.threads[0 := Holding(MainStart)]);
        TurnKeeps(s1);
        assert Turn(s1) == Turn(s.(idle := false));
      }
    case MainAfterRun =>
      if s.inflight.None? {
        TurnKeeps(s);
      }
  }

  lemma {:induction false} SectionKeeps(s: State, t: nat)
    requires Inv(s) && t < |s.threads| && s.owner == Some(t) && s.threads[t].Holding?
    ensures Ran(s.threads, Section(s, t, s.threads[t].work).threads, t)
    ensures Kept(Section(s, t, s.threads[t].work))
    ensures Section(s, t, s.threads[t].work).waiters == s.waiters
  {
    if t == 0 {
      MainKeeps(s);
    } else {
      match s.threads[t].work
      case Schedule => ScheduleKeeps(s, t);
      case Cancel(cb) => CancelKeeps(s, t, cb);
      case Stop => StopKeeps(s, t);
    }
  }

  lemma {:induction false} FinishKeeps(s: State, t: nat, pick: Option<nat>)
    requires Inv(s) && Enabled(s, Finish(t, pick))
    ensures Inv(Do(s, Finish(t, pick)))
  {
    SectionKeeps(s, t);
    var s' := Section(s, t, s.threads[t].work);
    ReleaseKeepsLock(s, s', t, pick);
    hide Survivors, LockOk, Section;
  }

  lemma {:induction false} StepKeeps(s: State, e: Event)
    requires Inv(s) && Enabled(s, e)
    ensures Inv(Do(s, e))
  {
    hide Survivors, LockOk, DeletedOk;
    match e
    case Begin(t, work) => AcquireKeeps(s, t, work);
    case Try(t, work) =>
      if s.owner.None? {
        AcquireKeeps(s, t, work);
      }
    case Look(t) =>
      RetryKeepsLock(s, t);
      DeletedSteady(s.threads[0], Retry(s, t).threads[0], s.ran, s.cancelled, s.deleted);
    case Spurious(t) =>
      SpuriousKeepsLock(s.threads, s.owner, s.waiters, t);
      DeletedSteady(s.threads[0], Do(s, e).threads[0], s.ran, s.cancelled, s.deleted);
    case Finish(t, pick) => FinishKeeps(s, t, pick);
    case Launch => AcquireKeeps(s, 0, MainStart);
    case Wake => AcquireKeeps(s, 0, MainAfterSleep);
    case Executed => ExecutedKeeps(s);
  }

  lemma {:induction false} RunKeeps(ss: seq<State>, es: seq<Event>, k: nat)
    requires IsRun(ss, es) && k < |ss|
    ensures Inv(ss[k])
  {
    if k == 0 {
      InitCounts(ss[0].threads);
    } else {
      RunKeeps(ss, es, k - 1);
      StepKeeps(ss[k - 1], es[k - 1]);
    }
  }

  lemma {:induction false} InitCounts(ts: seq<Status>)
    requires forall i :: 0 <= i < |ts| ==> !Waiting(ts[i])
    ensures CountWaiting(ts) == 0
  {
    if ts != [] {
      InitCounts(ts[1..]);
    }
  }

  // --- What every run promises ------------------------------------------------------------------------------------------------

  /** At most one thread owns the mutex, and a free mutex that a thread is blocked on has woken a thread. */
  ghost predicate MutexSafe(s: State) {
    && (forall i, j :: 0 <= i < |s.threads| && 0 <= j < |s.threads| && s.threads[i].Holding? && s.threads[j].Holding? ==> i == j)
    && ((forall i :: 0 <= i < |s.threads| ==> !s.threads[i].Holding?) && SomeBlocked(s.threads) ==> SomeWoken(s.threads))
  }

  /** No wakeup is lost, and the flag that asks for one says whether the callback thread rests. */
  ghost predicate WakeupSafe(s: State) {
    && s.threads != []
    && (s.threads[0].Asleep? ==> s.queue == [] && !s.stop)
    && (s.threads[0].Asleep? || s.threads[0].Roused? || s.threads[0].Returned? ==> s.idle)
    && (s.idle ==> !s.threads[0].Running? && !s.threads[0].Unstarted?)
  }

  /** Callbacks start in the order in which they were queued, and only those that no cancel took out. */
  ghost predicate OrderSafe(s: State) {
    && s.ran + s.queue == Survivors(s.count, s.cancelled)
    && (forall i, j :: 0 <= i < j < |s.ran| ==> s.ran[i] < s.ran[j])
    && (forall cb :: cb in s.cancelled ==> cb !in s.ran && cb !in s.queue)
  }

  /** No callback is deleted twice, or while it is queued or executing. */
  ghost predicate DeletionSafe(s: State) {
    && NoRepeats(s.deleted)
    && (forall cb :: cb in s.deleted ==> cb !in s.queue && s.threads != [] && s.threads[0] != Running(cb))
    && (forall cb :: cb in s.deleted ==> cb in s.cancelled || cb in s.ran)
  }

  ghost predicate Safe(s: State) {
    MutexSafe(s) && WakeupSafe(s) && OrderSafe(s) && DeletionSafe(s)
  }

  lemma {:induction false} InvIsOrdered(s: State)
    requires CallbacksOk(s)
    ensures OrderSafe(s)
    ensures forall cb :: cb in s.queue ==> cb !in s.ran && cb !in s.cancelled
  {
    SurvivorsOrdered(s.count, s.cancelled);
    var all := s.ran + s.queue;
    assert forall i :: 0 <= i < |s.ran| ==> all[i] == s.ran[i];
    assert forall i :: 0 <= i < |s.queue| ==> all[|s.ran| + i] == s.queue[i];
    hide Survivors;
  }

  lemma {:induction false} InvIsSafe(s: State)
    requires Inv(s)
    ensures Safe(s)
  {
    hide Survivors;
    InvIsOrdered(s);
    assert MutexSafe(s);
    hide LockOk, MutexSafe, OrderSafe, CallbacksOk;
    if s.threads[0].Running? {
      RunningIsFresh(s);
    }
  }

  ghost predicate HasReturned(s: State) {
    s.threads != [] && s.threads[0].Returned?
  }

  lemma {:induction false} SectionReturns(s: State, t: nat, work: Work)
    requires t < |s.threads| && !s.threads[0].Returned? && Section(s, t, work).threads[0].Returned?
    ensures s.stop && Section(s, t, work).queue == []
  {
  }

  /** The callback thread returns only when told to stop, and then only with nothing left to run. */
  lemma {:induction false} ReturnsEmptyHanded(s: State, e: Event)
    requires Enabled(s, e)
    requires !HasReturned(s) && HasReturned(Do(s, e))
    ensures s.stop && Do(s, e).queue == []
  {
    if e.Finish? {
      hide Section;
      SectionReturns(s, e.t, s.threads[e.t].work);
    }
  }

  lemma {:induction false} EveryRunIsSafe(ss: seq<State>, es: seq<Event>)
    requires IsRun(ss, es)
    ensures forall k :: 0 <= k < |ss| ==> Safe(ss[k])
    ensures forall k :: 0 <= k < |es| && !HasReturned(ss[k]) && HasReturned(ss[k + 1]) ==> ss[k].stop && ss[k + 1].queue == []
  {
    hide Inv, Safe, Enabled, Do, HasReturned;
    forall k | 0 <= k < |ss|
      ensures Safe(ss[k])
    {
      RunKeeps(ss, es, k);
      InvIsSafe(ss[k]);
    }
    forall k | 0 <= k < |es| && !HasReturned(ss[k]) && HasReturned(ss[k + 1])
      ensures ss[k].stop && ss[k + 1].queue == []
    {
      ReturnsEmptyHanded(ss[k], es[k]);
    }
  }

  // --- Work that is queued gets done -------------------------------------------------------------------------------------------------

  /** A step that no client starts and that is not a spurious wakeup. */
  predicate Internal(e: Event) {
    !e.Begin? && !e.Try? && !e.Spurious?
  }

  /** Somebody is waiting for the mutex, or the callback thread has something to do. */
  ghost predicate Pending(s: State) {
    && !s.halted && s.threads != []
    && ((exists i :: 0 <= i < |s.threads| && Busy(s.threads[i]))
        || ((s.queue != [] || s.stop) && !s.threads[0].Returned?))
  }

  lemma {:induction false} CanRelease(s: State, t: nat) returns (pick: Option<nat>)
    requires Inv(s) && !s.halted && s.owner == Some(t) && t < |s.threads|
    ensures Enabled(s, Finish(t, pick))
  {
    var ts := Section(s, t, s.threads[t].work).threads;
    if s.waiters != 0 && SomeBlocked(ts) {
      var i: nat :| i < |ts| && ts[i].Blocked?;
      pick := Some(i);
    } else {
      pick := None;
    }
  }

  /** There is no deadlock: while there is something to do, some thread can take a step of its own accord. */
  lemma {:induction false} NeverStuck(s: State) returns (e: Event)
    requires Inv(s) && Pending(s)
    ensures Internal(e) && Enabled(s, e)
  {
    if s.owner.Some? {
      var t := s.owner.value;
      var pick := CanRelease(s, t);
      e := Finish(t, pick);
    } else if SomeWoken(s.threads) {
      var i: nat :| i < |s.threads| && s.threads[i].Woken?;
      CountSome(s.threads, i);
      e := Look(i);
    } else {
      e := if s.threads[0].Unstarted? then Launch else if s.threads[0].Roused? then Wake else Executed;
    }
  }

  function Weight(t: Status): nat {
    match t
    case Idle => 0
    case Returned => 0
    case Unstarted => 5
    case Holding(_) => 2
    case Blocked(_) => 3
    case Woken(_) => 4
    case Asleep => 5
    case Roused => 5
    case Running(_) => 5
  }

  /** A bound on the steps that the threads can take before the callback thread looks at the queue. */
  function StepsLeft(ts: seq<Status>): nat {
    if ts == [] then 0 else Weight(ts[0]) + StepsLeft(ts[1..])
  }

  lemma {:induction false} StepsUpdate(ts: seq<Status>, i: nat, t: Status)
    requires i < |ts|
    ensures StepsLeft(ts[i := t]) + Weight(ts[i]) == StepsLeft(ts) + Weight(t)
  {
    if i == 0 {
      assert ts[i := t][1..] == ts[1..];
    } else {
      assert ts[i := t][1..] == ts[1..][i - 1 := t];
      StepsUpdate(ts[1..], i - 1, t);
    }
  }

  lemma {:induction false} StepsSame(ts: seq<Status>, us: seq<Status>)
    requires |ts| == |us|
    requires forall i :: 0 <= i < |ts| ==> Weight(ts[i]) == Weight(us[i])
    ensures StepsLeft(ts) == StepsLeft(us)
  {
    if ts != [] {
      assert forall i :: 0 <= i < |ts| - 1 ==> ts[1..][i] == ts[i + 1] && us[1..][i] == us[i + 1];
      StepsSame(ts[1..], us[1..]);
    }
  }

  lemma {:induction false} StepsBound(ts: seq<Status>)
    ensures StepsLeft(ts) <= 5 * |ts|
  {
    if ts != [] {
      StepsBound(ts[1..]);
    }
  }

  /** The queue was served, or there is nothing (more) to serve. */
  ghost predicate Served(s: State, s': State) {
    s'.halted || s'.queue == [] || |s'.ran| > |s.ran|
  }

  lemma {:induction false} ClientFinishes(s: State, t: nat, pick: Option<nat>)
    requires Inv(s) && Enabled(s, Finish(t, pick)) && t != 0
    ensures StepsLeft(Do(s, Finish(t, pick)).threads) < StepsLeft(s.threads)
  {
    var us := Section(s, t, s.threads[t].work).threads;
    SectionKeeps(s, t);
    assert us[t].Idle?;
    StepsUpdate(s.threads, t, Idle);
    assert forall i :: 0 <= i < |us| ==> Weight(us[i]) == Weight(s.threads[t := Idle][i]);
    StepsSame(us, s.threads[t := Idle]);
    hide Inv, Section;
    if pick.Some? {
      StepsUpdate(us, pick.value, Woken(us[pick.value].work));
    }
  }

  lemma {:induction false} MainFinishes(s: State, pick: Option<nat>)
    requires Inv(s) && Enabled(s, Finish(0, pick))
    ensures Served(s, Do(s, Finish(0, pick)))
  {
    hide LockOk, Survivors;
  }

  lemma {:induction false} StepDecreases(s: State, e: Event)
    requires Inv(s) && Enabled(s, e) && Internal(e)
    ensures Served(s, Do(s, e)) || StepsLeft(Do(s, e).threads) < StepsLeft(s.threads)
  {
    match e
    case Look(t) => StepsUpdate(s.threads, t, Retry(s, t).threads[t]);
    case Finish(t, pick) =>
      if t == 0 {
        MainFinishes(s, pick);
      } else {
        ClientFinishes(s, t, pick);
      }
    case Launch => StepsUpdate(s.threads, 0, Do(s, e).threads[0]);
    case Wake => StepsUpdate(s.threads, 0, Do(s, e).threads[0]);
    case Executed => StepsUpdate(s.threads, 0, Do(s, e).threads[0]);
  }

  lemma {:induction false} RanGrows(s: State, e: Event)
    requires Enabled(s, e)
    ensures |Do(s, e).ran| >= |s.ran|
  {
    if e.Finish? {
      hide Wakeable;
      assert |Section(s, e.t, s.threads[e.t].work).ran| >= |s.ran|;
      hide Section;
    }
  }

  lemma {:induction false} UnservedIsShort(ss: seq<State>, es: seq<Event>, first: nat, last: nat)
    requires IsRun(ss, es) && first <= last <= |es|
    requires forall k :: first <= k < last ==> Internal(es[k])
    requires forall k :: first < k <= last ==> !Served(ss[first], ss[k])
    ensures last - first + StepsLeft(ss[last].threads) <= StepsLeft(ss[first].threads)
    ensures |ss[last].ran| >= |ss[first].ran|
    decreases last
  {
    hide Inv, Do, Enabled;
    if first < last {
      UnservedIsShort(ss, es, first, last - 1);
      RunKeeps(ss, es, last - 1);
      StepDecreases(ss[last - 1], es[last - 1]);
      RanGrows(ss[last - 1], es[last - 1]);
    }
  }

  /**
    Left to themselves, the threads serve the queue: however they are scheduled, once clients make no
    new call and no wait returns unasked, then within five steps for each thread a callback is
    started, or the queue is empty, or the program has halted. (While there is something to do,
    `NeverStuck` finds them a step to take.)
  */
  lemma {:induction false} ServedSoon(ss: seq<State>, es: seq<Event>, first: nat, last: nat)
    requires IsRun(ss, es) && first <= last <= |es|
    requires forall k :: first <= k < last ==> Internal(es[k])
    requires last - first > 5 * |ss[first].threads|
    ensures exists k :: first < k <= last && Served(ss[first], ss[k])
  {
    if forall k :: first < k <= last ==> !Served(ss[first], ss[k]) {
      UnservedIsShort(ss, es, first, last);
      StepsBound(ss[first].threads);
    }
  }

  // --- When the program halts ----------------------------------------------------------------------------------------------------------

  /** The section that the owner is about to run, if any. */
  predicate Runs(s: State, e: Event, work: Work) {
    e.Finish? && e.t < |s.threads| && s.threads[e.t] == Holding(work)
  }

  /** A cancel that finds its callback neither in flight nor queued, or a callback that returned without having been cancelled. */
  predicate Offends(s: State, e: Event) {
    && e.Finish? && e.t < |s.threads| && s.threads[e.t].Holding?
    && match s.threads[e.t].work
       case Cancel(cb) => s.inflight != Some(cb) && cb !in s.queue
       case MainAfterRun => s.inflight.Some?
       case _ => false
  }

  lemma {:induction false} HaltsExactly(s: State, e: Event)
    requires Enabled(s, e)
    ensures Do(s, e).halted <==> Offends(s, e)
  {
    hide Wakeable;
  }

  /** A run has halted exactly if its last step offended. */
  lemma {:induction false} HaltedExactly(ss: seq<State>, es: seq<Event>, n: nat)
    requires IsRun(ss, es) && n < |ss|
    ensures ss[n].halted <==> n > 0 && Offends(ss[n - 1], es[n - 1])
    ensures ss[n].halted ==> n == |es|
  {
    if n > 0 {
      HaltsExactly(ss[n - 1], es[n - 1]);
    }
    if n < |es| {
      assert Enabled(ss[n], es[n]);
    }
  }

  /** Step `j` cancels `cb` while it is in flight. */
  predicate CancelsInflight(s: State, e: Event, cb: nat) {
    Runs(s, e, Cancel(cb)) && s.inflight == Some(cb)
  }

  /** What is asked of clients: no cancel misses, and whatever is executed is cancelled before it returns. */
  ghost predicate Disciplined(ss: seq<State>, es: seq<Event>)
    requires IsRun(ss, es)
  {
    && (forall k, cb: nat :: 0 <= k < |es| && Runs(ss[k], es[k], Cancel(cb)) ==> ss[k].inflight == Some(cb) || cb in ss[k].queue)
    && (forall k :: 0 <= k < |es| && es[k].Executed? ==> exists j :: 0 <= j < k && CancelsInflight(ss[j], es[j], ss[k].threads[0].cb))
  }

  /** The callback has started and is not in flight. */
  predicate Settled(s: State, cb: nat) {
    cb in s.ran && s.inflight != Some(cb)
  }

  lemma {:induction false} CancelSettles(s: State, e: Event, cb: nat)
    requires Inv(s) && Enabled(s, e) && CancelsInflight(s, e, cb)
    ensures Settled(Do(s, e), cb)
  {
    hide LockOk, DeletedOk, CallbacksOk, SleepOk, RolesOk, Wakeable;
  }

  /** A callback starts only once, so one that is no longer in flight never is again. */
  lemma {:induction false} SettledStays(s: State, e: Event, cb: nat)
    requires Inv(s) && Enabled(s, e) && Settled(s, cb)
    ensures Settled(Do(s, e), cb)
  {
    if s.queue != [] {
      QueuedIsFresh(s, 0);
    }
    hide Inv, Wakeable;
    if e.Finish? {
      SectionSettled(s, e.t, s.threads[e.t].work, cb);
      hide Section;
    }
  }

  lemma {:induction false} SectionSettled(s: State, t: nat, work: Work, cb: nat)
    requires t < |s.threads| && Settled(s, cb) && (s.queue != [] ==> s.queue[0] !in s.ran)
    ensures Settled(Section(s, t, work), cb)
  {
    hide Without;
  }

  lemma {:induction false} SettledUntil(ss: seq<State>, es: seq<Event>, j: nat, k: nat, cb: nat)
    requires IsRun(ss, es) && j < k <= |es| && CancelsInflight(ss[j], es[j], cb)
    ensures Settled(ss[k], cb)
    decreases k
  {
    hide Inv, Enabled, Do, CancelsInflight, Settled;
    RunKeeps(ss, es, k - 1);
    if k == j + 1 {
      CancelSettles(ss[j], es[j], cb);
    } else {
      SettledUntil(ss, es, j, k - 1, cb);
      SettledStays(ss[k - 1], es[k - 1], cb);
    }
  }

  /** Between its execution and its next turn, the callback thread has nothing in flight. */
  predicate WellRun(s: State) {
    !s.halted && s.threads != [] && (Busy(s.threads[0]) && s.threads[0].work.MainAfterRun? ==> s.inflight.None?)
  }

  lemma {:induction false} SettledMeansNone(s: State)
    requires Inv(s) && s.threads[0].Running? && Settled(s, s.threads[0].cb)
    ensures s.inflight.None?
  {
    hide LockOk, DeletedOk, CallbacksOk, SleepOk, RolesOk;
  }

  lemma {:induction false} WellRunStays(s: State, e: Event)
    requires Inv(s) && Enabled(s, e) && WellRun(s) && !Offends(s, e)
    requires e.Executed? ==> s.inflight.None?
    ensures WellRun(Do(s, e))
  {
    HaltsExactly(s, e);
    hide LockOk, DeletedOk, CallbacksOk, SleepOk, InflightOk, Offends, Wakeable;
    if e.Finish? {
      SectionWellRun(s, e.t);
      hide Section, RolesOk;
    }
  }

  /** A section leaves the callback thread on its way to sleep or to a callback, or as it was. */
  lemma {:induction false} SectionWellRun(s: State, t: nat)
    requires RolesOk(s.threads, s.halted) && t < |s.threads| && s.threads[t].Holding? && WellRun(s)
    ensures var s' := Section(s, t, s.threads[t].work);
            |s'.threads| == |s.threads| && (Busy(s'.threads[0]) && s'.threads[0].work.MainAfterRun? ==> s'.inflight.None?)
  {
    if t == 0 {
      MainMovesOn(s, s.threads[0].work);
    } else {
      hide Turn, Rest, Without;
    }
  }

  lemma {:induction false} MainMovesOn(s: State, work: Work)
    requires s.threads != [] && !ClientWork(work)
    ensures |Section(s, 0, work).threads| == |s.threads| && !Busy(Section(s, 0, work).threads[0])
  {
  }

  /** A run whose clients cancel in flight whatever is executed, and miss with no cancel, never halts. */
  lemma {:induction false} DisciplinedNeverHalts(ss: seq<State>, es: seq<Event>, n: nat)
    requires IsRun(ss, es) && Disciplined(ss, es) && n < |ss|
    ensures WellRun(ss[n])
  {
    hide Inv, Enabled, Do, CancelsInflight, Settled;
    if n > 0 {
      var s, e := ss[n - 1], es[n - 1];
      DisciplinedNeverHalts(ss, es, n - 1);
      RunKeeps(ss, es, n - 1);
      if e.Executed? {
        ExecutedRuns(s, e);
        var j :| 0 <= j < n - 1 && CancelsInflight(ss[j], es[j], s.threads[0].cb);
        SettledUntil(ss, es, j, n - 1, s.threads[0].cb);
        SettledMeansNone(s);
      }
      NoOffence(s, e);
      WellRunStays(s, e);
    }
  }

  lemma {:induction false} ExecutedRuns(s: State, e: Event)
    requires Enabled(s, e) && e.Executed?
    ensures s.threads[0].Running?
  {
  }

  lemma {:induction false} NoOffence(s: State, e: Event)
    requires Inv(s) && Enabled(s, e) && WellRun(s)
    requires forall cb: nat :: Runs(s, e, Cancel(cb)) ==> s.inflight == Some(cb) || cb in s.queue
    ensures !Offends(s, e)
  {
    hide LockOk, DeletedOk, CallbacksOk, SleepOk, InflightOk, Wakeable;
    if e.Finish? && s.threads[e.t].work.Cancel? {
      assert Runs(s, e, Cancel(s.threads[e.t].work.cb));
    }
  }

  /** With disciplined clients the queue is served: a callback is started, or none is left. */
  lemma {:induction false} ServedForSure(ss: seq<State>, es: seq<Event>, first: nat, last: nat)
    requires IsRun(ss, es) && Disciplined(ss, es) && first <= last <= |es|
    requires forall k :: first <= k < last ==> Internal(es[k])
    requires last - first > 5 * |ss[first].threads|
    ensures exists k :: first < k <= last && (ss[k].queue == [] || |ss[k].ran| > |ss[first].ran|)
  {
    hide Enabled, Do, Init, Disciplined;
    ServedSoon(ss, es, first, last);
    var k :| first < k <= last && Served(ss[first], ss[k]);
    DisciplinedNeverHalts(ss, es, k);
  }
}
