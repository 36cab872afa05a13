/**
  The mutex and the callback thread as objects. A method covers what happens under one lock, up to the
  point where the thread waits or lets go; how threads interleave is the business of `Threads`.
*/
module ThreadsImpl {
  import opened Bytes
  import opened Threads

  /** The state of a mutex, itself guarded by a pthread mutex. */
  class MutexState {
    var owner: Option<nat>
    var waiters: nat

    ghost predicate Shares(s: State)
      reads this
    {
      s.owner == owner && s.waiters == waiters
    }

    /** Up to the first wait, if there has to be one. */
    method LockAcquire(self: nat, ghost s: State, ghost work: Work) returns (acquired: bool)
      requires Shares(s) && self < |s.threads|
      modifies this
      ensures Shares(Acquire(s, self, work))
      ensures Acquire(s, self, work).threads[self] == if acquired then Holding(work) else Blocked(work)
    {
      if owner.Some? {
        waiters := waiters + 1;
        return false;
      }
      owner := Some(self);
      return true;
    }

    /** What a waiter does each time its wait returns. */
    method LockRetry(self: nat, ghost s: State) returns (acquired: bool)
      requires Shares(s) && self < |s.threads| && s.threads[self].Woken? && waiters > 0
      modifies this
      ensures Shares(Retry(s, self))
      ensures Retry(s, self).threads[self] == if acquired then Holding(s.threads[self].work) else Blocked(s.threads[self].work)
    {
      if owner.Some? {
        return false;
      }
      waiters := waiters - 1;
      owner := Some(self);
      return true;
    }

    method LockAcquireTry(self: nat, ghost s: State, ghost work: Work) returns (acquired: bool)
      requires Shares(s) && Enabled(s, Try(self, work))
      modifies this
      ensures Shares(Do(s, Try(self, work)))
      ensures Do(s, Try(self, work)).threads[self] == if acquired then Holding(work) else Idle
    {
      if owner.Some? {
        return false;
      }
      owner := Some(self);
      return true;
    }

    /** A signal wakes one of the blocked threads, if there are any. */
    method LockRelease(self: nat, ghost s: State, ghost pick: Option<nat>) returns (signal: bool)
      requires Shares(s) && owner == Some(self) && Wakeable(s.threads, s.waiters, pick)
      modifies this
      ensures Shares(Release(s, pick))
      ensures pick.Some? ==> signal
      ensures signal && pick.None? ==> !SomeBlocked(s.threads)
    {
      owner := None;
      signal := waiters != 0;
    }
  }

  datatype Cancelled = WasInflight | WasQueued | NotFound

  class CallbackThread {
    var queue: seq<nat>
    var inflight: Option<nat>
    var idle: bool
    var stop: bool

    ghost predicate Shares(s: State)
      reads this
    {
      s.queue == queue && s.inflight == inflight && s.idle == idle && s.stop == stop
    }

    method Schedule(cb: nat, ghost s: State, ghost t: nat) returns (signal: bool)
      requires Shares(s) && 0 < t < |s.threads| && cb == s.count
      modifies this
      ensures Shares(Section(s, t, Work.Schedule))
      ensures s.threads[0].Asleep? ==> Section(s, t, Work.Schedule).threads[0] == if signal then Roused else Asleep
    {
      var needWakeup := queue == [];
      queue := queue + [cb];
      signal := needWakeup && idle;
    }

    /** Whoever finds the callback in the queue deletes it; one in flight is left to the callback thread. */
    method Cancel(cb: nat, ghost s: State, ghost t: nat) returns (r: Cancelled)
      requires Shares(s) && t < |s.threads|
      modifies this
      ensures Shares(Section(s, t, Work.Cancel(cb)))
      ensures Section(s, t, Work.Cancel(cb)).deleted == if r.WasQueued? then s.deleted + [cb] else s.deleted
      ensures Section(s, t, Work.Cancel(cb)).halted == (s.halted || r.NotFound?)
    {
      if inflight == Some(cb) {
        inflight := None;
        return WasInflight;
      }
      var i := 0;
      while i < |queue|
        invariant i <= |queue| && queue == s.queue && cb !in queue[..i]
        invariant inflight == s.inflight && idle == s.idle && stop == s.stop
      {
        if queue[i] == cb {
          WithoutAt(queue, i);
          queue := queue[..i] + queue[i + 1..];
          return WasQueued;
        }
        i := i + 1;
      }
      return NotFound;
    }

    method StopThread(ghost s: State, ghost t: nat) returns (signal: bool)
      requires Shares(s) && 0 < t < |s.threads|
      modifies this
      ensures Shares(Section(s, t, Stop))
      ensures s.threads[0].Asleep? ==> Section(s, t, Stop).threads[0] == if signal then Roused else Asleep
    {
      if stop {
        return false;
      }
      stop := true;
      return true;
    }

    /** One turn of the main loop, with the mutex held: how it ends is the thread's next status. */
    method MainTurn(ghost s: State, work: Work) returns (next: Status)
      requires Shares(s) && s.threads != [] && (work.MainStart? || work.MainAfterSleep? || work.MainAfterRun?)
      requires work.MainAfterRun? ==> inflight.None?
      modifies this
      ensures Shares(Section(s, 0, work))
      ensures next == Section(s, 0, work).threads[0]
    {
      if queue == [] {
        if !work.MainAfterSleep? {
          idle := true;
        }
        return if stop then Returned else Asleep;
      }
      if work.MainAfterSleep? {
        idle := false;
      }
      var cb := queue[0];
      queue := queue[1..];
      inflight := Some(cb);
      return Running(cb);
    }
  }

  lemma {:induction false} WithoutAt(q: seq<nat>, i: nat)
    requires i < |q| && q[i] !in q[..i]
    ensures Without(q, q[i]) == q[..i] + q[i + 1..]
  {
    if i == 0 {
      assert q[..0] + q[1..] == q[1..];
    } else {
      assert q[1..][..i - 1] == q[1..i] && q[..i] == [q[0]] + q[1..i];
      assert q[0] in q[..i];
      WithoutAt(q[1..], i - 1);
    }
  }
}
