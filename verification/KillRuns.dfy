/** Which kills keep the synchronisation invariants: the exact condition, which the caller can check beforehand. */
module KillRuns {
  import opened Sets
  import opened Slist
  import opened Machine
  import opened QueueRuns
  import opened SyncRuns
  import opened LockRuns

  /** The queues that a counter speaks of. */
  predicate HasCounter(q: QueueId) {
    q.SemQ? || q.CondQ? || q.BarrierQ?
  }

  /** Whoever is to try mutex m again does not only exist in the shape of task p. */
  ghost predicate RetriedWithout(s: Sys, p: int, m: int) {
    Mtx(s, m).locked || On(s, MutexQ(m)) == [] || exists w :: w != p && Retrying(s, w, m)
  }

  /** Killing task p is harmless: it is on no counted queue, owns no mutex outside locks[], and is nowhere the only
      task that is about to try a free mutex again for which others are queued. */
  ghost predicate HarmlessKill(s: Sys, p: int) {
    p == 1 || !IsLive(s, p) ||
    (&& !HasCounter(Tsk(s, p).queue)
     && (forall m :: m >= MAX_LOCKS_NUM ==> Mtx(s, m).owner != p)
     && (forall m :: RetriedWithout(s, p, m)))
  }

  // ---------------------------------------------------------------- what happens after the pid is gone

  /** Mutex m is as before, or was p's and is free now and then somebody is about to try it unless nobody waits. */
  ghost predicate FreedAt(s: Sys, t: Sys, p: int, m: int) {
    || (Mtx(t, m) == Mtx(s, m) && On(t, MutexQ(m)) == On(s, MutexQ(m)))
    || (Mtx(s, m).owner == p && Mtx(t, m) == NoMutex && (On(t, MutexQ(m)) == [] || exists w :: Retrying(t, w, m)))
  }

  /** The rest of a kill once task p is unlinked: queues may have lost tasks to the
      ready queue, counted queues have not. */
  ghost predicate Freed(s: Sys, t: Sys, p: int) {
    && SameCounters(s, t)
    && (forall x :: IsLive(t, x) == IsLive(s, x))
    && (forall x :: Tsk(t, x).resume == Tsk(s, x).resume)
    && (forall x :: Tsk(t, x).queue == Tsk(s, x).queue || Tsk(t, x).queue == Ready)
    && (forall x :: x in On(s, Ready) ==> x in On(t, Ready))
    && (forall q :: HasCounter(q) ==> On(t, q) == On(s, q))
    && (forall m :: FreedAt(s, t, p, m))
  }

  lemma FreedTwice(s: Sys, t: Sys, u: Sys, p: int)
    requires Freed(s, t, p) && Freed(t, u, p) && p != 0
    ensures Freed(s, u, p)
  {
    forall m ensures FreedAt(s, u, p, m) {
      assert FreedAt(s, t, p, m) && FreedAt(t, u, p, m);
      if !(Mtx(t, m) == Mtx(s, m) && On(t, MutexQ(m)) == On(s, MutexQ(m))) && On(t, MutexQ(m)) != [] {
        var w :| Retrying(t, w, m);
        assert Retrying(u, w, m);
      }
    }
  }

  /** Nobody but waiters for p has been woken. */
  lemma QuietIsFreed(s: Sys, t: Sys, p: int)
    requires Quiet(s, t) && SameCounters(s, t)
    requires forall q: QueueId :: q.MutexQ? || HasCounter(q) ==> On(t, q) == On(s, q)
    ensures Freed(s, t, p)
  {
  }

  lemma ReleaseLockFreed(s: Sys, p: int, i: nat)
    requires Core(s) && !IsLive(s, p) && 0 < p < MAX_TASK_NUM && i < |s.mutexes| && Mtx(s, i).owner == p
    requires forall x :: TagOk(s, x)
    ensures Core(ReleaseLock(s, p, i)) && Freed(s, ReleaseLock(s, p, i), p)
  {
    hide Core, UnblockOne, TagOk, DropLock, Woken, FreedAt;
    var u, t := UnblockOne(s, MutexQ(i)), ReleaseLock(s, p, i);
    UnblockOneQuiet(s, MutexQ(i));
    ReleaseLockEffect(s, p, i);
    DroppedSame(u, p, i);
    forall m ensures FreedAt(s, t, p, m) {
      ReleaseLockFreedAt(s, p, i, m);
    }
  }

  lemma DroppedSame(s: Sys, p: int, i: int)
    ensures var t := DropLock(s, p, i);
      && SameCounters(s, t) && t.queues == s.queues && t.current == s.current
      && (forall x :: IsLive(t, x) == IsLive(s, x))
      && (forall x :: Tsk(t, x).resume == Tsk(s, x).resume && Tsk(t, x).queue == Tsk(s, x).queue)
      && (forall m :: m != i ==> Mtx(t, m) == Mtx(s, m)) && (0 <= i < |s.mutexes| ==> Mtx(t, i) == NoMutex)
  {
    var t := DropLock(s, p, i);
    assert t.pids == s.pids;
  }

  lemma ReleaseLockFreedAt(s: Sys, p: int, i: nat, m: int)
    requires Core(s) && i < |s.mutexes| && Mtx(s, i).owner == p && forall x :: TagOk(s, x)
    ensures FreedAt(s, ReleaseLock(s, p, i), p, m)
  {
    hide Core, UnblockOne, TagOk, DropLock;
    var u, t := UnblockOne(s, MutexQ(i)), ReleaseLock(s, p, i);
    WokenRetries(s, i);
    UnblockOneQuiet(s, MutexQ(i));
    DroppedSame(u, p, i);
    if m == i && On(s, MutexQ(i)) != [] {
      var w :| Retrying(u, w, m);
      assert Retrying(t, w, m);
    }
  }

  lemma FreedKeepsTags(s: Sys, t: Sys, p: int)
    requires Freed(s, t, p) && forall x :: TagOk(s, x)
    ensures forall x :: TagOk(t, x)
  {
    forall x ensures TagOk(t, x) {
      assert TagOk(s, x);
    }
  }

  lemma {:induction false} ReleaseLocksFreed(s: Sys, p: int, i: nat)
    requires Core(s) && !IsLive(s, p) && 0 < p < MAX_TASK_NUM && i <= MAX_LOCKS_NUM <= |s.mutexes|
    requires forall x :: TagOk(s, x)
    ensures Core(ReleaseLocks(s, p, i)) && Freed(s, ReleaseLocks(s, p, i), p)
    decreases MAX_LOCKS_NUM - i
  {
    hide Core, UnblockOne, TagOk;
    if i >= MAX_LOCKS_NUM || Tsk(s, p).lockNum <= 0 {
    } else if Mtx(s, i).owner != p {
      ReleaseLocksFreed(s, p, i + 1);
    } else {
      var t := ReleaseLock(s, p, i);
      ReleaseLockFreed(s, p, i);
      hide Freed;
      FreedKeepsTags(s, t, p);
      assert !IsLive(t, p) && |t.mutexes| == |s.mutexes| by { ReleaseLockEffect(s, p, i); }
      ReleaseLocksFreed(t, p, i + 1);
      FreedTwice(s, t, ReleaseLocks(t, p, i + 1), p);
    }
  }

  lemma UnlinkedTags(s: Sys, p: int)
    requires |s.pids| > 0 && Gone(s, Unlinked(s, p), p) && forall x :: TagOk(s, x)
    ensures forall x :: TagOk(Unlinked(s, p), x)
  {
    hide Unlinked;
    forall x ensures TagOk(Unlinked(s, p), x) {
      assert TagOk(s, x);
    }
  }

  lemma ClearedFrees(s: Sys, p: int)
    requires Consistent(s) && IsLive(s, p) && forall x :: TagOk(s, x)
    ensures Gone(s, Unlinked(s, p), p) && Freed(Unlinked(s, p), Cleared(s, p), p)
  {
    KillStages(s, p);
    var s1 := Unlinked(s, p);
    hide Consistent, Core, TagOk, Freed, Quiet, ReleaseLocks, UnblockAll;
    UnlinkedTags(s, p);
    hide Unlinked, Gone;
    ReleaseLocksFreed(s1, p, 0);
    UnblockAllQuiet(ReleaseLocks(s1, p, 0), WaitOf(p));
    QuietIsFreed(ReleaseLocks(s1, p, 0), Cleared(s, p), p);
    FreedTwice(s1, ReleaseLocks(s1, p, 0), Cleared(s, p), p);
  }

  lemma ScheduledFrees(s: Sys, t: Sys, p: int)
    requires Core(t) && Freed(s, t, p) && p != 0
    ensures Freed(s, Scheduler(t), p)
  {
    hide Core, Freed, Scheduler;
    SchedulerQuiet(t);
    QuietIsFreed(t, Scheduler(t), p);
    FreedTwice(s, t, Scheduler(t), p);
  }

  /** Everything a kill does after the task is unlinked. */
  lemma KillFrees(s: Sys, p: int)
    requires Consistent(s) && p != 1 && IsLive(s, p) && forall x :: TagOk(s, x)
    ensures Gone(s, Unlinked(s, p), p) && Freed(Unlinked(s, p), Kill(s, p).0, p)
  {
    hide Core, NobodyWaitsForDead, Slist.Valid, TagOk, Freed, Gone, Cleared, Unlinked, Scheduler, Kill;
    PidFreed(s, p);
    KillStages(s, p);
    ClearedFrees(s, p);
    ScheduledFrees(Unlinked(s, p), Cleared(s, p), p);
    KillLives(s, p);
  }

  // ---------------------------------------------------------------- the condition

  /** After a kill the mutex m is in order exactly when somebody else is to try it, if it is free and wanted. */
  lemma MutexAfterKill(s: Sys, t: Sys, p: int, m: int)
    requires Core(s) && MutexOk(s, m) && IsLive(s, p) && forall x :: TagOk(s, x)
    requires Gone(s, Unlinked(s, p), p) && Freed(Unlinked(s, p), t, p) && Core(t)
    ensures MutexOk(t, m) <==> RetriedWithout(s, p, m)
  {
    var s1 := Unlinked(s, p);
    UnlinkedMutexes(s, p);
    hide Unlinked, Shaped, AllFit;
    assert Mtx(s1, m) == Mtx(s, m) && FreedAt(s1, t, p, m);
    if !Mtx(s, m).locked {
      if exists w :: Retrying(s, w, m) && w != p {
        var w :| Retrying(s, w, m) && w != p;
        assert w in On(s1, Ready);
        assert Retrying(t, w, m);
      }
      if exists w :: Retrying(t, w, m) {
        var w :| Retrying(t, w, m);
        RetriedBefore(s, s1, t, p, m, w);
      }
      if On(s, MutexQ(m)) != [] && On(t, MutexQ(m)) == [] {
        OnlyOnItsQueue(s, s1, p, MutexQ(m));
      }
    }
  }

  /** Whoever is to try a free mutex after the kill was about to do so before. */
  lemma RetriedBefore(s: Sys, s1: Sys, t: Sys, p: int, m: int, w: int)
    requires OneQueueEach(s) && OneQueueEach(t) && TagOk(s, w) && Gone(s, s1, p) && Freed(s1, t, p)
    requires On(t, MutexQ(m)) == On(s1, MutexQ(m)) && Retrying(t, w, m)
    ensures Retrying(s, w, m) && w != p
  {
    assert BelongsOn(t, Ready, w);
    assert w in On(s, Ready) <==> BelongsOn(s, Ready, w);
    assert w in On(s, MutexQ(m)) <==> BelongsOn(s, MutexQ(m), w);
    assert w in On(t, MutexQ(m)) <==> BelongsOn(t, MutexQ(m), w);
    assert QueueExists(s, Tsk(s, w).queue);
  }

  lemma OnlyOnItsQueue(s: Sys, s1: Sys, p: int, q: QueueId)
    requires OneQueueEach(s) && Gone(s, s1, p) && q != Ready && On(s, q) != [] && On(s1, q) == []
    ensures p !in On(s, Ready)
  {
    var x := On(s, q)[0];
    assert x in On(s, q) && x !in On(s1, q);
    assert p in On(s, q) <==> BelongsOn(s, q, p);
    assert p in On(s, Ready) <==> BelongsOn(s, Ready, p);
  }

  /** A counted queue loses at most the killed task, and its counter is not told. */
  lemma CountersAfterKill(s: Sys, t: Sys, p: int, i: int)
    requires Core(s) && CondOk(s, i) && SemOk(s, i) && BarrierOk(s, i) && IsLive(s, p)
    requires Gone(s, Unlinked(s, p), p) && Freed(Unlinked(s, p), t, p)
    ensures CondOk(t, i) <==> Tsk(s, p).queue != CondQ(i)
    ensures SemOk(t, i) <==> Tsk(s, p).queue != SemQ(i)
    ensures BarrierOk(t, i) <==> Tsk(s, p).queue != BarrierQ(i)
  {
    hide Gone;
    SizeAfterKill(s, t, p, CondQ(i));
    SizeAfterKill(s, t, p, SemQ(i));
    SizeAfterKill(s, t, p, BarrierQ(i));
  }

  lemma SizeAfterKill(s: Sys, t: Sys, p: int, q: QueueId)
    requires Core(s) && IsLive(s, p) && HasCounter(q) && Freed(Unlinked(s, p), t, p)
    ensures |On(t, q)| == |On(s, q)| - (if Tsk(s, p).queue == q then 1 else 0)
    ensures QueueExists(s, Tsk(s, p).queue)
    ensures t.sems == s.sems && t.conds == s.conds && t.barriers == s.barriers
  {
    if Tsk(s, p).queue == q {
      assert BelongsOn(s, q, p);
      assert p in On(s, q);
      WithoutSize(On(s, q), p);
    }
  }

  /** The lock counts are right after a kill exactly when everything the task owned was in locks[]. */
  lemma LockCountsAfterKill(s: Sys, p: int)
    requires Consistent(s) && p != 1 && IsLive(s, p) && forall x :: CountOk(s, x)
    ensures (forall x :: CountOk(Kill(s, p).0, x)) <==> (forall m :: m >= MAX_LOCKS_NUM ==> Mtx(s, m).owner != p)
  {
    var t := Kill(s, p).0;
    hide Core, NobodyWaitsForDead, Slist.Valid, Kill;
    KillOwnsNothingIff(s, p);
    KillIsBereft(s, p);
    KillFreesLocks(s, p);
    forall x | x != p ensures CountOk(t, x) {
      assert CountOk(s, x);
    }
    DeadCount(t, p);
  }

  lemma DeadCount(t: Sys, p: int)
    requires !IsLive(t, p) && 0 < p < MAX_TASK_NUM
    ensures CountOk(t, p) <==> forall m :: Mtx(t, m).owner != p
  {
    OwnsOneOf(t.mutexes, p);
    assert forall i :: 0 <= i < |t.mutexes| ==> Mtx(t, i) == t.mutexes[i];
  }

  lemma SyncParts(s: Sys)
    ensures SyncOk(s) <==>
      && (forall m :: MutexOk(s, m)) && (forall x :: TagOk(s, x)) && (forall x :: CountOk(s, x))
      && forall i :: CondOk(s, i) && SemOk(s, i) && BarrierOk(s, i)
  {
  }

  /** A kill keeps the synchronisation invariants exactly when it is harmless. */
  lemma KillKeepsSyncIff(s: Sys, p: int)
    requires Consistent(s) && SyncOk(s) && !s.panicked && s.current != 0 && p != 1 && IsLive(s, p)
    ensures SyncOk(Kill(s, p).0) <==>
      && !HasCounter(Tsk(s, p).queue)
      && (forall m :: m >= MAX_LOCKS_NUM ==> Mtx(s, m).owner != p)
      && (forall m :: RetriedWithout(s, p, m))
  {
    var t := Kill(s, p).0;
    SyncParts(s);
    SyncParts(t);
    hide Core, NobodyWaitsForDead, Slist.Valid, Kill, SyncOk, MutexOk, TagOk, CountOk, CondOk, SemOk, BarrierOk, Freed;
    hide Gone, RetriedWithout;
    KillFrees(s, p);
    KillBuries(s, p);
    LockCountsAfterKill(s, p);
    UnlinkedTags(s, p);
    FreedKeepsTags(Unlinked(s, p), t, p);
    forall m ensures MutexOk(t, m) <==> RetriedWithout(s, p, m) {
      MutexAfterKill(s, t, p, m);
    }
    forall i
      ensures CondOk(t, i) <==> Tsk(s, p).queue != CondQ(i)
      ensures SemOk(t, i) <==> Tsk(s, p).queue != SemQ(i)
      ensures BarrierOk(t, i) <==> Tsk(s, p).queue != BarrierQ(i)
    {
      CountersAfterKill(s, t, p, i);
    }
    CounterQueue(Tsk(s, p).queue);
  }

  lemma CounterQueue(q: QueueId)
    ensures !HasCounter(q) <==> forall i :: q != CondQ(i) && q != SemQ(i) && q != BarrierQ(i)
  {
    match q
    case CondQ(i) =>
    case SemQ(i) =>
    case BarrierQ(i) =>
    case _ =>
  }

  /** Every event keeps the synchronisation invariants, a kill if and only if it is harmless. */
  lemma EventKeepsSyncIff(s: Sys, e: Event)
    requires Consistent(s) && SyncOk(s) && Enabled(s, e)
    ensures SyncOk(Apply(s, e)) <==> (e.KillTask? ==> HarmlessKill(s, e.pid))
  {
    hide Consistent, SyncOk, Kill;
    if e.KillTask? {
      if e.pid != 1 && IsLive(s, e.pid) {
        KillKeepsSyncIff(s, e.pid);
      } else {
        KillRefused(s, e.pid);
      }
    } else {
      EventKeepsSync(s, e);
    }
  }

  lemma KillRefused(s: Sys, p: int)
    requires Consistent(s) && !s.panicked && s.current != 0 && (p == 1 || !IsLive(s, p))
    ensures Kill(s, p).0 == s
  {
    KillBuries(s, p);
  }

  // ---------------------------------------------------------------- the order in which a kill wakes

  /** The tasks woken are waiters of the mutexes that they are woken from, in the order of these. */
  predicate InLockOrder(s: Sys, woken: seq<int>, from: seq<int>, i: int) {
    && |from| == |woken|
    && (forall a :: 0 <= a < |from| ==> i <= from[a] < 16 && woken[a] in On(s, MutexQ(from[a])))
    && (forall a, b :: 0 <= a < b < |from| ==> from[a] < from[b])
  }

  lemma OneMoreLock(s: Sys, t: Sys, i: int, first: seq<int>, rest: seq<int>, from: seq<int>)
    requires InLockOrder(t, rest, from, i + 1) && |first| <= 1 && i < 16
    requires first != [] ==> first[0] in On(s, MutexQ(i))
    requires forall j :: j != i ==> On(t, MutexQ(j)) == On(s, MutexQ(j))
    ensures InLockOrder(s, first + rest, (if first == [] then [] else [i]) + from, i)
  {
    hide On;
  }

  /** The locks of the dead task wake at most one waiter each, in the order of their numbers. */
  lemma {:induction false} LocksWakeInOrder(s: Sys, p: int, i: nat) returns (woken: seq<int>, from: seq<int>)
    requires Core(s) && !IsLive(s, p) && 0 < p < MAX_TASK_NUM && i <= MAX_LOCKS_NUM <= |s.mutexes|
    ensures On(ReleaseLocks(s, p, i), Ready) == On(s, Ready) + woken && InLockOrder(s, woken, from, i)
    ensures forall x :: On(ReleaseLocks(s, p, i), WaitOf(x)) == On(s, WaitOf(x))
    decreases MAX_LOCKS_NUM - i
  {
    hide Core, UnblockOne, DropLock, Woken, On, InLockOrder;
    woken, from := [], [];
    if i >= MAX_LOCKS_NUM || Tsk(s, p).lockNum <= 0 {
      assert On(s, Ready) + [] == On(s, Ready);
      assert InLockOrder(s, woken, from, i) by { NoLock(s, i); }
    } else if Mtx(s, i).owner != p {
      woken, from := LocksWakeInOrder(s, p, i + 1);
      LaterLocks(s, woken, from, i);
    } else {
      var t := ReleaseLock(s, p, i);
      ReleaseLockEffect(s, p, i);
      var first := LockWakes(s, p, i);
      var rest, at := LocksWakeInOrder(t, p, i + 1);
      OneMoreLock(s, t, i, first, rest, at);
      woken, from := first + rest, (if first == [] then [] else [i]) + at;
      assert On(s, Ready) + first + rest == On(s, Ready) + woken;
    }
  }

  lemma NoLock(s: Sys, i: int)
    ensures InLockOrder(s, [], [], i)
  {
  }

  lemma LaterLocks(s: Sys, woken: seq<int>, from: seq<int>, i: int)
    requires InLockOrder(s, woken, from, i + 1)
    ensures InLockOrder(s, woken, from, i)
  {
  }

  lemma LockWakes(s: Sys, p: int, i: nat) returns (first: seq<int>)
    requires Core(s) && !IsLive(s, p) && 0 < p < MAX_TASK_NUM && i < |s.mutexes|
    ensures On(ReleaseLock(s, p, i), Ready) == On(s, Ready) + first && |first| <= 1
    ensures first != [] ==> first[0] in On(s, MutexQ(i))
    ensures forall q :: q != MutexQ(i) && q != Ready ==> On(ReleaseLock(s, p, i), q) == On(s, q)
  {
    hide Core, UnblockOne, Chosen;
    UnblockOneEffect(s, MutexQ(i));
    first := if On(s, MutexQ(i)) == [] then [] else [Chosen(s, MutexQ(i))];
    assert On(s, Ready) + [] == On(s, Ready);
  }

  /** A kill leaves the other ready tasks in their order, and behind them puts the waiters of the dead task's locks, in
      the order of the locks, and then those that waited for it to end, in theirs. */
  lemma KillWakesInOrder(s: Sys, p: int) returns (woken: seq<int>, from: seq<int>)
    requires Consistent(s) && !s.panicked && s.current != 0 && p != 1 && IsLive(s, p)
    ensures On(Kill(s, p).0, Ready) == Without(On(s, Ready), p) + woken + Without(On(s, WaitOf(p)), p)
    ensures InLockOrder(s, woken, from, 0)
  {
    hide Core, NobodyWaitsForDead, Settled, Slist.Valid, Unlinked, ReleaseLocks, UnblockAll, Scheduler, Gone, On,
      InLockOrder;
    KillStages(s, p);
    PidFreed(s, p);
    KillIs(s, p);
    var s1 := Unlinked(s, p);
    UnlinkedQueues(s, p);
    woken, from := LocksWakeInOrder(s1, p, 0);
    UnblockAllEffect(ReleaseLocks(s1, p, 0), WaitOf(p));
    SchedulerQueues(Cleared(s, p));
    SameLockOrder(s, s1, p, woken, from);
  }

  lemma SchedulerQueues(s: Sys)
    ensures On(Scheduler(s), Ready) == On(s, Ready)
  {
  }

  lemma InWithout(l: seq<int>, p: int, x: int)
    requires x in Without(l, p)
    ensures x in l
  {
    WithoutElems(l, p);
  }

  lemma SameLockOrder(s: Sys, s1: Sys, p: int, woken: seq<int>, from: seq<int>)
    requires InLockOrder(s1, woken, from, 0) && forall q :: On(s1, q) == Without(On(s, q), p)
    ensures InLockOrder(s, woken, from, 0)
  {
    forall a | 0 <= a < |from| ensures woken[a] in On(s, MutexQ(from[a])) {
      assert On(s1, MutexQ(from[a])) == Without(On(s, MutexQ(from[a])), p);
      InWithout(On(s, MutexQ(from[a])), p, woken[a]);
    }
  }

  /** The dead task leaves the queue it was on; no other changes. */
  lemma UnlinkedQueues(s: Sys, p: int)
    requires Core(s) && IsLive(s, p)
    ensures forall q :: On(Unlinked(s, p), q) == Without(On(s, q), p)
  {
    forall q ensures On(Unlinked(s, p), q) == Without(On(s, q), p) {
      WithoutElems(On(s, q), p);
      assert p in On(s, q) <==> BelongsOn(s, q, p);
    }
  }

  // ---------------------------------------------------------------- runs

  /** Every kill of the run is harmless in the state in which it happens. */
  ghost predicate Tame(s: Sys, es: seq<Event>)
    decreases |es|
  {
    es == [] || ((es[0].KillTask? ==> HarmlessKill(s, es[0].pid)) && Tame(Apply(s, es[0]), es[1..]))
  }

  /** The synchronisation invariants hold all along a run exactly when every kill in it is harmless. */
  lemma {:induction false} RunKeepsSyncIff(s: Sys, es: seq<Event>)
    requires Consistent(s) && SyncOk(s) && IsRun(s, es)
    ensures Consistent(Final(s, es))
    ensures (forall k :: 0 <= k <= |es| ==> SyncOk(Final(s, es[..k]))) <==> Tame(s, es)
    decreases |es|
  {
    hide Consistent, SyncOk, Apply, HarmlessKill;
    assert es[..0] == [] && es[..|es|] == es;
    if es != [] {
      var t := Apply(s, es[0]);
      EventKeepsConsistent(s, es[0]);
      EventKeepsSyncIff(s, es[0]);
      forall k | 0 < k <= |es| ensures Final(s, es[..k]) == Final(t, es[1..][..k - 1]) {
        assert es[..k][1..] == es[1..][..k - 1];
      }
      assert SyncOk(t) <==> SyncOk(Final(s, es[..1]));
      if SyncOk(t) {
        RunKeepsSyncIff(t, es[1..]);
        ShiftedPrefixes(s, t, es);
      } else {
        RunKeepsConsistent(t, es[1..]);
      }
    }
  }

  lemma ShiftedPrefixes(s: Sys, t: Sys, es: seq<Event>)
    requires es != [] && SyncOk(s) && forall k :: 0 < k <= |es| ==> Final(s, es[..k]) == Final(t, es[1..][..k - 1])
    ensures (forall k :: 0 <= k <= |es| ==> SyncOk(Final(s, es[..k])))
       <==> (forall k :: 0 <= k < |es| ==> SyncOk(Final(t, es[1..][..k])))
  {
    hide SyncOk;
    assert es[..0] == [];
    if forall k :: 0 <= k <= |es| ==> SyncOk(Final(s, es[..k])) {
      forall k | 0 <= k < |es| ensures SyncOk(Final(t, es[1..][..k])) {
        assert SyncOk(Final(s, es[..k + 1]));
      }
    }
  }
}
