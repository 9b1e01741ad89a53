/** What the mutexes, conditions, semaphores and barriers keep; kill, which can break it, is treated in KillRuns. */
module SyncRuns {
  import opened Sets
  import opened Slist
  import opened Machine
  import opened QueueRuns

  // ---------------------------------------------------------------- the invariants

  /** A mutex is locked exactly while it has an owner, and no wake-up is lost: if it is free while tasks are blocked
      on it, some ready task is inside the retry loop of its acquire. */
  ghost predicate MutexOk(s: Sys, m: int) {
    && (Mtx(s, m).locked <==> Mtx(s, m).owner != 0)
    && 0 <= Mtx(s, m).owner < MAX_TASK_NUM
    && (Mtx(s, m).locked || On(s, MutexQ(m)) == [] || exists p :: Retrying(s, p, m))
  }

  ghost predicate Retrying(s: Sys, p: int, m: int) {
    p in On(s, Ready) && Tsk(s, p).resume == Retry(m)
  }

  /** A blocked task will go on where its queue says. */
  ghost predicate TagOk(s: Sys, p: int) {
    IsLive(s, p) ==>
      && (Tsk(s, p).resume != User ==> 0 <= Tsk(s, p).resume.m < |s.mutexes|)
      && match Tsk(s, p).queue
      case Ready => true
      case MutexQ(m) => Tsk(s, p).resume == Retry(m)
      case CondQ(_) => Tsk(s, p).resume.Reacquire?
      case _ => Tsk(s, p).resume == User
  }

  /** The lock count of a task is the number of mutexes it owns; a pid that is not in use owns none. */
  ghost predicate CountOk(s: Sys, p: int) {
    0 < p < MAX_TASK_NUM ==> CountOwned(s.mutexes, p) == if IsLive(s, p) then Tsk(s, p).lockNum else 0
  }

  ghost predicate CondOk(s: Sys, c: int) {
    0 <= c < |s.conds| ==> s.conds[c] == |On(s, CondQ(c))|
  }

  ghost predicate SemOk(s: Sys, i: int) {
    0 <= i < |s.sems| ==> |On(s, SemQ(i))| == if s.sems[i] < 0 then -s.sems[i] else 0
  }

  ghost predicate BarrierOk(s: Sys, b: int) {
    0 <= b < |s.barriers| ==>
      0 <= s.barriers[b].arrived < s.barriers[b].goal && |On(s, BarrierQ(b))| == s.barriers[b].arrived
  }

  /** All of these, but for the objects whose queues are in `ex`. */
  ghost predicate SyncOkBut(s: Sys, ex: set<QueueId>) {
    && (forall m :: MutexQ(m) !in ex ==> MutexOk(s, m))
    && (forall p :: TagOk(s, p) && CountOk(s, p))
    && (forall c :: CondQ(c) !in ex ==> CondOk(s, c))
    && (forall i :: SemQ(i) !in ex ==> SemOk(s, i))
    && (forall b :: BarrierQ(b) !in ex ==> BarrierOk(s, b))
  }

  ghost predicate SyncOk(s: Sys) {
    SyncOkBut(s, {})
  }

  // ---------------------------------------------------------------- what the primitives keep

  lemma {:induction false} WithoutSize(l: seq<int>, p: int)
    requires p in l
    ensures |Without(l, p)| == |l| - 1
  {
    if l[0] != p {
      WithoutSize(l[1..], p);
    }
  }

  /** Queues may have lost tasks to the ready queue; counters, mutexes and resume points are as before. */
  ghost predicate Quiet(s: Sys, t: Sys) {
    && t.mutexes == s.mutexes && t.sems == s.sems && t.conds == s.conds && t.barriers == s.barriers
    && (forall p :: IsLive(t, p) == IsLive(s, p))
    && (forall p :: Tsk(t, p).resume == Tsk(s, p).resume && Tsk(t, p).lockNum == Tsk(s, p).lockNum)
    && (forall p :: Tsk(t, p).queue == Tsk(s, p).queue || Tsk(t, p).queue == Ready)
    && (forall p :: p in On(s, Ready) ==> p in On(t, Ready))
  }

  lemma QuietKeepsRest(s: Sys, t: Sys, ex: set<QueueId>)
    requires Quiet(s, t) && SyncOkBut(s, ex)
    requires forall x :: x !in ex && x != Ready && x != Sleep ==> On(t, x) == On(s, x)
    ensures SyncOkBut(t, ex)
  {
    forall m | MutexQ(m) !in ex ensures MutexOk(t, m) {
      assert MutexOk(s, m);
      if !Mtx(s, m).locked && On(s, MutexQ(m)) != [] {
        var p :| Retrying(s, p, m);
        assert Retrying(t, p, m);
      }
    }
    forall p ensures TagOk(t, p) && CountOk(t, p) {
      assert TagOk(s, p) && CountOk(s, p);
    }
    forall c | CondQ(c) !in ex ensures CondOk(t, c) { assert CondOk(s, c); }
    forall i | SemQ(i) !in ex ensures SemOk(t, i) { assert SemOk(s, i); }
    forall b | BarrierQ(b) !in ex ensures BarrierOk(t, b) { assert BarrierOk(s, b); }
  }

  lemma SchedulerQuiet(s: Sys)
    requires Core(s)
    ensures Quiet(s, Scheduler(s)) && Scheduler(s).queues == s.queues
  {
    SchedulerLeaves(s);
    hide Scheduler;
    assert forall p :: IsLive(Scheduler(s), p) == IsLive(s, p);
  }

  lemma UnblockOneQuiet(s: Sys, q: QueueId)
    requires Core(s) && q != Ready
    ensures var t := UnblockOne(s, q);
      && Core(t) && Quiet(s, t) && t.current == s.current
      && (forall x :: x != q && x != Ready ==> On(t, x) == On(s, x))
      && |On(t, q)| == (if On(s, q) == [] then 0 else |On(s, q)| - 1)
      && (On(s, q) != [] ==> exists p :: p in On(s, q) && p in On(t, Ready))
  {
    hide Core, UnblockOne;
    UnblockOneEffect(s, q);
    UnblockOneWakes(s, q);
    var t := UnblockOne(s, q);
    assert forall p :: IsLive(t, p) == IsLive(s, p);
    if On(s, q) != [] {
      var p := Chosen(s, q);
      WithoutSize(On(s, q), p);
      assert p in On(s, q) && p in On(t, Ready);
      forall x ensures Tsk(t, x).queue == Tsk(s, x).queue || Tsk(t, x).queue == Ready {
      }
    }
  }

  lemma UnblockAllQuiet(s: Sys, q: QueueId)
    requires Core(s) && q != Ready
    ensures var t := UnblockAll(s, q);
      && Core(t) && Quiet(s, t) && t.current == s.current
      && (forall x :: x != q && x != Ready ==> On(t, x) == On(s, x)) && On(t, q) == []
  {
    UnblockAllEffect(s, q);
    var t := UnblockAll(s, q);
    assert forall p :: IsLive(t, p) == IsLive(s, p);
    forall p ensures Tsk(t, p).queue == Tsk(s, p).queue || Tsk(t, p).queue == Ready {
      if p in On(s, q) {
        assert p in On(t, Ready);
        assert BelongsOn(t, Ready, p);
      }
    }
  }

  // ---------------------------------------------------------------- blocking

  /** The running task, just entered a kernel call or inside the retry loop of `m0`, blocks on q. */
  lemma WaitKeepsRest(s: Sys, t: Sys, q: QueueId, r: Resume, ex: set<QueueId>)
    requires WaitFrame(s, t) && WaitMove(s, t, q, r) && SyncOkBut(s, ex) && q in ex && q != Ready
    requires s.current in On(s, Ready)
    requires forall p :: IsLive(t, p) == IsLive(s, p)
    requires Tsk(s, s.current).resume.Retry? ==> MutexQ(Tsk(s, s.current).resume.m) in ex
    requires r != User ==> 0 <= r.m < |s.mutexes|
    requires match q case MutexQ(m) => r == Retry(m) case CondQ(_) => r.Reacquire? case _ => r == User
    ensures SyncOkBut(t, ex)
  {
    forall m | MutexQ(m) !in ex ensures MutexOk(t, m) {
      assert MutexOk(s, m);
      if !Mtx(s, m).locked && On(s, MutexQ(m)) != [] {
        var p :| Retrying(s, p, m);
        StaysWithout(On(s, Ready), p, s.current);
        assert Retrying(t, p, m);
      }
    }
    forall p ensures TagOk(t, p) && CountOk(t, p) {
      assert TagOk(s, p) && CountOk(s, p);
    }
    forall c | CondQ(c) !in ex ensures CondOk(t, c) { assert CondOk(s, c); }
    forall i | SemQ(i) !in ex ensures SemOk(t, i) { assert SemOk(s, i); }
    forall b | BarrierQ(b) !in ex ensures BarrierOk(t, b) { assert BarrierOk(s, b); }
  }

  lemma {:induction false} StaysWithout(l: seq<int>, p: int, c: int)
    requires p in l && p != c
    ensures p in Without(l, c)
  {
    if l[0] != c && l[0] != p {
      StaysWithout(l[1..], p, c);
    }
  }

  lemma DoWaitKeepsRest(s: Sys, q: QueueId, status: Status, r: Resume, ex: set<QueueId>)
    requires Core(s) && Settled(s) && s.current != 0 && QueueExists(s, q) && q != Ready && q in ex && SyncOkBut(s, ex)
    requires Tsk(s, s.current).resume.Retry? ==> MutexQ(Tsk(s, s.current).resume.m) in ex
    requires r != User ==> 0 <= r.m < |s.mutexes|
    requires match q case MutexQ(m) => r == Retry(m) case CondQ(_) => r.Reacquire? case _ => r == User
    ensures var t := DoWait(s, q, status, r);
      SyncOkBut(t, ex) && On(t, q) == On(s, q) + [s.current] && WaitFrame(s, t)
  {
    DoWaitEffect(s, q, status, r);
    hide Core, DoWait;
    assert forall p :: IsLive(DoWait(s, q, status, r), p) == IsLive(s, p);
    WaitKeepsRest(s, DoWait(s, q, status, r), q, r, ex);
  }

  /** Once the excepted objects are in order everything is. */
  lemma Rejoin(s: Sys, q: QueueId)
    requires SyncOkBut(s, {q})
    requires match q
      case MutexQ(m) => MutexOk(s, m) case CondQ(c) => CondOk(s, c) case SemQ(i) => SemOk(s, i)
      case BarrierQ(b) => BarrierOk(s, b) case _ => true
    ensures SyncOk(s)
  {
  }

  lemma Except(s: Sys, q: QueueId)
    requires SyncOk(s)
    ensures SyncOkBut(s, {q})
  {
  }

  // ---------------------------------------------------------------- the mutex

  /** The running task takes a free mutex. */
  lemma TakeKeepsSync(s: Sys, m: int)
    requires SyncOkBut(s, {MutexQ(m)}) && IsLive(s, s.current) && |s.tasks| == MAX_TASK_NUM
    requires 0 <= m < |s.mutexes| && Mtx(s, m) == Mutex(false, 0)
    requires Tsk(s, s.current).queue == Ready
    requires Tsk(s, s.current).resume.Retry? ==> Tsk(s, s.current).resume.m == m
    ensures SyncOk(AcquireLoop(s, m))
  {
    var t := AcquireLoop(s, m);
    assert forall p :: IsLive(t, p) == IsLive(s, p);
    forall p ensures TagOk(t, p) && CountOk(t, p) {
      assert TagOk(s, p) && CountOk(s, p);
      if 0 < p < MAX_TASK_NUM {
        CountAfterSet(s.mutexes, m, Mutex(true, s.current), p);
      }
    }
    forall k ensures MutexOk(t, k) {
      if k != m {
        assert MutexOk(s, k);
        if !Mtx(s, k).locked && On(s, MutexQ(k)) != [] {
          var p :| Retrying(s, p, k);
          assert Retrying(t, p, k);
        }
      }
    }
  }

  /** The running task is in a kernel call of its own: it is on the ready queue, and if it is inside a retry loop
      then in that of mutex m. */
  ghost predicate RunsFor(s: Sys, m: int) {
    && Core(s) && Settled(s) && s.current != 0
    && (Tsk(s, s.current).resume.Retry? ==> Tsk(s, s.current).resume.m == m)
  }

  lemma CurrentIsReady(s: Sys)
    requires Core(s) && Settled(s) && s.current != 0
    ensures IsLive(s, s.current) && Tsk(s, s.current).queue == Ready
  {
    assert BelongsOn(s, Ready, s.current);
  }

  lemma LoopKeepsSync(s: Sys, m: int)
    requires SyncOk(s) && RunsFor(s, m) && 0 <= m < |s.mutexes|
    ensures SyncOk(AcquireLoop(s, m))
  {
    Except(s, MutexQ(m));
    assert MutexOk(s, m);
    CurrentIsReady(s);
    hide OneQueueEach, AllFit;
    if Mtx(s, m).locked {
      DoWaitKeepsRest(s, MutexQ(m), BLOCKED, Retry(m), {MutexQ(m)});
      Rejoin(DoWait(s, MutexQ(m), BLOCKED, Retry(m)), MutexQ(m));
    } else {
      TakeKeepsSync(s, m);
    }
  }

  /** The running task finds that it owns the mutex already. */
  lemma OwnedKeepsSync(s: Sys, m: int)
    requires SyncOk(s) && RunsFor(s, m) && Mtx(s, m).owner == s.current
    ensures SyncOk(Acquire(s, m))
  {
    CurrentIsReady(s);
    hide Core, OneQueueEach, AllFit;
    var t := Acquire(s, m);
    assert MutexOk(s, m);
    assert forall p :: IsLive(t, p) == IsLive(s, p);
    forall p ensures TagOk(t, p) && CountOk(t, p) {
      assert TagOk(s, p) && CountOk(s, p);
    }
    forall k ensures MutexOk(t, k) {
      assert MutexOk(s, k);
      if !Mtx(s, k).locked && On(s, MutexQ(k)) != [] {
        var p :| Retrying(s, p, k);
        assert Retrying(t, p, k);
      }
    }
    forall c ensures CondOk(t, c) { assert CondOk(s, c); }
    forall i ensures SemOk(t, i) { assert SemOk(s, i); }
    forall b ensures BarrierOk(t, b) { assert BarrierOk(s, b); }
  }

  lemma AcquireKeepsSync(s: Sys, m: int)
    requires SyncOk(s) && RunsFor(s, m) && 0 <= m < |s.mutexes|
    ensures SyncOk(Acquire(s, m))
  {
    if Mtx(s, m).owner == s.current {
      OwnedKeepsSync(s, m);
    } else {
      LoopKeepsSync(s, m);
    }
  }

  /** The lock is dropped after a waiter, if there is any, has been made ready. */
  lemma DropKeepsSync(s: Sys, m: int, ex: set<QueueId>)
    requires SyncOkBut(s, ex + {MutexQ(m)}) && MutexQ(m) !in ex
    requires 0 <= m < |s.mutexes| && Mtx(s, m) == Mutex(true, s.current) && 0 < s.current < |s.tasks|
    requires |s.tasks| == MAX_TASK_NUM && IsLive(s, s.current)
    requires On(s, MutexQ(m)) == [] || exists p :: Retrying(s, p, m)
    ensures SyncOkBut(DropLock(s, s.current, m), ex)
  {
    var t := DropLock(s, s.current, m);
    assert forall p :: IsLive(t, p) == IsLive(s, p);
    forall p ensures TagOk(t, p) && CountOk(t, p) {
      assert TagOk(s, p) && CountOk(s, p);
      CountAfterSet(s.mutexes, m, Mutex(false, 0), p);
    }
    forall k | MutexQ(k) !in ex ensures MutexOk(t, k) {
      if k != m {
        assert MutexOk(s, k);
      }
      if !Mtx(t, k).locked && On(t, MutexQ(k)) != [] {
        var p :| Retrying(s, p, k);
        assert Retrying(t, p, k);
      }
    }
    forall c | CondQ(c) !in ex ensures CondOk(t, c) { assert CondOk(s, c); }
    forall i | SemQ(i) !in ex ensures SemOk(t, i) { assert SemOk(s, i); }
    forall b | BarrierQ(b) !in ex ensures BarrierOk(t, b) { assert BarrierOk(s, b); }
  }

  /** Whoever do_unblock_one takes off the queue of mutex m is inside the retry loop of its acquire. */
  lemma WokenRetries(s: Sys, m: int)
    requires Core(s) && forall p :: TagOk(s, p)
    ensures var t := UnblockOne(s, MutexQ(m));
      On(s, MutexQ(m)) != [] ==> exists p :: Retrying(t, p, m)
  {
    if On(s, MutexQ(m)) != [] {
      UnblockOneQuiet(s, MutexQ(m));
      var t := UnblockOne(s, MutexQ(m));
      var p :| p in On(s, MutexQ(m)) && p in On(t, Ready);
      assert BelongsOn(s, MutexQ(m), p);
      assert TagOk(s, p);
      assert Retrying(t, p, m);
    }
  }

  lemma ReleaseKeepsSync(s: Sys, m: int, ex: set<QueueId>)
    requires SyncOkBut(s, ex) && MutexQ(m) !in ex && Core(s) && Settled(s) && s.current != 0
    ensures SyncOkBut(Release(s, m), ex)
  {
    if Mtx(s, m).owner == s.current {
      var u := UnblockOne(s, MutexQ(m));
      assert MutexOk(s, m);
      CurrentIsReady(s);
      WokenRetries(s, m);
      UnblockOneQuiet(s, MutexQ(m));
      hide OneQueueEach, AllFit, UnblockOne;
      QuietKeepsRest(s, u, ex + {MutexQ(m)});
      assert On(s, MutexQ(m)) == [] ==> On(u, MutexQ(m)) == [];
      DropKeepsSync(u, m, ex);
    }
  }

  // ---------------------------------------------------------------- conditions, semaphores, barriers

  lemma CounterSet(s: Sys, i: int, n: int)
    requires SyncOk(s)
    ensures SyncOkBut(SetCond(s, i, n), {CondQ(i)})
    ensures SyncOkBut(SetSem(s, i, n), {SemQ(i)})
    ensures SyncOkBut(SetArrived(s, i, n), {BarrierQ(i)})
  {
    hide SyncOkBut, SyncOk;
    CounterSetOne(s, SetCond(s, i, n), CondQ(i));
    CounterSetOne(s, SetSem(s, i, n), SemQ(i));
    CounterSetOne(s, SetArrived(s, i, n), BarrierQ(i));
  }

  lemma CounterSetOne(s: Sys, t: Sys, q: QueueId)
    requires SyncOk(s) && t == s.(conds := t.conds, sems := t.sems, barriers := t.barriers)
    requires |t.conds| == |s.conds| && |t.sems| == |s.sems| && |t.barriers| == |s.barriers|
    requires forall c :: 0 <= c < |s.conds| && q != CondQ(c) ==> t.conds[c] == s.conds[c]
    requires forall i :: 0 <= i < |s.sems| && q != SemQ(i) ==> t.sems[i] == s.sems[i]
    requires forall b :: 0 <= b < |s.barriers| && q != BarrierQ(b) ==> t.barriers[b] == s.barriers[b]
    ensures SyncOkBut(t, {q})
  {
    forall m ensures MutexOk(t, m) {
      assert MutexOk(s, m);
      if !Mtx(s, m).locked && On(s, MutexQ(m)) != [] {
        var p :| Retrying(s, p, m);
        assert Retrying(t, p, m);
      }
    }
    forall p ensures TagOk(t, p) && CountOk(t, p) {
      assert TagOk(s, p) && CountOk(s, p);
    }
    forall c | CondQ(c) != q ensures CondOk(t, c) { assert CondOk(s, c); }
    forall i | SemQ(i) != q ensures SemOk(t, i) { assert SemOk(s, i); }
    forall b | BarrierQ(b) != q ensures BarrierOk(t, b) { assert BarrierOk(s, b); }
  }

  lemma OneWokenKeeps(s: Sys, q: QueueId)
    requires SyncOkBut(s, {q}) && Core(s) && q != Ready
    ensures SyncOkBut(UnblockOne(s, q), {q})
    ensures |On(UnblockOne(s, q), q)| == if On(s, q) == [] then 0 else |On(s, q)| - 1
    ensures Quiet(s, UnblockOne(s, q))
  {
    UnblockOneQuiet(s, q);
    QuietKeepsRest(s, UnblockOne(s, q), {q});
  }

  lemma AllWokenKeeps(s: Sys, q: QueueId)
    requires SyncOkBut(s, {q}) && Core(s) && q != Ready
    ensures SyncOkBut(UnblockAll(s, q), {q}) && On(UnblockAll(s, q), q) == [] && Quiet(s, UnblockAll(s, q))
  {
    UnblockAllQuiet(s, q);
    QuietKeepsRest(s, UnblockAll(s, q), {q});
  }

  lemma SetKeepsCore(s: Sys, i: int, n: int)
    requires Core(s)
    ensures Core(SetCond(s, i, n)) && Core(SetSem(s, i, n)) && Core(SetArrived(s, i, n))
  {
    hide Shaped, OneQueueEach, AllFit;
    CountedWakes(s, i, n);
  }

  lemma SetKeepsSettled(s: Sys, i: int, n: int)
    requires Invariant(s) && !s.panicked
    ensures Invariant(SetCond(s, i, n)) && Settled(SetCond(s, i, n))
    ensures Invariant(SetSem(s, i, n)) && Settled(SetSem(s, i, n))
    ensures Invariant(SetArrived(s, i, n)) && Settled(SetArrived(s, i, n))
  {
    CountedWakes(s, i, n);
    hide Core, NobodyWaitsForDead;
    WokenKeepsInvariant(s, SetCond(s, i, n));
    WokenKeepsInvariant(s, SetSem(s, i, n));
    WokenKeepsInvariant(s, SetArrived(s, i, n));
  }

  /** The invariants of one object. */
  lemma ObjectOk(s: Sys, i: int)
    requires SyncOk(s)
    ensures MutexOk(s, i) && CondOk(s, i) && SemOk(s, i) && BarrierOk(s, i)
  {
  }

  lemma SignalKeepsSync(s: Sys, c: int)
    requires SyncOk(s) && Core(s)
    ensures SyncOk(Signal(s, c))
  {
    hide Core, UnblockOne, SyncOkBut, SyncOk, Quiet;
    if 0 <= c < |s.conds| && s.conds[c] > 0 {
      ObjectOk(s, c);
      CounterSet(s, c, s.conds[c] - 1);
      SetKeepsCore(s, c, s.conds[c] - 1);
      OneWokenKeeps(SetCond(s, c, s.conds[c] - 1), CondQ(c));
      Rejoin(Signal(s, c), CondQ(c));
    }
  }

  lemma BroadcastKeepsSync(s: Sys, c: int)
    requires SyncOk(s) && Core(s)
    ensures SyncOk(Broadcast(s, c))
  {
    hide Core, UnblockAll, SyncOkBut, SyncOk, Quiet;
    if 0 <= c < |s.conds| && s.conds[c] > 0 {
      CounterSet(s, c, 0);
      SetKeepsCore(s, c, 0);
      AllWokenKeeps(SetCond(s, c, 0), CondQ(c));
      Rejoin(Broadcast(s, c), CondQ(c));
    }
  }

  lemma UpKeepsSync(s: Sys, i: int)
    requires SyncOk(s) && Core(s)
    ensures SyncOk(Up(s, i))
  {
    hide Core, UnblockOne, SyncOkBut, SyncOk, Quiet;
    if 0 <= i < |s.sems| {
      ObjectOk(s, i);
      CounterSet(s, i, s.sems[i] + 1);
      SetKeepsCore(s, i, s.sems[i] + 1);
      OneWokenKeeps(SetSem(s, i, s.sems[i] + 1), SemQ(i));
      Rejoin(Up(s, i), SemQ(i));
    }
  }

  lemma DownKeepsSync(s: Sys, i: int)
    requires SyncOk(s) && Invariant(s) && !s.panicked && s.current != 0 && Tsk(s, s.current).resume == User
    ensures SyncOk(Down(s, i))
  {
    hide Core, NobodyWaitsForDead, DoWait, Settled, SyncOkBut, SyncOk;
    if 0 <= i < |s.sems| {
      ObjectOk(s, i);
      CounterSet(s, i, s.sems[i] - 1);
      SetKeepsSettled(s, i, s.sems[i] - 1);
      if s.sems[i] - 1 < 0 {
        CounterQueuesExist(s, i, s.sems[i] - 1);
        DoWaitKeepsRest(SetSem(s, i, s.sems[i] - 1), SemQ(i), BLOCKED, User, {SemQ(i)});
      }
      Rejoin(Down(s, i), SemQ(i));
    }
  }

  lemma CounterQueuesExist(s: Sys, i: int, n: int)
    ensures 0 <= i < |s.sems| ==> QueueExists(SetSem(s, i, n), SemQ(i))
    ensures 0 <= i < |s.barriers| ==> QueueExists(SetArrived(s, i, n), BarrierQ(i))
  {
  }

  lemma ArriveKeepsSync(s: Sys, b: int)
    requires SyncOk(s) && Invariant(s) && !s.panicked && s.current != 0 && Tsk(s, s.current).resume == User
    ensures SyncOk(Arrive(s, b))
  {
    hide Core, NobodyWaitsForDead, DoWait, Settled, SyncOkBut, SyncOk, UnblockAll, Quiet;
    if 0 <= b < |s.barriers| {
      var n := if s.barriers[b].arrived + 1 == s.barriers[b].goal then 0 else s.barriers[b].arrived + 1;
      ObjectOk(s, b);
      CounterSet(s, b, n);
      SetKeepsSettled(s, b, n);
      if n == 0 {
        AllWokenKeeps(SetArrived(s, b, 0), BarrierQ(b));
      } else {
        CounterQueuesExist(s, b, n);
        DoWaitKeepsRest(SetArrived(s, b, n), BarrierQ(b), WAITING, User, {BarrierQ(b)});
      }
      Rejoin(Arrive(s, b), BarrierQ(b));
    }
  }

  lemma ReleaseFields(s: Sys, m: int)
    requires Core(s)
    ensures var t := Release(s, m);
      && t.conds == s.conds && t.current == s.current && Tsk(t, s.current).resume == Tsk(s, s.current).resume
      && |t.mutexes| == |s.mutexes|
      && forall c :: On(t, CondQ(c)) == On(s, CondQ(c))
  {
    hide Core, UnblockOne;
    UnblockOneEffect(s, MutexQ(m));
  }

  lemma ReleaseKeepsSettled(s: Sys, m: int)
    requires Invariant(s) && !s.panicked
    ensures Invariant(Release(s, m)) && Settled(Release(s, m))
  {
    hide Core, NobodyWaitsForDead, Settled, Release;
    ReleaseWakes(s, m);
    WokenKeepsInvariant(s, Release(s, m));
  }

  /** condition_wait up to the point where it blocks. */
  function BeforeWait(s: Sys, c: int, m: int): Sys
    requires 0 <= c < |s.conds|
  {
    Release(SetCond(s, c, s.conds[c] + 1), m)
  }

  lemma BeforeWaitOk(s: Sys, c: int, m: int)
    requires SyncOk(s) && Invariant(s) && !s.panicked && s.current != 0 && 0 <= c < |s.conds|
    ensures var t := BeforeWait(s, c, m);
      && SyncOkBut(t, {CondQ(c)}) && Invariant(t) && Settled(t)
      && t.conds == s.conds[c := s.conds[c] + 1] && t.current == s.current
      && Tsk(t, s.current).resume == Tsk(s, s.current).resume && |t.mutexes| == |s.mutexes|
      && On(t, CondQ(c)) == On(s, CondQ(c))
  {
    var s1 := SetCond(s, c, s.conds[c] + 1);
    hide Core, NobodyWaitsForDead, Settled, SyncOkBut, SyncOk, Release;
    CounterSet(s, c, s.conds[c] + 1);
    SetKeepsSettled(s, c, s.conds[c] + 1);
    ReleaseFields(s1, m);
    ReleaseKeepsSync(s1, m, {CondQ(c)});
    ReleaseKeepsSettled(s1, m);
  }

  lemma ConditionWaitKeepsSync(s: Sys, c: int, m: int)
    requires SyncOk(s) && Invariant(s) && !s.panicked && s.current != 0 && Tsk(s, s.current).resume == User
    requires 0 <= c < |s.conds| && 0 <= m < |s.mutexes|
    ensures SyncOk(ConditionWait(s, c, m))
  {
    hide Core, NobodyWaitsForDead, DoWait, Settled, SyncOkBut, SyncOk;
    ObjectOk(s, c);
    BeforeWaitOk(s, c, m);
    DoWaitKeepsRest(BeforeWait(s, c, m), CondQ(c), BLOCKED, Reacquire(m), {CondQ(c)});
    Rejoin(ConditionWait(s, c, m), CondQ(c));
  }

  // ---------------------------------------------------------------- sleeping, waiting, spawning

  lemma CheckSleepingQuiet(s: Sys)
    requires Core(s)
    ensures var t := CheckSleeping(s);
      && Core(t) && Quiet(s, t)
      && forall x :: x != Sleep && x != Ready ==> On(t, x) == On(s, x)
  {
    hide Core, Rouse;
    var i := FirstExpired(s, On(s, Sleep));
    if i != -1 {
      RouseEffect(s, On(s, Sleep)[i]);
      assert forall p :: IsLive(CheckSleeping(s), p) == IsLive(s, p);
    }
  }

  lemma QuietTwice(s: Sys, t: Sys, u: Sys)
    requires Quiet(s, t) && Quiet(t, u)
    ensures Quiet(s, u)
  {
  }

  lemma ClockQuiet(s: Sys)
    requires Core(s)
    ensures Core(s.(ticks := s.ticks + 1)) && Quiet(s, s.(ticks := s.ticks + 1))
  {
    hide Shaped, OneQueueEach, AllFit;
    AssignedWakes(s, s.(ticks := s.ticks + 1));
  }

  lemma TickQuiet(s: Sys)
    requires Core(s)
    ensures Quiet(s, Tick(s)) && forall x :: x != Sleep && x != Ready ==> On(Tick(s), x) == On(s, x)
  {
    hide Core, CheckSleeping, Scheduler;
    var s1 := s.(ticks := s.ticks + 1);
    ClockQuiet(s);
    CheckSleepingQuiet(s1);
    SchedulerQuiet(CheckSleeping(s1));
    hide Quiet;
    QuietTwice(s, s1, CheckSleeping(s1));
    QuietTwice(s, CheckSleeping(s1), Tick(s));
    assert forall x :: x != Sleep && x != Ready ==> On(s1, x) == On(s, x);
  }

  lemma TickKeepsSync(s: Sys)
    requires SyncOk(s) && Core(s)
    ensures SyncOk(Tick(s))
  {
    hide Core, SyncOkBut, Tick, Quiet;
    TickQuiet(s);
    QuietKeepsRest(s, Tick(s), {});
  }

  lemma SpawnKeepsSync(s: Sys, priority: int, p: int)
    requires SyncOk(s) && Invariant(s)
    requires var t := InitPcb(s, priority).0; 0 < p < MAX_TASK_NUM && !IsLive(s, p) && Born(s, t, p)
    requires |s.pids| == MAX_TASK_NUM && 0 <= s.pids[0].cursor < |s.pids| && AllocNode(s.pids).1 == p
    ensures SyncOk(InitPcb(s, priority).0)
  {
    var t := InitPcb(s, priority).0;
    hide Core, Invariant;
    assert t.mutexes == s.mutexes && t.conds == s.conds && t.sems == s.sems && t.barriers == s.barriers;
    assert Tsk(t, p).resume == User && Tsk(t, p).lockNum == 0;
    hide InitPcb;
    forall m ensures MutexOk(t, m) {
      assert MutexOk(s, m);
      if !Mtx(s, m).locked && On(s, MutexQ(m)) != [] {
        var w :| Retrying(s, w, m);
        assert w != p by { ReadyIsLive(s, w); }
        assert Retrying(t, w, m);
      }
    }
    forall x ensures TagOk(t, x) && CountOk(t, x) { assert TagOk(s, x) && CountOk(s, x); }
    forall c ensures CondOk(t, c) { assert CondOk(s, c); }
    forall i ensures SemOk(t, i) { assert SemOk(s, i); }
    forall b ensures BarrierOk(t, b) { assert BarrierOk(s, b); }
  }

  lemma ReadyIsLive(s: Sys, p: int)
    requires Invariant(s) && p in On(s, Ready)
    ensures IsLive(s, p)
  {
    assert BelongsOn(s, Ready, p);
  }

  lemma PlainWaitKeepsSync(s: Sys, q: QueueId, status: Status)
    requires SyncOk(s) && Invariant(s) && !s.panicked && s.current != 0 && Tsk(s, s.current).resume == User
    requires QueueExists(s, q) && (q.Sleep? || q.WaitOf?)
    ensures SyncOk(DoWait(s, q, status, User))
  {
    hide Core, NobodyWaitsForDead, DoWait, Settled, SyncOkBut, SyncOk;
    Except(s, q);
    DoWaitKeepsRest(s, q, status, User, {q});
    Rejoin(DoWait(s, q, status, User), q);
  }

  lemma AlarmKeepsSync(s: Sys, ms: nat)
    requires SyncOk(s) && Core(s)
    ensures SyncOk(SetAlarm(s, ms))
  {
    var t := SetAlarm(s, ms);
    assert Quiet(s, t) && t.queues == s.queues by { hide Core, SyncOk; }
    hide Core, SetAlarm;
    QuietKeepsRest(s, t, {});
  }

  lemma SleepKeepsSync(s: Sys, ms: nat)
    requires SyncOk(s) && Invariant(s) && !s.panicked && s.current != 0 && Tsk(s, s.current).resume == User
    ensures SyncOk(DoSleep(s, ms))
  {
    assert Tsk(SetAlarm(s, ms), s.current).resume == User && SetAlarm(s, ms).current == s.current;
    hide Core, NobodyWaitsForDead, DoWait, Settled, SyncOkBut, SyncOk, SetAlarm;
    AlarmWakes(s, ms);
    WokenKeepsInvariant(s, SetAlarm(s, ms));
    AlarmKeepsSync(s, ms);
    PlainWaitKeepsSync(SetAlarm(s, ms), Sleep, SLEEPING);
  }

  // ---------------------------------------------------------------- every event but kill

  lemma ContinueKeepsSync(s: Sys)
    requires SyncOk(s) && Invariant(s) && !s.panicked && s.current != 0
    ensures SyncOk(Apply(s, Continue))
  {
    assert TagOk(s, s.current);
    CurrentIsReady(s);
    hide Core, NobodyWaitsForDead, SyncOkBut, SyncOk, Acquire, AcquireLoop;
    match Tsk(s, s.current).resume
    case User =>
    case Retry(m) => LoopKeepsSync(s, m);
    case Reacquire(m) => AcquireKeepsSync(s, m);
  }

  lemma UnlockKeepsSync(s: Sys, m: int)
    requires SyncOk(s) && Invariant(s) && !s.panicked && s.current != 0
    ensures SyncOk(Release(s, m))
  {
    hide Core, SyncOkBut, Release, NobodyWaitsForDead;
    ReleaseKeepsSync(s, m, {});
  }

  /** Every event but kill keeps the synchronisation invariants. */
  lemma EventKeepsSync(s: Sys, e: Event)
    requires Consistent(s) && SyncOk(s) && Enabled(s, e) && !e.KillTask?
    ensures SyncOk(Apply(s, e))
  {
    hide Core, NobodyWaitsForDead, SyncOkBut, SyncOk, Slist.Valid;
    hide Tick, InitPcb, Kill, DoSleep, Acquire, AcquireLoop, Release, ConditionWait, Signal, Broadcast, Up, Down,
      Arrive, DoWait;
    match e
    case Spawn(priority) =>
      var p := SpawnBirth(s, priority);
      if p != 0 {
        SpawnKeepsSync(s, priority, p);
      }
    case Timer => TickKeepsSync(s);
    case WaitFor(p) =>
      if Wait(s, p).1 {
        PlainWaitKeepsSync(s, WaitOf(p), WAITING);
      }
    case SleepFor(ms) => SleepKeepsSync(s, ms);
    case Lock(m) => AcquireKeepsSync(s, m);
    case Unlock(m) => UnlockKeepsSync(s, m);
    case CondWait(c, m) => ConditionWaitKeepsSync(s, c, m);
    case CondSignal(c) => SignalKeepsSync(s, c);
    case CondBroadcast(c) => BroadcastKeepsSync(s, c);
    case SemUp(i) => UpKeepsSync(s, i);
    case SemDown(i) => DownKeepsSync(s, i);
    case BarrierWait(b) => ArriveKeepsSync(s, b);
    case Continue => ContinueKeepsSync(s);
  }
}
