/** What check_sleeping leaves undone: expired sleepers that stay asleep, and the status of the one it wakes. */
module SleepRuns {
  import opened Sets
  import opened Slist
  import opened Machine
  import opened Selection
  import opened QueueRuns
  import opened SyncRuns
  import opened LockRuns
  import opened Fairness
  import opened Guarantees

  // ---------------------------------------------------------------- who is woken

  /** At the next tick the time of task p will have come. */
  predicate Due(s: Sys, p: int) {
    p in On(s, Sleep) && Tsk(s, p).awakenedTime <= s.ticks + 1
  }

  predicate NoneDue(ws: seq<Waiter>, now: int) {
    forall k :: 0 <= k < |ws| ==> ws[k].alarm > now
  }

  predicate OneDue(ws: seq<Waiter>, now: int) {
    forall a, b :: 0 <= a < |ws| && 0 <= b < |ws| && ws[a].alarm <= now && ws[b].alarm <= now ==> a == b
  }

  lemma DropsTheOne(ws: seq<Waiter>, now: int)
    requires OneDue(ws, now)
    ensures NoneDue(DropAt(ws, FirstDue(ws, now)), now)
  {
    var i := FirstDue(ws, now);
    var wt := DropAt(ws, i);
    if i != -1 {
      forall k | 0 <= k < |wt| ensures wt[k].alarm > now {
        assert wt[k] == ws[if k < i then k else k + 1];
      }
    }
  }

  lemma DropsOneOnly(ws: seq<Waiter>, now: int, c: int)
    requires 0 <= c < |ws| && ws[c].alarm <= now && c != FirstDue(ws, now)
    ensures !NoneDue(DropAt(ws, FirstDue(ws, now)), now)
  {
    var i := FirstDue(ws, now);
    SleepsOn(ws, DropAt(ws, i), i, c);
  }

  /** Dropping the first that is due leaves nobody due exactly when there was at most one. */
  lemma DropsAllIff(ws: seq<Waiter>, now: int)
    ensures NoneDue(DropAt(ws, FirstDue(ws, now)), now) <==> OneDue(ws, now)
  {
    hide NoneDue;
    if OneDue(ws, now) {
      DropsTheOne(ws, now);
    } else {
      var a, b :| 0 <= a < |ws| && 0 <= b < |ws| && ws[a].alarm <= now && ws[b].alarm <= now && a != b;
      DropsOneOnly(ws, now, if a == FirstDue(ws, now) then b else a);
    }
  }

  /** A tick leaves no expired sleeper asleep exactly when at most one sleeper is due. */
  lemma TickWakesAllIff(s: Sys)
    requires Core(s)
    ensures (forall p :: p in On(Tick(s), Sleep) ==> Tsk(Tick(s), p).awakenedTime > Tick(s).ticks)
       <==> (forall a, b :: Due(s, a) && Due(s, b) ==> a == b)
  {
    hide Core, CheckSleeping, Scheduler, Waiters, DropAt, FirstDue, NoneDue;
    var s1 := s.(ticks := s.ticks + 1);
    ClockQuiet(s);
    CheckedDropsAllIff(s);
    CheckSleepingCurrent(s1);
    SchedulerSparesSleepers(CheckSleeping(s1));
    TickTicks(s);
    QueueFacts(s, Sleep);
    DueAsWaiters(s);
  }

  lemma CheckedDropsAllIff(s: Sys)
    requires Core(s)
    ensures var u := CheckSleeping(s.(ticks := s.ticks + 1));
      (forall p :: p in On(u, Sleep) ==> Tsk(u, p).awakenedTime > s.ticks + 1)
        <==> OneDue(Waiters(s, Sleep), s.ticks + 1)
  {
    hide Core, CheckSleeping, Waiters, OneDue, DropAt, FirstDue;
    var s1 := s.(ticks := s.ticks + 1);
    ClockQuiet(s);
    Unaffected(s, s1, Sleep);
    CheckSleepingDrops(s1);
    CheckSleepingCurrent(s1);
    DropsAllIff(Waiters(s, Sleep), s.ticks + 1);
    SleepersAsWaiters(CheckSleeping(s1));
  }

  lemma SchedulerSparesSleepers(u: Sys)
    ensures On(Scheduler(u), Sleep) == On(u, Sleep)
    ensures forall p :: Tsk(Scheduler(u), p).awakenedTime == Tsk(u, p).awakenedTime
  {
    hide Scheduler;
    SchedulerLeaves(u);
  }

  lemma SleepersAsWaiters(t: Sys)
    ensures (forall p :: p in On(t, Sleep) ==> Tsk(t, p).awakenedTime > t.ticks)
       <==> (forall k :: 0 <= k < |Waiters(t, Sleep)| ==> Waiters(t, Sleep)[k].alarm > t.ticks)
  {
    if forall p :: p in On(t, Sleep) ==> Tsk(t, p).awakenedTime > t.ticks {
      forall k | 0 <= k < |Waiters(t, Sleep)| ensures Waiters(t, Sleep)[k].alarm > t.ticks {
        assert On(t, Sleep)[k] in On(t, Sleep);
      }
    } else {
      var p :| p in On(t, Sleep) && Tsk(t, p).awakenedTime <= t.ticks;
      var k :| 0 <= k < |On(t, Sleep)| && On(t, Sleep)[k] == p;
      assert Waiters(t, Sleep)[k].alarm <= t.ticks;
    }
  }

  lemma DueAsWaiters(s: Sys)
    requires Distinct(On(s, Sleep))
    ensures var ws, now := Waiters(s, Sleep), s.ticks + 1;
      (forall a, b :: Due(s, a) && Due(s, b) ==> a == b)
      <==> (forall a, b :: 0 <= a < |ws| && 0 <= b < |ws| && ws[a].alarm <= now && ws[b].alarm <= now ==> a == b)
  {
    var ws, now := Waiters(s, Sleep), s.ticks + 1;
    if a, b :| 0 <= a < |ws| && 0 <= b < |ws| && ws[a].alarm <= now && ws[b].alarm <= now && a != b {
      assert Due(s, On(s, Sleep)[a]) && Due(s, On(s, Sleep)[b]);
    }
    if a, b :| Due(s, a) && Due(s, b) && a != b {
      var i :| 0 <= i < |ws| && On(s, Sleep)[i] == a;
      var j :| 0 <= j < |ws| && On(s, Sleep)[j] == b;
      assert ws[i].alarm <= now && ws[j].alarm <= now;
    }
  }

  // ---------------------------------------------------------------- statuses

  predicate Awake(status: Status) {
    status == READY || status == RUNNING
  }

  /** How a task on queue q is marked, if it is not ready: BLOCKED on a lock, WAITING at a barrier or for another
      task. */
  predicate StatusFits(q: QueueId, status: Status) {
    match q
    case Ready => Awake(status)
    case Sleep => status == SLEEPING
    case WaitOf(_) => status == WAITING
    case MutexQ(_) => status == BLOCKED
    case SemQ(_) => status == BLOCKED
    case CondQ(_) => status == BLOCKED
    case BarrierQ(_) => status == WAITING
  }

  /** Every task is marked as the queue it is on asks for. */
  ghost predicate StatusesFit(s: Sys) {
    forall q, p :: p in On(s, q) ==> StatusFits(q, Tsk(s, p).status)
  }

  /** Task p on queue q is marked as it should be, or is there as before. */
  ghost predicate MarkedOn(s: Sys, t: Sys, q: QueueId, p: int) {
    p in On(t, q) ==> StatusFits(q, Tsk(t, p).status) || (p in On(s, q) && Tsk(t, p).status == Tsk(s, p).status)
  }

  /** Whoever is newly on a queue is marked so, and ready tasks other than the running one and `gone` stay ready with
      their status, unless they are dispatched. */
  ghost predicate Marked(s: Sys, t: Sys, gone: int) {
    && (forall q, p :: MarkedOn(s, t, q, p))
    && (forall p :: p in On(s, Ready) && p != s.current && p != gone ==>
          p in On(t, Ready) && (p == t.current || Tsk(t, p).status == Tsk(s, p).status))
  }

  lemma MarkedTwice(s: Sys, t: Sys, u: Sys, gone: int)
    requires Marked(s, t, gone) && t.current == s.current && Marked(t, u, gone)
    ensures Marked(s, u, gone)
  {
    hide StatusFits, On;
    forall q, p ensures MarkedOn(s, u, q, p) { assert MarkedOn(s, t, q, p) && MarkedOn(t, u, q, p); }
  }

  lemma SameMarks(s: Sys, t: Sys, gone: int)
    requires t.queues == s.queues && t.current == s.current && forall p :: Tsk(t, p).status == Tsk(s, p).status
    ensures Marked(s, t, gone)
  {
  }

  lemma RescheduledStatus(s: Sys, next: int, p: int)
    requires p == next ==> 0 <= p < |s.tasks|
    ensures var was, now := Tsk(s, p).status, Rescheduled(s, next, p).status;
      && (p == next ==> now == RUNNING)
      && (p != next && (p != s.current || was != RUNNING) ==> now == was)
      && (p != next ==> Awake(now) || now == was)
  {
  }

  lemma SchedulerMarks(s: Sys, gone: int)
    requires Core(s) && 0 <= s.current < |s.tasks|
    requires forall q :: s.current in On(s, q) && q != Ready ==>
      Tsk(s, s.current).status != RUNNING && (On(s, Ready) == [] || Somebody(s, On(s, Ready)))
    ensures Marked(s, Scheduler(s), gone)
  {
    var t := Scheduler(s);
    hide StatusFits;
    if On(s, Ready) != [] {
      SchedulerTasks(s);
      ReadyPick(s);
      QueueFacts(s, Ready);
      hide Core, Scheduler, Rescheduled, SchedulingKeys, Pick;
      forall p
        ensures p in On(s, Ready) ==> Awake(Tsk(t, p).status) || Tsk(t, p).status == Tsk(s, p).status
        ensures p != s.current && p != t.current ==> Tsk(t, p).status == Tsk(s, p).status
      {
        RescheduledStatus(s, t.current, p);
      }
      forall q, p ensures MarkedOn(s, t, q, p) {
        if q == Ready {
          AwakeFits(Tsk(t, p).status);
        } else if p in On(s, q) {
          Elsewhere(s, q, Ready);
          RescheduledStatus(s, t.current, p);
        }
      }
    }
  }

  lemma AwakeFits(status: Status)
    ensures StatusFits(Ready, status) <==> Awake(status)
  {
  }

  lemma ParkMarks(s: Sys, q: QueueId, status: Status, r: Resume, gone: int)
    requires Core(s) && Settled(s) && s.current != 0 && QueueExists(s, q) && q != Ready && StatusFits(q, status)
    ensures Marked(s, Park(s, q, status, r), gone) && Park(s, q, status, r).current == s.current
    ensures |Park(s, q, status, r).tasks| == |s.tasks| && 0 <= s.current < |s.tasks|
    ensures Tsk(Park(s, q, status, r), s.current).status == status
  {
    ParkEffect(s, q, status, r);
    QueueFacts(s, Ready);
    WithoutElems(On(s, Ready), s.current);
    ParkStatus(s, q, status, r);
    hide Core, Park, StatusFits;
    var t := Park(s, q, status, r);
    forall x, p ensures MarkedOn(s, t, x, p) {
      if x != Ready { Elsewhere(s, Ready, x); }
    }
  }

  lemma ParkStatus(s: Sys, q: QueueId, status: Status, r: Resume)
    requires 0 <= s.current < |s.tasks|
    ensures var t := Park(s, q, status, r);
      && t.current == s.current && Tsk(t, s.current).status == status
      && forall p :: p != s.current ==> Tsk(t, p) == Tsk(s, p)
  {
  }

  lemma DoWaitMarks(s: Sys, q: QueueId, status: Status, r: Resume, gone: int)
    requires Core(s) && Settled(s) && s.current != 0 && QueueExists(s, q) && q != Ready && StatusFits(q, status)
    requires Replaceable(s)
    ensures Marked(s, DoWait(s, q, status, r), gone)
  {
    hide Core, Settled, Park, Scheduler, Marked, Replaceable;
    ParkEffect(s, q, status, r);
    ParkMarks(s, q, status, r, gone);
    ReplaceableIs(s);
    ParkedRest(s, q, status, r);
    SchedulerMarks(Park(s, q, status, r), gone);
    MarkedTwice(s, Park(s, q, status, r), DoWait(s, q, status, r), gone);
  }

  /** A step in which waiters of q become ready, marked READY. */
  lemma WokenMarks(s: Sys, t: Sys, q: QueueId, gone: int)
    requires Core(s) && Woken(s, t) && q != Ready
    requires forall p :: p !in On(s, q) ==> Tsk(t, p).status == Tsk(s, p).status
    requires forall p :: p in On(s, q) ==>
      (p !in On(t, q) && Tsk(t, p).status == READY) || (p in On(t, q) && Tsk(t, p).status == Tsk(s, p).status)
    requires forall x, p :: x != Ready && p in On(t, x) ==> p in On(s, x)
    requires forall p :: p in On(t, Ready) ==> p in On(s, Ready) || p in On(s, q)
    ensures Marked(s, t, gone)
  {
    Elsewhere(t, q, Ready);
    Elsewhere(s, q, Ready);
    AwakeFits(READY);
    hide Core, StatusFits;
    forall x, p ensures MarkedOn(s, t, x, p) {
      if x != Ready && x != q { Elsewhere(s, q, x); }
    }
  }

  lemma UnblockOneMarks(s: Sys, q: QueueId, gone: int)
    requires Core(s) && q != Ready
    ensures Marked(s, UnblockOne(s, q), gone) && UnblockOne(s, q).current == s.current && Core(UnblockOne(s, q))
  {
    hide Core, UnblockOne, Marked;
    var t := UnblockOne(s, q);
    UnblockOneWakes(s, q);
    if On(s, q) == [] {
      UnblockOneShape(s, q);
    } else {
      UnblockOneEffect(s, q);
      AgedThenWoken(s, q);
      QueueFacts(s, q);
      var c := Chosen(s, q);
      WithoutElems(On(s, q), c);
      forall p | p in On(s, q)
        ensures (p !in On(t, q) && Tsk(t, p).status == READY) || (p in On(t, q) && Tsk(t, p).status == Tsk(s, p).status)
      {
        assert p != c ==> p in Without(On(s, q), c);
      }
      AgeQueues(s, On(s, q));
      hide Pick, BlockingKeys, Chosen;
    }
    WokenMarks(s, t, q, gone);
  }

  lemma {:induction false} AllMarkedReady(s: Sys, q: QueueId)
    requires Core(s) && q != Ready
    ensures forall p :: p in On(s, q) ==> Tsk(UnblockAll(s, q), p).status == READY
    decreases |On(s, q)|
  {
    hide Core;
    var l := On(s, q);
    if l != [] {
      var u := Wake(s, q, l[0]);
      assert l[0] in l;
      WakeEffect(s, q, l[0]);
      QueueFacts(s, q);
      assert l == [l[0]] + l[1..];
      AllMarkedReady(u, q);
      UnblockAllEffect(u, q);
      hide Wake, UnblockAll;
      assert UnblockAll(s, q) == UnblockAll(u, q) by { OneThenAll(s, q); }
    }
  }

  lemma OneThenAll(s: Sys, q: QueueId)
    requires On(s, q) != [] && q != Ready
    ensures UnblockAll(s, q) == UnblockAll(Wake(s, q, On(s, q)[0]), q)
  {
  }

  lemma UnblockAllMarks(s: Sys, q: QueueId, gone: int)
    requires Core(s) && q != Ready
    ensures Marked(s, UnblockAll(s, q), gone) && UnblockAll(s, q).current == s.current && Core(UnblockAll(s, q))
  {
    hide Core, UnblockAll, Marked;
    UnblockAllWakes(s, q);
    UnblockAllEffect(s, q);
    AllMarkedReady(s, q);
    WokenMarks(s, UnblockAll(s, q), q, gone);
  }

  // ---------------------------------------------------------------- the calls

  lemma CounterAssigned(s: Sys, i: int, n: int, gone: int)
    ensures Marked(s, SetCond(s, i, n), gone) && Marked(s, SetSem(s, i, n), gone)
    ensures Marked(s, SetArrived(s, i, n), gone)
  {
    hide Marked;
    SameMarks(s, SetCond(s, i, n), gone);
    SameMarks(s, SetSem(s, i, n), gone);
    SameMarks(s, SetArrived(s, i, n), gone);
  }

  lemma AlarmAssigned(s: Sys, ms: nat, gone: int)
    ensures Marked(s, SetAlarm(s, ms), gone)
  {
    hide Marked;
    SameMarks(s, SetAlarm(s, ms), gone);
  }

  lemma LockDropped(s: Sys, p: int, m: int, gone: int)
    ensures Marked(s, DropLock(s, p, m), gone) && DropLock(s, p, m).current == s.current
  {
    hide Marked;
    SameMarks(s, DropLock(s, p, m), gone);
  }

  lemma LockTaken(s: Sys, m: int, gone: int)
    ensures Marked(s, SetTask(s, s.current, Tsk(s, s.current).(resume := User)), gone)
    ensures !Mtx(s, m).locked ==> Marked(s, AcquireLoop(s, m), gone)
  {
    hide Marked, DoWait;
    SameMarks(s, SetTask(s, s.current, Tsk(s, s.current).(resume := User)), gone);
    if !Mtx(s, m).locked {
      SameMarks(s, AcquireLoop(s, m), gone);
    }
  }

  lemma AcquireMarks(s: Sys, m: int, gone: int)
    requires Core(s) && Settled(s) && s.current != 0
    ensures Mtx(s, m).owner == s.current || (Mtx(s, m).locked ==> Replaceable(s)) ==> Marked(s, Acquire(s, m), gone)
    ensures (Mtx(s, m).locked ==> Replaceable(s)) ==> Marked(s, AcquireLoop(s, m), gone)
  {
    assert Mtx(s, m).locked ==> QueueExists(s, MutexQ(m));
    hide Core, Settled, DoWait, Marked, SetTask, SetMutex, Replaceable;
    LockTaken(s, m, gone);
    if Mtx(s, m).locked && Replaceable(s) {
      DoWaitMarks(s, MutexQ(m), BLOCKED, Retry(m), gone);
    }
  }

  lemma ReleaseMarks(s: Sys, m: int, gone: int)
    requires Core(s)
    ensures Marked(s, Release(s, m), gone) && Release(s, m).current == s.current
  {
    hide Core, UnblockOne, Marked, DropLock;
    if Mtx(s, m).owner == s.current {
      var u := UnblockOne(s, MutexQ(m));
      UnblockOneMarks(s, MutexQ(m), gone);
      LockDropped(u, s.current, m, gone);
      MarkedTwice(s, u, Release(s, m), gone);
    } else {
      SameMarks(s, s, gone);
    }
  }

  lemma CondWaitMarks(s: Sys, c: int, m: int, gone: int)
    requires Invariant(s) && !s.panicked && s.current != 0 && 0 <= c < |s.conds|
    requires Replaceable(Release(SetCond(s, c, s.conds[c] + 1), m))
    ensures Marked(s, ConditionWait(s, c, m), gone)
  {
    hide Core, NobodyWaitsForDead, Settled, Release, DoWait, Marked, Replaceable;
    var s1 := SetCond(s, c, s.conds[c] + 1);
    var s2 := Release(s1, m);
    SetKeepsSettled(s, c, s.conds[c] + 1);
    ReleaseKeepsSettled(s1, m);
    ReleaseFields(s1, m);
    CounterAssigned(s, c, s.conds[c] + 1, gone);
    ReleaseMarks(s1, m, gone);
    MarkedTwice(s, s1, s2, gone);
    DoWaitMarks(s2, CondQ(c), BLOCKED, Reacquire(m), gone);
    MarkedTwice(s, s2, ConditionWait(s, c, m), gone);
  }

  /** A counter is changed, then one or all waiters are woken, or the running task blocks. */
  lemma CountedMarks(s: Sys, t: Sys, q: QueueId, status: Status, gone: int)
    requires Invariant(t) && Settled(t) && Marked(s, t, gone) && t.current == s.current && q != Ready
    ensures Marked(s, UnblockOne(t, q), gone) && Marked(s, UnblockAll(t, q), gone)
    ensures s.current != 0 && QueueExists(t, q) && StatusFits(q, status) && Replaceable(t) ==>
      Marked(s, DoWait(t, q, status, User), gone)
  {
    hide Core, NobodyWaitsForDead, Settled, UnblockOne, UnblockAll, DoWait, Marked, Replaceable;
    UnblockOneMarks(t, q, gone);
    UnblockAllMarks(t, q, gone);
    MarkedTwice(s, t, UnblockOne(t, q), gone);
    MarkedTwice(s, t, UnblockAll(t, q), gone);
    if s.current != 0 && QueueExists(t, q) && StatusFits(q, status) && Replaceable(t) {
      DoWaitMarks(t, q, status, User, gone);
      MarkedTwice(s, t, DoWait(t, q, status, User), gone);
    }
  }

  lemma CountersMark(s: Sys, i: int, n: int, gone: int)
    requires Invariant(s) && !s.panicked
    ensures var t := SetCond(s, i, n);
      && Marked(s, t, gone) && Marked(s, UnblockOne(t, CondQ(i)), gone) && Marked(s, UnblockAll(t, CondQ(i)), gone)
    ensures var t := SetSem(s, i, n);
      && Marked(s, t, gone) && Marked(s, UnblockOne(t, SemQ(i)), gone)
      && (s.current != 0 && 0 <= i < |s.sems| && Replaceable(s) ==> Marked(s, DoWait(t, SemQ(i), BLOCKED, User), gone))
    ensures var t := SetArrived(s, i, n);
      && Marked(s, UnblockAll(t, BarrierQ(i)), gone)
      && (s.current != 0 && 0 <= i < |s.barriers| && Replaceable(s) ==>
            Marked(s, DoWait(t, BarrierQ(i), WAITING, User), gone))
  {
    hide Core, NobodyWaitsForDead, Settled, UnblockOne, UnblockAll, DoWait, Marked, Replaceable;
    SameReplaceable(s, SetSem(s, i, n));
    SameReplaceable(s, SetArrived(s, i, n));
    SetKeepsSettled(s, i, n);
    CounterAssigned(s, i, n, gone);
    CountedMarks(s, SetCond(s, i, n), CondQ(i), BLOCKED, gone);
    CountedMarks(s, SetSem(s, i, n), SemQ(i), BLOCKED, gone);
    CountedMarks(s, SetArrived(s, i, n), BarrierQ(i), WAITING, gone);
    CounterQueuesExist(s, i, n);
  }

  lemma SameReplaceable(s: Sys, t: Sys)
    requires t.queues == s.queues && t.tasks == s.tasks && t.current == s.current
    ensures Replaceable(t) == Replaceable(s)
  {
  }

  lemma SleepMarks(s: Sys, ms: nat, gone: int)
    requires Invariant(s) && !s.panicked && s.current != 0 && Replaceable(s)
    ensures Marked(s, DoSleep(s, ms), gone)
  {
    AlarmFields(s, ms);
    hide Core, NobodyWaitsForDead, SetAlarm, DoWait, Marked, Replaceable;
    AlarmWakes(s, ms);
    WhoRuns(s);
    WokenReplaceable(s, SetAlarm(s, ms));
    WokenKeepsInvariant(s, SetAlarm(s, ms));
    AlarmAssigned(s, ms, gone);
    DoWaitMarks(SetAlarm(s, ms), Sleep, SLEEPING, User, gone);
    MarkedTwice(s, SetAlarm(s, ms), DoSleep(s, ms), gone);
  }

  lemma SpawnMarks(s: Sys, priority: int, gone: int)
    requires Consistent(s)
    ensures Marked(s, InitPcb(s, priority).0, gone)
  {
    hide Core, NobodyWaitsForDead, Settled, Slist.Valid;
    var p := SpawnBirth(s, priority);
    if p != 0 {
      BornReady(s, priority, p);
      NotOnAnyQueue(s, p, Ready);
      AwakeFits(READY);
      hide InitPcb, StatusFits;
      var t := InitPcb(s, priority).0;
      forall q, x ensures MarkedOn(s, t, q, x) { NotOnAnyQueue(s, p, q); }
    }
  }

  lemma BornReady(s: Sys, priority: int, p: int)
    requires Core(s) && 0 <= s.pids[0].cursor < |s.pids| && p == AllocNode(s.pids).1 && 0 < p < MAX_TASK_NUM
    ensures Tsk(InitPcb(s, priority).0, p).status == READY
  {
  }

  lemma {:induction false} ReleaseLocksMark(s: Sys, p: int, i: nat)
    requires Core(s) && !IsLive(s, p) && 0 < p < MAX_TASK_NUM && i <= MAX_LOCKS_NUM <= |s.mutexes|
    ensures Marked(s, ReleaseLocks(s, p, i), p)
    decreases MAX_LOCKS_NUM - i
  {
    hide Core, UnblockOne, Marked, DropLock;
    if i >= MAX_LOCKS_NUM || Tsk(s, p).lockNum <= 0 {
      SameMarks(s, s, p);
    } else if Mtx(s, i).owner != p {
      ReleaseLocksMark(s, p, i + 1);
    } else {
      var u, t := UnblockOne(s, MutexQ(i)), ReleaseLock(s, p, i);
      ReleaseLockEffect(s, p, i);
      UnblockOneMarks(s, MutexQ(i), p);
      LockDropped(u, p, i, p);
      MarkedTwice(s, u, t, p);
      ReleaseLocksMark(t, p, i + 1);
      MarkedTwice(s, t, ReleaseLocks(t, p, i + 1), p);
    }
  }

  lemma GoneMarks(s: Sys, t: Sys, p: int)
    requires Gone(s, t, p)
    ensures Marked(s, t, p)
  {
  }

  lemma ClearedMarks(s: Sys, p: int)
    requires Invariant(s) && Slist.Valid(s.pids) && IsLive(s, p)
    ensures Marked(s, Cleared(s, p), p) && Cleared(s, p).current == s.current
  {
    KillStages(s, p);
    var s1 := Unlinked(s, p);
    var s2 := ReleaseLocks(s1, p, 0);
    GoneMarks(s, s1, p);
    hide Core, NobodyWaitsForDead, Settled, Slist.Valid, Marked, ReleaseLocks, UnblockAll, Gone;
    ReleaseLocksMark(s1, p, 0);
    ReleaseLocksWakes(s1, p, 0);
    UnblockAllMarks(s2, WaitOf(p), p);
    MarkedTwice(s, s1, s2, p);
    MarkedTwice(s, s2, Cleared(s, p), p);
  }

  lemma KillMarks(s: Sys, p: int)
    requires Consistent(s) && !s.panicked && s.current != 0
    ensures Marked(s, Kill(s, p).0, p)
  {
    hide Core, NobodyWaitsForDead, Slist.Valid, Marked, Kill, Cleared, Scheduler;
    KillBuries(s, p);
    if p != 1 && IsLive(s, p) {
      KillLives(s, p);
      KillStages(s, p);
      ClearedMarks(s, p);
      if s.current == p {
        ClearedKeepsInvariant(s, p);
        SchedulerMarks(Cleared(s, p), p);
        MarkedTwice(s, Cleared(s, p), Kill(s, p).0, p);
      }
    } else {
      SameMarks(s, s, p);
    }
  }

  /** Every event but the tick marks whoever it makes ready or puts to sleep. */
  lemma EventMarks(s: Sys, e: Event, gone: int)
    requires Consistent(s) && Enabled(s, e) && e != Timer && (e.KillTask? ==> gone == e.pid)
    ensures Marked(s, Apply(s, e), gone)
  {
    hide Core, NobodyWaitsForDead, Slist.Valid, Settled, Marked, UnblockOne, UnblockAll;
    hide Kill, InitPcb, DoSleep, Acquire, AcquireLoop, Release, ConditionWait, DoWait, SetCond, SetSem, SetArrived;
    hide Replaceable;
    SameMarks(s, s, gone);
    match e
    case KillTask(p) => KillMarks(s, p);
    case Spawn(priority) => SpawnMarks(s, priority, gone);
    case WaitFor(p) =>
      if Wait(s, p).1 {
        WaitMarks(s, p, gone);
      }
    case SleepFor(ms) => SleepMarks(s, ms, gone);
    case Lock(m) => AcquireMarks(s, m, gone);
    case Unlock(m) => ReleaseMarks(s, m, gone);
    case CondWait(c, m) => CondWaitMarks(s, c, m, gone);
    case CondSignal(c) => CountersMark(s, c, s.conds[c] - 1, gone);
    case CondBroadcast(c) => CountersMark(s, c, 0, gone);
    case SemUp(i) => CountersMark(s, i, s.sems[i] + 1, gone);
    case SemDown(i) => CountersMark(s, i, s.sems[i] - 1, gone);
    case BarrierWait(b) =>
      CountersMark(s, b, 0, gone);
      CountersMark(s, b, s.barriers[b].arrived + 1, gone);
    case Continue => AcquireMarks(s, if Tsk(s, s.current).resume == User then 0 else Tsk(s, s.current).resume.m, gone);
  }

  lemma WaitMarks(s: Sys, p: int, gone: int)
    requires Invariant(s) && !s.panicked && s.current != 0 && IsLive(s, p) && Replaceable(s)
    ensures Marked(s, DoWait(s, WaitOf(p), WAITING, User), gone)
  {
    hide Core, NobodyWaitsForDead, DoWait, Marked;
    assert QueueExists(s, WaitOf(p));
    DoWaitMarks(s, WaitOf(p), WAITING, User, gone);
  }

  // ---------------------------------------------------------------- the tick

  function KeyOf(s: Sys, p: int): Key {
    Key(Tsk(s, p).schedulerPriority, Tsk(s, p).waitTime)
  }

  /** At the next tick the first sleeper that is due, if there is one, will be chosen to run: no
      ready task has a greater key. */
  ghost predicate RousedRuns(s: Sys) {
    var i := FirstDue(Waiters(s, Sleep), s.ticks + 1);
    i == -1 || forall r :: r in On(s, Ready) ==> !Less(KeyOf(s, On(s, Sleep)[i]), KeyOf(s, r))
  }

  lemma NextTickRouses(s: Sys)
    ensures var s1, i := s.(ticks := s.ticks + 1), FirstDue(Waiters(s, Sleep), s.ticks + 1);
      CheckSleeping(s1) == if i == -1 then s1 else Rouse(s1, On(s, Sleep)[i])
  {
    var s1 := s.(ticks := s.ticks + 1);
    ExpiredIsDue(s1, On(s, Sleep), Waiters(s, Sleep));
  }

  lemma LastPickedIff(keys: seq<Key>)
    requires keys != [] && Eligible(keys[|keys| - 1])
    requires forall k :: 0 <= k < |keys| ==> Eligible(keys[k]) || keys[k].priority < 1
    ensures Pick(keys) == |keys| - 1 <==> forall k :: 0 <= k < |keys| ==> !Less(keys[|keys| - 1], keys[k])
  {
    PickIsLastMax(keys);
    if forall k :: 0 <= k < |keys| ==> !Less(keys[|keys| - 1], keys[k]) {
      LastMaxIsPick(keys, |keys| - 1);
    }
  }

  lemma ReadyKeys(s: Sys)
    requires Core(s)
    ensures var l, keys := On(s, Ready), SchedulingKeys(s, On(s, Ready));
      && |keys| == |l|
      && forall k :: 0 <= k < |l| ==>
        keys[k] == KeyOf(s, l[k]) && if Sound(Tsk(s, l[k])) then Eligible(keys[k]) else keys[k].priority < 1
  {
    var l := On(s, Ready);
    forall k | 0 <= k < |l|
      ensures if Sound(Tsk(s, l[k])) then Eligible(SchedulingKeys(s, l)[k]) else SchedulingKeys(s, l)[k].priority < 1
    {
      assert BelongsOn(s, Ready, l[k]);
      assert Fit(Tsk(s, l[k]));
    }
  }

  /** The task at the tail of the ready queue is chosen exactly when nobody has a
      greater key; otherwise its status stays. */
  lemma TailChosenIff(s: Sys, p: int)
    requires Core(s) && On(s, Ready) != [] && On(s, Ready)[|On(s, Ready)| - 1] == p && p != s.current
    requires Sound(Tsk(s, p))
    ensures var l, t := On(s, Ready), Scheduler(s);
      && p in On(t, Ready)
      && (t.current == p <==> forall k :: 0 <= k < |l| ==> !Less(KeyOf(s, p), KeyOf(s, l[k])))
      && Tsk(t, p).status == if t.current == p then RUNNING else Tsk(s, p).status
  {
    hide Core, Scheduler, SchedulingKeys, KeyOf, Less, Eligible, Rescheduled, Pick, Sound;
    assert p in On(s, Ready);
    SchedulerEffect(s);
    SchedulerTasks(s);
    QueueFacts(s, Ready);
    ReadyKeys(s);
    LastPickedIff(SchedulingKeys(s, On(s, Ready)));
    RescheduledStatus(s, Scheduler(s).current, p);
  }

  lemma RouseStatuses(s: Sys, p: int)
    requires Core(s) && p in On(s, Sleep) && s.current != p
    ensures var u := Rouse(s, p);
      && Core(u) && u.current == s.current && u.ticks == s.ticks
      && On(u, Ready) == On(s, Ready) + [p]
      && (forall q, x :: q != Ready ==> (x in On(u, q) <==> x in On(s, q) && x != p))
      && (forall x :: KeyOf(u, x) == KeyOf(s, x))
      && (forall x :: x != s.current ==> Tsk(u, x).status == Tsk(s, x).status)
      && (0 <= s.current < |s.tasks| ==> Tsk(u, s.current).status == READY)
      && |u.tasks| == |s.tasks| && Sound(Tsk(u, p))
  {
    RouseEffect(s, p);
    QueueFacts(s, Sleep);
    WithoutElems(On(s, Sleep), p);
    RousedStatus(s, p);
    hide Rouse;
    forall q, x | q != Ready ensures x in On(Rouse(s, p), q) <==> x in On(s, q) && x != p {
      if q != Sleep { Elsewhere(s, Sleep, q); }
    }
    hide Core;
    assert forall x :: SameTask(Tsk(s, x), Tsk(Rouse(s, p), x));
  }

  lemma RousedStatus(s: Sys, p: int)
    ensures var u := Rouse(s, p);
      && (forall x :: x != s.current ==> Tsk(u, x).status == Tsk(s, x).status)
      && (0 <= s.current < |s.tasks| ==> Tsk(u, s.current).status == READY)
  {
  }

  lemma NotAsleep(s: Sys)
    requires Consistent(s) && !s.panicked
    ensures (forall q :: q != Ready ==> s.current !in On(s, q)) && 0 <= s.current < |s.tasks|
  {
    forall q | q != Ready ensures s.current !in On(s, q) {
      Elsewhere(s, Ready, q);
      QueueFacts(s, q);
    }
  }

  lemma ClockCore(s: Sys)
    requires Core(s)
    ensures Core(s.(ticks := s.ticks + 1))
  {
    ClockQuiet(s);
  }

  /** The tick rouses task p, the first sleeper that is due. */
  ghost predicate Rouses(s: Sys, p: int) {
    var i := FirstDue(Waiters(s, Sleep), s.ticks + 1);
    i != -1 && On(s, Sleep)[i] == p
  }

  lemma RouseScheduled(s: Sys, p: int)
    requires Core(s) && p in On(s, Sleep) && s.current != p
    ensures var t := Scheduler(Rouse(s, p));
      && p in On(t, Ready)
      && (t.current == p <==> forall r :: r in On(s, Ready) ==> !Less(KeyOf(s, p), KeyOf(s, r)))
      && Tsk(t, p).status == if t.current == p then RUNNING else Tsk(s, p).status
  {
    hide Core, Scheduler, Rouse, KeyOf, Less, Sound;
    var u := Rouse(s, p);
    RouseStatuses(s, p);
    assert On(u, Ready)[|On(u, Ready)| - 1] == p;
    TailChosenIff(u, p);
    KeysBelow(s, u, p);
  }

  /** The task that a tick rouses is ready afterwards; it runs exactly when no ready task had a greater key, and
      otherwise keeps the status it had asleep. */
  lemma TickRouses(s: Sys, p: int)
    requires Consistent(s) && !s.panicked && Rouses(s, p)
    ensures var t := Tick(s);
      && p in On(t, Ready)
      && (t.current == p <==> RousedRuns(s))
      && Tsk(t, p).status == if t.current == p then RUNNING else Tsk(s, p).status
  {
    hide Core, NobodyWaitsForDead, Settled, Slist.Valid, CheckSleeping, Scheduler, Rouse, KeyOf, Less;
    var s1 := s.(ticks := s.ticks + 1);
    NotAsleep(s);
    NextTickRouses(s);
    ClockCore(s);
    RouseScheduled(s1, p);
    SameKeys(s, s1);
  }

  lemma SameKeys(s: Sys, s1: Sys)
    requires s1 == s.(ticks := s1.ticks)
    ensures forall x :: KeyOf(s1, x) == KeyOf(s, x)
  {
  }

  lemma KeysBelow(s: Sys, u: Sys, p: int)
    requires On(u, Ready) == On(s, Ready) + [p] && forall x :: KeyOf(u, x) == KeyOf(s, x)
    ensures (forall k :: 0 <= k < |On(u, Ready)| ==> !Less(KeyOf(u, p), KeyOf(u, On(u, Ready)[k])))
       <==> (forall r :: r in On(s, Ready) ==> !Less(KeyOf(s, p), KeyOf(s, r)))
  {
    hide KeyOf;
    var l := On(u, Ready);
    if forall k :: 0 <= k < |l| ==> !Less(KeyOf(u, p), KeyOf(u, l[k])) {
      forall r | r in On(s, Ready) ensures !Less(KeyOf(s, p), KeyOf(s, r)) {
        var k :| 0 <= k < |On(s, Ready)| && On(s, Ready)[k] == r;
        assert l[k] == r;
      }
    }
  }

  /** The tick with nobody due marks like any other call of the scheduler. */
  lemma IdleTickMarks(s: Sys)
    requires Consistent(s) && !s.panicked && FirstDue(Waiters(s, Sleep), s.ticks + 1) == -1
    ensures Marked(s, Tick(s), 0)
  {
    hide Core, NobodyWaitsForDead, Settled, Slist.Valid, CheckSleeping, Scheduler, Marked;
    var s1 := s.(ticks := s.ticks + 1);
    NotAsleep(s);
    NextTickRouses(s);
    ClockCore(s);
    SameMarks(s, s1, 0);
    assert forall q :: On(s1, q) == On(s, q);
    SchedulerMarks(s1, 0);
    MarkedTwice(s, s1, Tick(s), 0);
  }

  /** Everybody but p is marked as by any other call of the scheduler, and nobody falls asleep or blocks. */
  ghost predicate MarkedBut(s: Sys, t: Sys, p: int) {
    && (forall x :: x != p ==> MarkedOn(s, t, Ready, x))
    && (forall q, x :: q != Ready ==> StayedOn(s, t, q, x))
    && (forall x :: x != s.current ==> StayedReady(s, t, x))
  }

  ghost predicate StayedOn(s: Sys, t: Sys, q: QueueId, x: int) {
    x in On(t, q) ==> x in On(s, q) && Tsk(t, x).status == Tsk(s, x).status
  }

  ghost predicate StayedReady(s: Sys, t: Sys, x: int) {
    x in On(s, Ready) ==> x in On(t, Ready) && (x == t.current || Tsk(t, x).status == Tsk(s, x).status)
  }

  lemma RouseMarks(s: Sys, p: int)
    requires Core(s) && p in On(s, Sleep) && 0 <= s.current < |s.tasks|
    requires forall q :: q != Ready ==> s.current !in On(s, q)
    ensures MarkedBut(s, Scheduler(Rouse(s, p)), p)
  {
    hide Core, Scheduler, Rouse, KeyOf, Rescheduled, StatusFits;
    RouseStatuses(s, p);
    var u := Rouse(s, p);
    var t := Scheduler(u);
    SchedulerMarks(u, 0);
    Elsewhere(s, Ready, Sleep);
    QueueFacts(s, Ready);
    SchedulerStatuses(u);
    forall x | x != p ensures MarkedOn(s, t, Ready, x) {
      assert MarkedOn(u, t, Ready, x);
      AwakeFits(Tsk(t, x).status);
    }
  }

  lemma RousingTickMarks(s: Sys, p: int)
    requires Consistent(s) && !s.panicked && Rouses(s, p)
    ensures MarkedBut(s, Tick(s), p)
  {
    hide Core, NobodyWaitsForDead, Settled, Slist.Valid, CheckSleeping, Scheduler, Rouse, MarkedBut;
    var s1 := s.(ticks := s.ticks + 1);
    NotAsleep(s);
    NextTickRouses(s);
    ClockCore(s);
    assert forall q :: On(s1, q) == On(s, q);
    RouseMarks(s1, p);
    MarkedFrom(s, s1, Tick(s), p);
  }

  lemma MarkedFrom(s: Sys, s1: Sys, t: Sys, p: int)
    requires s1 == s.(ticks := s1.ticks) && MarkedBut(s1, t, p)
    ensures MarkedBut(s, t, p)
  {
    ClockSame(s, s1);
    hide On, Tsk, StatusFits;
    forall x | x != p ensures MarkedOn(s, t, Ready, x) { assert MarkedOn(s1, t, Ready, x); }
    forall q, x | q != Ready ensures StayedOn(s, t, q, x) { assert StayedOn(s1, t, q, x); }
    forall x | x != s.current ensures StayedReady(s, t, x) { assert StayedReady(s1, t, x); }
  }

  lemma ClockSame(s: Sys, s1: Sys)
    requires s1 == s.(ticks := s1.ticks)
    ensures forall q :: On(s1, q) == On(s, q)
    ensures forall x :: Tsk(s1, x) == Tsk(s, x)
  {
  }

  lemma KeysCount(s: Sys, l: seq<int>)
    ensures |SchedulingKeys(s, l)| == |l|
  {
  }

  lemma SchedulerStatuses(u: Sys)
    requires Core(u) && On(u, Ready) != [] && 0 <= u.current < |u.tasks|
    requires forall q :: q != Ready ==> u.current !in On(u, q)
    ensures forall q, x :: q != Ready && x in On(u, q) ==> Tsk(Scheduler(u), x).status == Tsk(u, x).status
  {
    hide Core, Scheduler, Rescheduled, SchedulingKeys;
    SchedulerTasks(u);
    QueueFacts(u, Ready);
    var i, next := Pick(SchedulingKeys(u, On(u, Ready))), Scheduler(u).current;
    assert i != -1 ==> On(u, Ready)[i] in On(u, Ready) by { KeysCount(u, On(u, Ready)); }
    forall q, x | q != Ready && x in On(u, q) ensures Tsk(Scheduler(u), x).status == Tsk(u, x).status {
      Elsewhere(u, q, Ready);
      RescheduledStatus(u, next, x);
    }
  }

  // ---------------------------------------------------------------- when the statuses fit

  /** Given that they fit before an event, the statuses of all tasks on all queues fit after it exactly when the event
      is no tick that rouses a task without running it at once. */
  lemma EventFitsIff(s: Sys, e: Event)
    requires Consistent(s) && Enabled(s, e) && StatusesFit(s)
    ensures StatusesFit(Apply(s, e)) <==> (e == Timer ==> RousedRuns(s))
  {
    hide Consistent, Apply, RousedRuns, StatusesFit, Marked;
    if e == Timer {
      TimerTicks(s);
      TickFitsIff(s);
    } else {
      EventMarks(s, e, if e.KillTask? then e.pid else 0);
      MarkedFits(s, Apply(s, e), if e.KillTask? then e.pid else 0);
    }
  }

  /** Every tick of the run rouses nobody, or runs at once whom it rouses. */
  ghost predicate RousedRunAtOnce(s: Sys, es: seq<Event>)
    decreases |es|
  {
    es == [] || ((es[0] == Timer ==> RousedRuns(s)) && RousedRunAtOnce(Apply(s, es[0]), es[1..]))
  }

  /** The statuses fit all along a run exactly when every tick of it rouses nobody, or runs at once whom it rouses. */
  lemma {:induction false} RunFitsIff(s: Sys, es: seq<Event>)
    requires Consistent(s) && IsRun(s, es) && StatusesFit(s)
    ensures (forall k :: 0 <= k <= |es| ==> StatusesFit(Final(s, es[..k]))) <==> RousedRunAtOnce(s, es)
    decreases |es|
  {
    hide Consistent, Apply, RousedRuns, StatusesFit, Enabled;
    assert es[..0] == [] && es[..|es|] == es;
    if es != [] {
      var t := Apply(s, es[0]);
      EventKeepsConsistent(s, es[0]);
      EventFitsIff(s, es[0]);
      forall k | 0 < k <= |es| ensures Final(s, es[..k]) == Final(t, es[1..][..k - 1]) {
        assert es[..k][1..] == es[1..][..k - 1];
      }
      assert StatusesFit(t) <==> StatusesFit(Final(s, es[..1]));
      if StatusesFit(t) {
        RunFitsIff(t, es[1..]);
        FitPrefixes(s, t, es);
      }
    }
  }

  lemma FitPrefixes(s: Sys, t: Sys, es: seq<Event>)
    requires es != [] && StatusesFit(s) && forall k :: 0 < k <= |es| ==> Final(s, es[..k]) == Final(t, es[1..][..k - 1])
    ensures (forall k :: 0 <= k <= |es| ==> StatusesFit(Final(s, es[..k])))
       <==> (forall k :: 0 <= k < |es| ==> StatusesFit(Final(t, es[1..][..k])))
  {
    hide StatusesFit;
    assert es[..0] == [];
    if forall k :: 0 <= k <= |es| ==> StatusesFit(Final(s, es[..k])) {
      forall k | 0 <= k < |es| ensures StatusesFit(Final(t, es[1..][..k])) {
        assert StatusesFit(Final(s, es[..k + 1]));
      }
    }
  }

  lemma MarkedFits(s: Sys, t: Sys, gone: int)
    requires Marked(s, t, gone) && StatusesFit(s)
    ensures StatusesFit(t)
  {
    hide StatusFits;
    forall q, p | p in On(t, q) ensures StatusFits(q, Tsk(t, p).status) { assert MarkedOn(s, t, q, p); }
  }

  lemma TickFitsIff(s: Sys)
    requires Consistent(s) && !s.panicked && StatusesFit(s)
    ensures StatusesFit(Tick(s)) <==> RousedRuns(s)
  {
    hide Consistent, Tick, RousedRuns, Marked;
    var i := FirstDue(Waiters(s, Sleep), s.ticks + 1);
    if i == -1 {
      IdleTickMarks(s);
      NobodyRoused(s);
      MarkedFits(s, Tick(s), 0);
    } else {
      var p := On(s, Sleep)[i];
      RousingTickMarks(s, p);
      TickRouses(s, p);
      assert Tsk(s, p).status == SLEEPING;
      RousedFits(s, Tick(s), p);
    }
  }

  lemma RousedFits(s: Sys, t: Sys, p: int)
    requires StatusesFit(s) && MarkedBut(s, t, p) && p in On(t, Ready)
    ensures StatusesFit(t) <==> Awake(Tsk(t, p).status)
  {
    hide StatusFits;
    AwakeFits(Tsk(t, p).status);
    forall q, x | x in On(t, q) && !(q == Ready && x == p) ensures StatusFits(q, Tsk(t, x).status) {
      if q == Ready { assert MarkedOn(s, t, Ready, x); } else { assert StayedOn(s, t, q, x); }
    }
  }

  lemma NobodyRoused(s: Sys)
    requires FirstDue(Waiters(s, Sleep), s.ticks + 1) == -1
    ensures RousedRuns(s)
  {
  }

  lemma TimerTicks(s: Sys)
    ensures Apply(s, Timer) == Tick(s)
  {
  }

  lemma NobodyIsZero(s: Sys)
    requires Consistent(s)
    ensures 0 !in On(s, Ready)
  {
    QueueFacts(s, Ready);
  }

  lemma TickKeepsStatus(s: Sys, p: int)
    requires Consistent(s) && !s.panicked && p in On(s, Ready) && p != s.current && p != 0
    ensures var t := Tick(s);
      p in On(t, Ready) && (p == t.current || Tsk(t, p).status == Tsk(s, p).status)
  {
    hide Consistent, Marked, MarkedBut, Tick;
    var i := FirstDue(Waiters(s, Sleep), s.ticks + 1);
    if i == -1 {
      IdleTickMarks(s);
      MarkKeeps(s, Tick(s), 0, p);
    } else {
      RousingTickMarks(s, On(s, Sleep)[i]);
      MarkButKeeps(s, Tick(s), On(s, Sleep)[i], p);
    }
  }

  /** A ready task keeps its place on the ready queue and its status until it is dispatched or killed. */
  lemma ReadyKeepsStatus(s: Sys, e: Event, p: int)
    requires Consistent(s) && Enabled(s, e) && p in On(s, Ready) && p != s.current && e != KillTask(p)
    ensures var t := Apply(s, e);
      p in On(t, Ready) && (p == t.current || Tsk(t, p).status == Tsk(s, p).status)
  {
    hide Consistent, Apply, Marked, Tick, StatusFits, FindsNext;
    NobodyIsZero(s);
    if e == Timer {
      TimerTicks(s);
      TickKeepsStatus(s, p);
    } else {
      EventMarks(s, e, if e.KillTask? then e.pid else 0);
      MarkKeeps(s, Apply(s, e), if e.KillTask? then e.pid else 0, p);
    }
  }

  lemma MarkKeeps(s: Sys, t: Sys, gone: int, p: int)
    requires Marked(s, t, gone) && p in On(s, Ready) && p != s.current && p != gone
    ensures p in On(t, Ready) && (p == t.current || Tsk(t, p).status == Tsk(s, p).status)
  {
  }

  lemma MarkButKeeps(s: Sys, t: Sys, roused: int, p: int)
    requires MarkedBut(s, t, roused) && p in On(s, Ready) && p != s.current
    ensures p in On(t, Ready) && (p == t.current || Tsk(t, p).status == Tsk(s, p).status)
  {
    assert StayedReady(s, t, p);
  }

  /** A roused task that is not run at once stands on the ready queue as SLEEPING for as long as it is neither
      dispatched nor killed. */
  lemma {:induction false} StaysMarkedSleeping(s: Sys, es: seq<Event>, p: int)
    requires Consistent(s) && IsRun(s, es) && p in On(s, Ready) && Tsk(s, p).status == SLEEPING && Survives(es, p)
    requires forall k :: 0 <= k <= |es| ==> Final(s, es[..k]).current != p
    ensures p in On(Final(s, es), Ready) && Tsk(Final(s, es), p).status == SLEEPING
    decreases |es|
  {
    hide Consistent, Apply, Enabled;
    assert es[..0] == [];
    if es != [] {
      var t := Apply(s, es[0]);
      EventKeepsConsistent(s, es[0]);
      ReadyKeepsStatus(s, es[0], p);
      forall k | 0 <= k < |es| ensures Final(t, es[1..][..k]).current != p {
        assert es[..k + 1][1..] == es[1..][..k];
        assert Final(s, es[..k + 1]) == Final(t, es[1..][..k]);
      }
      assert es[1..][..0] == [];
      assert t.current != p;
      StaysMarkedSleeping(t, es[1..], p);
    }
  }
}
