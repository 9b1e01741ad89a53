/** How long a ready task can wait for the processor while other tasks come and go. Every call of the scheduler that
    passes it over uses up one unit of what the others are ahead; nothing but a task that comes to the ready queue
    adds to it. */
module Overtaking {
  import opened Sets
  import opened Slist
  import opened Machine
  import opened Selection
  import opened QueueRuns
  import opened SyncRuns
  import opened Fairness
  import opened Guarantees
  import opened Breakdown
  import opened Episodes

  // ---------------------------------------------------------------- how far the others are ahead

  /** By how much task x is above the scheduling priority 1. */
  function Excess(s: Sys, x: int): nat {
    if IsLive(s, x) && Tsk(s, x).schedulerPriority > 1 then Tsk(s, x).schedulerPriority - 1 else 0
  }

  /** The sum over the first n pids. */
  function Total(s: Sys, n: nat): nat {
    if n == 0 then 0 else Total(s, n - 1) + Excess(s, n - 1)
  }

  /** Task x has scheduling priority 1 and has waited no less than task p. */
  predicate Precedes(s: Sys, x: int, p: int) {
    x != p && Tsk(s, x).schedulerPriority == 1 && Tsk(s, x).waitTime >= Tsk(s, p).waitTime
  }

  function Ahead(s: Sys, l: seq<int>, p: int): nat {
    if l == [] then 0 else (if Precedes(s, l[0], p) then 1 else 0) + Ahead(s, l[1..], p)
  }

  /** What all tasks together have above priority 1, and how many of priority 1 have waited no less than task p. */
  function Lead(s: Sys, p: int): nat {
    Total(s, MAX_TASK_NUM) + Ahead(s, On(s, Ready), p)
  }

  lemma {:induction false} TotalShifts(s: Sys, t: Sys, x: int, d: int, n: nat)
    requires forall y :: y != x ==> Excess(t, y) <= Excess(s, y)
    requires Excess(t, x) <= Excess(s, x) + d
    ensures Total(t, n) <= Total(s, n) + (if 0 <= x < n then d else 0)
  {
    hide Excess;
    if n > 0 {
      TotalShifts(s, t, x, d, n - 1);
    }
  }

  lemma {:induction false} AheadLeft(s: Sys, t: Sys, l: seq<int>, p: int)
    requires forall x :: x in l && Precedes(t, x, p) ==> Precedes(s, x, p)
    ensures Ahead(t, l, p) <= Ahead(s, l, p)
    ensures forall x :: x in l && Precedes(s, x, p) && !Precedes(t, x, p) ==> Ahead(t, l, p) < Ahead(s, l, p)
  {
    hide Precedes;
    if l != [] {
      assert l[0] in l && forall x :: x in l[1..] ==> x in l;
      AheadLeft(s, t, l[1..], p);
    }
  }

  lemma {:induction false} AheadAppend(s: Sys, l: seq<int>, x: int, p: int)
    ensures Ahead(s, l + [x], p) == Ahead(s, l, p) + (if Precedes(s, x, p) then 1 else 0)
  {
    hide Precedes;
    if l != [] {
      assert (l + [x])[1..] == l[1..] + [x];
      AheadAppend(s, l[1..], x, p);
    } else {
      assert l + [x] == [x] && [x][1..] == [];
      assert Ahead(s, [], p) == 0;
    }
  }

  lemma {:induction false} AheadWithout(s: Sys, l: seq<int>, x: int, p: int)
    ensures Ahead(s, Without(l, x), p) <= Ahead(s, l, p)
    ensures |Without(l, x)| == if x in l then |l| - 1 else |l|
  {
    hide Precedes;
    if l != [] && l[0] != x {
      AheadWithout(s, l[1..], x, p);
      assert ([l[0]] + Without(l[1..], x))[1..] == Without(l[1..], x);
      assert x in l <==> x in l[1..];
    }
  }

  // ---------------------------------------------------------------- the scheduler

  /** A call of the scheduler that dispatches somebody else lowers the lead of the others. */
  lemma SchedulerLowers(s: Sys, p: int)
    requires Core(s) && p in On(s, Ready) && Sound(Tsk(s, p)) && Scheduler(s).current != p
    ensures Lead(Scheduler(s), p) < Lead(s, p)
    ensures Tsk(Scheduler(s), p).schedulerPriority == Tsk(s, p).schedulerPriority
  {
    var l, t := On(s, Ready), Scheduler(s);
    var x := t.current;
    OthersPicked(s, p);
    hide Core, Scheduler;
    TotalShifts(s, t, x, if Tsk(s, x).schedulerPriority > 1 then -1 else 0, MAX_TASK_NUM);
    AheadLeft(s, t, l, p);
  }

  /** Whoever is picked before task p has a greater scheduling priority than 1 or precedes it. */
  lemma OthersPicked(s: Sys, p: int)
    requires Core(s) && p in On(s, Ready) && Sound(Tsk(s, p)) && Scheduler(s).current != p
    ensures var t, x := Scheduler(s), Scheduler(s).current;
      && x in On(s, Ready) && 0 < x < MAX_TASK_NUM
      && (forall y :: y != x ==> Excess(t, y) == Excess(s, y))
      && Tsk(s, x).schedulerPriority >= 1
      && (Tsk(s, x).schedulerPriority > 1 ==> Excess(t, x) == Excess(s, x) - 1)
      && (Tsk(s, x).schedulerPriority == 1 ==> Excess(t, x) == Excess(s, x) && Precedes(s, x, p))
      && !Precedes(t, x, p)
      && (forall y :: y in On(s, Ready) && Precedes(t, y, p) ==> Precedes(s, y, p))
      && Tsk(t, p).schedulerPriority == Tsk(s, p).schedulerPriority
  {
    var l := On(s, Ready);
    SchedulerTasks(s);
    ReadyPick(s);
    NotOvertaken(s, p);
    assert |s.tasks| == MAX_TASK_NUM;
    hide Core, Scheduler, SchedulingKeys, Pick;
    forall y ensures IsLive(Scheduler(s), y) == IsLive(s, y) { SamePids(s, Scheduler(s), y); }
    hide IsLive;
  }

  lemma SamePids(s: Sys, t: Sys, p: int)
    requires t.pids == s.pids
    ensures IsLive(t, p) == IsLive(s, p)
  {
  }

  lemma NotOvertaken(s: Sys, p: int)
    requires Core(s) && p in On(s, Ready) && Sound(Tsk(s, p))
    ensures var l := On(s, Ready);
      var i := Pick(SchedulingKeys(s, l));
      && 0 <= i < |l| && Sound(Tsk(s, l[i])) && IsLive(s, l[i])
      && !Less(Key(Tsk(s, l[i]).schedulerPriority, Tsk(s, l[i]).waitTime),
           Key(Tsk(s, p).schedulerPriority, Tsk(s, p).waitTime))
  {
    var l := On(s, Ready);
    var keys := SchedulingKeys(s, l);
    ReadyPick(s);
    PickIsLastMax(keys);
    var k :| 0 <= k < |l| && l[k] == p;
    assert keys[k] == Key(Tsk(s, p).schedulerPriority, Tsk(s, p).waitTime);
    assert Eligible(keys[k]);
    assert l[Pick(keys)] in l;
  }

  // ---------------------------------------------------------------- tasks that come and go

  /** Between s and t the lead has grown by no more than the ready queue, which task p is still on as it was. */
  ghost predicate Brings(s: Sys, t: Sys, p: int) {
    && p in On(t, Ready) && SameWaits(Tsk(s, p), Tsk(t, p))
    && Lead(t, p) - |On(t, Ready)| <= Lead(s, p) - |On(s, Ready)|
  }

  lemma BringsTwice(s: Sys, t: Sys, u: Sys, p: int)
    requires Brings(s, t, p) && Brings(t, u, p)
    ensures Brings(s, u, p)
  {
    hide Lead;
  }

  lemma NothingBrings(s: Sys, p: int)
    requires p in On(s, Ready)
    ensures Brings(s, s, p)
  {
    hide Lead;
  }

  /** Everybody has the same priorities and has waited as long. */
  lemma AssignedBrings(s: Sys, t: Sys, p: int)
    requires Assigned(s, t) && p in On(s, Ready)
    ensures Brings(s, t, p)
  {
    forall y ensures Excess(t, y) == Excess(s, y) {
      SamePids(s, t, y);
      assert SameWaits(Tsk(s, y), Tsk(t, y));
      hide IsLive;
    }
    assert On(t, Ready) == On(s, Ready);
    TotalShifts(s, t, 0, 0, MAX_TASK_NUM);
    AheadLeft(s, t, On(s, Ready), p);
  }

  /** Task x comes to the ready queue, a step ahead of what it was or at priority 1. */
  lemma ComerBrings(s: Sys, t: Sys, x: int, p: int)
    requires p in On(s, Ready) && x !in On(s, Ready) && On(t, Ready) == On(s, Ready) + [x]
    requires forall y :: y != x ==> SameWaits(Tsk(s, y), Tsk(t, y)) && Excess(t, y) == Excess(s, y)
    requires Excess(t, x) <= Excess(s, x) + (if Tsk(t, x).schedulerPriority == 1 then 0 else 1)
    ensures Brings(s, t, p)
  {
    hide Excess;
    var l := On(s, Ready);
    assert SameWaits(Tsk(s, p), Tsk(t, p));
    TotalShifts(s, t, x, if Tsk(t, x).schedulerPriority == 1 then 0 else 1, MAX_TASK_NUM);
    AheadLeft(s, t, l, p);
    AheadAppend(t, l, x, p);
  }

  lemma WakeBrings(s: Sys, q: QueueId, x: int, p: int)
    requires Core(s) && x in On(s, q) && q != Ready && p in On(s, Ready)
    ensures Brings(s, Wake(s, q, x), p)
  {
    var t := Wake(s, q, x);
    WakeEffect(s, q, x);
    ReadyElsewhere(s, q);
    WaitersAreSound(s, q, x);
    hide Core, Wake, Brings;
    forall y ensures IsLive(t, y) == IsLive(s, y) { SamePids(s, t, y); }
    hide IsLive;
    ComerBrings(s, t, x, p);
  }

  /** Nobody on the ready queue ages. */
  lemma AgeBrings(s: Sys, l: seq<int>, p: int)
    requires Core(s) && p in On(s, Ready) && forall x :: x in On(s, Ready) ==> x !in l
    ensures Brings(s, Age(s, l), p)
  {
    var t := Age(s, l);
    AgeEffect(s, l);
    hide Core, Age;
    forall y ensures Excess(t, y) == Excess(s, y) {
      SamePids(s, t, y);
      assert Tsk(t, y) == Aged(s, l, y);
      hide IsLive;
    }
    assert On(t, Ready) == On(s, Ready);
    TotalShifts(s, t, 0, 0, MAX_TASK_NUM);
    AheadLeft(s, t, On(s, Ready), p);
  }

  lemma UnblockOneBrings(s: Sys, q: QueueId, p: int)
    requires Core(s) && q != Ready && p in On(s, Ready)
    ensures Brings(s, UnblockOne(s, q), p)
  {
    hide Core, Wake, Brings, Age, UnblockOne, Chosen, Pick, BlockingKeys, Moved;
    if On(s, q) == [] {
      UnblockOneShape(s, q);
      NothingBrings(s, p);
    } else {
      ReadyElsewhere(s, q);
      AgeBrings(s, On(s, q), p);
      AgeEffect(s, On(s, q));
      AgeQueues(s, On(s, q));
      AgedThenWoken(s, q);
      WakeBrings(Age(s, On(s, q)), q, Chosen(s, q), p);
      BringsTwice(s, Age(s, On(s, q)), UnblockOne(s, q), p);
    }
  }

  lemma {:induction false} UnblockAllBrings(s: Sys, q: QueueId, p: int)
    requires Core(s) && q != Ready && p in On(s, Ready)
    ensures Brings(s, UnblockAll(s, q), p)
    decreases |On(s, q)|
  {
    hide Core, Brings;
    var l := On(s, q);
    if l == [] {
      NothingBrings(s, p);
    } else {
      var u := Wake(s, q, l[0]);
      assert l[0] in l;
      WakeEffect(s, q, l[0]);
      WakeBrings(s, q, l[0], p);
      assert l == [l[0]] + l[1..];
      UnblockAllBrings(u, q, p);
      BringsTwice(s, u, UnblockAll(s, q), p);
    }
  }

  lemma RouseBrings(s: Sys, x: int, p: int)
    requires Core(s) && x in On(s, Sleep) && p in On(s, Ready)
    ensures Brings(s, Rouse(s, x), p)
  {
    var t := Rouse(s, x);
    RouseEffect(s, x);
    ReadyElsewhere(s, Sleep);
    hide Core, Rouse, Brings;
    forall y ensures SameWaits(Tsk(s, y), Tsk(t, y)) && Excess(t, y) == Excess(s, y) {
      SamePids(s, t, y);
      assert SameTask(Tsk(s, y), Tsk(t, y));
      hide IsLive;
    }
    ComerBrings(s, t, x, p);
  }

  lemma CheckedBrings(s: Sys, p: int)
    requires Core(s) && p in On(s, Ready)
    ensures Brings(s, CheckSleeping(s.(ticks := s.ticks + 1)), p)
  {
    hide Core, Rouse, Brings;
    var s1 := s.(ticks := s.ticks + 1);
    AssignedBrings(s, s1, p);
    AssignedWakes(s, s1);
    WokenIs(s, s1);
    var i := FirstExpired(s1, On(s1, Sleep));
    if i != -1 {
      RouseBrings(s1, On(s1, Sleep)[i], p);
      BringsTwice(s, s1, CheckSleeping(s1), p);
    }
  }

  lemma DropBrings(s: Sys, y: int, m: int, p: int)
    requires p in On(s, Ready)
    ensures Brings(s, DropLock(s, y, m), p)
  {
    hide Brings;
    AssignedBrings(s, DropLock(s, y, m), p);
  }

  lemma ReleaseBrings(s: Sys, m: int, p: int)
    requires Core(s) && p in On(s, Ready)
    ensures Brings(s, Release(s, m), p)
  {
    hide Core, UnblockOne, DropLock, Lead;
    if Mtx(s, m).owner == s.current {
      UnblockOneBrings(s, MutexQ(m), p);
      DropBrings(UnblockOne(s, MutexQ(m)), s.current, m, p);
      BringsTwice(s, UnblockOne(s, MutexQ(m)), Release(s, m), p);
    }
  }

  lemma CountedBrings(s: Sys, i: int, n: int, p: int)
    requires p in On(s, Ready)
    ensures Brings(s, SetCond(s, i, n), p) && Brings(s, SetSem(s, i, n), p) && Brings(s, SetArrived(s, i, n), p)
  {
    CounterIsAssigned(s, i, n);
    hide Brings, Assigned;
    AssignedBrings(s, SetCond(s, i, n), p);
    AssignedBrings(s, SetSem(s, i, n), p);
    AssignedBrings(s, SetArrived(s, i, n), p);
  }

  lemma UnblockedBrings(s: Sys, t: Sys, q: QueueId, p: int)
    requires Core(t) && Brings(s, t, p) && q != Ready
    ensures Brings(s, UnblockOne(t, q), p) && Brings(s, UnblockAll(t, q), p)
  {
    assert p in On(t, Ready);
    hide Core, UnblockOne, UnblockAll, Brings;
    UnblockOneBrings(t, q, p);
    UnblockAllBrings(t, q, p);
    BringsTwice(s, t, UnblockOne(t, q), p);
    BringsTwice(s, t, UnblockAll(t, q), p);
  }

  lemma TakingBrings(s: Sys, m: int, p: int)
    requires p in On(s, Ready)
    ensures !Mtx(s, m).locked ==> Brings(s, AcquireLoop(s, m), p)
    ensures Mtx(s, m).owner == s.current || !Mtx(s, m).locked ==> Brings(s, Acquire(s, m), p)
  {
    hide DoWait, Brings;
    if !Mtx(s, m).locked {
      AssignedBrings(s, AcquireLoop(s, m), p);
    }
    AssignedBrings(s, SetTask(s, s.current, Tsk(s, s.current).(resume := User)), p);
  }

  lemma CountedCore(s: Sys, i: int, n: int)
    requires Core(s)
    ensures Core(SetCond(s, i, n)) && Core(SetSem(s, i, n)) && Core(SetArrived(s, i, n))
  {
    hide Core;
    CountedWakes(s, i, n);
    WokenIs(s, SetCond(s, i, n));
    WokenIs(s, SetSem(s, i, n));
    WokenIs(s, SetArrived(s, i, n));
  }

  /** A counter is changed, then waiters are woken. */
  lemma CountThenUnblock(s: Sys, i: int, n: int, p: int)
    requires Core(s) && p in On(s, Ready)
    ensures Brings(s, UnblockOne(SetCond(s, i, n), CondQ(i)), p) && Brings(s, UnblockAll(SetCond(s, i, n), CondQ(i)), p)
    ensures Brings(s, UnblockOne(SetSem(s, i, n), SemQ(i)), p) && Brings(s, SetSem(s, i, n), p)
    ensures Brings(s, UnblockAll(SetArrived(s, i, n), BarrierQ(i)), p)
  {
    hide Core, UnblockOne, UnblockAll, Brings, SetCond, SetSem, SetArrived;
    CountedCore(s, i, n);
    CountedBrings(s, i, n, p);
    UnblockedBrings(s, SetCond(s, i, n), CondQ(i), p);
    UnblockedBrings(s, SetSem(s, i, n), SemQ(i), p);
    UnblockedBrings(s, SetArrived(s, i, n), BarrierQ(i), p);
  }

  lemma OtherwiseBrings(s: Sys, e: Event, p: int)
    requires Consistent(s) && Admitted(s, e) && !Leaves(s, e) && !e.Timer? && !e.Spawn? && !e.KillTask?
    requires p in On(s, Ready)
    ensures Brings(s, Apply(s, e), p)
  {
    hide Core, NobodyWaitsForDead, Slist.Valid, Settled, DoWait, Release, UnblockOne, UnblockAll, Brings;
    NothingBrings(s, p);
    match e
    case WaitFor(_) =>
    case Lock(m) => TakingBrings(s, m, p);
    case Unlock(m) => ReleaseBrings(s, m, p);
    case CondSignal(c) => CountThenUnblock(s, c, s.conds[c] - 1, p);
    case CondBroadcast(c) => CountThenUnblock(s, c, 0, p);
    case SemUp(i) => CountThenUnblock(s, i, s.sems[i] + 1, p);
    case SemDown(i) => CountThenUnblock(s, i, s.sems[i] - 1, p);
    case BarrierWait(b) => CountThenUnblock(s, b, 0, p);
    case Continue => TakingBrings(s, Tsk(s, s.current).resume.m, p);
  }

  // ---------------------------------------------------------------- tasks that leave

  /** Task x leaves the ready queue. */
  lemma LeaverLowers(s: Sys, t: Sys, x: int, p: int)
    requires p in On(s, Ready) && x in On(s, Ready) && x != p && On(t, Ready) == Without(On(s, Ready), x)
    requires forall y :: SameWaits(Tsk(s, y), Tsk(t, y)) && Excess(t, y) <= Excess(s, y)
    ensures p in On(t, Ready) && |On(t, Ready)| == |On(s, Ready)| - 1 && Lead(t, p) <= Lead(s, p)
  {
    hide Excess;
    var l := On(s, Ready);
    TotalShifts(s, t, 0, 0, MAX_TASK_NUM);
    AheadWithout(t, l, x, p);
    assert SameWaits(Tsk(s, p), Tsk(t, p));
    AheadLeft(s, t, l, p);
    StaysWithout(l, p, x);
  }

  /** The running task blocks: the scheduler dispatches somebody else than p in its place. */
  lemma WaitLowers(s: Sys, q: QueueId, status: Status, r: Resume, p: int)
    requires Core(s) && Settled(s) && s.current != 0 && QueueExists(s, q) && q != Ready
    requires p in On(s, Ready) && Sound(Tsk(s, p)) && s.current != p && DoWait(s, q, status, r).current != p
    ensures var t := DoWait(s, q, status, r);
      && p in On(t, Ready) && |On(t, Ready)| == |On(s, Ready)| - 1 && Lead(t, p) < Lead(s, p)
      && Tsk(t, p).schedulerPriority == Tsk(s, p).schedulerPriority
  {
    var u := Park(s, q, status, r);
    ParkEffect(s, q, status, r);
    ParkedWaits(s, q, status, r);
    hide Core, Settled, Scheduler, Park;
    LeaverLowers(s, u, s.current, p);
    SchedulerLowers(u, p);
  }

  lemma ParkedWaits(s: Sys, q: QueueId, status: Status, r: Resume)
    ensures var u := Park(s, q, status, r);
      forall y :: SameWaits(Tsk(s, y), Tsk(u, y)) && Excess(u, y) == Excess(s, y)
  {
    var u := Park(s, q, status, r);
    assert u.pids == s.pids;
    forall y ensures SameWaits(Tsk(s, y), Tsk(u, y)) && Excess(u, y) == Excess(s, y) {
      SamePids(s, u, y);
      hide IsLive;
    }
  }

  lemma {:induction false} ReleaseLocksBring(s: Sys, x: int, i: nat, p: int)
    requires Core(s) && !IsLive(s, x) && 0 < x < MAX_TASK_NUM && i <= MAX_LOCKS_NUM <= |s.mutexes| && p in On(s, Ready)
    ensures Brings(s, ReleaseLocks(s, x, i), p)
    decreases MAX_LOCKS_NUM - i
  {
    hide Core, UnblockOne, DropLock, Lead, Woken;
    if i >= MAX_LOCKS_NUM || Tsk(s, x).lockNum <= 0 {
    } else if Mtx(s, i).owner != x {
      ReleaseLocksBring(s, x, i + 1, p);
    } else {
      var u := ReleaseLock(s, x, i);
      ScanStep(s, x, i);
      ReleaseLockEffect(s, x, i);
      UnblockOneBrings(s, MutexQ(i), p);
      DropBrings(UnblockOne(s, MutexQ(i)), x, i, p);
      BringsTwice(s, UnblockOne(s, MutexQ(i)), u, p);
      ReleaseLocksBring(u, x, i + 1, p);
      BringsTwice(s, u, ReleaseLocks(u, x, i + 1), p);
    }
  }

  /** A kill up to the call of the scheduler: the task leaves its queue, and others come. */
  lemma ClearedBrings(s: Sys, x: int, p: int)
    requires Consistent(s) && IsLive(s, x) && p in On(s, Ready) && x != p && Sound(Tsk(s, p))
    ensures var u := Cleared(s, x);
      && |s.pids| > 0 && Core(u) && p in On(u, Ready) && SameWaits(Tsk(s, p), Tsk(u, p))
      && Lead(u, p) - |On(u, Ready)| <= Lead(s, p) - |On(s, Ready)| + (if x in On(s, Ready) then 1 else 0)
  {
    hide Core, NobodyWaitsForDead, Settled, Slist.Valid, ReleaseLocks, UnblockAll, Cleared, Unlinked, Lead, Woken;
    var s1 := Unlinked(s, x);
    KillStages(s, x);
    UnlinkedLowers(s, x, p);
    ReleaseLocksBring(s1, x, 0, p);
    UnblockAllBrings(ReleaseLocks(s1, x, 0), WaitOf(x), p);
    BringsTwice(s1, ReleaseLocks(s1, x, 0), UnblockAll(ReleaseLocks(s1, x, 0), WaitOf(x)), p);
    assert Cleared(s, x) == UnblockAll(ReleaseLocks(s1, x, 0), WaitOf(x)) by { ClearedIs(s, x); }
  }

  lemma ClearedIs(s: Sys, x: int)
    requires |s.pids| > 0
    ensures Cleared(s, x) == UnblockAll(ReleaseLocks(Unlinked(s, x), x, 0), WaitOf(x))
  {}

  lemma UnlinkedLowers(s: Sys, x: int, p: int)
    requires Consistent(s) && IsLive(s, x) && p in On(s, Ready) && x != p
    ensures var t := Unlinked(s, x);
      && |s.pids| > 0 && p in On(t, Ready) && SameWaits(Tsk(s, p), Tsk(t, p)) && Lead(t, p) <= Lead(s, p)
      && |On(t, Ready)| == |On(s, Ready)| - (if x in On(s, Ready) then 1 else 0)
  {
    var t := Unlinked(s, x);
    PidFreed(s, x);
    UnlinkedQueues(s, x, Ready);
    WithoutElems(On(s, Ready), x);
    hide Core, NobodyWaitsForDead, Settled, Slist.Valid, Unlinked;
    forall y ensures SameWaits(Tsk(s, y), Tsk(t, y)) && Excess(t, y) <= Excess(s, y) {
      assert Tsk(t, y) == Tsk(s, y);
      hide IsLive;
    }
    if x in On(s, Ready) {
      LeaverLowers(s, t, x, p);
    } else {
      TotalShifts(s, t, 0, 0, MAX_TASK_NUM);
      AheadLeft(s, t, On(s, Ready), p);
    }
  }

  /** A spawned task comes with what its priority is above 1. */
  lemma SpawnBrings(s: Sys, priority: int, p: int)
    requires Consistent(s) && p in On(s, Ready)
    ensures var t := InitPcb(s, priority).0;
      && p in On(t, Ready) && SameWaits(Tsk(s, p), Tsk(t, p))
      && Lead(t, p) - |On(t, Ready)| <= Lead(s, p) - |On(s, Ready)| + (if priority > 1 then priority - 1 else 0)
  {
    var t := InitPcb(s, priority).0;
    hide Core, NobodyWaitsForDead, Settled, Slist.Valid, InitPcb, AllocNode;
    var x := SpawnBirth(s, priority);
    if x != 0 {
      NotOnAnyQueue(s, x, Ready);
      NewPriority(s, priority, x);
      var l, d := On(s, Ready), if priority > 1 then priority - 1 else 0;
      hide IsLive;
      TotalShifts(s, t, x, d, MAX_TASK_NUM);
      AheadLeft(s, t, l, p);
      AheadAppend(t, l, x, p);
    }
  }

  lemma NewPriority(s: Sys, priority: int, x: int)
    requires Core(s) && 0 <= s.pids[0].cursor < |s.pids| && x == AllocNode(s.pids).1 && 0 < x < MAX_TASK_NUM
    ensures Tsk(InitPcb(s, priority).0, x).schedulerPriority == priority
  {
  }

  // ---------------------------------------------------------------- every event

  /** How often the event calls the scheduler. */
  function Calls(s: Sys, e: Event): nat {
    if e == Timer || Leaves(s, e) then 1 else 0
  }

  /** How many tasks the event takes off the ready queue: the one that blocks or ends, or a ready one that is killed. */
  function Departures(s: Sys, e: Event): nat {
    if Leaves(s, e) || (e.KillTask? && Kill(s, e.pid).1 && e.pid in On(s, Ready)) then 1 else 0
  }

  /** How many tasks it brings to the ready queue. */
  function Arrivals(s: Sys, e: Event): int {
    |On(Apply(s, e), Ready)| - |On(s, Ready)| + Departures(s, e)
  }

  /** Exactly the tasks counted as departures leave the ready queue. */
  lemma DeparturesLeave(s: Sys, e: Event, x: int)
    requires Consistent(s) && Enabled(s, e)
    ensures x in On(s, Ready) && x !in On(Apply(s, e), Ready)
      <==> Departures(s, e) == 1 && x == if e.KillTask? then e.pid else s.current
  {
    hide Core, NobodyWaitsForDead, Slist.Valid, Settled, Apply, Leaves, Kill, FindsNext;
    if e == Timer {
      TickLeaves(s, x);
    } else if e.Spawn? {
      SpawnLeaves(s, e, x);
    } else if e.KillTask? {
      KillLeaves(s, e, x);
    } else if Leaves(s, e) {
      WaitLeaves(s, e, x);
    } else {
      OtherwiseWakes(s, e);
      hide Consistent;
    }
  }

  lemma TickLeaves(s: Sys, x: int)
    requires Core(s)
    ensures Departures(s, Timer) == 0 && (x in On(s, Ready) ==> x in On(Apply(s, Timer), Ready))
  {
    hide Core, CheckSleeping, Scheduler;
    CheckedWakes(s);
  }

  lemma SpawnLeaves(s: Sys, e: Event, x: int)
    requires Consistent(s) && e.Spawn?
    ensures Departures(s, e) == 0 && (x in On(s, Ready) ==> x in On(Apply(s, e), Ready))
  {
    hide Core, NobodyWaitsForDead, Slist.Valid, Settled, InitPcb;
    var _ := SpawnBirth(s, e.priority);
  }

  lemma WaitLeaves(s: Sys, e: Event, x: int)
    requires Consistent(s) && Admitted(s, e) && Leaves(s, e) && !e.KillTask?
    ensures x in On(s, Ready) && x !in On(Apply(s, e), Ready) <==> x == s.current
  {
    hide Core, NobodyWaitsForDead, Slist.Valid, Apply, Leaves, BeforeLeaving, DoWait;
    var u, q, status, r := LeavesByWaiting(s, e);
    LeavesWoken(s, e, u);
    WokenKeepsInvariant(s, u);
    DoWaitEffect(u, q, status, r);
    QueueFacts(u, Ready);
    WithoutElems(On(u, Ready), u.current);
  }

  lemma KillLeaves(s: Sys, e: Event, x: int)
    requires Consistent(s) && Admitted(s, e) && e.KillTask?
    ensures x in On(s, Ready) && x !in On(Apply(s, e), Ready) <==> Departures(s, e) == 1 && x == e.pid
  {
    hide Core, NobodyWaitsForDead, Slist.Valid, Cleared, Kill, Scheduler, Unlinked;
    PidsThere(s);
    KillBuries(s, e.pid);
    if e.pid != 1 && IsLive(s, e.pid) {
      PidFreed(s, e.pid);
      KillIs(s, e.pid);
      UnlinkedIsGone(s, e.pid);
      ClearedWakes(s, e.pid);
      hide Gone;
      if x != e.pid && x in On(s, Ready) { KilledOff(s, e.pid, x); }
    } else if e.pid == s.current != 1 {
      RunningLives(s);
    }
  }

  lemma KilledOff(s: Sys, y: int, x: int)
    requires Core(s) && Slist.Valid(s.pids) && IsLive(s, y) && x != y && x in On(s, Ready)
    ensures |s.pids| > 0 && x in On(Cleared(s, y), Ready)
  {
    hide Cleared, Unlinked;
    PidFreed(s, y);
    UnlinkedIsGone(s, y);
    ClearedWakes(s, y);
  }

  /** How much a spawned task is above priority 1. */
  function HeadStart(e: Event): nat {
    if e.Spawn? && e.priority > 1 then e.priority - 1 else 0
  }

  /** Task p is ready and could be chosen, but does not run. */
  ghost predicate Waits(s: Sys, p: int) {
    p in On(s, Ready) && Tsk(s, p).schedulerPriority >= 1 && s.current != p
  }

  lemma WaitsIsSound(s: Sys, p: int)
    requires Core(s) && Waits(s, p)
    ensures Sound(Tsk(s, p))
  {
    assert BelongsOn(s, Ready, p);
    assert Fit(Tsk(s, p));
  }

  /** While task p waits, no event lets the lead of the others grow by more than the tasks that arrive, and every call
      of the scheduler lowers it by one. */
  lemma EventLowers(s: Sys, e: Event, p: int)
    requires Consistent(s) && Enabled(s, e) && Waits(s, p) && e != KillTask(p) && Apply(s, e).current != p
    ensures Waits(Apply(s, e), p)
    ensures Lead(Apply(s, e), p) + Calls(s, e) <= Lead(s, p) + Arrivals(s, e) + HeadStart(e)
  {
    hide Core, NobodyWaitsForDead, Settled, Slist.Valid, Apply, Lead, Leaves, FindsNext, Kill, Waits, Sound;
    WaitsIsSound(s, p);
    if e == Timer {
      TickLowers(s, p);
    } else if e.Spawn? {
      SpawnLowers(s, e, p);
    } else if e.KillTask? {
      KillLowers(s, e, p);
    } else if Leaves(s, e) {
      LeavingLowers(s, e, p);
    } else {
      OthersLower(s, e, p);
    }
  }

  /** Only a tick, and an event that takes the running task off the ready queue, can let another task run. */
  lemma OnlyThoseSwitch(s: Sys, e: Event)
    requires Consistent(s) && Enabled(s, e) && Calls(s, e) == 0
    ensures Apply(s, e).current == s.current
  {
    hide Core, NobodyWaitsForDead, Settled, Slist.Valid, Kill, Cleared, InitPcb, FindsNext;
    if e.Spawn? {
      SpawnKeepsCurrent(s, e.priority);
    } else if e.KillTask? {
      KillBuries(s, e.pid);
      if e.pid != 1 && IsLive(s, e.pid) {
        KillIs(s, e.pid);
        ClearedCurrent(s, e.pid);
      }
    } else {
      hide Apply, Leaves;
      OtherwiseWakes(s, e);
    }
  }

  lemma OthersLower(s: Sys, e: Event, p: int)
    requires Consistent(s) && Admitted(s, e) && !Leaves(s, e) && !e.Timer? && !e.Spawn? && !e.KillTask?
    requires Waits(s, p) && Apply(s, e).current != p
    ensures Waits(Apply(s, e), p) && Lead(Apply(s, e), p) <= Lead(s, p) + Arrivals(s, e)
  {
    hide Consistent, Apply, Lead;
    OtherwiseBrings(s, e, p);
  }

  lemma TickLowers(s: Sys, p: int)
    requires Consistent(s) && !s.panicked && Waits(s, p) && Sound(Tsk(s, p)) && Apply(s, Timer).current != p
    ensures Waits(Apply(s, Timer), p) && Lead(Apply(s, Timer), p) < Lead(s, p) + Arrivals(s, Timer)
  {
    hide Core, NobodyWaitsForDead, Settled, Slist.Valid, CheckSleeping, Scheduler, Lead;
    var u := CheckSleeping(s.(ticks := s.ticks + 1));
    CheckedBrings(s, p);
    CheckedWakes(s);
    WokenIs(s, u);
    SchedulerLowers(u, p);
  }

  lemma SpawnLowers(s: Sys, e: Event, p: int)
    requires Consistent(s) && Waits(s, p) && e.Spawn?
    ensures Waits(Apply(s, e), p) && Lead(Apply(s, e), p) + Calls(s, e) <= Lead(s, p) + Arrivals(s, e) + HeadStart(e)
  {
    hide Core, NobodyWaitsForDead, Settled, Slist.Valid, Lead;
    SpawnBrings(s, e.priority, p);
    SpawnKeepsCurrent(s, e.priority);
    hide InitPcb;
  }

  lemma SpawnKeepsCurrent(s: Sys, priority: int)
    ensures InitPcb(s, priority).0.current == s.current
  {}

  lemma KillLowers(s: Sys, e: Event, p: int)
    requires Consistent(s) && Admitted(s, e) && Waits(s, p) && Sound(Tsk(s, p)) && e.KillTask? && e.pid != p
    requires Apply(s, e).current != p
    ensures Waits(Apply(s, e), p) && Lead(Apply(s, e), p) + Calls(s, e) <= Lead(s, p) + Arrivals(s, e)
  {
    hide Core, NobodyWaitsForDead, Slist.Valid, Cleared, Kill, Scheduler, Lead;
    var x := e.pid;
    PidsThere(s);
    KillBuries(s, x);
    if x != 1 && IsLive(s, x) {
      PidFreed(s, x);
      KillIs(s, x);
      ClearedBrings(s, x, p);
      if x == s.current { SchedulerLowers(Cleared(s, x), p); }
    } else if x == s.current {
      RunningLives(s);
    }
  }

  lemma LeavingLowers(s: Sys, e: Event, p: int)
    requires Consistent(s) && Admitted(s, e) && Leaves(s, e) && !e.KillTask? && Waits(s, p) && Apply(s, e).current != p
    ensures Waits(Apply(s, e), p) && Lead(Apply(s, e), p) < Lead(s, p) + Arrivals(s, e)
  {
    hide Core, NobodyWaitsForDead, Settled, Slist.Valid, Apply, Lead, Leaves, BeforeLeaving, DoWait;
    var u, q, status, r := LeavesByWaiting(s, e);
    LeavesWoken(s, e, u);
    WokenKeepsInvariant(s, u);
    LeavesBrings(s, e, u, p);
    assert Waits(u, p);
    WaitsIsSound(u, p);
    WaitLowers(u, q, status, r, p);
  }

  lemma LeavesBrings(s: Sys, e: Event, u: Sys, p: int)
    requires Consistent(s) && Admitted(s, e) && p in On(s, Ready)
    requires e.CondWait? ==> u == Release(SetCond(s, e.cond, s.conds[e.cond] + 1), e.m)
    requires !e.CondWait? ==> Assigned(s, u)
    ensures Brings(s, u, p)
  {
    hide Core, NobodyWaitsForDead, Slist.Valid, Settled, Release, Assigned, Brings;
    if e.CondWait? {
      var s1 := SetCond(s, e.cond, s.conds[e.cond] + 1);
      CountedCore(s, e.cond, s.conds[e.cond] + 1);
      CountedBrings(s, e.cond, s.conds[e.cond] + 1, p);
      assert p in On(s1, Ready);
      ReleaseBrings(s1, e.m, p);
      BringsTwice(s, s1, u, p);
    } else {
      AssignedBrings(s, u, p);
    }
  }

  // ---------------------------------------------------------------- every run

  function CallsIn(s: Sys, es: seq<Event>): nat
    decreases |es|
  {
    if es == [] then 0 else Calls(s, es[0]) + CallsIn(Apply(s, es[0]), es[1..])
  }

  function ArrivalsIn(s: Sys, es: seq<Event>): int
    decreases |es|
  {
    if es == [] then 0 else Arrivals(s, es[0]) + HeadStart(es[0]) + ArrivalsIn(Apply(s, es[0]), es[1..])
  }

  /** As long as task p waits in a run, the scheduler has been called no more often than the others were ahead at the
      start, plus the tasks that have come to the ready queue since, plus what spawned ones had above priority 1. */
  lemma {:induction false} PassedOverAtMost(s: Sys, es: seq<Event>, p: int)
    requires Consistent(s) && IsRun(s, es) && Survives(es, p) && Waits(s, p)
    requires forall k :: 0 <= k <= |es| ==> Final(s, es[..k]).current != p
    ensures CallsIn(s, es) + Lead(Final(s, es), p) <= Lead(s, p) + ArrivalsIn(s, es)
    ensures Waits(Final(s, es), p)
    decreases |es|
  {
    hide Consistent, Apply, Enabled, Waits, Lead, Calls, Arrivals, HeadStart;
    if es != [] {
      var t := Apply(s, es[0]);
      OneLater(s, es);
      EventLowers(s, es[0], p);
      EventKeepsConsistent(s, es[0]);
      PassedOverAtMost(t, es[1..], p);
    }
  }

  /** No starvation in a run in which tasks come and go: once the scheduler has been called more often than that, task
      p has been dispatched. */
  lemma DispatchedByThen(s: Sys, es: seq<Event>, p: int)
    requires Consistent(s) && IsRun(s, es) && Survives(es, p) && p in On(s, Ready) && Tsk(s, p).schedulerPriority >= 1
    requires CallsIn(s, es) > Lead(s, p) + ArrivalsIn(s, es)
    ensures exists k :: 0 <= k <= |es| && Final(s, es[..k]).current == p
  {
    hide Consistent, Lead, CallsIn, ArrivalsIn;
    if forall k :: 0 <= k <= |es| ==> Final(s, es[..k]).current != p {
      AtFirstCurrent(s, es);
      PassedOverAtMost(s, es, p);
    }
  }

  lemma AtFirstCurrent(s: Sys, es: seq<Event>)
    ensures Final(s, es[..0]) == s
  {
    assert es[..0] == [];
  }

  // ---------------------------------------------------------------- two tasks that keep waking each other

  /** Task p has the scheduling priority `turn` and is in user code. */
  ghost predicate Plays(s: Sys, p: int, turn: int) {
    Tsk(s, p).schedulerPriority == turn && Tsk(s, p).resume == User
  }

  /** Task 2 + i runs, task 3 - i is blocked on its semaphore, and task 1 is ready; all have scheduling priority 1. */
  ghost predicate Rallying(s: Sys, i: int) {
    && Consistent(s) && !s.panicked && s.current == 2 + i && On(s, Ready) == [1, 2 + i]
    && On(s, SemQ(1 - i)) == [3 - i] && On(s, SemQ(i)) == [] && s.sems == (if i == 0 then [0, -1] else [-1, 0])
    && Plays(s, 1, 1) && Plays(s, 2 + i, 1) && Plays(s, 3 - i, 1)
  }

  /** The running task has woken the other one. */
  ghost predicate Returned(s: Sys, i: int) {
    && Consistent(s) && !s.panicked && s.current == 2 + i && On(s, Ready) == [1, 2 + i, 3 - i]
    && On(s, SemQ(1 - i)) == [] && On(s, SemQ(i)) == [] && s.sems == [0, 0]
    && Plays(s, 1, 1) && Plays(s, 2 + i, 1) && Plays(s, 3 - i, 2)
  }

  /** The only waiter of a queue is woken. */
  lemma OneWoken(s: Sys, q: QueueId, c: int)
    requires Core(s) && q != Ready && On(s, q) == [c]
    ensures var t := UnblockOne(s, q);
      && t == s.(queues := t.queues, tasks := t.tasks) && On(t, Ready) == On(s, Ready) + [c] && On(t, q) == []
      && (forall r :: r != q && r != Ready ==> On(t, r) == On(s, r))
      && (forall p :: p != c ==> Tsk(t, p) == Tsk(s, p))
      && Tsk(t, c).schedulerPriority == Tsk(s, c).schedulerPriority + 1 && Tsk(t, c).resume == Tsk(s, c).resume
  {
    hide Core, UnblockOne, Age;
    UnblockOneShape(s, q);
    AgedThenWoken(s, q);
    UnblockOneEffect(s, q);
    assert Chosen(s, q) == c;
    hide Chosen, Pick, BlockingKeys;
    assert Without([c], c) == [];
  }

  lemma UpWakes(s: Sys, j: int)
    requires 0 <= j < |s.sems| && s.sems[j] == -1
    ensures Up(s, j) == UnblockOne(SetSem(s, j, 0), SemQ(j))
  {
    hide UnblockOne;
  }

  lemma Wakes(s: Sys, i: int)
    requires Rallying(s, i) && 0 <= i <= 1
    ensures Enabled(s, SemUp(1 - i)) && Returned(Apply(s, SemUp(1 - i)), i)
  {
    var j, c := 1 - i, 3 - i;
    hide Core, NobodyWaitsForDead, Slist.Valid, UnblockOne, Settled;
    EventKeepsConsistent(s, SemUp(j));
    CountedCore(s, j, 0);
    UpWakes(s, j);
    OneWoken(SetSem(s, j, 0), SemQ(j), c);
    hide Up, Consistent;
    assert s.sems[j := 0] == [0, 0];
    assert [1, 2 + i] + [c] == [1, 2 + i, 3 - i];
  }

  lemma DownBlocks(s: Sys, i: int)
    requires 0 <= i < |s.sems| && s.sems[i] == 0
    ensures Down(s, i) == DoWait(SetSem(s, i, -1), SemQ(i), BLOCKED, User)
  {
    hide DoWait;
  }

  lemma OtherNext(s: Sys, i: int)
    requires Returned(s, i) && 0 <= i <= 1
    ensures var rest, keys := [1, 3 - i], SchedulingKeys(s, [1, 3 - i]);
      rest == Without(On(s, Ready), s.current) && IsLastMax(keys, 1) && SchedulingKeys(SetSem(s, i, -1), rest) == keys
  {
    hide Consistent;
    var c := 3 - i;
    assert Without([1, 2 + i, c], 2 + i) == [1, c] by {
      assert [1, 2 + i, c][1..] == [2 + i, c] && [2 + i, c][1..] == [c];
    }
    KeysOfTwo(s, 1, c);
    KeysOfTwo(SetSem(s, i, -1), 1, c);
  }

  lemma Blocks(s: Sys, i: int)
    requires Returned(s, i) && 0 <= i <= 1
    ensures Enabled(s, SemDown(i)) && Rallying(Apply(s, SemDown(i)), 1 - i)
  {
    var c, rest := 3 - i, [1, 3 - i];
    var s1 := SetSem(s, i, -1);
    hide Core, NobodyWaitsForDead, Slist.Valid, DoWait, Settled, Replaceable, SchedulingKeys, IsLastMax;
    OtherNext(s, i);
    HasNext(s, rest, 1);
    EventKeepsConsistent(s, SemDown(i));
    DownBlocks(s, i);
    SetKeepsSettled(s, i, -1);
    CounterQueuesExist(s, i, -1);
    Blocked(s1, SemQ(i), BLOCKED, User, rest, 1);
    hide Down, Consistent, Invariant;
    assert [] + [2 + i] == [2 + i];
  }

  /** The running task wakes the other one and blocks, then the other way round, n times in all. */
  function Rally(i: int, n: nat): seq<Event>
    decreases n
  {
    if n == 0 then [] else [SemUp(1 - i), SemDown(i)] + Rally(1 - i, n - 1)
  }

  /** Task p does not run in the run. */
  ghost predicate NeverRuns(s: Sys, es: seq<Event>, p: int)
    decreases |es|
  {
    s.current != p && (es == [] || NeverRuns(Apply(s, es[0]), es[1..], p))
  }

  lemma {:induction false} RallyStarves(s: Sys, i: int, n: nat)
    requires Rallying(s, i) && 0 <= i <= 1
    ensures IsRun(s, Rally(i, n)) && NeverRuns(s, Rally(i, n), 1)
    ensures 1 in On(Final(s, Rally(i, n)), Ready) && CallsIn(s, Rally(i, n)) == n
    decreases n
  {
    hide Rallying, Returned, Apply, Enabled, Calls;
    assert s.current != 1 && 1 in On(s, Ready) by { Rivals(s, i); }
    if n > 0 {
      Wakes(s, i);
      var u := Apply(s, SemUp(1 - i));
      Blocks(u, i);
      assert u.current != 1 && Calls(s, SemUp(1 - i)) == 0 && Calls(u, SemDown(i)) == 1 by { OneCall(s, u, i); }
      var es, rest := Rally(i, n), Rally(1 - i, n - 1);
      assert es[1..] == [SemDown(i)] + rest && ([SemDown(i)] + rest)[1..] == rest;
      RallyStarves(Apply(u, SemDown(i)), 1 - i, n - 1);
    }
  }

  lemma Rivals(s: Sys, i: int)
    requires Rallying(s, i) && 0 <= i <= 1
    ensures s.current != 1 && 1 in On(s, Ready)
  {
    hide Consistent;
    assert On(s, Ready)[0] == 1;
  }

  lemma OneCall(s: Sys, u: Sys, i: int)
    requires Returned(u, i) && 0 <= i <= 1
    ensures u.current != 1 && Calls(s, SemUp(1 - i)) == 0 && Calls(u, SemDown(i)) == 1
  {
    hide Consistent;
  }

  lemma {:induction false} NeverRunsIs(s: Sys, es: seq<Event>, p: int, k: nat)
    requires NeverRuns(s, es, p) && k <= |es|
    ensures Final(s, es[..k]).current != p
    decreases |es|
  {
    hide Apply;
    if k > 0 {
      NeverRunsIs(Apply(s, es[0]), es[1..], p, k - 1);
      assert es[..k][1..] == es[1..][..k - 1];
    }
  }

  lemma TwoSems()
    ensures Boot(0, [0, 0], 0, []).sems == [0, 0]
  {
  }

  /** Three tasks of priority 1 have been spawned; the third has run and blocked, and the second one runs. */
  lemma RallyBegins() returns (t: Sys)
    ensures Leads(Boot(0, [0, 0], 0, []), [Spawn(1), Spawn(1), Spawn(1), Timer, SemDown(1)], t) && Rallying(t, 0)
  {
    hide Boot, Leads, Consistent, SyncOk, Apply, Enabled, SchedulingKeys;
    var s := Boot(0, [0, 0], 0, []);
    var s3 := ThreeTasks([0, 0], 1);
    TwoSems();
    KeysOfThree(s3, 1, 2, 3);
    Ticked(s3, 3, 0, [1, 2, 3], 2);
    Then(s, [Spawn(1), Spawn(1), Spawn(1)], s3, Timer);
    var s4 := Apply(s3, Timer);
    assert [Spawn(1), Spawn(1), Spawn(1)] + [Timer] == [Spawn(1), Spawn(1), Spawn(1), Timer];
    assert On(s4, SemQ(0)) == On(s3, SemQ(0)) && On(s4, SemQ(1)) == On(s3, SemQ(1));
    ThirdBlocks(s4);
    Then(s, [Spawn(1), Spawn(1), Spawn(1), Timer], s4, SemDown(1));
    t := Apply(s4, SemDown(1));
    assert [Spawn(1), Spawn(1), Spawn(1), Timer] + [SemDown(1)] == [Spawn(1), Spawn(1), Spawn(1), Timer, SemDown(1)];
  }

  lemma Tied(s: Sys)
    requires Looks(s, 1, 1, 1, 1, Ready, User) && Looks(s, 2, 1, 1, 1, Ready, User)
    ensures IsLastMax(SchedulingKeys(s, [1, 2]), 1)
    ensures SchedulingKeys(SetSem(s, 1, -1), [1, 2]) == SchedulingKeys(s, [1, 2])
  {
    KeysOfTwo(s, 1, 2);
    KeysOfTwo(SetSem(s, 1, -1), 1, 2);
  }

  lemma ThirdBlocks(s: Sys)
    requires Consistent(s) && !s.panicked && s.current == 3 && On(s, Ready) == [1, 2, 3] && s.sems == [0, 0]
    requires On(s, SemQ(0)) == On(s, SemQ(1)) == []
    requires Looks(s, 1, 1, 1, 1, Ready, User) && Looks(s, 2, 1, 1, 1, Ready, User) && Looks(s, 3, 1, 1, 0, Ready, User)
    ensures Enabled(s, SemDown(1)) && Rallying(Apply(s, SemDown(1)), 0)
  {
    var rest, s1 := [1, 2], SetSem(s, 1, -1);
    hide Core, NobodyWaitsForDead, Slist.Valid, DoWait, Settled, Replaceable, SchedulingKeys, IsLastMax;
    assert Without([1, 2, 3], 3) == [1, 2] by {
      assert [1, 2, 3][1..] == [2, 3] && [2, 3][1..] == [3] && [3][1..] == [];
    }
    Tied(s);
    HasNext(s, rest, 1);
    EventKeepsConsistent(s, SemDown(1));
    DownBlocks(s, 1);
    SetKeepsSettled(s, 1, -1);
    CounterQueuesExist(s, 1, -1);
    Blocked(s1, SemQ(1), BLOCKED, User, rest, 1);
    hide Down, Consistent, Invariant;
    assert [] + [3] == [3] && s.sems[1 := -1] == [0, -1];
  }

  /** A run in which two tasks of priority 1 wake each other through semaphores and block, n times in all: the
      scheduler is called every time, and a third task of priority 1, ready all along, never runs. */
  lemma StarvedByWakeUps(n: nat)
    ensures var s, es, r := Boot(0, [0, 0], 0, []), [Spawn(1), Spawn(1), Spawn(1), Timer, SemDown(1)], Rally(0, n);
      var u := Final(s, es);
      && IsRun(s, es) && IsRun(u, r) && CallsIn(u, r) == n && Tsk(u, 1).schedulerPriority == 1
      && 1 in On(u, Ready) && 1 in On(Final(u, r), Ready)
      && (forall k :: 0 <= k <= |r| ==> Final(u, r[..k]).current != 1)
  {
    hide Boot, Final, IsRun, Consistent, CallsIn, NeverRuns;
    var r := Rally(0, n);
    var u := RallyBegins();
    assert On(u, Ready)[0] == 1;
    RallyStarves(u, 0, n);
    forall k | 0 <= k <= |r| ensures Final(u, r[..k]).current != 1 {
      NeverRunsIs(u, r, 1, k);
    }
  }
}
