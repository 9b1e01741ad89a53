/** Who owns which mutex, in every run: lock counts, what a killed task leaves locked, and mutual exclusion. */
module LockRuns {
  import opened Sets
  import opened Slist
  import opened Machine
  import opened QueueRuns
  import opened SyncRuns

  /** What an event does to the mutexes. */
  datatype Move = Nothing | Take(m: int) | Drop(m: int)

  function TryMove(s: Sys, m: int): Move {
    if Mtx(s, m).locked then Nothing else Take(m)
  }

  function LockMove(s: Sys, m: int): Move {
    if Mtx(s, m).owner == s.current then Nothing else TryMove(s, m)
  }

  function UnlockMove(s: Sys, m: int): Move {
    if Mtx(s, m).owner == s.current then Drop(m) else Nothing
  }

  function MoveOf(s: Sys, e: Event): Move {
    match e
    case Lock(m) => LockMove(s, m)
    case Unlock(m) => UnlockMove(s, m)
    case CondWait(_, m) => UnlockMove(s, m)
    case Continue =>
      (match Tsk(s, s.current).resume
       case User => Nothing
       case Retry(m) => TryMove(s, m)
       case Reacquire(m) => LockMove(s, m))
    case _ => Nothing
  }

  /** The mutexes after the move. */
  function MovedMutexes(s: Sys, v: Move): seq<Mutex> {
    match v
    case Nothing => s.mutexes
    case Take(m) => SetMutex(s, m, Mutex(true, s.current)).mutexes
    case Drop(m) => SetMutex(s, m, Mutex(false, 0)).mutexes
  }

  function MovedCount(s: Sys, v: Move): int {
    Tsk(s, s.current).lockNum + match v case Nothing => 0 case Take(_) => 1 case Drop(_) => -1
  }

  /** The state after an event, as far as locks are concerned: the mutexes and the running task's lock count follow
      the move, the running task's resume point is `r`, and nobody else's record of locks and resume point changes. */
  ghost predicate LocksFollow(s: Sys, t: Sys, v: Move, r: Resume) {
    && t.mutexes == MovedMutexes(s, v)
    && Tsk(t, s.current).lockNum == MovedCount(s, v)
    && Tsk(t, s.current).resume == r
    && (forall p :: p != s.current ==> Tsk(t, p).lockNum == Tsk(s, p).lockNum && Tsk(t, p).resume == Tsk(s, p).resume)
  }

  /** Where the running task goes on after the event. */
  function LoopResume(s: Sys, m: int): Resume {
    if Mtx(s, m).locked then Retry(m) else User
  }

  function LockResume(s: Sys, m: int): Resume {
    if Mtx(s, m).owner == s.current then User else LoopResume(s, m)
  }

  function ResumeAfter(s: Sys, e: Event): Resume {
    match e
    case Lock(m) => LockResume(s, m)
    case CondWait(_, m) => Reacquire(m)
    case Continue =>
      (match Tsk(s, s.current).resume
       case User => User
       case Retry(m) => LoopResume(s, m)
       case Reacquire(m) => LockResume(s, m))
    case _ => Tsk(s, s.current).resume
  }

  lemma QuietFollows(s: Sys, t: Sys)
    requires Quiet(s, t)
    ensures LocksFollow(s, t, Nothing, Tsk(s, s.current).resume)
  {
  }

  lemma WaitFollows(s: Sys, q: QueueId, status: Status, r: Resume)
    requires Core(s) && Settled(s) && s.current != 0 && QueueExists(s, q) && q != Ready
    ensures LocksFollow(s, DoWait(s, q, status, r), Nothing, r)
  {
    hide Core, DoWait;
    DoWaitEffect(s, q, status, r);
  }

  lemma CurrentInRange(s: Sys)
    requires Core(s) && Settled(s)
    ensures 0 <= s.current < |s.tasks|
  {
  }

  lemma LoopFollows(s: Sys, m: int)
    requires Core(s) && Settled(s) && s.current != 0
    ensures LocksFollow(s, AcquireLoop(s, m), TryMove(s, m), LoopResume(s, m))
  {
    CurrentInRange(s);
    if Mtx(s, m).locked {
      assert QueueExists(s, MutexQ(m));
      hide Core, DoWait;
      WaitFollows(s, MutexQ(m), BLOCKED, Retry(m));
    }
  }

  lemma LockFollows(s: Sys, m: int)
    requires Core(s) && Settled(s) && s.current != 0
    ensures LocksFollow(s, Acquire(s, m), LockMove(s, m), LockResume(s, m))
  {
    CurrentInRange(s);
    hide Core;
    if Mtx(s, m).owner != s.current {
      LoopFollows(s, m);
    }
  }

  lemma DropFollows(s: Sys, u: Sys, m: int)
    requires Quiet(s, u) && u.current == s.current && |u.tasks| == |s.tasks| && 0 <= s.current < |s.tasks|
    ensures LocksFollow(s, DropLock(u, s.current, m), Drop(m), Tsk(s, s.current).resume)
  {
  }

  lemma UnlockFollows(s: Sys, m: int)
    requires Core(s) && Settled(s)
    ensures LocksFollow(s, Release(s, m), UnlockMove(s, m), Tsk(s, s.current).resume)
  {
    CurrentInRange(s);
    hide Core, UnblockOne, LocksFollow, Quiet;
    if Mtx(s, m).owner == s.current {
      UnblockOneQuiet(s, MutexQ(m));
      DropFollows(s, UnblockOne(s, MutexQ(m)), m);
    } else {
      NothingFollows(s);
    }
  }

  lemma CondWaitFollows(s: Sys, c: int, m: int)
    requires Invariant(s) && !s.panicked && s.current != 0 && 0 <= c < |s.conds|
    ensures LocksFollow(s, ConditionWait(s, c, m), UnlockMove(s, m), Reacquire(m))
  {
    hide Core, NobodyWaitsForDead, Settled, Release, DoWait;
    var s1 := SetCond(s, c, s.conds[c] + 1);
    SetKeepsSettled(s, c, s.conds[c] + 1);
    ReleaseKeepsSettled(s1, m);
    ReleaseFields(s1, m);
    UnlockFollows(s1, m);
    WaitFollows(Release(s1, m), CondQ(c), BLOCKED, Reacquire(m));
  }

  lemma SignalFollows(s: Sys, c: int)
    requires Core(s)
    ensures LocksFollow(s, Signal(s, c), Nothing, Tsk(s, s.current).resume)
    ensures LocksFollow(s, Broadcast(s, c), Nothing, Tsk(s, s.current).resume)
  {
    hide Core, UnblockOne, UnblockAll;
    if 0 <= c < |s.conds| {
      SetKeepsCore(s, c, s.conds[c] - 1);
      SetKeepsCore(s, c, 0);
      UnblockOneQuiet(SetCond(s, c, s.conds[c] - 1), CondQ(c));
      UnblockAllQuiet(SetCond(s, c, 0), CondQ(c));
    }
  }

  lemma UpFollows(s: Sys, i: int)
    requires Core(s)
    ensures LocksFollow(s, Up(s, i), Nothing, Tsk(s, s.current).resume)
  {
    hide Core, UnblockOne;
    if 0 <= i < |s.sems| {
      SetKeepsCore(s, i, s.sems[i] + 1);
      UnblockOneQuiet(SetSem(s, i, s.sems[i] + 1), SemQ(i));
    }
  }

  lemma DownFollows(s: Sys, i: int)
    requires Invariant(s) && !s.panicked && s.current != 0 && Tsk(s, s.current).resume == User
    ensures LocksFollow(s, Down(s, i), Nothing, User)
  {
    hide Core, NobodyWaitsForDead, Settled, DoWait;
    if 0 <= i < |s.sems| {
      SetKeepsSettled(s, i, s.sems[i] - 1);
      CounterQueuesExist(s, i, s.sems[i] - 1);
      WaitFollows(SetSem(s, i, s.sems[i] - 1), SemQ(i), BLOCKED, User);
    }
  }

  lemma ArriveFollows(s: Sys, b: int)
    requires Invariant(s) && !s.panicked && s.current != 0 && Tsk(s, s.current).resume == User
    ensures LocksFollow(s, Arrive(s, b), Nothing, User)
  {
    hide Core, NobodyWaitsForDead, Settled, DoWait, UnblockAll;
    if 0 <= b < |s.barriers| {
      var n := if s.barriers[b].arrived + 1 == s.barriers[b].goal then 0 else s.barriers[b].arrived + 1;
      SetKeepsSettled(s, b, n);
      if s.barriers[b].arrived + 1 == s.barriers[b].goal {
        UnblockAllQuiet(SetArrived(s, b, n), BarrierQ(b));
      } else {
        CounterQueuesExist(s, b, n);
        WaitFollows(SetArrived(s, b, n), BarrierQ(b), WAITING, User);
      }
    }
  }

  lemma SleepFollows(s: Sys, ms: nat)
    requires Invariant(s) && !s.panicked && s.current != 0 && Tsk(s, s.current).resume == User
    ensures LocksFollow(s, DoSleep(s, ms), Nothing, User)
  {
    assert SetAlarm(s, ms).current == s.current && SetAlarm(s, ms).panicked == s.panicked;
    assert LocksFollow(s, SetAlarm(s, ms), Nothing, User) by { hide Core; }
    hide Core, NobodyWaitsForDead, Settled, DoWait, SetAlarm;
    AlarmWakes(s, ms);
    WokenKeepsInvariant(s, SetAlarm(s, ms));
    WaitFollows(SetAlarm(s, ms), Sleep, SLEEPING, User);
  }

  /** Every event but spawn and kill. */
  lemma EventFollows(s: Sys, e: Event)
    requires Invariant(s) && Enabled(s, e) && !e.KillTask? && !e.Spawn?
    ensures LocksFollow(s, Apply(s, e), MoveOf(s, e), ResumeAfter(s, e))
  {
    hide Core, NobodyWaitsForDead, LocksFollow, Quiet;
    hide Tick, DoSleep, Acquire, AcquireLoop, Release, ConditionWait, DoWait, Up, Down, Arrive, Signal, Broadcast;
    match e
    case Timer => TickQuiet(s); QuietFollows(s, Tick(s));
    case WaitFor(p) =>
      if Wait(s, p).1 {
        WaitFollows(s, WaitOf(p), WAITING, User);
      } else {
        NothingFollows(s);
      }
    case SleepFor(ms) => SleepFollows(s, ms);
    case Lock(m) => LockFollows(s, m);
    case Unlock(m) => UnlockFollows(s, m);
    case CondWait(c, m) => CondWaitFollows(s, c, m);
    case CondSignal(c) => SignalFollows(s, c);
    case CondBroadcast(c) => SignalFollows(s, c);
    case SemUp(i) => UpFollows(s, i);
    case SemDown(i) => DownFollows(s, i);
    case BarrierWait(b) => ArriveFollows(s, b);
    case Continue =>
      match Tsk(s, s.current).resume
      case User => NothingFollows(s);
      case Retry(m) => LoopFollows(s, m);
      case Reacquire(m) => LockFollows(s, m);
  }

  lemma NothingFollows(s: Sys)
    ensures LocksFollow(s, s, Nothing, Tsk(s, s.current).resume)
  {
  }

  // ---------------------------------------------------------------- lock counts, kill included

  /** A mutex is locked exactly while it has an owner. */
  ghost predicate LockTable(s: Sys) {
    forall m :: LockOk(Mtx(s, m))
  }

  ghost predicate LockOk(x: Mutex) {
    (x.locked <==> x.owner != 0) && 0 <= x.owner < MAX_TASK_NUM
  }

  ghost predicate ResumeInRange(s: Sys) {
    forall p :: Tsk(s, p).resume != User ==> 0 <= Tsk(s, p).resume.m < |s.mutexes|
  }

  /** The lock count of every live task is the number of mutexes it owns, and dead pids own none. */
  ghost predicate Tally(s: Sys) {
    LockTable(s) && ResumeInRange(s) && forall p :: CountOk(s, p)
  }

  lemma TakeKeepsTally(s: Sys, t: Sys, m: int)
    requires Tally(s) && LocksFollow(s, t, Take(m), User) && forall p :: IsLive(t, p) == IsLive(s, p)
    requires IsLive(s, s.current) && 0 <= m < |s.mutexes| && Mtx(s, m).owner == 0
    ensures Tally(t)
  {
    forall k ensures LockOk(Mtx(t, k)) {
      assert LockOk(Mtx(s, k));
    }
    forall p ensures CountOk(t, p) {
      assert CountOk(s, p);
      CountAfterSet(s.mutexes, m, Mutex(true, s.current), p);
    }
  }

  lemma DropKeepsTally(s: Sys, t: Sys, m: int, r: Resume)
    requires Tally(s) && LocksFollow(s, t, Drop(m), r) && forall p :: IsLive(t, p) == IsLive(s, p)
    requires IsLive(s, s.current) && Mtx(s, m).owner == s.current
    requires r != User ==> 0 <= r.m < |s.mutexes|
    ensures Tally(t)
  {
    forall k ensures LockOk(Mtx(t, k)) {
      assert LockOk(Mtx(s, k));
    }
    forall p ensures CountOk(t, p) {
      assert CountOk(s, p);
      CountAfterSet(s.mutexes, m, Mutex(false, 0), p);
    }
  }

  lemma NothingKeepsTally(s: Sys, t: Sys, r: Resume)
    requires Tally(s) && LocksFollow(s, t, Nothing, r) && forall p :: IsLive(t, p) == IsLive(s, p)
    requires r != User ==> 0 <= r.m < |s.mutexes|
    ensures Tally(t)
  {
    forall k ensures LockOk(Mtx(t, k)) {
      assert LockOk(Mtx(s, k));
    }
    forall p ensures CountOk(t, p) {
      assert CountOk(s, p);
    }
  }

  lemma CurrentIsLive(s: Sys)
    requires Invariant(s) && !s.panicked && s.current != 0
    ensures IsLive(s, s.current)
  {
    CurrentIsReady(s);
  }

  /** Moves concern mutexes that exist; only a running task makes one. */
  lemma MoveInRange(s: Sys, e: Event)
    requires Tally(s) && Enabled(s, e)
    ensures var v, r := MoveOf(s, e), ResumeAfter(s, e);
      && (r != User ==> 0 <= r.m < |s.mutexes|)
      && (v.Take? ==> 0 <= v.m < |s.mutexes| && Mtx(s, v.m).owner == 0 && r == User)
      && (v.Drop? ==> Mtx(s, v.m).owner == s.current)
      && (v != Nothing && e != Continue ==> s.current != 0)
  {
    hide CountOk;
  }

  lemma FollowKeepsTally(s: Sys, e: Event)
    requires Consistent(s) && Tally(s) && Enabled(s, e) && !e.KillTask? && !e.Spawn?
    ensures Tally(Apply(s, e))
  {
    hide Core, NobodyWaitsForDead, Slist.Valid, Apply, LocksFollow, Tally, MoveOf, ResumeAfter;
    var t, v, r := Apply(s, e), MoveOf(s, e), ResumeAfter(s, e);
    EventFollows(s, e);
    PidsUntouched(s, e);
    MoveInRange(s, e);
    assert forall p :: IsLive(t, p) == IsLive(s, p);
    if s.current != 0 {
      CurrentIsLive(s);
    }
    match v
    case Nothing => NothingKeepsTally(s, t, r);
    case Take(m) => TakeKeepsTally(s, t, m);
    case Drop(m) => DropKeepsTally(s, t, m, r);
  }

  lemma SpawnKeepsTally(s: Sys, priority: int)
    requires Consistent(s) && Tally(s)
    ensures Tally(InitPcb(s, priority).0)
  {
    hide Core, NobodyWaitsForDead, Slist.Valid;
    var p := SpawnBirth(s, priority);
    var t := InitPcb(s, priority).0;
    if p != 0 {
      assert t.mutexes == s.mutexes && Tsk(t, p).resume == User && Tsk(t, p).lockNum == 0 by {
        BirthFields(s, priority, p);
      }
      hide InitPcb;
      forall k ensures LockOk(Mtx(t, k)) {
        assert LockOk(Mtx(s, k));
      }
      forall x ensures CountOk(t, x) {
        assert CountOk(s, x);
      }
    }
  }

  lemma BirthFields(s: Sys, priority: int, p: int)
    requires Core(s) && 0 <= s.pids[0].cursor < |s.pids| && p == AllocNode(s.pids).1 && 0 < p < MAX_TASK_NUM
    ensures var t := InitPcb(s, priority).0;
      t.mutexes == s.mutexes && Tsk(t, p).resume == User && Tsk(t, p).lockNum == 0
  {
  }

  /** Others keep their lock counts and resume points; mutexes are as before or were p's and are free now. */
  ghost predicate Bereft(s: Sys, t: Sys, p: int) {
    && (forall x :: x != p ==> Tsk(t, x).lockNum == Tsk(s, x).lockNum)
    && (forall x :: Tsk(t, x).resume == Tsk(s, x).resume)
    && (forall m :: Mtx(t, m) == Mtx(s, m) || (Mtx(t, m) == Mutex(false, 0) && Mtx(s, m).owner == p))
    && |t.mutexes| == |s.mutexes|
  }

  lemma BereftTwice(s: Sys, t: Sys, u: Sys, p: int)
    requires Bereft(s, t, p) && Bereft(t, u, p)
    ensures Bereft(s, u, p)
  {
  }

  lemma QuietIsBereft(s: Sys, t: Sys, p: int)
    requires Quiet(s, t)
    ensures Bereft(s, t, p)
  {
  }

  lemma {:induction false} ReleaseLocksBereft(s: Sys, p: int, i: nat)
    requires Core(s) && !IsLive(s, p) && 0 < p < MAX_TASK_NUM && i <= MAX_LOCKS_NUM
    ensures Bereft(s, ReleaseLocks(s, p, i), p)
    decreases MAX_LOCKS_NUM - i
  {
    hide Core, UnblockOne;
    if i >= MAX_LOCKS_NUM || Tsk(s, p).lockNum <= 0 {
    } else if Mtx(s, i).owner != p {
      ReleaseLocksBereft(s, p, i + 1);
    } else {
      UnblockOneQuiet(s, MutexQ(i));
      ReleaseLockEffect(s, p, i);
      ReleaseLocksBereft(ReleaseLock(s, p, i), p, i + 1);
    }
  }

  lemma UnlinkedIsBereft(s: Sys, p: int)
    requires |s.pids| > 0
    ensures Bereft(s, Unlinked(s, p), p)
  {
  }

  /** Killing a task leaves the lock counts and resume points of the others alone, and frees only mutexes it owned. */
  lemma KillIsBereft(s: Sys, p: int)
    requires Invariant(s) && Slist.Valid(s.pids) && p != 1 && IsLive(s, p)
    ensures Bereft(s, Kill(s, p).0, p)
    ensures forall x :: IsLive(Kill(s, p).0, x) <==> IsLive(s, x) && x != p
  {
    var s1 := Unlinked(s, p);
    var s2 := ReleaseLocks(s1, p, 0);
    var s3 := Cleared(s, p);
    PidFreed(s, p);
    UnlinkedIsGone(s, p);
    GoneKeepsCore(s, s1, p);
    ReleaseLocksWakes(s1, p, 0);
    hide Core, NobodyWaitsForDead, Settled, Slist.Valid, Quiet, Bereft, ReleaseLocks, UnblockAll, Scheduler;
    UnlinkedIsBereft(s, p);
    ReleaseLocksBereft(s1, p, 0);
    UnblockAllQuiet(s2, WaitOf(p));
    QuietIsBereft(s2, s3, p);
    SchedulerQuiet(s3);
    QuietIsBereft(s3, Scheduler(s3), p);
    BereftTwice(s, s1, s2, p);
    BereftTwice(s, s2, s3, p);
    BereftTwice(s, s3, Scheduler(s3), p);
    KillLives(s, p);
  }

  lemma KillLives(s: Sys, p: int)
    requires Invariant(s) && Slist.Valid(s.pids) && p != 1 && IsLive(s, p)
    ensures forall x :: IsLive(Kill(s, p).0, x) <==> IsLive(s, x) && x != p
    ensures Kill(s, p).0 == if s.current == p then Scheduler(Cleared(s, p)) else Cleared(s, p)
  {
    hide Core, NobodyWaitsForDead, Settled, UnblockAll, ReleaseLocks, Scheduler;
    PidFreed(s, p);
    ClearedWakes(s, p);
    assert Cleared(s, p).pids == Unlinked(s, p).pids;
    assert forall x :: IsLive(Kill(s, p).0, x) == IsLive(Unlinked(s, p), x);
  }

  /** When every mutex is one of locks[], killing keeps the tally: the killed task owns nothing any more. */
  lemma KillKeepsTally(s: Sys, p: int)
    requires Consistent(s) && Tally(s) && !s.panicked && s.current != 0 && |s.mutexes| == MAX_LOCKS_NUM
    ensures Tally(Kill(s, p).0)
  {
    hide Core, NobodyWaitsForDead, Slist.Valid;
    KillBuries(s, p);
    if p != 1 && IsLive(s, p) {
      hide Kill;
      var t := Kill(s, p).0;
      KillIsBereft(s, p);
      KillFreesLocks(s, p);
      assert CountOk(s, p);
      assert s.mutexes[..MAX_LOCKS_NUM] == s.mutexes && t.mutexes[..MAX_LOCKS_NUM] == t.mutexes;
      forall k ensures LockOk(Mtx(t, k)) {
        assert LockOk(Mtx(s, k));
      }
      forall x ensures CountOk(t, x) {
        assert CountOk(s, x);
      }
    }
  }

  lemma EventKeepsTally(s: Sys, e: Event)
    requires Consistent(s) && Tally(s) && Enabled(s, e)
    requires |s.mutexes| == MAX_LOCKS_NUM || !e.KillTask?
    ensures Tally(Apply(s, e)) && |Apply(s, e).mutexes| == |s.mutexes|
  {
    hide Core, NobodyWaitsForDead, Slist.Valid, Tally;
    match e
    case KillTask(p) => KillKeepsTally(s, p);
    case Spawn(priority) => SpawnKeepsTally(s, priority);
    case _ => FollowKeepsTally(s, e); MutexesStay(s, e);
  }

  lemma MutexesStay(s: Sys, e: Event)
    ensures |Apply(s, e).mutexes| == |s.mutexes|
  {
    hide Scheduler, DoWait, UnblockOne, UnblockAll, CheckSleeping, ReleaseLocks;
    CheckSleepingMutexes(s.(ticks := s.ticks + 1));
  }

  lemma CheckSleepingMutexes(s: Sys)
    ensures CheckSleeping(s).mutexes == s.mutexes
  {
  }

  lemma BootTally(sems: seq<int>, conds: nat, goals: seq<int>, mutexes: nat)
    ensures Tally(Boot(mutexes, sems, conds, goals))
    ensures |Boot(mutexes, sems, conds, goals).mutexes| == MAX_LOCKS_NUM + mutexes
  {
    var s := Boot(mutexes, sems, conds, goals);
    forall m ensures Mtx(s, m) == NoMutex {
    }
    forall p ensures CountOk(s, p) {
      if 0 < p < MAX_TASK_NUM {
        NoneOwned(s.mutexes, p);
      }
      assert !IsLive(s, p);
    }
  }

  lemma {:induction false} NoneOwned(ms: seq<Mutex>, p: int)
    requires p != 0 && forall i :: 0 <= i < |ms| ==> ms[i].owner == 0
    ensures CountOwned(ms, p) == 0
  {
    if ms != [] {
      NoneOwned(ms[1..], p);
    }
  }

  lemma {:induction false} RunKeepsTally(s: Sys, es: seq<Event>)
    requires Consistent(s) && Tally(s) && IsRun(s, es) && |s.mutexes| == MAX_LOCKS_NUM
    ensures Consistent(Final(s, es)) && Tally(Final(s, es)) && |Final(s, es).mutexes| == MAX_LOCKS_NUM
    decreases |es|
  {
    hide Consistent, Tally, Apply;
    if es != [] {
      EventKeepsConsistent(s, es[0]);
      EventKeepsTally(s, es[0]);
      RunKeepsTally(Apply(s, es[0]), es[1..]);
    }
  }

  /** The kernel uses no mutexes beyond locks[] and can be in state s after booting. */
  ghost predicate ReachableWithKernelLocks(s: Sys) {
    exists sems: seq<int>, conds: nat, goals: seq<int>, es: seq<Event> ::
      IsRun(Boot(0, sems, conds, goals), es) && s == Final(Boot(0, sems, conds, goals), es)
  }

  /** In every such run, kills included: a kill succeeds exactly on the live pids other than the shell's; afterwards
      the pid is dead, on no queue, owns no mutex, and everybody who waited for it is ready. */
  lemma KillInEveryRun(s: Sys, p: int)
    requires ReachableWithKernelLocks(s) && Enabled(s, KillTask(p))
    ensures Kill(s, p).1 <==> p != 1 && IsLive(s, p)
    ensures Kill(s, p).1 ==>
      var t := Kill(s, p).0;
      && !IsLive(t, p) && (forall q :: p !in On(t, q))
      && (forall m :: Mtx(t, m).owner != p)
      && (forall w :: w in On(s, WaitOf(p)) && w != p ==> w in On(t, Ready))
  {
    hide Core, NobodyWaitsForDead, Slist.Valid, Tally;
    var sems: seq<int>, conds: nat, goals: seq<int>, es: seq<Event> :|
      IsRun(Boot(0, sems, conds, goals), es) && s == Final(Boot(0, sems, conds, goals), es);
    BootIsConsistent(0, sems, conds, goals);
    BootTally(sems, conds, goals, 0);
    RunKeepsTally(Boot(0, sems, conds, goals), es);
    KillBuries(s, p);
    if Kill(s, p).1 {
      KillKeepsTally(s, p);
      DeadOwnNothing(Kill(s, p).0, p);
    }
  }

  lemma DeadOwnNothing(s: Sys, p: int)
    requires Tally(s) && !IsLive(s, p) && 0 < p < MAX_TASK_NUM
    ensures forall m :: Mtx(s, m).owner != p
  {
    assert CountOk(s, p);
    forall m ensures Mtx(s, m).owner != p {
      if 0 <= m < |s.mutexes| {
        CountAfterSet(s.mutexes, m, NoMutex, p);
      }
    }
  }

  /** Wherever a task was switched out, it was switched out for a mutex that exists. */
  lemma EventKeepsResume(s: Sys, e: Event)
    requires Consistent(s) && ResumeInRange(s) && Enabled(s, e)
    ensures ResumeInRange(Apply(s, e))
  {
    hide Core, NobodyWaitsForDead, Slist.Valid, CountOk;
    match e
    case KillTask(p) =>
      if p != 1 && IsLive(s, p) {
        KillIsBereft(s, p);
        hide Machine.Kill;
      } else {
        KillBuries(s, p);
      }
    case Spawn(priority) =>
      var p := SpawnBirth(s, priority);
      if p != 0 {
        BirthFields(s, priority, p);
        hide InitPcb;
        assert |InitPcb(s, priority).0.mutexes| == |s.mutexes|;
      }
    case _ =>
      EventFollows(s, e);
      MutexesStay(s, e);
      NextResumeInRange(s, e);
      hide Apply, ResumeAfter;
  }

  lemma NextResumeInRange(s: Sys, e: Event)
    requires ResumeInRange(s) && Enabled(s, e)
    ensures ResumeAfter(s, e) != User ==> 0 <= ResumeAfter(s, e).m < |s.mutexes|
  {
  }

  // ---------------------------------------------------------------- mutexes outside locks[]

  lemma {:induction false} ReleaseLocksTail(s: Sys, p: int, i: nat)
    requires Core(s) && !IsLive(s, p) && 0 < p < MAX_TASK_NUM && i <= MAX_LOCKS_NUM
    ensures forall m :: m >= MAX_LOCKS_NUM ==> Mtx(ReleaseLocks(s, p, i), m) == Mtx(s, m)
    decreases MAX_LOCKS_NUM - i
  {
    hide Core, UnblockOne;
    if i >= MAX_LOCKS_NUM || Tsk(s, p).lockNum <= 0 {
    } else if Mtx(s, i).owner != p {
      ReleaseLocksTail(s, p, i + 1);
    } else {
      ReleaseLockEffect(s, p, i);
      ReleaseLocksTail(ReleaseLock(s, p, i), p, i + 1);
    }
  }

  lemma SameMutexes(s: Sys, t: Sys)
    requires t.mutexes == s.mutexes
    ensures forall m :: Mtx(t, m) == Mtx(s, m)
  {
  }

  lemma UnlinkedMutexes(s: Sys, p: int)
    requires |s.pids| > 0
    ensures Unlinked(s, p).mutexes == s.mutexes
  {
  }

  lemma KillMutexes(s: Sys, p: int)
    requires Invariant(s) && Slist.Valid(s.pids) && p != 1 && IsLive(s, p)
    ensures Kill(s, p).0.mutexes == ReleaseLocks(Unlinked(s, p), p, 0).mutexes
  {
    hide Core, NobodyWaitsForDead, Settled, Slist.Valid, Kill, ReleaseLocks, UnblockAll, Scheduler, Unlinked;
    ClearedWakes(s, p);
    ClearedKeepsInvariant(s, p);
    KillLives(s, p);
  }

  lemma KillSparesUserMutexes(s: Sys, p: int)
    requires Invariant(s) && Slist.Valid(s.pids) && p != 1 && IsLive(s, p)
    ensures forall m :: m >= MAX_LOCKS_NUM ==> Mtx(Kill(s, p).0, m) == Mtx(s, m)
  {
    hide Core, NobodyWaitsForDead, Settled, Slist.Valid, Kill, ReleaseLocks, Unlinked, Mtx;
    PidFreed(s, p);
    UnlinkedIsGone(s, p);
    GoneKeepsCore(s, Unlinked(s, p), p);
    ReleaseLocksTail(Unlinked(s, p), p, 0);
    KillMutexes(s, p);
    UnlinkedMutexes(s, p);
    SameMutexes(s, Unlinked(s, p));
    SameMutexes(ReleaseLocks(Unlinked(s, p), p, 0), Kill(s, p).0);
  }

  lemma {:induction false} OwnsOneOf(ms: seq<Mutex>, p: int)
    ensures CountOwned(ms, p) == 0 <==> forall i :: 0 <= i < |ms| ==> ms[i].owner != p
  {
    if ms != [] {
      OwnsOneOf(ms[1..], p);
      assert forall i :: 0 < i < |ms| ==> ms[i] == ms[1..][i - 1];
    }
  }

  lemma {:induction false} OwnedInPart(ms: seq<Mutex>, n: nat, p: int)
    requires n <= |ms|
    ensures CountOwned(ms[..n], p) <= CountOwned(ms, p)
  {
    if n > 0 {
      OwnedInPart(ms[1..], n - 1, p);
      assert ms[..n][1..] == ms[1..][..n - 1];
    }
  }

  /** A killed task owns nothing afterwards exactly when all it owned was in locks[]: a mutex that lives anywhere else
      stays locked for ever in the name of the dead pid. */
  lemma KillOwnsNothingIff(s: Sys, p: int)
    requires Consistent(s) && CountOk(s, p) && p != 1 && IsLive(s, p)
    ensures (forall m :: Mtx(Kill(s, p).0, m).owner != p)
       <==> (forall m :: m >= MAX_LOCKS_NUM ==> Mtx(s, m).owner != p)
  {
    hide Core, NobodyWaitsForDead, Slist.Valid, Kill;
    var t := Kill(s, p).0;
    KillFreesLocks(s, p);
    KillSparesUserMutexes(s, p);
    ShapeFacts(s);
    OwnedInPart(s.mutexes, MAX_LOCKS_NUM, p);
    OwnsOneOf(t.mutexes[..MAX_LOCKS_NUM], p);
    if forall m :: m >= MAX_LOCKS_NUM ==> Mtx(s, m).owner != p {
      forall m ensures Mtx(t, m).owner != p {
        if 0 <= m < MAX_LOCKS_NUM {
          assert t.mutexes[..MAX_LOCKS_NUM][m] == t.mutexes[m];
        }
      }
    }
  }

  lemma ShapeFacts(s: Sys)
    requires Core(s)
    ensures |s.mutexes| >= MAX_LOCKS_NUM && forall p :: IsLive(s, p) ==> 0 < p < MAX_TASK_NUM
  {
  }

  // ---------------------------------------------------------------- mutual exclusion

  lemma SpawnSparesLocks(s: Sys, priority: int)
    requires Consistent(s)
    ensures var t := InitPcb(s, priority).0;
      && t.mutexes == s.mutexes && forall p :: IsLive(s, p) ==> Tsk(t, p) == Tsk(s, p)
  {
    hide Core, NobodyWaitsForDead, Slist.Valid;
    var p := SpawnBirth(s, priority);
    if p != 0 {
      BirthFields(s, priority, p);
      hide InitPcb;
    }
  }

  /** The owner of a mutex changes only when the owner itself gives it up, when the owner is killed and the mutex is one
      of locks[], or when the running task takes it while nobody owns it. */
  lemma OwnershipIsExclusive(s: Sys, e: Event, m: int)
    requires Consistent(s) && LockTable(s) && Enabled(s, e)
    ensures var o, o' := Mtx(s, m).owner, Mtx(Apply(s, e), m).owner;
      o' != o ==>
        || (o == s.current && o' == 0 && (e == Unlock(m) || (e.CondWait? && e.m == m)))
        || (o == 0 && o' == s.current && (e == Lock(m) || e == Continue))
        || (e == KillTask(o) && o' == 0 && m < MAX_LOCKS_NUM)
  {
    hide Core, NobodyWaitsForDead, Slist.Valid, Kill, InitPcb, LocksFollow;
    assert LockOk(Mtx(s, m));
    match e
    case KillTask(p) =>
      KillBuries(s, p);
      if p != 1 && IsLive(s, p) {
        KillIsBereft(s, p);
        KillSparesUserMutexes(s, p);
      }
    case Spawn(priority) => SpawnSparesLocks(s, priority); SameMutexes(s, Apply(s, e));
    case _ => EventOwner(s, e, m);
  }

  lemma EventOwner(s: Sys, e: Event, m: int)
    requires Invariant(s) && LockTable(s) && Enabled(s, e) && !e.KillTask? && !e.Spawn?
    ensures var o, o' := Mtx(s, m).owner, Mtx(Apply(s, e), m).owner;
      o' != o ==>
        || (o == s.current && o' == 0 && (e == Unlock(m) || (e.CondWait? && e.m == m)))
        || (o == 0 && o' == s.current && (e == Lock(m) || e == Continue))
  {
    hide Core, NobodyWaitsForDead, Apply;
    EventFollows(s, e);
  }

  /** acquire and condition_wait return only to an owner: whoever was inside one of them when it was switched out
      owns the mutex when it is back in user code. */
  lemma ReturnsOwning(s: Sys, e: Event, p: int)
    requires Consistent(s) && Enabled(s, e) && (e.Spawn? ==> IsLive(s, p))
    requires Tsk(s, p).resume != User && Tsk(Apply(s, e), p).resume == User
    requires 0 <= Tsk(s, p).resume.m < |s.mutexes|
    ensures p == s.current && e == Continue && Mtx(Apply(s, e), Tsk(s, p).resume.m).owner == p
  {
    hide Core, NobodyWaitsForDead, Slist.Valid, Apply;
    match e
    case KillTask(y) => KillKeepsResume(s, y);
    case Spawn(priority) => SpawnKeepsResume(s, priority);
    case _ => EventFollows(s, e);
  }

  lemma KillKeepsResume(s: Sys, p: int)
    requires Consistent(s) && Enabled(s, KillTask(p))
    ensures forall x :: Tsk(Apply(s, KillTask(p)), x).resume == Tsk(s, x).resume
  {
    hide Core, NobodyWaitsForDead, Slist.Valid, Kill;
    KillBuries(s, p);
    if p != 1 && IsLive(s, p) {
      KillIsBereft(s, p);
    }
  }

  lemma SpawnKeepsResume(s: Sys, priority: int)
    requires Consistent(s)
    ensures forall x :: IsLive(s, x) ==> Tsk(Apply(s, Spawn(priority)), x).resume == Tsk(s, x).resume
  {
    hide Consistent, InitPcb;
    SpawnSparesLocks(s, priority);
  }
}
