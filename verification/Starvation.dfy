/** A task spawned with a priority below 1 never runs, whatever happens afterwards and whatever else is spawned. */
module Starvation {
  import opened Sets
  import opened Slist
  import opened Machine
  import opened Selection
  import opened QueueRuns
  import opened SyncRuns
  import opened LockRuns
  import opened Guarantees

  /** Task p is ready, on no other queue, not running, and below the priority at which the selection
      starts. That an event finds no next task does not break this, although it breaks the
      invariants of the scheduler (see Breakdown.dfy). */
  ghost predicate PassedOver(s: Sys, p: int) {
    && Slist.Valid(s.pids) && |s.pids| == MAX_TASK_NUM == |s.tasks| && IsLive(s, p)
    && p != s.current && Tsk(s, p).schedulerPriority < 1
    && p in On(s, Ready) && forall q :: q != Ready ==> p !in On(s, q)
  }

  lemma SameForThem(s: Sys, t: Sys, p: int)
    requires PassedOver(s, p) && t.queues == s.queues && t.pids == s.pids && t.current == s.current
    requires |t.tasks| == |s.tasks| && Tsk(t, p).schedulerPriority == Tsk(s, p).schedulerPriority
    ensures PassedOver(t, p)
  {
    assert forall q :: On(t, q) == On(s, q);
  }

  lemma SchedulerPasses(s: Sys, p: int)
    requires PassedOver(s, p)
    ensures PassedOver(Scheduler(s), p)
  {
    hide Slist.Valid, IsLive;
    var l, t := On(s, Ready), Scheduler(s);
    var keys := SchedulingKeys(s, l);
    SchedulerTasks(s);
    PickIsLastMax(keys);
    var i := Pick(keys);
    assert i != -1 ==> Eligible(keys[i]) && l[i] != p;
    SamePids(s, t, p);
    assert Tsk(t, p) == Rescheduled(s, t.current, p);
    hide Scheduler, SchedulingKeys, Pick;
    assert forall q :: On(t, q) == On(s, q);
  }

  lemma SamePids(s: Sys, t: Sys, p: int)
    requires t.pids == s.pids
    ensures IsLive(t, p) == IsLive(s, p)
  {
  }

  /** Some other task moves from one queue to another. */
  lemma OtherMoves(s: Sys, t: Sys, a: QueueId, b: QueueId, x: int, p: int)
    requires PassedOver(s, p) && x != p && t.pids == s.pids && t.current == s.current && |t.tasks| == |s.tasks|
    requires t.queues == Push(Remove(s, a, x), b, x).queues
    requires Tsk(t, p).schedulerPriority == Tsk(s, p).schedulerPriority
    ensures PassedOver(t, p)
  {
    hide Slist.Valid;
    var l := On(s, a);
    if p in l {
      StaysWithout(l, p, x);
    }
    WithoutElems(l, x);
    forall q ensures p in On(t, q) <==> p in On(s, q) {
    }
  }

  lemma WaitPasses(s: Sys, q: QueueId, status: Status, r: Resume, p: int)
    requires PassedOver(s, p) && q != Ready
    ensures PassedOver(DoWait(s, q, status, r), p)
  {
    hide Slist.Valid, Scheduler, PassedOver;
    OtherParks(s, q, status, r, p);
    SchedulerPasses(Park(s, q, status, r), p);
  }

  lemma OtherParks(s: Sys, q: QueueId, status: Status, r: Resume, p: int)
    requires PassedOver(s, p)
    ensures PassedOver(Park(s, q, status, r), p)
  {
    hide Slist.Valid;
    OtherMoves(s, Park(s, q, status, r), Ready, q, s.current, p);
  }

  lemma WakePasses(s: Sys, q: QueueId, x: int, p: int)
    requires PassedOver(s, p) && q != Ready && x in On(s, q)
    ensures PassedOver(Wake(s, q, x), p)
  {
    hide Slist.Valid;
    OtherMoves(s, Wake(s, q, x), q, Ready, x, p);
  }

  lemma UnblockOnePasses(s: Sys, q: QueueId, p: int)
    requires PassedOver(s, p) && q != Ready
    ensures PassedOver(UnblockOne(s, q), p)
  {
    hide Slist.Valid, PassedOver, Wake;
    var l := On(s, q);
    var i := Pick(BlockingKeys(s, l));
    if i != -1 {
      SameForThem(s, Age(s, l), p);
      AgeQueues(s, l);
      WakePasses(Age(s, l), q, l[i], p);
    }
  }

  lemma {:induction false} UnblockAllPasses(s: Sys, q: QueueId, p: int)
    requires PassedOver(s, p) && q != Ready
    ensures PassedOver(UnblockAll(s, q), p)
    decreases |On(s, q)|
  {
    hide Slist.Valid, PassedOver;
    if On(s, q) != [] {
      WakePasses(s, q, On(s, q)[0], p);
      WakeShortens(s, q);
      UnblockAllPasses(Wake(s, q, On(s, q)[0]), q, p);
    }
  }

  lemma WakeShortens(s: Sys, q: QueueId)
    requires On(s, q) != [] && q != Ready
    ensures |On(Wake(s, q, On(s, q)[0]), q)| < |On(s, q)|
  {
  }

  lemma RouseMoves(s: Sys, x: int, p: int)
    ensures var t := Rouse(s, x);
      && t.queues == Push(Remove(s, Sleep, x), Ready, x).queues && t.pids == s.pids && t.current == s.current
      && |t.tasks| == |s.tasks| && Tsk(t, p).schedulerPriority == Tsk(s, p).schedulerPriority
  {
  }

  lemma CheckSleepingPasses(s: Sys, p: int)
    requires PassedOver(s, p)
    ensures PassedOver(CheckSleeping(s), p)
  {
    hide Slist.Valid, IsLive, FirstExpired, Rouse;
    var l := On(s, Sleep);
    var i := FirstExpired(s, l);
    if i != -1 {
      assert l[i] in l;
      RouseMoves(s, l[i], p);
      OtherMoves(s, Rouse(s, l[i]), Sleep, Ready, l[i], p);
    }
  }

  lemma ClockPasses(s: Sys, p: int)
    requires PassedOver(s, p)
    ensures PassedOver(s.(ticks := s.ticks + 1), p)
  {
    hide Slist.Valid;
    SameForThem(s, s.(ticks := s.ticks + 1), p);
  }

  lemma TickPasses(s: Sys, p: int)
    requires PassedOver(s, p)
    ensures PassedOver(Tick(s), p)
  {
    hide PassedOver, CheckSleeping, Scheduler;
    var s1 := s.(ticks := s.ticks + 1);
    ClockPasses(s, p);
    CheckSleepingPasses(s1, p);
    SchedulerPasses(CheckSleeping(s1), p);
  }

  lemma LoopPasses(s: Sys, m: int, p: int)
    requires PassedOver(s, p)
    ensures PassedOver(AcquireLoop(s, m), p)
  {
    hide DoWait, Slist.Valid;
    if Mtx(s, m).locked {
      WaitPasses(s, MutexQ(m), BLOCKED, Retry(m), p);
    } else {
      SameForThem(s, AcquireLoop(s, m), p);
    }
  }

  lemma LockPasses(s: Sys, m: int, p: int)
    requires PassedOver(s, p)
    ensures PassedOver(Acquire(s, m), p)
  {
    hide AcquireLoop, Slist.Valid;
    if Mtx(s, m).owner == s.current {
      SameForThem(s, Acquire(s, m), p);
    } else {
      LoopPasses(s, m, p);
    }
  }

  lemma DropPasses(s: Sys, x: int, m: int, p: int)
    requires PassedOver(s, p)
    ensures PassedOver(DropLock(s, x, m), p)
  {
    hide Slist.Valid;
    SameForThem(s, DropLock(s, x, m), p);
  }

  lemma ReleasePasses(s: Sys, m: int, p: int)
    requires PassedOver(s, p)
    ensures PassedOver(Release(s, m), p)
  {
    hide PassedOver, UnblockOne, DropLock;
    if Mtx(s, m).owner == s.current {
      UnblockOnePasses(s, MutexQ(m), p);
      DropPasses(UnblockOne(s, MutexQ(m)), s.current, m, p);
    }
  }

  lemma CounterPasses(s: Sys, i: int, n: int, p: int)
    requires PassedOver(s, p)
    ensures PassedOver(SetCond(s, i, n), p) && PassedOver(SetSem(s, i, n), p) && PassedOver(SetArrived(s, i, n), p)
  {
    hide Slist.Valid;
    SameForThem(s, SetCond(s, i, n), p);
    SameForThem(s, SetSem(s, i, n), p);
    SameForThem(s, SetArrived(s, i, n), p);
  }

  lemma ConditionPasses(s: Sys, c: int, m: int, p: int)
    requires PassedOver(s, p)
    ensures PassedOver(ConditionWait(s, c, m), p) && PassedOver(Signal(s, c), p) && PassedOver(Broadcast(s, c), p)
  {
    hide PassedOver, UnblockOne, UnblockAll, DoWait, Release;
    if 0 <= c < |s.conds| {
      CounterPasses(s, c, s.conds[c] + 1, p);
      ReleasePasses(SetCond(s, c, s.conds[c] + 1), m, p);
      WaitPasses(Release(SetCond(s, c, s.conds[c] + 1), m), CondQ(c), BLOCKED, Reacquire(m), p);
      CounterPasses(s, c, s.conds[c] - 1, p);
      UnblockOnePasses(SetCond(s, c, s.conds[c] - 1), CondQ(c), p);
      CounterPasses(s, c, 0, p);
      UnblockAllPasses(SetCond(s, c, 0), CondQ(c), p);
    }
  }

  lemma SemaphorePasses(s: Sys, i: int, p: int)
    requires PassedOver(s, p)
    ensures PassedOver(Up(s, i), p) && PassedOver(Down(s, i), p)
  {
    hide PassedOver, UnblockOne, DoWait;
    if 0 <= i < |s.sems| {
      CounterPasses(s, i, s.sems[i] + 1, p);
      UnblockOnePasses(SetSem(s, i, s.sems[i] + 1), SemQ(i), p);
      CounterPasses(s, i, s.sems[i] - 1, p);
      WaitPasses(SetSem(s, i, s.sems[i] - 1), SemQ(i), BLOCKED, User, p);
    }
  }

  lemma BarrierPasses(s: Sys, b: int, p: int)
    requires PassedOver(s, p)
    ensures PassedOver(Arrive(s, b), p)
  {
    hide PassedOver, UnblockAll, DoWait;
    if 0 <= b < |s.barriers| {
      var n := s.barriers[b].arrived + 1;
      CounterPasses(s, b, 0, p);
      UnblockAllPasses(SetArrived(s, b, 0), BarrierQ(b), p);
      CounterPasses(s, b, n, p);
      WaitPasses(SetArrived(s, b, n), BarrierQ(b), WAITING, User, p);
    }
  }

  lemma SleepPasses(s: Sys, ms: nat, p: int)
    requires PassedOver(s, p)
    ensures PassedOver(DoSleep(s, ms), p)
  {
    hide DoWait, Slist.Valid;
    SameForThem(s, SetAlarm(s, ms), p);
    WaitPasses(SetAlarm(s, ms), Sleep, SLEEPING, User, p);
  }

  lemma SpawnFields(s: Sys, priority: int)
    requires |s.pids| > 0 && 0 <= s.pids[0].cursor < |s.pids|
    ensures var (t, ok) := InitPcb(s, priority); var (pids', x) := AllocNode(s.pids);
      if x == 0 then t == s && !ok
      else
        && ok && t.pids == pids' && t.current == s.current && |t.tasks| == |s.tasks|
        && (forall y :: y != x ==> Tsk(t, y) == Tsk(s, y))
        && (0 <= x < |s.tasks| ==> Tsk(t, x).schedulerPriority == priority && Tsk(t, x).resume == User)
        && t.panicked == s.panicked
        && (Ready in s.queues ==> On(t, Ready) == On(s, Ready) + [x])
        && (forall q :: q != Ready ==> On(t, q) == On(s, q) || On(t, q) == [])
  {
  }

  lemma SpawnLives(s: Sys, priority: int, p: int)
    requires |s.pids| == MAX_TASK_NUM && Slist.Valid(s.pids) && (IsLive(s, p) || p == AllocNode(s.pids).1 != 0)
    ensures IsLive(InitPcb(s, priority).0, p) && Slist.Valid(InitPcb(s, priority).0.pids)
    ensures |InitPcb(s, priority).0.pids| == MAX_TASK_NUM
    ensures 0 <= s.pids[0].cursor < |s.pids| && (IsLive(s, p) && AllocNode(s.pids).1 != 0 ==> AllocNode(s.pids).1 != p)
  {
    PidTaken(s);
    SpawnFields(s, priority);
    hide Slist.Valid, AllocNode, InitPcb;
    var t := InitPcb(s, priority).0;
    SamePids(s.(pids := t.pids), t, p);
    hide IsLive;
  }

  /** Another task is spawned, of whatever priority. */
  lemma SpawnPasses(s: Sys, priority: int, p: int)
    requires PassedOver(s, p)
    ensures PassedOver(InitPcb(s, priority).0, p)
  {
    hide Slist.Valid, IsLive, AllocNode, InitPcb;
    SpawnLives(s, priority, p);
    SpawnFields(s, priority);
  }

  lemma {:induction false} ReleaseLocksPass(s: Sys, y: int, i: nat, p: int)
    requires PassedOver(s, p) && i <= MAX_LOCKS_NUM
    ensures PassedOver(ReleaseLocks(s, y, i), p)
    decreases MAX_LOCKS_NUM - i
  {
    hide PassedOver, UnblockOne, DropLock;
    if i >= MAX_LOCKS_NUM || Tsk(s, y).lockNum <= 0 {
    } else if Mtx(s, i).owner != y {
      ReleaseLocksPass(s, y, i + 1, p);
    } else {
      UnblockOnePasses(s, MutexQ(i), p);
      DropPasses(UnblockOne(s, MutexQ(i)), y, i, p);
      ReleaseLocksPass(DropLock(UnblockOne(s, MutexQ(i)), y, i), y, i + 1, p);
    }
  }

  lemma OtherUnlinked(s: Sys, y: int, p: int)
    requires PassedOver(s, p) && IsLive(s, y) && y != p
    ensures PassedOver(Unlinked(s, y), p)
  {
    PidFreed(s, y);
    hide Slist.Valid, IsLive, FreeNode;
    StillThere(s, s.(pids := FreeNode(s.pids, y).0), Tsk(s, y).queue, y, p);
  }

  /** Taking another task off a queue. */
  lemma StillThere(s: Sys, u: Sys, a: QueueId, x: int, p: int)
    requires x != p && u.queues == s.queues
    ensures forall q :: p in On(Remove(u, a, x), q) <==> p in On(s, q)
  {
    if p in On(s, a) {
      StaysWithout(On(s, a), p, x);
    }
    WithoutElems(On(s, a), x);
    assert forall q :: On(Remove(u, a, x), q) == if q == a then Without(On(s, a), x) else On(s, q);
  }

  lemma KillPasses(s: Sys, y: int, p: int)
    requires PassedOver(s, p) && y != p
    ensures PassedOver(Kill(s, y).0, p)
  {
    if y != 1 && IsLive(s, y) {
      PidFreed(s, y);
      OtherUnlinked(s, y, p);
      hide PassedOver, ReleaseLocks, UnblockAll, Scheduler;
      ReleaseLocksPass(Unlinked(s, y), y, 0, p);
      UnblockAllPasses(ReleaseLocks(Unlinked(s, y), y, 0), WaitOf(y), p);
      SchedulerPasses(Cleared(s, y), p);
    }
  }

  /** No event but its own kill gets the task the processor or off the ready queue. */
  lemma EventPasses(s: Sys, e: Event, p: int)
    requires PassedOver(s, p) && Admitted(s, e) && e != KillTask(p)
    ensures PassedOver(Apply(s, e), p)
  {
    hide PassedOver, DoSleep, DoWait, Tick, InitPcb, Kill, Acquire, AcquireLoop, Release, ConditionWait, Signal,
      Broadcast;
    hide Up, Down, Arrive;
    match e
    case Timer => TickPasses(s, p);
    case Spawn(priority) => SpawnPasses(s, priority, p);
    case KillTask(y) => KillPasses(s, y, p);
    case WaitFor(y) => WaitPasses(s, WaitOf(y), WAITING, User, p);
    case SleepFor(ms) => SleepPasses(s, ms, p);
    case Lock(m) => LockPasses(s, m, p);
    case Unlock(m) => ReleasePasses(s, m, p);
    case CondWait(c, m) => ConditionPasses(s, c, m, p);
    case CondSignal(c) => ConditionPasses(s, c, 0, p);
    case CondBroadcast(c) => ConditionPasses(s, c, 0, p);
    case SemUp(i) => SemaphorePasses(s, i, p);
    case SemDown(i) => SemaphorePasses(s, i, p);
    case BarrierWait(b) => BarrierPasses(s, b, p);
    case Continue =>
      match Tsk(s, s.current).resume
      case User =>
      case Retry(m) => LoopPasses(s, m, p);
      case Reacquire(m) => LockPasses(s, m, p);
  }

  lemma {:induction false} RunPasses(s: Sys, es: seq<Event>, k: nat, p: int)
    requires PassedOver(s, p) && IsAnyRun(s, es) && Survives(es, p) && k <= |es|
    ensures PassedOver(Final(s, es[..k]), p)
    decreases |es|
  {
    hide PassedOver, Apply, Admitted;
    if k > 0 {
      EventPasses(s, es[0], p);
      RunPasses(Apply(s, es[0]), es[1..], k - 1, p);
      assert es[..k][1..] == es[1..][..k - 1];
    }
  }

  /** A run up to and including the first event that leaves the running task running off the ready queue. If that task
      blocks once more, the kernel unlinks it from a queue it is not on, which the model does not follow. */
  predicate IsFollowed(s: Sys, es: seq<Event>) {
    IsAnyRun(s, es) && (es == [] || IsRun(s, es[..|es| - 1]))
  }

  lemma RunIsFollowed(s: Sys, es: seq<Event>)
    requires IsRun(s, es)
    ensures IsFollowed(s, es)
  {
    RunPrefixes(s, es, if es == [] then 0 else |es| - 1);
  }

  lemma {:induction false} RunPrefixes(s: Sys, es: seq<Event>, k: nat)
    requires IsRun(s, es) && k <= |es|
    ensures IsAnyRun(s, es) && IsRun(s, es[..k])
    decreases |es|
  {
    hide Apply, Admitted, FindsNext;
    if es != [] {
      RunPrefixes(Apply(s, es[0]), es[1..], if k == 0 then 0 else k - 1);
      if k > 0 { assert es[..k][1..] == es[1..][..k - 1]; }
    }
  }

  /** Whatever happens after it has been spawned, a task of a priority below 1 never runs. */
  lemma LowNeverRuns(s: Sys, priority: int, es: seq<Event>, k: nat)
    requires Consistent(s) && Admitted(s, Spawn(priority)) && priority < 1 && InitPcb(s, priority).1
    requires IsFollowed(s, [Spawn(priority)] + es) && Survives(es, AllocNode(s.pids).1) && k <= |es|
    ensures Final(s, [Spawn(priority)] + es[..k]).current != AllocNode(s.pids).1
    ensures AllocNode(s.pids).1 in On(Final(s, [Spawn(priority)] + es[..k]), Ready)
  {
    var p, t := AllocNode(s.pids).1, InitPcb(s, priority).0;
    LowBorn(s, priority);
    hide Consistent, InitPcb, Slist.Valid, Admitted;
    assert ([Spawn(priority)] + es)[1..] == es;
    assert ([Spawn(priority)] + es[..k])[1..] == es[..k];
    RunPasses(t, es, k, p);
  }

  lemma LowBorn(s: Sys, priority: int)
    requires Consistent(s) && !s.panicked && priority < 1 && |s.pids| == MAX_TASK_NUM
    requires 0 <= s.pids[0].cursor < |s.pids|
    requires InitPcb(s, priority).1
    ensures PassedOver(InitPcb(s, priority).0, AllocNode(s.pids).1)
  {
    var p := AllocNode(s.pids).1;
    SpawnFields(s, priority);
    SpawnLives(s, priority, p);
    PidTaken(s);
    NobodyYet(s, p);
    hide Core, NobodyWaitsForDead, Settled, Slist.Valid, IsLive, AllocNode, InitPcb;
  }

  lemma NobodyYet(s: Sys, p: int)
    requires Consistent(s) && !s.panicked && !IsLive(s, p) && p != 0
    ensures s.current != p && (forall q :: p !in On(s, q)) && Ready in s.queues && |s.tasks| == MAX_TASK_NUM
  {
    assert p in On(s, Ready) <==> BelongsOn(s, Ready, p);
    assert QueueExists(s, Ready);
    forall q ensures p !in On(s, q) {
      assert p in On(s, q) <==> BelongsOn(s, q, p);
    }
  }

  /** Nothing but the clock: everybody stays in user code and awake. */
  lemma OneTick(s: Sys, p: int)
    requires PassedOver(s, p) && !s.panicked && On(s, Sleep) == [] && forall x :: Tsk(s, x).resume == User
    ensures Enabled(s, Timer)
    ensures var t := Tick(s);
      PassedOver(t, p) && !t.panicked && On(t, Sleep) == [] && forall x :: Tsk(t, x).resume == User
  {
    hide PassedOver, Scheduler;
    TickPasses(s, p);
    ReadyNotEmpty(s, p);
    var s1 := s.(ticks := s.ticks + 1);
    assert CheckSleeping(s1) == s1;
    SchedulerResumes(s1);
    hide CheckSleeping;
    assert forall x :: Tsk(s1, x) == Tsk(s, x);
  }

  lemma SchedulerResumes(s: Sys)
    requires On(s, Ready) != []
    ensures var t := Scheduler(s);
      && (forall x :: Tsk(t, x).resume == Tsk(s, x).resume) && t.queues == s.queues && t.panicked == s.panicked
  {
    SchedulerTasks(s);
    hide Scheduler, SchedulingKeys, Pick;
    forall x ensures Tsk(Scheduler(s), x).resume == Tsk(s, x).resume {
      assert Tsk(Scheduler(s), x) == Rescheduled(s, Scheduler(s).current, x);
    }
  }

  lemma ReadyNotEmpty(s: Sys, p: int)
    requires PassedOver(s, p)
    ensures On(s, Ready) != []
  {
  }

  function Ticks(n: nat): seq<Event> {
    seq(n, _ => Timer)
  }

  lemma {:induction false} TicksRun(s: Sys, p: int, n: nat)
    requires PassedOver(s, p) && !s.panicked && On(s, Sleep) == [] && forall x :: Tsk(s, x).resume == User
    ensures IsRun(s, Ticks(n))
    decreases n
  {
    hide PassedOver, Tick, Enabled;
    if n > 0 {
      OneTick(s, p);
      TicksRun(Tick(s), p, n - 1);
      assert Ticks(n)[1..] == Ticks(n - 1);
    }
  }
}
