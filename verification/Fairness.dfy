/** The bounds of Selection.dfy carried over to runs of the machine: how long a ready task waits for the processor,
    how many releases a blocked task waits for, and how many ticks an expired sleeper waits. */
module Fairness {
  import opened Sets
  import opened Slist
  import opened Machine
  import opened Selection
  import opened QueueRuns
  import opened SyncRuns
  import opened LockRuns

  // ---------------------------------------------------------------- the processor

  /** The state after k calls of the scheduler in a row. */
  function Schedules(s: Sys, k: nat): Sys
    decreases k
  {
    if k == 0 then s else Schedules(Scheduler(s), k - 1)
  }

  /** The sum of (scheduling priority - 1) over the ready queue. */
  function ReadySlack(s: Sys): nat {
    Slack(SchedulingKeys(s, On(s, Ready)))
  }

  lemma StillSomebody(s: Sys)
    requires Somebody(s, On(s, Ready))
    ensures Somebody(Scheduler(s), On(s, Ready))
  {
    SchedulerTasks(s);
    hide Scheduler, Pick, SchedulingKeys;
    var p :| p in On(s, Ready) && Sound(Tsk(s, p));
    RescheduledFrame(s, Scheduler(s).current, p);
    assert Sound(Tsk(Scheduler(s), p));
  }

  lemma SchedulerIsTurn(s: Sys)
    requires Core(s) && Somebody(s, On(s, Ready))
    ensures On(Scheduler(s), Ready) == On(s, Ready) && Somebody(Scheduler(s), On(s, Ready))
    ensures SchedulingKeys(Scheduler(s), On(s, Ready)) == Turn(SchedulingKeys(s, On(s, Ready)))
  {
    var l, t := On(s, Ready), Scheduler(s);
    StillSomebody(s);
    SchedulerTasks(s);
    forall k | 0 <= k < |l|
      ensures SchedulingKeys(t, l)[k] == Turn(SchedulingKeys(s, l))[k]
    {
      TurnAt(s, k);
    }
    hide Core, Somebody, Scheduler;
  }

  lemma TurnAt(s: Sys, k: nat)
    requires Core(s) && Somebody(s, On(s, Ready)) && k < |On(s, Ready)|
    ensures SchedulingKeys(Scheduler(s), On(s, Ready))[k] == Turn(SchedulingKeys(s, On(s, Ready)))[k]
  {
    var l, t := On(s, Ready), Scheduler(s);
    SchedulerTasks(s);
    ReadyPick(s);
    assert Distinct(l);
    assert l[k] in l;
    hide Core, Somebody, Scheduler, Pick;
    assert Tsk(t, l[k]) == Rescheduled(s, t.current, l[k]);
  }

  lemma {:induction false} SchedulesAreTurns(s: Sys, k: nat)
    requires Core(s) && Somebody(s, On(s, Ready))
    ensures Core(Schedules(s, k)) && On(Schedules(s, k), Ready) == On(s, Ready)
    ensures Somebody(Schedules(s, k), On(s, Ready))
    ensures SchedulingKeys(Schedules(s, k), On(s, Ready)) == Turns(SchedulingKeys(s, On(s, Ready)), k)
    decreases k
  {
    hide Core, SchedulerFrame, Scheduler, Somebody;
    if k > 0 {
      SchedulerIsTurn(s);
      SchedulerEffect(s);
      SchedulesAreTurns(Scheduler(s), k - 1);
    }
  }

  lemma NextIsPicked(s: Sys, k: nat)
    requires Core(s) && Somebody(s, On(s, Ready))
    ensures Schedules(s, k + 1) == Scheduler(Schedules(s, k))
    ensures var i := Pick(Turns(SchedulingKeys(s, On(s, Ready)), k));
      0 <= i && Schedules(s, k + 1).current == On(s, Ready)[i]
  {
    hide Core, SchedulerFrame, Scheduler, Somebody, Turns;
    SchedulesAreTurns(s, k);
    SchedulerEffect(Schedules(s, k));
    SchedulesCompose(s, k);
  }

  lemma {:induction false} SchedulesCompose(s: Sys, k: nat)
    ensures Schedules(s, k + 1) == Scheduler(Schedules(s, k))
    decreases k
  {
    if k > 0 {
      SchedulesCompose(Scheduler(s), k - 1);
    }
  }

  /** Every ready task of a priority of at least 1 is dispatched within (slack + n) calls of the scheduler, n the
      length of the ready queue. */
  lemma NoStarvation(s: Sys, p: int)
    requires Core(s) && p in On(s, Ready) && Sound(Tsk(s, p))
    ensures exists k :: 0 < k <= ReadySlack(s) + |On(s, Ready)| && Schedules(s, k).current == p
  {
    var l := On(s, Ready);
    var keys := SchedulingKeys(s, l);
    var x :| 0 <= x < |l| && l[x] == p;
    forall j | 0 <= j < |l| ensures keys[j].wait >= 0 {
      assert l[j] in l && BelongsOn(s, Ready, l[j]);
      assert Fit(Tsk(s, l[j]));
    }
    var k := SelectedSoon(keys, x);
    NextIsPicked(s, k);
    assert Schedules(s, k + 1).current == p;
  }

  // ---------------------------------------------------------------- a blocked task

  /** A waiting queue as the release loop sees it. */
  ghost function Waiters(s: Sys, q: QueueId): (ws: seq<Waiter>)
    ensures |ws| == |On(s, q)| && forall k :: 0 <= k < |ws| ==> ws[k].pid == On(s, q)[k]
    ensures WaiterKeys(ws) == BlockingKeys(s, On(s, q))
  {
    var l := On(s, q);
    seq(|l|, k requires 0 <= k < |l| =>
      Waiter(l[k], Key(Tsk(s, l[k]).priority, Tsk(s, l[k]).waitTime), Tsk(s, l[k]).awakenedTime))
  }

  /** How the release loop sees task p. */
  function WaiterOf(s: Sys, p: int): Waiter {
    Waiter(p, Key(Tsk(s, p).priority, Tsk(s, p).waitTime), Tsk(s, p).awakenedTime)
  }

  lemma WaitersAt(s: Sys, q: QueueId)
    ensures forall k :: 0 <= k < |On(s, q)| ==> Waiters(s, q)[k] == WaiterOf(s, On(s, q)[k])
  {}

  lemma SameWaiters(s: Sys, t: Sys, q: QueueId)
    requires On(t, q) == On(s, q)
    requires forall p :: p in On(s, q) ==>
      && Tsk(t, p).priority == Tsk(s, p).priority && Tsk(t, p).waitTime == Tsk(s, p).waitTime
      && Tsk(t, p).awakenedTime == Tsk(s, p).awakenedTime
    ensures Waiters(t, q) == Waiters(s, q)
  {
    forall k | 0 <= k < |Waiters(s, q)| ensures Waiters(t, q)[k] == Waiters(s, q)[k] {
      assert On(s, q)[k] in On(s, q);
    }
  }

  /** On two different queues there are different tasks. */
  lemma Elsewhere(s: Sys, q: QueueId, r: QueueId)
    requires Core(s) && q != r
    ensures forall p :: p in On(s, q) ==> p !in On(s, r)
  {
    forall p | p in On(s, q) ensures p !in On(s, r) {
      assert p in On(s, q) <==> BelongsOn(s, q, p);
      assert p in On(s, r) <==> BelongsOn(s, r, p);
    }
  }

  /** What an event does to a waiting queue other than the sleep queue. */
  datatype Effect = Stay | Enter | TakeOne | TakeAll | Lose(pid: int) | LoseAndTake(pid: int)

  /** The queue that the retry loop of the running task would block on, if the mutex is still locked. */
  ghost function LoopEffect(s: Sys, m: int, q: QueueId): Effect {
    if q == MutexQ(m) && Mtx(s, m).locked then Enter else Stay
  }

  ghost function LockEffect(s: Sys, m: int, q: QueueId): Effect {
    if Mtx(s, m).owner == s.current then Stay else LoopEffect(s, m, q)
  }

  ghost function UnlockEffect(s: Sys, m: int, q: QueueId): Effect {
    if q == MutexQ(m) && Mtx(s, m).owner == s.current then TakeOne else Stay
  }

  /** A killed task leaves; a mutex that it owned and that the scan of locks[] has released lets one waiter go. */
  ghost function KillEffect(s: Sys, p: int, q: QueueId): Effect {
    if p == 1 || !IsLive(s, p) then Stay
    else if q == WaitOf(p) then TakeAll
    else if q.MutexQ? && Mtx(s, q.m).owner == p && Mtx(Kill(s, p).0, q.m).owner != p then LoseAndTake(p)
    else Lose(p)
  }

  ghost function EffectOn(s: Sys, e: Event, q: QueueId): Effect
    requires Enabled(s, e)
  {
    match e
    case Timer | Spawn(_) | SleepFor(_) => Stay
    case KillTask(p) => KillEffect(s, p, q)
    case WaitFor(p) => if q == WaitOf(p) && IsLive(s, p) && p != s.current then Enter else Stay
    case Lock(m) => LockEffect(s, m, q)
    case Unlock(m) => UnlockEffect(s, m, q)
    case CondWait(c, m) => if q == CondQ(c) then Enter else UnlockEffect(s, m, q)
    case CondSignal(c) => if q == CondQ(c) && s.conds[c] > 0 then TakeOne else Stay
    case CondBroadcast(c) => if q == CondQ(c) && s.conds[c] > 0 then TakeAll else Stay
    case SemUp(i) => if q == SemQ(i) && s.sems[i] < 0 then TakeOne else Stay
    case SemDown(i) => if q == SemQ(i) && s.sems[i] <= 0 then Enter else Stay
    case BarrierWait(b) =>
      if q != BarrierQ(b) then Stay
      else if s.barriers[b].arrived + 1 == s.barriers[b].goal then TakeAll else Enter
    case Continue =>
      match Tsk(s, s.current).resume
      case User => Stay
      case Retry(m) => LoopEffect(s, m, q)
      case Reacquire(m) => LockEffect(s, m, q)
  }

  /** The queue after the effect; tasks enter with waiting time 0. */
  ghost function Affected(s: Sys, q: QueueId, f: Effect): seq<Waiter> {
    match f
    case Stay => Waiters(s, q)
    case Enter =>
      var c := Tsk(s, s.current);
      QueueStep(Waiters(s, q), Join(Waiter(s.current, Key(c.priority, 0), c.awakenedTime)))
    case TakeOne => QueueStep(Waiters(s, q), Unblock)
    case TakeAll => []
    case Lose(p) => QueueStep(Waiters(s, q), Leave(p))
    case LoseAndTake(p) => QueueStep(QueueStep(Waiters(s, q), Leave(p)), Unblock)
  }

  lemma StayAffects(s: Sys, q: QueueId)
    ensures Affected(s, q, Stay) == Waiters(s, q)
  {}

  lemma JoinAffects(s: Sys, t: Sys, q: QueueId, c: int)
    requires On(t, q) == On(s, q) + [c]
    requires forall p :: p in On(s, q) ==> WaiterOf(t, p) == WaiterOf(s, p)
    ensures Waiters(t, q) == Waiters(s, q) + [WaiterOf(t, c)]
  {
    hide Waiters, WaiterKeys, BlockingKeys, WaiterOf;
    WaitersAt(s, q);
    WaitersAt(t, q);
    forall k | 0 <= k < |On(s, q)| ensures Waiters(t, q)[k] == Waiters(s, q)[k] {
      assert On(s, q)[k] in On(s, q);
    }
  }

  lemma WaitAffects(s: Sys, b: QueueId, status: Status, r: Resume, q: QueueId)
    requires Core(s) && Settled(s) && s.current != 0 && QueueExists(s, b) && b != Ready && q != Ready
    ensures Waiters(DoWait(s, b, status, r), q) == Affected(s, q, if q == b then Enter else Stay)
  {
    var t := DoWait(s, b, status, r);
    DoWaitEffect(s, b, status, r);
    Elsewhere(s, q, Ready);
    hide Core, DoWait, Waiters, WaiterKeys, BlockingKeys, Settled;
    if q != b {
      SameWaiters(s, t, q);
    } else {
      JoinAffects(s, t, q, s.current);
    }
  }

  lemma OneAffects(s: Sys, b: QueueId, q: QueueId)
    requires Core(s) && b != Ready && q != Ready
    ensures Waiters(UnblockOne(s, b), q) == Affected(s, q, if q == b then TakeOne else Stay)
  {
    hide Core, UnblockOne, Waiters, QueueStep, WaiterKeys, BlockingKeys;
    if On(s, b) == [] {
      UnblockOneShape(s, b);
      NobodyToTake(s, b);
    } else if q != b {
      OtherUntouched(s, b, q);
    } else {
      OneTaken(s, q);
    }
  }

  lemma NobodyToTake(s: Sys, q: QueueId)
    requires On(s, q) == []
    ensures QueueStep(Waiters(s, q), Unblock) == Waiters(s, q)
  {
  }

  lemma OtherUntouched(s: Sys, b: QueueId, q: QueueId)
    requires Core(s) && b != Ready && q != Ready && q != b && On(s, b) != []
    ensures Waiters(UnblockOne(s, b), q) == Waiters(s, q)
  {
    hide Core, UnblockOne;
    UnblockOneEffect(s, b);
    Elsewhere(s, q, b);
    SameWaiters(s, UnblockOne(s, b), q);
  }

  lemma QueueFacts(s: Sys, q: QueueId)
    requires Core(s)
    ensures Distinct(On(s, q)) && forall p :: p in On(s, q) ==> 0 < p < |s.tasks|
  {
    forall p | p in On(s, q) ensures 0 < p < |s.tasks| { InQueueInRange(s, q, p); }
  }

  lemma OneTaken(s: Sys, q: QueueId)
    requires Core(s) && q != Ready && On(s, q) != []
    ensures Waiters(UnblockOne(s, q), q) == QueueStep(Waiters(s, q), Unblock)
  {
    hide Core, UnblockOne, Age;
    var l, t := On(s, q), UnblockOne(s, q);
    var i := Pick(BlockingKeys(s, l));
    AgedThenWoken(s, q);
    QueueFacts(s, q);
    assert On(t, q) == l[..i] + l[i + 1..] by {
      AgeQueues(s, l);
      WithoutAt(l, i);
    }
    forall k | 0 <= k < |l| && k != i
      ensures Tsk(t, l[k]).priority == Tsk(s, l[k]).priority && Tsk(t, l[k]).waitTime == Tsk(s, l[k]).waitTime + 1
      ensures Tsk(t, l[k]).awakenedTime == Tsk(s, l[k]).awakenedTime
    {
      assert l[k] in l && l[k] != l[i];
    }
    TakenWaiters(s, t, q, i);
  }

  /** Position i has been taken out and everybody else has waited once more. */
  lemma TakenWaiters(s: Sys, t: Sys, q: QueueId, i: int)
    requires i == Pick(BlockingKeys(s, On(s, q))) && 0 <= i < |On(s, q)|
    requires On(t, q) == On(s, q)[..i] + On(s, q)[i + 1..]
    requires forall k :: 0 <= k < |On(s, q)| && k != i ==>
      && Tsk(t, On(s, q)[k]).priority == Tsk(s, On(s, q)[k]).priority
      && Tsk(t, On(s, q)[k]).waitTime == Tsk(s, On(s, q)[k]).waitTime + 1
      && Tsk(t, On(s, q)[k]).awakenedTime == Tsk(s, On(s, q)[k]).awakenedTime
    ensures Waiters(t, q) == QueueStep(Waiters(s, q), Unblock)
  {
    var l, ws, wt := On(s, q), AgeWaiters(Waiters(s, q)), Waiters(t, q);
    forall k | 0 <= k < |wt| ensures wt[k] == (ws[..i] + ws[i + 1..])[k] {
      var j := if k < i then k else k + 1;
      assert (ws[..i] + ws[i + 1..])[k] == ws[j];
    }
  }

  lemma AllAffects(s: Sys, b: QueueId, q: QueueId)
    requires Core(s) && b != Ready && q != Ready
    ensures Waiters(UnblockAll(s, b), q) == Affected(s, q, if q == b then TakeAll else Stay)
  {
    UnblockAllEffect(s, b);
    if q != b {
      Elsewhere(s, q, b);
      hide Core, UnblockAll;
      SameWaiters(s, UnblockAll(s, b), q);
    }
  }

  /** Assignments to counters, mutexes, lock counts and resume points do not show in a waiting queue. */
  lemma Unaffected(s: Sys, t: Sys, q: QueueId)
    requires t.queues == s.queues
    requires forall p :: Tsk(t, p).priority == Tsk(s, p).priority && Tsk(t, p).waitTime == Tsk(s, p).waitTime
    requires forall p :: Tsk(t, p).awakenedTime == Tsk(s, p).awakenedTime
    ensures Waiters(t, q) == Waiters(s, q)
  {
    SameWaiters(s, t, q);
  }

  lemma LoopAffects(s: Sys, m: int, q: QueueId)
    requires Core(s) && Settled(s) && s.current != 0 && q != Ready
    ensures Waiters(AcquireLoop(s, m), q) == Affected(s, q, LoopEffect(s, m, q))
  {
    if Mtx(s, m).locked {
      assert QueueExists(s, MutexQ(m));
      hide Core;
      WaitAffects(s, MutexQ(m), BLOCKED, Retry(m), q);
    } else {
      Unaffected(s, AcquireLoop(s, m), q);
    }
  }

  lemma LockAffects(s: Sys, m: int, q: QueueId)
    requires Core(s) && Settled(s) && s.current != 0 && q != Ready
    ensures Waiters(Acquire(s, m), q) == Affected(s, q, LockEffect(s, m, q))
  {
    if Mtx(s, m).owner == s.current {
      Unaffected(s, Acquire(s, m), q);
    } else {
      LoopAffects(s, m, q);
    }
  }

  lemma DropAffects(s: Sys, p: int, m: int, q: QueueId)
    ensures Waiters(DropLock(s, p, m), q) == Waiters(s, q)
  {
    Unaffected(s, DropLock(s, p, m), q);
  }

  lemma UnlockAffects(s: Sys, m: int, q: QueueId)
    requires Core(s) && q != Ready
    ensures Waiters(Release(s, m), q) == Affected(s, q, UnlockEffect(s, m, q))
  {
    hide UnblockOne, DropLock, Core, Waiters;
    if Mtx(s, m).owner == s.current {
      OneAffects(s, MutexQ(m), q);
      DropAffects(UnblockOne(s, MutexQ(m)), s.current, m, q);
    }
  }

  lemma CounterAffects(s: Sys, i: int, n: int, q: QueueId)
    ensures Waiters(SetCond(s, i, n), q) == Waiters(s, q)
    ensures Waiters(SetSem(s, i, n), q) == Waiters(s, q)
    ensures Waiters(SetArrived(s, i, n), q) == Waiters(s, q)
  {
    Unaffected(s, SetCond(s, i, n), q);
    Unaffected(s, SetSem(s, i, n), q);
    Unaffected(s, SetArrived(s, i, n), q);
  }

  lemma CondWaitAffects(s: Sys, c: int, m: int, q: QueueId)
    requires Invariant(s) && !s.panicked && s.current != 0 && q != Ready && 0 <= c < |s.conds|
    ensures Waiters(ConditionWait(s, c, m), q) == Affected(s, q, if q == CondQ(c) then Enter else UnlockEffect(s, m, q))
  {
    hide Core, NobodyWaitsForDead, Settled, Release, DoWait;
    var s1 := SetCond(s, c, s.conds[c] + 1);
    CounterAffects(s, c, s.conds[c] + 1, q);
    SetKeepsSettled(s, c, s.conds[c] + 1);
    ReleaseKeepsSettled(s1, m);
    ReleaseFields(s1, m);
    UnlockAffects(s1, m, q);
    ReleasePriority(s1, m);
    WaitAffects(Release(s1, m), CondQ(c), BLOCKED, Reacquire(m), q);
  }

  lemma ReleasePriority(s: Sys, m: int)
    requires Core(s)
    ensures Tsk(Release(s, m), s.current).priority == Tsk(s, s.current).priority
    ensures Tsk(Release(s, m), s.current).awakenedTime == Tsk(s, s.current).awakenedTime
  {
    hide Core, UnblockOne;
    UnblockOneEffect(s, MutexQ(m));
  }

  lemma ConditionAffects(s: Sys, c: int, q: QueueId)
    requires Invariant(s) && !s.panicked && q != Ready && 0 <= c < |s.conds| && s.conds[c] > 0
    ensures Waiters(Signal(s, c), q) == Affected(s, q, if q == CondQ(c) then TakeOne else Stay)
    ensures Waiters(Broadcast(s, c), q) == Affected(s, q, if q == CondQ(c) then TakeAll else Stay)
  {
    hide Core, NobodyWaitsForDead, Settled, UnblockOne, UnblockAll, Waiters;
    CounterAffects(s, c, s.conds[c] - 1, q);
    SetKeepsSettled(s, c, s.conds[c] - 1);
    OneAffects(SetCond(s, c, s.conds[c] - 1), CondQ(c), q);
    CounterAffects(s, c, 0, q);
    SetKeepsSettled(s, c, 0);
    AllAffects(SetCond(s, c, 0), CondQ(c), q);
  }

  lemma UpAffects(s: Sys, i: int, q: QueueId)
    requires Invariant(s) && !s.panicked && q != Ready && 0 <= i < |s.sems|
    ensures Waiters(Up(s, i), q) == Affected(s, q, if q == SemQ(i) && s.sems[i] < 0 then TakeOne else Stay)
  {
    hide Core, NobodyWaitsForDead, Settled, UnblockOne, Waiters;
    CounterAffects(s, i, s.sems[i] + 1, q);
    SetKeepsSettled(s, i, s.sems[i] + 1);
    OneAffects(SetSem(s, i, s.sems[i] + 1), SemQ(i), q);
  }

  lemma DownAffects(s: Sys, i: int, q: QueueId)
    requires Invariant(s) && !s.panicked && s.current != 0 && q != Ready && 0 <= i < |s.sems|
    ensures Waiters(Down(s, i), q) == Affected(s, q, if q == SemQ(i) && s.sems[i] <= 0 then Enter else Stay)
  {
    hide Core, NobodyWaitsForDead, Settled, DoWait, Waiters;
    CounterAffects(s, i, s.sems[i] - 1, q);
    SetKeepsSettled(s, i, s.sems[i] - 1);
    CounterQueuesExist(s, i, s.sems[i] - 1);
    WaitAffects(SetSem(s, i, s.sems[i] - 1), SemQ(i), BLOCKED, User, q);
  }

  lemma ArriveAffects(s: Sys, b: int, q: QueueId)
    requires Invariant(s) && !s.panicked && s.current != 0 && q != Ready && 0 <= b < |s.barriers|
    ensures Waiters(Arrive(s, b), q)
      == Affected(s, q, if q != BarrierQ(b) then Stay
                        else if s.barriers[b].arrived + 1 == s.barriers[b].goal then TakeAll else Enter)
  {
    hide Core, NobodyWaitsForDead, Settled, DoWait, UnblockAll, Waiters, QueueStep, WaiterKeys, BlockingKeys;
    var n := if s.barriers[b].arrived + 1 == s.barriers[b].goal then 0 else s.barriers[b].arrived + 1;
    CounterAffects(s, b, n, q);
    SetKeepsSettled(s, b, n);
    if s.barriers[b].arrived + 1 == s.barriers[b].goal {
      AllAffects(SetArrived(s, b, n), BarrierQ(b), q);
    } else {
      CounterQueuesExist(s, b, n);
      WaitAffects(SetArrived(s, b, n), BarrierQ(b), WAITING, User, q);
    }
  }

  lemma CheckSleepingAffects(s: Sys, q: QueueId)
    requires Core(s) && q != Ready && q != Sleep
    ensures Waiters(CheckSleeping(s), q) == Waiters(s, q) && Core(CheckSleeping(s))
  {
    hide Core, Rouse;
    var i := FirstExpired(s, On(s, Sleep));
    if i != -1 {
      RouseEffect(s, On(s, Sleep)[i]);
      SameWaiters(s, CheckSleeping(s), q);
    }
  }

  lemma SchedulerAffects(s: Sys, q: QueueId)
    requires Core(s) && q != Ready && (s.current in On(s, q) ==> Tsk(s, s.current).waitTime == 0)
    ensures Waiters(Scheduler(s), q) == Waiters(s, q)
  {
    hide Core, Scheduler, SchedulingKeys, Rescheduled;
    SchedulerLeaves(s);
    Elsewhere(s, q, Ready);
    forall p | p in On(s, q) ensures Tsk(Scheduler(s), p).waitTime == Tsk(s, p).waitTime {
      StaysAsideScheduler(s, p);
    }
    SameWaiters(s, Scheduler(s), q);
  }

  lemma StaysAsideScheduler(s: Sys, p: int)
    requires p !in On(s, Ready) && (p == s.current ==> Tsk(s, p).waitTime == 0)
    ensures Tsk(Scheduler(s), p).waitTime == Tsk(s, p).waitTime
  {
    if On(s, Ready) != [] {
      SchedulerTasks(s);
      hide Scheduler, SchedulingKeys, Pick;
    }
  }

  lemma TickAffects(s: Sys, q: QueueId)
    requires Core(s) && Settled(s) && q != Ready && q != Sleep
    ensures Waiters(Tick(s), q) == Waiters(s, q)
  {
    hide Core, CheckSleeping, Scheduler, Settled;
    CheckedCanStay(s);
    var s1 := s.(ticks := s.ticks + 1);
    ClockQuiet(s);
    Unaffected(s, s1, q);
    CheckSleepingAffects(s1, q);
    SchedulerAffects(CheckSleeping(s1), q);
  }

  lemma SpawnAffects(s: Sys, priority: int, q: QueueId)
    requires Consistent(s) && q != Ready
    ensures Waiters(InitPcb(s, priority).0, q) == Waiters(s, q)
  {
    hide Core, NobodyWaitsForDead, InitPcb, Slist.Valid;
    var p := SpawnBirth(s, priority);
    if p != 0 {
      NotOnAnyQueue(s, p, q);
      SameWaiters(s, InitPcb(s, priority).0, q);
    }
  }

  lemma NotOnAnyQueue(s: Sys, p: int, q: QueueId)
    requires Core(s) && !IsLive(s, p)
    ensures p !in On(s, q)
  {
    assert p in On(s, q) <==> BelongsOn(s, q, p);
  }

  lemma AlarmAffects(s: Sys, ms: nat, q: QueueId)
    requires Core(s) && Settled(s) && s.current != 0 && q != Ready
    ensures Waiters(SetAlarm(s, ms), q) == Waiters(s, q)
  {
    Elsewhere(s, q, Ready);
    SameWaiters(s, SetAlarm(s, ms), q);
  }

  lemma SleepAffects(s: Sys, ms: nat, q: QueueId)
    requires Invariant(s) && !s.panicked && s.current != 0 && q != Ready
    ensures q != Sleep ==> Waiters(DoSleep(s, ms), q) == Waiters(s, q)
    ensures Waiters(DoSleep(s, ms), Sleep)
      == Waiters(s, Sleep) + [Waiter(s.current, Key(Tsk(s, s.current).priority, 0), s.ticks + ms / TIME_SLICE)]
  {
    hide Core, NobodyWaitsForDead, Settled, DoWait, SetAlarm, Waiters, AllFit, OneQueueEach, WaiterKeys, BlockingKeys;
    AlarmAffects(s, ms, q);
    AlarmAffects(s, ms, Sleep);
    AlarmFields(s, ms);
    AlarmWakes(s, ms);
    WokenKeepsInvariant(s, SetAlarm(s, ms));
    WaitAffects(SetAlarm(s, ms), Sleep, SLEEPING, User, q);
    WaitAffects(SetAlarm(s, ms), Sleep, SLEEPING, User, Sleep);
  }

  lemma AlarmFields(s: Sys, ms: nat)
    requires Invariant(s) && !s.panicked && s.current != 0
    ensures SetAlarm(s, ms).current == s.current && SetAlarm(s, ms).panicked == s.panicked
    ensures Tsk(SetAlarm(s, ms), s.current).priority == Tsk(s, s.current).priority
    ensures Tsk(SetAlarm(s, ms), s.current).awakenedTime == s.ticks + ms / TIME_SLICE
  {
    assert |s.tasks| == MAX_TASK_NUM;
  }

  lemma {:induction false} LeaveMatches(l: seq<int>, ws: seq<Waiter>, p: int)
    requires |ws| == |l| && forall k :: 0 <= k < |l| ==> ws[k].pid == l[k]
    ensures |LeaveQueue(ws, p)| == |Without(l, p)|
    ensures forall k :: 0 <= k < |Without(l, p)| ==>
      LeaveQueue(ws, p)[k].pid == Without(l, p)[k] && LeaveQueue(ws, p)[k] in ws
  {
    if l != [] && l[0] != p {
      LeaveMatches(l[1..], ws[1..], p);
    }
  }

  lemma UnlinkedQueues(s: Sys, p: int, q: QueueId)
    requires Core(s) && Slist.Valid(s.pids) && IsLive(s, p)
    ensures On(Unlinked(s, p), q) == Without(On(s, q), p) && Unlinked(s, p).tasks == s.tasks
  {
    assert p in On(s, q) <==> BelongsOn(s, q, p);
    assert Tsk(s, p).queue in s.queues;
    WithoutElems(On(s, q), p);
  }

  lemma UnlinkedAffects(s: Sys, p: int, q: QueueId)
    requires Core(s) && Slist.Valid(s.pids) && IsLive(s, p)
    ensures Waiters(Unlinked(s, p), q) == QueueStep(Waiters(s, q), Leave(p))
  {
    hide Core, Slist.Valid, Waiters, Unlinked, WaiterKeys, BlockingKeys, WaiterOf;
    var l, ws, wt := On(s, q), Waiters(s, q), Waiters(Unlinked(s, p), q);
    UnlinkedQueues(s, p, q);
    WaitersAt(s, q);
    WaitersAt(Unlinked(s, p), q);
    SameRecords(s, Unlinked(s, p));
    LeaveMatches(l, ws, p);
    forall k | 0 <= k < |wt| ensures wt[k] == LeaveQueue(ws, p)[k] {
      assert LeaveQueue(ws, p)[k] in ws;
    }
  }

  lemma SameRecords(s: Sys, t: Sys)
    requires s.tasks == t.tasks
    ensures forall p :: WaiterOf(t, p) == WaiterOf(s, p)
  {}

  lemma ReleaseLockAffects(s: Sys, p: int, i: nat, q: QueueId)
    requires Core(s) && q != Ready
    ensures Waiters(ReleaseLock(s, p, i), q)
      == if q == MutexQ(i) then QueueStep(Waiters(s, q), Unblock) else Waiters(s, q)
  {
    hide Core, UnblockOne, Waiters, QueueStep, DropLock;
    OneAffects(s, MutexQ(i), q);
    DropAffects(UnblockOne(s, MutexQ(i)), p, i, q);
  }

  /** Releasing the later mutexes does not change mutex i. */
  lemma LaterLocks(s: Sys, p: int, i: nat)
    requires Core(s) && !IsLive(s, p) && 0 < p < MAX_TASK_NUM && i < MAX_LOCKS_NUM <= |s.mutexes|
    ensures Mtx(ReleaseLocks(s, p, i + 1), i) == Mtx(s, i)
  {
    hide Core, ReleaseLocks, CountOwned;
    ReleaseLocksCount(s, p, i + 1);
    assert ReleaseLocks(s, p, i + 1).mutexes[..i + 1][i] == s.mutexes[..i + 1][i];
  }

  lemma {:induction false} ReleaseLocksAffect(s: Sys, p: int, i: nat, q: QueueId)
    requires Core(s) && !IsLive(s, p) && 0 < p < MAX_TASK_NUM && i <= MAX_LOCKS_NUM <= |s.mutexes| && q != Ready
    ensures var t := ReleaseLocks(s, p, i);
      Waiters(t, q) == if q.MutexQ? && i <= q.m && Mtx(s, q.m).owner == p && Mtx(t, q.m).owner != p
                       then QueueStep(Waiters(s, q), Unblock) else Waiters(s, q)
    decreases MAX_LOCKS_NUM - i
  {
    hide Core, UnblockOne, Waiters, QueueStep, Woken, ReleaseLock, Mtx;
    if i >= MAX_LOCKS_NUM || Tsk(s, p).lockNum <= 0 {
    } else if Mtx(s, i).owner != p {
      ReleaseLocksAffect(s, p, i + 1, q);
    } else {
      OwnedLockAffects(s, p, i, q);
      ReleaseLocksAffect(ReleaseLock(s, p, i), p, i + 1, q);
      LaterLocks(ReleaseLock(s, p, i), p, i);
    }
  }

  lemma OwnedLockAffects(s: Sys, p: int, i: nat, q: QueueId)
    requires Core(s) && !IsLive(s, p) && 0 < p < MAX_TASK_NUM && i < MAX_LOCKS_NUM <= |s.mutexes| && q != Ready
    requires Mtx(s, i).owner == p && Tsk(s, p).lockNum > 0
    ensures var u := ReleaseLock(s, p, i);
      && ReleaseLocks(s, p, i) == ReleaseLocks(u, p, i + 1)
      && Core(u) && !IsLive(u, p) && |u.mutexes| == |s.mutexes|
      && (forall m :: Mtx(u, m) == if m == i then Mutex(false, 0) else Mtx(s, m))
      && Waiters(u, q) == if q == MutexQ(i) then QueueStep(Waiters(s, q), Unblock) else Waiters(s, q)
  {
    hide Core, UnblockOne, Waiters, QueueStep, Woken;
    ReleaseLockEffect(s, p, i);
    ReleaseLockAffects(s, p, i, q);
  }

  lemma ClearedAffects(s: Sys, p: int, q: QueueId)
    requires Consistent(s) && q != Ready && IsLive(s, p)
    ensures var t := Cleared(s, p);
      Waiters(t, q) ==
        if q == WaitOf(p) then []
        else if q.MutexQ? && Mtx(s, q.m).owner == p && Mtx(t, q.m).owner != p
        then QueueStep(QueueStep(Waiters(s, q), Leave(p)), Unblock)
        else QueueStep(Waiters(s, q), Leave(p))
  {
    KillStages(s, p);
    var s1 := Unlinked(s, p);
    hide Consistent, Core, Waiters, QueueStep, ReleaseLocks, UnblockAll, Gone;
    UnlinkedAffects(s, p, q);
    hide Unlinked;
    ReleaseLocksAffect(s1, p, 0, q);
    AllAffects(ReleaseLocks(s1, p, 0), WaitOf(p), q);
    ClearedWakes(s, p);
    MutexOwners(s, s1, ReleaseLocks(s1, p, 0), Cleared(s, p), q);
  }

  /** What a kill does to every waiting queue, the sleep queue included. */
  lemma KillAffects(s: Sys, p: int, q: QueueId)
    requires Consistent(s) && Settled(s) && s.current != 0 && q != Ready && p != 1 && IsLive(s, p)
    ensures Waiters(Kill(s, p).0, q) == Affected(s, q, KillEffect(s, p, q))
  {
    hide Core, NobodyWaitsForDead, Slist.Valid, Waiters, QueueStep, Gone, Cleared, Unlinked, Scheduler, Kill;
    PidFreed(s, p);
    KillStages(s, p);
    ClearedAffects(s, p, q);
    KillLives(s, p);
    ClearedCurrent(s, p);
    if s.current == p {
      ClearedCanStay(s, p);
      SchedulerAffects(Cleared(s, p), q);
    }
  }

  lemma MutexOwners(s: Sys, s1: Sys, s2: Sys, t: Sys, q: QueueId)
    requires s1.mutexes == s.mutexes && t.mutexes == s2.mutexes
    ensures q.MutexQ? ==> Mtx(s1, q.m) == Mtx(s, q.m) && Mtx(t, q.m) == Mtx(s2, q.m)
    ensures q.MutexQ? && Mtx(s, q.m).owner != 0 ==> 0 <= q.m
  {
  }

  /** What every event does to every waiting queue; the sleep queue also changes by the clock and by sleep. */
  lemma EventAffects(s: Sys, e: Event, q: QueueId)
    requires Consistent(s) && Enabled(s, e) && q != Ready
    requires q == Sleep ==> !e.Timer? && !e.SleepFor?
    ensures Waiters(Apply(s, e), q) == Affected(s, q, EffectOn(s, e, q))
  {
    hide Core, NobodyWaitsForDead, Slist.Valid;
    hide Tick, InitPcb, Kill, DoSleep, Acquire, AcquireLoop, Release, ConditionWait, DoWait, Up, Down, Arrive, Waiters;
    hide Affected, FindsNext, LockEffect, LoopEffect, UnlockEffect;
    StayAffects(s, q);
    match e
    case KillTask(p) =>
      KillBuries(s, p);
      if p != 1 && IsLive(s, p) {
        KillAffects(s, p, q);
      }
    case Timer => TickAffects(s, q);
    case Spawn(priority) => SpawnAffects(s, priority, q);
    case WaitFor(p) =>
      if Wait(s, p).1 {
        WaitAffects(s, WaitOf(p), WAITING, User, q);
      }
    case SleepFor(ms) => SleepAffects(s, ms, q);
    case Lock(m) => LockAffects(s, m, q);
    case Unlock(m) => UnlockAffects(s, m, q);
    case CondWait(c, m) => CondWaitAffects(s, c, m, q);
    case CondSignal(c) => if s.conds[c] > 0 { ConditionAffects(s, c, q); }
    case CondBroadcast(c) => if s.conds[c] > 0 { ConditionAffects(s, c, q); }
    case SemUp(i) => UpAffects(s, i, q);
    case SemDown(i) => DownAffects(s, i, q);
    case BarrierWait(b) => ArriveAffects(s, b, q);
    case Continue =>
      match Tsk(s, s.current).resume
      case User =>
      case Retry(m) => LoopAffects(s, m, q);
      case Reacquire(m) => LockAffects(s, m, q);
  }
}
