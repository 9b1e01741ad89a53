/** When the running task blocks or ends and every task that is ready has a priority below 1, the scheduler finds
    nobody and leaves the running task running, off the ready queue. Exactly when that happens. */
module Breakdown {
  import opened Sets
  import opened Slist
  import opened Machine
  import opened Selection
  import opened QueueRuns
  import opened SyncRuns

  /** The running task is on the ready queue, unless it is the boot code or the kernel has panicked. */
  predicate StandsReady(s: Sys) {
    s.panicked || s.current == 0 || s.current in On(s, Ready)
  }

  // ---------------------------------------------------------------- one call

  lemma ParkedKeys(s: Sys, q: QueueId, status: Status, r: Resume)
    requires Distinct(On(s, Ready)) && q != Ready
    ensures var u := Park(s, q, status, r);
      && On(u, Ready) == Rest(s) && u.current == s.current && u.panicked == s.panicked
      && SchedulingKeys(u, Rest(s)) == SchedulingKeys(s, Rest(s))
  {
    WithoutElems(On(s, Ready), s.current);
    forall k | 0 <= k < |Rest(s)| ensures Rest(s)[k] != s.current {
      assert Rest(s)[k] in Rest(s);
    }
  }

  lemma PicksIff(s: Sys)
    ensures Replaceable(s) <==> Rest(s) == [] || Pick(SchedulingKeys(s, Rest(s))) != -1
  {
    var keys := SchedulingKeys(s, Rest(s));
    PickIsLastMax(keys);
    var i := Pick(keys);
    hide Eligible, Pick;
    assert i != -1 ==> Eligible(keys[i]);
    assert forall k :: 0 <= k < |keys| ==>
      keys[k] == Key(Tsk(s, Rest(s)[k]).schedulerPriority, Tsk(s, Rest(s)[k]).waitTime);
  }

  /** A task that blocks leaves a task of the ready queue running, or nobody, exactly when the selection can find
      somebody else or nobody else is ready. */
  lemma BlockingFindsNextIff(s: Sys, q: QueueId, status: Status, r: Resume)
    requires Distinct(On(s, Ready)) && q != Ready && !s.panicked
    ensures var t := DoWait(s, q, status, r);
      && (t.panicked || t.current in On(t, Ready) <==> Replaceable(s))
      && (!Replaceable(s) ==> t.current == s.current)
  {
    hide Replaceable, Park, Pick, SchedulingKeys, Scheduler;
    var u := Park(s, q, status, r);
    ParkedKeys(s, q, status, r);
    PicksIff(s);
    WithoutElems(On(s, Ready), s.current);
    if Rest(s) == [] {
      NobodyLeft(u);
    } else {
      SchedulerTasks(u);
      PickInRange(u, Rest(s));
    }
  }

  lemma NobodyLeft(s: Sys)
    requires On(s, Ready) == []
    ensures Scheduler(s).panicked
  {
  }

  lemma PickInRange(s: Sys, l: seq<int>)
    ensures -1 <= Pick(SchedulingKeys(s, l)) < |l|
  {
  }

  /** The same for a task that ends itself. */
  lemma EndingFindsNextIff(s: Sys)
    requires Consistent(s) && !s.panicked && s.current > 1
    ensures var t := Kill(s, s.current).0;
      && (StandsReady(t) <==> Replaceable(Cleared(s, s.current)))
      && (!Replaceable(Cleared(s, s.current)) ==> t.current == s.current)
  {
    hide Replaceable, Kill, Cleared, OneQueueEach, AllFit, Shaped, NobodyWaitsForDead, Slist.Valid;
    RunningLives(s);
    KillBuries(s, s.current);
  }

  lemma RunningLives(s: Sys)
    requires Core(s) && Settled(s) && s.current != 0
    ensures IsLive(s, s.current) && |s.pids| == MAX_TASK_NUM
  {
    assert BelongsOn(s, Ready, s.current);
  }

  // ---------------------------------------------------------------- every event

  /** Where an event that takes the running task off the ready queue puts it, from which state on: only counters and the
      alarm have been set, or condition_wait has released the mutex. */
  lemma LeavesByWaiting(s: Sys, e: Event) returns (u: Sys, q: QueueId, status: Status, r: Resume)
    requires Consistent(s) && Admitted(s, e) && Leaves(s, e) && !e.KillTask?
    ensures Apply(s, e) == DoWait(u, q, status, r) && q != Ready && QueueExists(u, q) && s.current != 0
    ensures e.CondWait? ==> u == Release(SetCond(s, e.cond, s.conds[e.cond] + 1), e.m) == BeforeLeaving(s, e)
    ensures !e.CondWait? ==> Assigned(s, u) && s == BeforeLeaving(s, e)
  {
    hide Core, NobodyWaitsForDead, Slist.Valid, Settled, DoWait, Release, UnblockOne, Assigned;
    u, r := s, User;
    NothingAssigned(s);
    match e
    case WaitFor(p) => q, status := WaitOf(p), WAITING; LiveQueueExists(s, p);
    case SleepFor(ms) => u, q, status := SetAlarm(s, ms), Sleep, SLEEPING; AlarmIsAssigned(s, ms);
    case Lock(m) => q, status, r := MutexQ(m), BLOCKED, Retry(m);
    case CondWait(c, m) =>
      u, q, status, r := Release(SetCond(s, c, s.conds[c] + 1), m), CondQ(c), BLOCKED, Reacquire(m);
      ReleaseShape(SetCond(s, c, s.conds[c] + 1), m);
    case SemDown(i) =>
      u, q, status := SetSem(s, i, s.sems[i] - 1), SemQ(i), BLOCKED;
      CounterIsAssigned(s, i, s.sems[i] - 1);
    case BarrierWait(b) =>
      u, q, status := SetArrived(s, b, s.barriers[b].arrived + 1), BarrierQ(b), WAITING;
      CounterIsAssigned(s, b, s.barriers[b].arrived + 1);
    case Continue =>
      var m := Tsk(s, s.current).resume.m;
      q, status, r := MutexQ(m), BLOCKED, Retry(m);
  }

  lemma NothingAssigned(s: Sys)
    ensures Assigned(s, s)
  {}

  lemma AlarmIsAssigned(s: Sys, ms: nat)
    ensures Assigned(s, SetAlarm(s, ms))
  {}

  lemma CounterIsAssigned(s: Sys, i: int, n: int)
    ensures Assigned(s, SetCond(s, i, n)) && Assigned(s, SetSem(s, i, n)) && Assigned(s, SetArrived(s, i, n))
  {}

  /** Whoever is there to be found before the wait is there to be found in it. */
  lemma LeavesWoken(s: Sys, e: Event, u: Sys)
    requires Consistent(s) && Admitted(s, e)
    requires e.CondWait? ==> u == Release(SetCond(s, e.cond, s.conds[e.cond] + 1), e.m) == BeforeLeaving(s, e)
    requires !e.CondWait? ==> Assigned(s, u) && s == BeforeLeaving(s, e)
    ensures Woken(s, u) && (Replaceable(u) <==> Replaceable(BeforeLeaving(s, e)))
  {
    hide Core, NobodyWaitsForDead, Slist.Valid, Settled, Release, Replaceable, BeforeLeaving;
    if e.CondWait? {
      CondReleaseWakes(s, e.cond, s.conds[e.cond] + 1, e.m);
    } else {
      AssignedWakes(s, u);
      SameReady(s, u);
    }
  }

  lemma LiveQueueExists(s: Sys, p: int)
    requires IsLive(s, p)
    ensures QueueExists(s, WaitOf(p))
  {}

  /** Only the running task's alarm or a counter has changed. */
  lemma SameReady(s: Sys, u: Sys)
    requires Assigned(s, u)
    ensures Replaceable(u) <==> Replaceable(s)
  {
    assert Rest(u) == Rest(s);
    forall k | 0 <= k < |Rest(s)|
      ensures Key(Tsk(u, Rest(s)[k]).schedulerPriority, Tsk(u, Rest(s)[k]).waitTime)
           == Key(Tsk(s, Rest(s)[k]).schedulerPriority, Tsk(s, Rest(s)[k]).waitTime)
    {
      assert SameWaits(Tsk(s, Rest(s)[k]), Tsk(u, Rest(s)[k]));
    }
  }

  /** What an event does that is no tick, no spawn and no kill and leaves the running task where it is. */
  lemma OtherwiseWakes(s: Sys, e: Event)
    requires Consistent(s) && Admitted(s, e) && !Leaves(s, e) && !e.Timer? && !e.Spawn? && !e.KillTask?
    ensures Woken(s, Apply(s, e))
  {
    hide Core, NobodyWaitsForDead, Slist.Valid, Settled, DoWait, Release, UnblockOne, UnblockAll, Woken;
    match e
    case WaitFor(p) => NothingWakes(s);
    case Lock(m) => TakingWakes(s, m);
    case Unlock(m) => ReleaseWakes(s, m);
    case CondSignal(c) =>
      CountedWakes(s, c, s.conds[c] - 1);
      UnblockedWakes(s, SetCond(s, c, s.conds[c] - 1), CondQ(c));
      NothingWakes(s);
    case CondBroadcast(c) => CountedWakes(s, c, 0); UnblockedWakes(s, SetCond(s, c, 0), CondQ(c)); NothingWakes(s);
    case SemUp(i) => CountedWakes(s, i, s.sems[i] + 1); UnblockedWakes(s, SetSem(s, i, s.sems[i] + 1), SemQ(i));
    case SemDown(i) => CountedWakes(s, i, s.sems[i] - 1);
    case BarrierWait(b) => CountedWakes(s, b, 0); UnblockedWakes(s, SetArrived(s, b, 0), BarrierQ(b));
    case Continue => TakingWakes(s, Tsk(s, s.current).resume.m);
  }

  /** A lock that is taken, or was the running task's already. */
  lemma TakingWakes(s: Sys, m: int)
    requires Core(s)
    ensures !Mtx(s, m).locked ==> Woken(s, AcquireLoop(s, m))
    ensures Mtx(s, m).owner == s.current || !Mtx(s, m).locked ==> Woken(s, Acquire(s, m))
  {
    hide Core, DoWait, Woken;
    if !Mtx(s, m).locked {
      AssignedWakes(s, AcquireLoop(s, m));
    }
    AssignedWakes(s, SetTask(s, s.current, Tsk(s, s.current).(resume := User)));
  }

  lemma UnblockedWakes(s: Sys, t: Sys, q: QueueId)
    requires Core(s) && Woken(s, t) && q != Ready
    ensures Woken(s, UnblockOne(t, q)) && Woken(s, UnblockAll(t, q))
  {
    assert Core(t);
    hide Core, UnblockOne, UnblockAll;
    UnblockOneWakes(t, q);
    UnblockAllWakes(t, q);
    hide Woken;
    WokenTwice(s, t, UnblockOne(t, q));
    WokenTwice(s, t, UnblockAll(t, q));
  }

  /** Every event keeps each task on one queue. It keeps the running task on the ready queue, and with that the whole
      invariant, exactly when it finds a next task for the one it takes off. */
  lemma EventStaysIff(s: Sys, e: Event)
    requires Consistent(s) && Admitted(s, e)
    ensures OneQueueEach(Apply(s, e))
    ensures StandsReady(Apply(s, e)) <==> FindsNext(s, e)
    ensures Consistent(Apply(s, e)) <==> FindsNext(s, e)
    ensures !FindsNext(s, e) ==> Apply(s, e).current == s.current
  {
    hide Apply, FindsNext, OneQueueEach, AllFit, Shaped, NobodyWaitsForDead, Slist.Valid;
    if FindsNext(s, e) {
      EventKeepsConsistent(s, e);
    } else if e.KillTask? {
      EndsAlone(s, e);
    } else {
      BlocksAlone(s, e);
    }
  }

  lemma BlocksAlone(s: Sys, e: Event)
    requires Consistent(s) && Admitted(s, e) && !FindsNext(s, e) && !e.KillTask?
    ensures Core(Apply(s, e)) && !StandsReady(Apply(s, e)) && Apply(s, e).current == s.current
  {
    hide Apply, Core, NobodyWaitsForDead, Slist.Valid, Settled, DoWait, Replaceable, BeforeLeaving;
    var u, q, status, r := LeavesByWaiting(s, e);
    LeavesWoken(s, e, u);
    WokenKeepsInvariant(s, u);
    assert Settled(u);
    DoWaitEffect(u, q, status, r);
  }

  lemma EndsAlone(s: Sys, e: Event)
    requires Consistent(s) && Admitted(s, e) && !FindsNext(s, e) && e.KillTask?
    ensures Core(Apply(s, e)) && !StandsReady(Apply(s, e)) && Apply(s, e).current == s.current
  {
    hide Core, NobodyWaitsForDead, Slist.Valid, Replaceable, Kill, Cleared;
    assert Settled(s);
    RunningLives(s);
    KillBuries(s, e.pid);
  }

  // ---------------------------------------------------------------- runs

  /** Over runs of whatever the kernel lets happen: the running task stands on the ready queue, and every task on one
      queue, all along exactly when every event that takes the running task off the ready queue finds a next one. */
  lemma {:induction false} RunStaysIff(s: Sys, es: seq<Event>)
    requires Consistent(s) && IsAnyRun(s, es)
    ensures (forall k :: 0 <= k <= |es| ==> StandsReady(Final(s, es[..k]))) <==> IsRun(s, es)
    ensures (forall k :: 0 <= k <= |es| ==> Consistent(Final(s, es[..k]))) <==> IsRun(s, es)
    decreases |es|
  {
    hide Apply, Admitted, FindsNext, Consistent, StandsReady;
    AtFirst(s, es);
    if es != [] {
      var t := Apply(s, es[0]);
      EventStaysIff(s, es[0]);
      OneLater(s, es);
      if FindsNext(s, es[0]) {
        RunStaysIff(t, es[1..]);
      }
    }
  }

  lemma AtFirst(s: Sys, es: seq<Event>)
    requires Consistent(s)
    ensures Final(s, es[..0]) == s && StandsReady(s)
  {
    assert es[..0] == [];
  }

  /** The states of a run are the first one and those of the rest of the run. */
  lemma OneLater(s: Sys, es: seq<Event>)
    requires es != []
    ensures Final(s, es[..1]) == Apply(s, es[0])
    ensures forall k :: 0 < k <= |es| ==> Final(s, es[..k]) == Final(Apply(s, es[0]), es[1..][..k - 1])
    ensures forall k :: 0 <= k < |es| ==> Final(s, es[..k + 1]) == Final(Apply(s, es[0]), es[1..][..k])
  {
    forall k | 0 < k <= |es| ensures Final(s, es[..k]) == Final(Apply(s, es[0]), es[1..][..k - 1]) {
      assert es[..k][1..] == es[1..][..k - 1];
    }
    assert es[1..][..0] == [];
  }

  // ---------------------------------------------------------------- priorities of at least 1

  ghost predicate AllSound(s: Sys) {
    forall p :: IsLive(s, p) ==> Sound(Tsk(s, p))
  }

  lemma ReadyOnesFound(s: Sys)
    requires Core(s) && forall p :: p in On(s, Ready) ==> Sound(Tsk(s, p))
    ensures Replaceable(s)
  {
    ReplaceableIs(s);
    WithoutElems(On(s, Ready), s.current);
    if Rest(s) != [] {
      assert Rest(s)[0] in Rest(s);
    }
  }

  lemma ReadyAreSound(s: Sys)
    requires Core(s) && AllSound(s)
    ensures forall p :: p in On(s, Ready) ==> Sound(Tsk(s, p))
  {
    forall p | p in On(s, Ready) ensures Sound(Tsk(s, p)) {
      assert BelongsOn(s, Ready, p);
    }
  }

  lemma WokenSound(s: Sys, t: Sys)
    requires Core(s) && Woken(s, t) && AllSound(s)
    ensures AllSound(t) && Replaceable(t)
  {
    ReadyAreSound(s);
    forall p | IsLive(t, p) ensures Sound(Tsk(t, p)) {
      assert BelongsOn(t, Tsk(t, p).queue, p);
      if Tsk(t, p).queue != Ready {
        WaitersAreSound(t, Tsk(t, p).queue, p);
      }
    }
    hide Core, Replaceable;
    ReadyAreSound(t);
    ReadyOnesFound(t);
  }

  lemma PrioritiesKeepSound(u: Sys, t: Sys)
    requires AllSound(u) && t.pids == u.pids && AllFit(t)
    requires forall p :: Tsk(t, p).priority == Tsk(u, p).priority
    ensures AllSound(t)
  {
    forall p | IsLive(t, p) ensures Sound(Tsk(t, p)) {
      assert IsLive(u, p) && Fit(Tsk(t, p));
    }
  }

  lemma ClearedSound(s: Sys, p: int)
    requires Consistent(s) && AllSound(s) && IsLive(s, p)
    ensures AllSound(Cleared(s, p)) && Replaceable(Cleared(s, p)) && |s.pids| == MAX_TASK_NUM
  {
    hide OneQueueEach, AllFit, NobodyWaitsForDead, Settled, Slist.Valid, Cleared, Unlinked, Woken, Replaceable;
    KillStages(s, p);
    ClearedWakes(s, p);
    WokenSound(Unlinked(s, p), Cleared(s, p));
  }

  /** If nobody has a priority below 1, every event finds a next task, and it leaves nobody
      with one unless it spawns it. */
  lemma HighFindsNext(s: Sys, e: Event)
    requires Consistent(s) && Admitted(s, e) && AllSound(s)
    ensures FindsNext(s, e)
    ensures (e.Spawn? ==> e.priority >= 1) ==> AllSound(Apply(s, e))
  {
    hide Core, NobodyWaitsForDead, Slist.Valid, AllSound, Apply, Replaceable, BeforeLeaving, Leaves;
    if e.KillTask? {
      KillStaysHigh(s, e);
    } else if e.Spawn? {
      SpawnStaysHigh(s, e);
    } else if e == Timer {
      TickStaysHigh(s);
    } else if Leaves(s, e) {
      WaitStaysHigh(s, e);
    } else {
      OtherwiseWakes(s, e);
      WokenSound(s, Apply(s, e));
    }
  }

  lemma WaitStaysHigh(s: Sys, e: Event)
    requires Consistent(s) && Admitted(s, e) && AllSound(s) && Leaves(s, e) && !e.KillTask?
    ensures FindsNext(s, e) && AllSound(Apply(s, e))
  {
    hide OneQueueEach, Shaped, AllFit, NobodyWaitsForDead, Slist.Valid, AllSound, Apply, Replaceable, BeforeLeaving,
      Leaves, DoWait;
    var u, q, status, r := LeavesByWaiting(s, e);
    LeavesWoken(s, e, u);
    WokenKeepsInvariant(s, u);
    WokenSound(s, u);
    DoWaitEffect(u, q, status, r);
    PrioritiesKeepSound(u, Apply(s, e));
  }

  lemma TickStaysHigh(s: Sys)
    requires Consistent(s) && Admitted(s, Timer) && AllSound(s)
    ensures FindsNext(s, Timer) && AllSound(Apply(s, Timer))
  {
    hide OneQueueEach, Shaped, AllFit, NobodyWaitsForDead, Slist.Valid, AllSound, CheckSleeping, Scheduler;
    var u := CheckSleeping(s.(ticks := s.ticks + 1));
    CheckedWakes(s);
    WokenSound(s, u);
    EventKeepsConsistent(s, Timer);
    SchedulerLeaves(u);
    PrioritiesKeepSound(u, Scheduler(u));
  }

  lemma SpawnStaysHigh(s: Sys, e: Event)
    requires Consistent(s) && Admitted(s, e) && AllSound(s) && e.Spawn?
    ensures FindsNext(s, e)
    ensures e.priority >= 1 ==> AllSound(Apply(s, e))
  {
    hide Slist.Valid, InitPcb, AllocNode, Settled;
    var p := SpawnBirth(s, e.priority);
    if p != 0 && e.priority >= 1 {
      assert On(s, WaitOf(p)) == [];
      BornFields(s, e.priority, p);
      hide Core, NobodyWaitsForDead;
    }
  }

  lemma KillStaysHigh(s: Sys, e: Event)
    requires Consistent(s) && Admitted(s, e) && AllSound(s) && e.KillTask?
    ensures FindsNext(s, e) && AllSound(Apply(s, e))
  {
    hide OneQueueEach, Shaped, AllFit, NobodyWaitsForDead, Slist.Valid, AllSound, Kill, Cleared, Scheduler, Replaceable;
    var p := e.pid;
    PidsThere(s);
    KillBuries(s, p);
    if p != 1 && IsLive(s, p) {
      ClearedSound(s, p);
      PidFreed(s, p);
      KillIs(s, p);
      SchedulerLeaves(Cleared(s, p));
      if s.current == p { PrioritiesKeepSound(Cleared(s, p), Apply(s, e)); }
    } else if p == s.current != 1 {
      RunningLives(s);
      assert false;
    }
  }

  /** Runs that spawn only priorities of at least 1 never leave the running task off the ready queue. */
  lemma {:induction false} HighRunsStay(s: Sys, es: seq<Event>)
    requires Consistent(s) && AllSound(s) && IsAnyRun(s, es)
    requires forall k :: 0 <= k < |es| && es[k].Spawn? ==> es[k].priority >= 1
    ensures IsRun(s, es)
    decreases |es|
  {
    hide Consistent, AllSound, Apply, Admitted, FindsNext;
    if es != [] {
      HighFindsNext(s, es[0]);
      EventStaysIff(s, es[0]);
      HighRunsStay(Apply(s, es[0]), es[1..]);
    }
  }

  // ---------------------------------------------------------------- whom the event itself wakes

  /** From lock i on, the scan of locks[] in kill releases some lock of task p that others wait for. */
  ghost predicate LocksWake(s: Sys, p: int, i: nat)
    requires |s.mutexes| >= MAX_LOCKS_NUM
  {
    exists m :: i <= m < MAX_LOCKS_NUM && LockWakes(s, p, i, m)
  }

  ghost predicate LockWakes(s: Sys, p: int, i: nat, m: int)
    requires i <= m < MAX_LOCKS_NUM <= |s.mutexes|
  {
    Mtx(s, m).owner == p && On(s, MutexQ(m)) != [] && CountOwned(s.mutexes[i..m], p) < Tsk(s, p).lockNum
  }

  /** Before it takes the running task off, the event wakes somebody. */
  ghost predicate WakesOthers(s: Sys, e: Event)
    requires |s.mutexes| >= MAX_LOCKS_NUM
  {
    match e
    case CondWait(_, m) => Mtx(s, m).owner == s.current && On(s, MutexQ(m)) != []
    case KillTask(p) => On(s, WaitOf(p)) != [] || LocksWake(s, p, 0)
    case _ => false
  }

  ghost predicate Grown(s: Sys, t: Sys) {
    exists p :: p in On(t, Ready) && p !in On(s, Ready)
  }

  /** Waking somebody is the only way to find somebody whom the selection did not find before. */
  lemma GrownIff(s: Sys, t: Sys)
    requires Core(s) && Woken(s, t) && (s.current in On(s, Ready) || s.current !in On(t, Ready))
    ensures Replaceable(t) <==> Replaceable(s) || Grown(s, t)
  {
    ReplaceableIs(s);
    ReplaceableIs(t);
    assert Distinct(On(s, Ready)) && Distinct(On(t, Ready));
    WithoutElems(On(s, Ready), s.current);
    WithoutElems(On(t, Ready), t.current);
    if Grown(s, t) {
      var p :| p in On(t, Ready) && p !in On(s, Ready);
      assert p in Rest(t) && Sound(Tsk(t, p));
    } else {
      SameRest(s, t);
    }
  }

  lemma SameRest(s: Sys, t: Sys)
    requires Woken(s, t) && !Grown(s, t)
    requires forall p :: p in Rest(s) <==> p in On(s, Ready) && p != s.current
    requires forall p :: p in Rest(t) <==> p in On(t, Ready) && p != t.current
    ensures Rest(s) == [] <==> Rest(t) == []
    ensures Somebody(s, Rest(s)) <==> Somebody(t, Rest(t))
  {
    hide Core, Rest;
    assert forall p :: p in Rest(s) <==> p in Rest(t);
    if Rest(s) != [] { assert Rest(s)[0] in Rest(t); }
    if Rest(t) != [] { assert Rest(t)[0] in Rest(s); }
  }

  lemma UnblockGrows(s: Sys, q: QueueId)
    requires Core(s) && q != Ready
    ensures Grown(s, UnblockOne(s, q)) <==> On(s, q) != []
  {
    hide Core, UnblockOne, Chosen, BlockingKeys, Pick;
    UnblockOneEffect(s, q);
    if On(s, q) != [] {
      ReadyElsewhere(s, q);
      assert Chosen(s, q) in On(UnblockOne(s, q), Ready);
    }
  }

  lemma ReleaseGrows(s: Sys, m: int)
    requires Core(s)
    ensures Grown(s, Release(s, m)) <==> Mtx(s, m).owner == s.current && On(s, MutexQ(m)) != []
  {
    hide Core, UnblockOne;
    UnblockGrows(s, MutexQ(m));
    assert On(Release(s, m), Ready)
        == if Mtx(s, m).owner == s.current then On(UnblockOne(s, MutexQ(m)), Ready) else On(s, Ready);
  }

  lemma CondWaitIff(s: Sys, c: int, m: int)
    requires Consistent(s) && !s.panicked && s.current != 0 && 0 <= c < |s.conds|
    ensures Replaceable(BeforeLeaving(s, CondWait(c, m)))
      <==> Replaceable(s) || (Mtx(s, m).owner == s.current && On(s, MutexQ(m)) != [])
  {
    hide Core, NobodyWaitsForDead, Slist.Valid, Release, Replaceable, Grown, Woken;
    var s1 := SetCond(s, c, s.conds[c] + 1);
    CountedWakes(s, c, s.conds[c] + 1);
    WokenIs(s, s1);
    ReleaseWakes(s1, m);
    ReleaseGrows(s1, m);
    WhoRuns(s);
    GrownIff(s1, Release(s1, m));
    SameReady(s, s1);
  }

  // ---------------------------------------------------------------- whom a dying task wakes

  lemma LockGrows(s: Sys, p: int, i: nat)
    requires Core(s) && !IsLive(s, p) && 0 < p < MAX_TASK_NUM && i < MAX_LOCKS_NUM <= |s.mutexes|
    ensures var u := ReleaseLock(s, p, i);
      && (Grown(s, u) <==> On(s, MutexQ(i)) != [])
      && forall m :: m != i ==> On(u, MutexQ(m)) == On(s, MutexQ(m))
  {
    hide Core, UnblockOne;
    UnblockGrows(s, MutexQ(i));
    UnblockWaits(s, MutexQ(i));
    assert forall q :: On(ReleaseLock(s, p, i), q) == On(UnblockOne(s, MutexQ(i)), q);
  }

  /** One step of the scan. */
  lemma LocksWakeNext(s: Sys, u: Sys, p: int, i: nat)
    requires i < MAX_LOCKS_NUM <= |s.mutexes| && Tsk(s, p).lockNum > 0 && p != 0
    requires Mtx(s, i).owner != p ==> u == s
    requires Mtx(s, i).owner == p ==>
      && u.mutexes == s.mutexes[i := Mutex(false, 0)] && Tsk(u, p).lockNum == Tsk(s, p).lockNum - 1
      && forall m :: m != i ==> On(u, MutexQ(m)) == On(s, MutexQ(m))
    ensures LocksWake(s, p, i) <==> (Mtx(s, i).owner == p && On(s, MutexQ(i)) != []) || LocksWake(u, p, i + 1)
  {
    forall m | i < m < MAX_LOCKS_NUM ensures LockWakes(s, p, i, m) <==> LockWakes(u, p, i + 1, m) {
      assert s.mutexes[i..m] == [s.mutexes[i]] + s.mutexes[i + 1..m];
      assert u.mutexes[i + 1..m] == s.mutexes[i + 1..m];
    }
    assert LockWakes(s, p, i, i) <==> Mtx(s, i).owner == p && On(s, MutexQ(i)) != [] by {
      assert s.mutexes[i..i] == [];
    }
    hide LockWakes;
    if LocksWake(s, p, i) {
      var m :| i <= m < MAX_LOCKS_NUM && LockWakes(s, p, i, m);
      assert m != i ==> LockWakes(u, p, i + 1, m);
    }
    if LocksWake(u, p, i + 1) {
      var m :| i + 1 <= m < MAX_LOCKS_NUM && LockWakes(u, p, i + 1, m);
      assert LockWakes(s, p, i, m);
    }
  }

  lemma GrownTwice(s: Sys, u: Sys, t: Sys)
    requires Woken(s, u) && Woken(u, t)
    ensures Grown(s, t) <==> Grown(s, u) || Grown(u, t)
  {
    hide Core;
  }

  /** The scan of locks[] wakes somebody exactly when one of the locks it gets to is waited for. */
  lemma {:induction false} LocksGrowIff(s: Sys, p: int, i: nat)
    requires Core(s) && !IsLive(s, p) && 0 < p < MAX_TASK_NUM && i <= MAX_LOCKS_NUM <= |s.mutexes|
    ensures Grown(s, ReleaseLocks(s, p, i)) <==> LocksWake(s, p, i)
    decreases MAX_LOCKS_NUM - i
  {
    hide Core, UnblockOne, LocksWake, Grown, ReleaseLock, Woken;
    if i >= MAX_LOCKS_NUM || Tsk(s, p).lockNum <= 0 {
      NothingGrows(s, p, i);
    } else if Mtx(s, i).owner != p {
      LocksGrowIff(s, p, i + 1);
      LocksWakeNext(s, s, p, i);
    } else {
      var u := ReleaseLock(s, p, i);
      assert ReleaseLocks(s, p, i) == ReleaseLocks(u, p, i + 1) by { ScanStep(s, p, i); }
      ReleaseLockEffect(s, p, i);
      LockGrows(s, p, i);
      LocksGrowIff(u, p, i + 1);
      LocksWakeNext(s, u, p, i);
      ReleaseLocksWakes(u, p, i + 1);
      GrownTwice(s, u, ReleaseLocks(u, p, i + 1));
    }
  }

  lemma ScanStep(s: Sys, p: int, i: nat)
    requires i < MAX_LOCKS_NUM && Tsk(s, p).lockNum > 0 && Mtx(s, i).owner == p
    ensures ReleaseLocks(s, p, i) == ReleaseLocks(ReleaseLock(s, p, i), p, i + 1)
  {}

  lemma NothingGrows(s: Sys, p: int, i: nat)
    requires |s.mutexes| >= MAX_LOCKS_NUM && (i >= MAX_LOCKS_NUM || Tsk(s, p).lockNum <= 0)
    ensures !Grown(s, s) && !LocksWake(s, p, i)
  {}

  lemma UnlinkedReady(s: Sys, p: int)
    requires |s.pids| > 0 && Tsk(s, p).queue == Ready
    ensures forall q :: q != Ready ==> On(Unlinked(s, p), q) == On(s, q)
    ensures forall m :: Mtx(Unlinked(s, p), m) == Mtx(s, m)
  {
  }

  lemma UnlinkedRest(s: Sys, p: int)
    requires Core(s) && |s.pids| > 0 && p == s.current && p in On(s, Ready)
    ensures var t := Unlinked(s, p);
      t.current == p && t.tasks == s.tasks && t.mutexes == s.mutexes && Rest(t) == Rest(s)
  {
    assert BelongsOn(s, Ready, p);
    assert Distinct(On(s, Ready));
    WithoutElems(On(s, Ready), p);
    WithoutElems(Rest(s), p);
  }

  lemma SameLocksWake(s: Sys, t: Sys, p: int)
    requires |s.mutexes| >= MAX_LOCKS_NUM && t.mutexes == s.mutexes && t.tasks == s.tasks
    requires forall q :: q != Ready ==> On(t, q) == On(s, q)
    ensures LocksWake(t, p, 0) <==> LocksWake(s, p, 0)
  {
    assert forall m :: 0 <= m < MAX_LOCKS_NUM ==> (LockWakes(t, p, 0, m) <==> LockWakes(s, p, 0, m));
  }

  lemma UnblockAllGrows(s: Sys, q: QueueId)
    requires Core(s) && q != Ready
    ensures Grown(s, UnblockAll(s, q)) <==> On(s, q) != []
  {
    hide Core, UnblockAll;
    UnblockAllEffect(s, q);
    if On(s, q) != [] {
      ReadyElsewhere(s, q);
      var w := On(s, q)[0];
      assert w in On(s, q) && w !in On(s, Ready);
      assert w in On(s, Ready) + On(s, q);
    }
  }

  /** A dying task wakes somebody exactly when a task waits for its end or for a lock that
      the scan of locks[] gets to. */
  lemma ClearingGrows(s: Sys, p: int)
    requires Consistent(s) && p in On(s, Ready) && p == s.current
    ensures |s.mutexes| >= MAX_LOCKS_NUM && |s.pids| > 0
    ensures Grown(Unlinked(s, p), Cleared(s, p)) <==> On(s, WaitOf(p)) != [] || LocksWake(s, p, 0)
  {
    hide NobodyWaitsForDead, Settled, Slist.Valid, Unlinked, ReleaseLocks, UnblockAll, Woken, Grown, LocksWake;
    assert BelongsOn(s, Ready, p);
    var s1 := Unlinked(s, p);
    KillStages(s, p);
    UnlinkedReady(s, p);
    UnlinkedRest(s, p);
    var s2 := ReleaseLocks(s1, p, 0);
    hide Core, Gone;
    ReleaseLocksWakes(s1, p, 0);
    UnblockAllWakes(s2, WaitOf(p));
    UnblockAllGrows(s2, WaitOf(p));
    GrownTwice(s1, s2, Cleared(s, p));
    LocksGrowIff(s1, p, 0);
    SameLocksWake(s, s1, p);
  }

  lemma EndingIff(s: Sys)
    requires Consistent(s) && !s.panicked && s.current > 1
    ensures |s.mutexes| >= MAX_LOCKS_NUM && |s.pids| > 0
    ensures Replaceable(Cleared(s, s.current))
      <==> Replaceable(s) || On(s, WaitOf(s.current)) != [] || LocksWake(s, s.current, 0)
  {
    hide NobodyWaitsForDead, Slist.Valid, Unlinked, Cleared, Woken, Grown, LocksWake, Sound;
    var p := s.current;
    ClearingGrows(s, p);
    RunningLives(s);
    ClearedKeepsInvariant(s, p);
    ClearedWakes(s, p);
    KillStages(s, p);
    UnlinkedRest(s, p);
    hide Core, Settled;
    GrownIff(Unlinked(s, p), Cleared(s, p));
  }

  /** What decides it can be seen before the event: it takes the running task off, nobody else who is ready can be
      found, somebody is, and the event wakes nobody. */
  lemma FindsNextIff(s: Sys, e: Event)
    requires Consistent(s) && Admitted(s, e)
    ensures |s.mutexes| >= MAX_LOCKS_NUM
    ensures FindsNext(s, e) <==> (Leaves(s, e) ==> Replaceable(s) || WakesOthers(s, e))
  {
    hide OneQueueEach, AllFit, NobodyWaitsForDead, Slist.Valid, Replaceable, Cleared, LocksWake, Release;
    match e
    case CondWait(c, m) => CondWaitIff(s, c, m);
    case KillTask(p) => if p == s.current != 1 { NotPidZero(s); EndingIff(s); }
    case _ =>
  }

  lemma NotPidZero(s: Sys)
    requires Consistent(s) && !s.panicked && s.current != 0
    ensures s.current > 0 && |s.pids| > 0
  {
    RunningLives(s);
  }
}
