/** Short runs from boot in which the scheduler or the locks do not do what their names promise. */
module Episodes {
  import opened Sets
  import opened Slist
  import opened Machine
  import opened Selection
  import opened QueueRuns
  import opened SyncRuns
  import opened LockRuns
  import opened KillRuns
  import opened Fairness
  import opened Guarantees
  import opened SleepRuns
  import opened Starvation
  import opened Breakdown

  // ---------------------------------------------------------------- steps

  /** `es` leads from s to t. */
  ghost predicate Leads(s: Sys, es: seq<Event>, t: Sys) {
    IsRun(s, es) && Final(s, es) == t
  }

  lemma {:induction false} Then(s: Sys, es: seq<Event>, t: Sys, e: Event)
    requires Leads(s, es, t) && Enabled(t, e)
    ensures Leads(s, es + [e], Apply(t, e))
    decreases |es|
  {
    hide Apply, Enabled;
    if es == [] {
      assert es + [e] == [e] && [e][1..] == [];
      assert IsRun(Apply(t, e), []) && Final(Apply(t, e), []) == Apply(t, e);
    } else {
      Then(Apply(s, es[0]), es[1..], t, e);
      assert (es + [e])[1..] == es[1..] + [e];
    }
  }

  /** The pids from n + 1 on, free in this order. */
  function From(n: nat): seq<int>
    requires n < MAX_TASK_NUM
  {
    seq(MAX_TASK_NUM - 1 - n, i => n + 1 + i)
  }

  /** Task `current` runs, `ready` is the ready queue, and pids 1 to n are in use. */
  ghost predicate Stage(s: Sys, n: nat, current: int, ready: seq<int>) {
    && Consistent(s) && !s.panicked && s.current == current && On(s, Ready) == ready
    && n < MAX_TASK_NUM && FreeCells(s.pids) == From(n)
  }

  /** In addition nobody sleeps. */
  ghost predicate Scene(s: Sys, n: nat, current: int, ready: seq<int>) {
    Stage(s, n, current, ready) && On(s, Sleep) == []
  }

  /** Task p as the scheduler and the locks see it. */
  ghost predicate Looks(s: Sys, p: int, priority: int, turn: int, waited: int, q: QueueId, r: Resume) {
    var t := Tsk(s, p);
    t.priority == priority && t.schedulerPriority == turn && t.waitTime == waited && t.queue == q && t.resume == r
  }

  lemma Booted(mutexes: nat, sems: seq<int>, conds: nat, goals: seq<int>)
    ensures var s := Boot(mutexes, sems, conds, goals);
      && Scene(s, 0, 0, []) && SyncOk(s) && Leads(s, [], s) && (forall q :: On(s, q) == [])
      && (forall m :: Mtx(s, m) == NoMutex) && |s.mutexes| == MAX_LOCKS_NUM + mutexes && Tsk(s, 0).resume == User
  {
    var s := Boot(mutexes, sems, conds, goals);
    assert |s.mutexes| == MAX_LOCKS_NUM + mutexes;
    hide Boot, Consistent, SyncOk;
    BootQueues(mutexes, sems, conds, goals);
    BootCounters(mutexes, sems, conds, goals);
    BootIsConsistent(mutexes, sems, conds, goals);
    BootIsSync(mutexes, sems, conds, goals);
    InitThreads(MAX_TASK_NUM);
    assert FreeCells(s.pids) == From(0);
  }

  /** A spawn takes the next pid; nobody else's record and no other queue changes. */
  lemma Spawned(s: Sys, n: nat, current: int, ready: seq<int>, priority: int)
    requires Stage(s, n, current, ready) && n + 1 < MAX_TASK_NUM && Tsk(s, current).resume == User
    ensures Enabled(s, Spawn(priority))
    ensures var t := Apply(s, Spawn(priority));
      && Stage(t, n + 1, current, ready + [n + 1]) && Looks(t, n + 1, priority, priority, 0, Ready, User)
      && Tsk(t, n + 1).lockNum == 0
      && (forall x :: x != n + 1 ==> Tsk(t, x) == Tsk(s, x)) && (forall q :: q != Ready ==> On(t, q) == On(s, q))
      && t == s.(pids := t.pids, queues := t.queues, tasks := t.tasks)
  {
    hide Core, Settled, NobodyWaitsForDead, Slist.Valid, InitPcb, AllocNode, FreeCells;
    assert From(n)[0] == n + 1 && From(n)[1..] == From(n + 1);
    var _ := SpawnBirth(s, priority);
    AllocPops(s.pids);
    EventKeepsConsistent(s, Spawn(priority));
    SpawnedFields(s, n + 1, priority);
  }

  lemma SpawnedFields(s: Sys, p: int, priority: int)
    requires Consistent(s) && 0 < p < MAX_TASK_NUM
    requires 0 <= s.pids[0].cursor < |s.pids| && AllocNode(s.pids).1 == p
    ensures var t := InitPcb(s, priority).0;
      && On(t, Ready) == On(s, Ready) + [p] && (forall q :: q != Ready ==> On(t, q) == On(s, q))
      && (forall x :: x != p ==> Tsk(t, x) == Tsk(s, x))
      && Looks(t, p, priority, priority, 0, Ready, User) && Tsk(t, p).lockNum == 0
      && t.pids == AllocNode(s.pids).0
      && t == s.(pids := t.pids, queues := t.queues, tasks := t.tasks)
  {
    var _ := SpawnBirth(s, priority);
    hide OneQueueEach, AllFit, Slist.Valid, NobodyWaitsForDead, Settled;
  }

  /** A tick with nobody asleep: the choice among the ready tasks runs next. */
  lemma Ticked(s: Sys, n: nat, current: int, ready: seq<int>, i: nat)
    requires Scene(s, n, current, ready) && Tsk(s, current).resume == User
    requires i < |ready| && IsLastMax(SchedulingKeys(s, ready), i)
    ensures Enabled(s, Timer)
    ensures var t := Apply(s, Timer);
      && Scene(t, n, ready[i], ready) && t == s.(tasks := t.tasks, current := t.current, ticks := t.ticks)
      && forall p :: Tsk(t, p) == Rescheduled(s, ready[i], p)
  {
    hide Core, Settled, NobodyWaitsForDead, Slist.Valid, Scheduler, FreeCells, IsLastMax, Eligible, Less;
    var s1 := s.(ticks := s.ticks + 1);
    EventKeepsConsistent(s, Timer);
    LastMaxIsPick(SchedulingKeys(s, ready), i);
    SameSchedule(s, s1, ready, ready[i]);
    hide SchedulingKeys, Pick;
    SchedulerTasks(s1);
  }

  /** The clock plays no part in scheduling. */
  lemma SameSchedule(s: Sys, s1: Sys, ready: seq<int>, next: int)
    requires s1 == s.(ticks := s1.ticks)
    ensures SchedulingKeys(s1, ready) == SchedulingKeys(s, ready)
    ensures forall p :: Rescheduled(s1, next, p) == Rescheduled(s, next, p)
    ensures On(s, Sleep) == [] ==> CheckSleeping(s1) == s1
  {
  }

  /** The record of task p after another task has left the ready queue and `next` of the rest has been dispatched. */
  function After(s: Sys, rest: seq<int>, next: int, p: int): Task {
    var t := Tsk(s, p);
    var t1 := if p in rest then t.(waitTime := t.waitTime + 1) else t;
    if p != next then t1 else
    t1.(schedulerPriority := if t1.schedulerPriority > 1 then t1.schedulerPriority - 1 else t1.schedulerPriority,
        waitTime := 0, status := RUNNING)
  }

  /** The running task blocks on q: the choice among the others that are ready runs next. */
  lemma Blocked(s: Sys, q: QueueId, status: Status, r: Resume, rest: seq<int>, i: nat)
    requires Core(s) && Settled(s) && !s.panicked && s.current != 0 && QueueExists(s, q) && q != Ready
    requires rest == Without(On(s, Ready), s.current) && i < |rest| && IsLastMax(SchedulingKeys(s, rest), i)
    requires status != RUNNING
    ensures var t := DoWait(s, q, status, r);
      && !t.panicked && t.current == rest[i] && On(t, Ready) == rest && On(t, q) == On(s, q) + [s.current]
      && (forall x :: x != q && x != Ready ==> On(t, x) == On(s, x))
      && t == s.(queues := t.queues, tasks := t.tasks, current := t.current)
      && (forall p :: p != s.current ==> Tsk(t, p) == After(s, rest, rest[i], p))
      && Tsk(t, s.current) == Tsk(s, s.current).(queue := q, status := status, resume := r)
  {
    hide Core, Settled, Scheduler, Park, IsLastMax, Pick, SchedulingKeys;
    var u := Park(s, q, status, r);
    ParkEffect(s, q, status, r);
    ParkedFields(s, q, status, r, rest);
    LastMaxIsPick(SchedulingKeys(s, rest), i);
    SchedulerTasks(u);
    assert rest[i] in rest;
    QueueFacts(u, Ready);
    hide On;
  }

  lemma ParkedFields(s: Sys, q: QueueId, status: Status, r: Resume, rest: seq<int>)
    requires Core(s) && Settled(s) && s.current != 0 && rest == Without(On(s, Ready), s.current)
    ensures var u := Park(s, q, status, r);
      && u == s.(queues := u.queues, tasks := u.tasks) && |u.tasks| == |s.tasks|
      && Tsk(u, s.current) == Tsk(s, s.current).(queue := q, status := status, resume := r)
      && (forall p :: p != s.current ==> Tsk(u, p) == Tsk(s, p))
      && SchedulingKeys(u, rest) == SchedulingKeys(s, rest)
  {
    WithoutElems(On(s, Ready), s.current);
    QueueFacts(s, Ready);
    assert Distinct(On(s, Ready));
    forall k | 0 <= k < |rest| ensures rest[k] != s.current {
      assert rest[k] in rest;
    }
    hide Core;
  }

  /** One more event of a run that is not a kill. */
  lemma Goes(s0: Sys, es: seq<Event>, s: Sys, e: Event)
    requires Leads(s0, es, s) && Consistent(s) && SyncOk(s) && Enabled(s, e) && !e.KillTask?
    ensures var t := Apply(s, e); Leads(s0, es + [e], t) && Consistent(t) && SyncOk(t)
  {
    hide Leads, Consistent, SyncOk, Apply;
    Then(s0, es, s, e);
    EventKeepsConsistent(s, e);
    EventKeepsSync(s, e);
  }

  lemma KeysOfTwo(s: Sys, a: int, b: int)
    ensures SchedulingKeys(s, [a, b])
      == [Key(Tsk(s, a).schedulerPriority, Tsk(s, a).waitTime), Key(Tsk(s, b).schedulerPriority, Tsk(s, b).waitTime)]
    ensures SchedulingKeys(s, [a]) == [Key(Tsk(s, a).schedulerPriority, Tsk(s, a).waitTime)]
  {
  }

  lemma KeysOfThree(s: Sys, a: int, b: int, c: int)
    ensures SchedulingKeys(s, [a, b, c])
      == [Key(Tsk(s, a).schedulerPriority, Tsk(s, a).waitTime), Key(Tsk(s, b).schedulerPriority, Tsk(s, b).waitTime),
          Key(Tsk(s, c).schedulerPriority, Tsk(s, c).waitTime)]
  {
  }

  // ---------------------------------------------------------------- two tasks

  /** Two tasks have been spawned and the second one runs. */
  lemma TwoTasks(mutexes: nat, sems: seq<int>) returns (t: Sys)
    ensures var s := Boot(mutexes, sems, 0, []);
      && Leads(s, [Spawn(1), Spawn(1), Timer], t) && Scene(t, 2, 2, [1, 2]) && SyncOk(t)
      && Looks(t, 1, 1, 1, 1, Ready, User) && Looks(t, 2, 1, 1, 0, Ready, User)
      && t.mutexes == s.mutexes && t.sems == s.sems && (forall q :: q != Ready ==> On(t, q) == [])
      && (forall m :: Mtx(t, m) == NoMutex) && |t.mutexes| == MAX_LOCKS_NUM + mutexes
  {
    hide Boot, Leads, Consistent, SyncOk, Apply, Enabled, SchedulingKeys;
    var s := Boot(mutexes, sems, 0, []);
    Booted(mutexes, sems, 0, []);
    Spawned(s, 0, 0, [], 1);
    Goes(s, [], s, Spawn(1));
    var s1 := Apply(s, Spawn(1));
    assert [] + [Spawn(1)] == [Spawn(1)] && [] + [1] == [1] && [1] + [2] == [1, 2];
    Spawned(s1, 1, 0, [1], 1);
    Goes(s, [Spawn(1)], s1, Spawn(1));
    var s2 := Apply(s1, Spawn(1));
    assert [Spawn(1)] + [Spawn(1)] == [Spawn(1), Spawn(1)];
    KeysOfTwo(s2, 1, 2);
    Ticked(s2, 2, 0, [1, 2], 1);
    Goes(s, [Spawn(1), Spawn(1)], s2, Timer);
    t := Apply(s2, Timer);
    assert [Spawn(1), Spawn(1)] + [Timer] == [Spawn(1), Spawn(1), Timer];
    SameMutexes(s, t);
    assert forall q :: On(t, q) == On(s2, q);
  }

  /** The second task has blocked in semaphore_down on a semaphore of value 0. */
  lemma BlockedInDown() returns (t: Sys)
    ensures Leads(Boot(0, [0], 0, []), [Spawn(1), Spawn(1), Timer, SemDown(0)], t)
    ensures Consistent(t) && SyncOk(t) && !t.panicked && t.current == 1 && Tsk(t, 1).resume == User && IsLive(t, 2)
    ensures On(t, SemQ(0)) == [2] && Tsk(t, 2).queue == SemQ(0) && t.sems == [-1]
  {
    hide Leads, Consistent, SyncOk, Apply, SchedulingKeys, DoWait, Replaceable;
    var s := TwoTasks(0, [0]);
    assert s.sems == [0] by { OneSem(); }
    OneNext(s);
    assert Enabled(s, SemDown(0));
    Goes(Boot(0, [0], 0, []), [Spawn(1), Spawn(1), Timer], s, SemDown(0));
    t := Apply(s, SemDown(0));
    assert [Spawn(1), Spawn(1), Timer] + [SemDown(0)] == [Spawn(1), Spawn(1), Timer, SemDown(0)];
    DownStep(s);
    SecondIsLive(t);
  }

  lemma OneNext(s: Sys)
    requires s.current == 2 && On(s, Ready) == [1, 2] && Looks(s, 1, 1, 1, 1, Ready, User)
    ensures Replaceable(s)
  {
    assert [1, 2][1..] == [2] && Without([1, 2], 2) == [1];
    KeysOfTwo(s, 1, 2);
    HasNext(s, [1], 0);
  }

  lemma OneSem()
    ensures Boot(0, [0], 0, []).sems == [0]
  {
  }

  lemma DownStep(s: Sys)
    requires Consistent(s) && !s.panicked && s.current == 2 && On(s, Ready) == [1, 2] && s.sems == [0]
    requires On(s, SemQ(0)) == []
    requires Looks(s, 1, 1, 1, 1, Ready, User)
    ensures var t := Apply(s, SemDown(0));
      && !t.panicked && t.current == 1 && Tsk(t, 1).resume == User && On(t, SemQ(0)) == [2]
      && Tsk(t, 2).queue == SemQ(0) && t.sems == [-1]
  {
    hide Core, NobodyWaitsForDead, Slist.Valid, Settled, DoWait, SchedulingKeys;
    var u := SetSem(s, 0, -1);
    SetKeepsSettled(s, 0, -1);
    CounterQueuesExist(s, 0, -1);
    KeysOfTwo(u, 1, 2);
    assert Without([1, 2], 2) == [1] by { assert [1, 2][1..] == [2]; }
    Blocked(u, SemQ(0), BLOCKED, User, [1], 0);
  }

  lemma SecondIsLive(s: Sys)
    requires Consistent(s) && On(s, SemQ(0)) == [2]
    ensures IsLive(s, 2)
  {
    assert 2 in On(s, SemQ(0));
    assert BelongsOn(s, SemQ(0), 2);
  }

  /** A run in which a task blocked in semaphore_down is killed: the value still counts it, so that the next up wakes
      nobody and only brings the value back to 0. */
  lemma KilledInDown()
    ensures var s, es := Boot(0, [0], 0, []), [Spawn(1), Spawn(1), Timer, SemDown(0), KillTask(2)];
      && IsRun(s, es) && !Tame(s, es)
      && Final(s, es).sems == [-1] && On(Final(s, es), SemQ(0)) == [] && !SemOk(Final(s, es), 0)
  {
    hide Consistent, SyncOk, Apply, Boot, Kill, Unlinked, Gone, Freed;
    var s := Boot(0, [0], 0, []);
    var es, e := [Spawn(1), Spawn(1), Timer, SemDown(0)], KillTask(2);
    var u := BlockedInDown();
    assert Enabled(u, e);
    Then(s, es, u, e);
    assert es + [e] == [Spawn(1), Spawn(1), Timer, SemDown(0), KillTask(2)];
    SemAfterKill(u);
    assert !HarmlessKill(u, 2);
    NotTame(s, es, u, e);
  }

  lemma SemAfterKill(u: Sys)
    requires Consistent(u) && SyncOk(u) && IsLive(u, 2) && On(u, SemQ(0)) == [2] && Tsk(u, 2).queue == SemQ(0)
    ensures var t := Apply(u, KillTask(2)); t.sems == u.sems && On(t, SemQ(0)) == []
  {
    SyncParts(u);
    hide Core, NobodyWaitsForDead, Slist.Valid, SyncOk, Kill, Gone, Freed, TagOk, CountOk;
    PidFreed(u, 2);
    KillFrees(u, 2);
    SizeAfterKill(u, Kill(u, 2).0, 2, SemQ(0));
  }

  /** A run is not tame if its last event is a kill that does harm. */
  lemma {:induction false} NotTame(s: Sys, es: seq<Event>, t: Sys, e: Event)
    requires Leads(s, es, t) && e.KillTask? && !HarmlessKill(t, e.pid)
    ensures !Tame(s, es + [e])
    decreases |es|
  {
    hide Apply, Enabled, HarmlessKill;
    if es == [] {
      assert es + [e] == [e];
    } else {
      NotTame(Apply(s, es[0]), es[1..], t, e);
      assert (es + [e])[1..] == es[1..] + [e];
    }
  }

  // ---------------------------------------------------------------- a lost wake-up

  /** The third task, spawned with priority 2, has run once; the second has taken mutex 0; the first one runs. */
  lemma LockHeld() returns (t: Sys)
    ensures Leads(Boot(0, [], 0, []), [Spawn(1), Spawn(1), Spawn(2), Timer, Timer, Lock(0), Timer], t)
    ensures Scene(t, 3, 1, [1, 2, 3]) && SyncOk(t)
    ensures Looks(t, 1, 1, 1, 0, Ready, User) && Looks(t, 2, 1, 1, 1, Ready, User) && Looks(t, 3, 2, 1, 2, Ready, User)
    ensures Mtx(t, 0) == Mutex(true, 2) && On(t, MutexQ(0)) == [] && |t.mutexes| == MAX_LOCKS_NUM
  {
    hide Boot, Leads, Consistent, SyncOk, Apply, Enabled, SchedulingKeys;
    var s := Boot(0, [], 0, []);
    var s3 := ThreeTasks([], 2);
    assert On(s3, MutexQ(0)) == [];
    KeysOfThree(s3, 1, 2, 3);
    Ticked(s3, 3, 0, [1, 2, 3], 2);
    Goes(s, [Spawn(1), Spawn(1), Spawn(2)], s3, Timer);
    var s4 := Apply(s3, Timer);
    assert [Spawn(1), Spawn(1), Spawn(2)] + [Timer] == [Spawn(1), Spawn(1), Spawn(2), Timer];
    KeysOfThree(s4, 1, 2, 3);
    Ticked(s4, 3, 3, [1, 2, 3], 1);
    Goes(s, [Spawn(1), Spawn(1), Spawn(2), Timer], s4, Timer);
    var s5 := Apply(s4, Timer);
    assert [Spawn(1), Spawn(1), Spawn(2), Timer] + [Timer] == [Spawn(1), Spawn(1), Spawn(2), Timer, Timer];
    assert s5.queues == s3.queues && s5.mutexes == s3.mutexes;
    SameMutexes(s3, s5);
    Takes(s5, 3, 2, [1, 2, 3], 0);
    Goes(s, [Spawn(1), Spawn(1), Spawn(2), Timer, Timer], s5, Lock(0));
    var s6 := Apply(s5, Lock(0));
    assert [Spawn(1), Spawn(1), Spawn(2), Timer, Timer] + [Lock(0)]
        == [Spawn(1), Spawn(1), Spawn(2), Timer, Timer, Lock(0)];
    KeysOfThree(s6, 1, 2, 3);
    Ticked(s6, 3, 2, [1, 2, 3], 0);
    Goes(s, [Spawn(1), Spawn(1), Spawn(2), Timer, Timer, Lock(0)], s6, Timer);
    t := Apply(s6, Timer);
    assert [Spawn(1), Spawn(1), Spawn(2), Timer, Timer, Lock(0)] + [Timer]
        == [Spawn(1), Spawn(1), Spawn(2), Timer, Timer, Lock(0), Timer];
    SameMutexes(s6, t);
  }

  lemma ThreeTasks(sems: seq<int>, priority: int) returns (t: Sys)
    requires priority >= 1
    ensures Leads(Boot(0, sems, 0, []), [Spawn(1), Spawn(1), Spawn(priority)], t)
    ensures Scene(t, 3, 0, [1, 2, 3]) && SyncOk(t) && Tsk(t, 0).resume == User
    ensures Looks(t, 1, 1, 1, 0, Ready, User) && Looks(t, 2, 1, 1, 0, Ready, User)
    ensures Looks(t, 3, priority, priority, 0, Ready, User)
    ensures Mtx(t, 0) == NoMutex && |t.mutexes| == MAX_LOCKS_NUM && t.sems == Boot(0, sems, 0, []).sems
    ensures forall q :: q != Ready ==> On(t, q) == []
  {
    hide Boot, Leads, Consistent, SyncOk, Apply, Enabled;
    var s := Boot(0, sems, 0, []);
    Booted(0, sems, 0, []);
    Spawned(s, 0, 0, [], 1);
    Goes(s, [], s, Spawn(1));
    var s1 := Apply(s, Spawn(1));
    assert [] + [Spawn(1)] == [Spawn(1)] && [] + [1] == [1] && [1] + [2] == [1, 2] && [1, 2] + [3] == [1, 2, 3];
    Spawned(s1, 1, 0, [1], 1);
    Goes(s, [Spawn(1)], s1, Spawn(1));
    var s2 := Apply(s1, Spawn(1));
    assert [Spawn(1)] + [Spawn(1)] == [Spawn(1), Spawn(1)];
    Spawned(s2, 2, 0, [1, 2], priority);
    Goes(s, [Spawn(1), Spawn(1)], s2, Spawn(priority));
    t := Apply(s2, Spawn(priority));
    assert [Spawn(1), Spawn(1)] + [Spawn(priority)] == [Spawn(1), Spawn(1), Spawn(priority)];
    SameMutexes(s, t);
  }

  /** The running task takes a free mutex. */
  lemma Takes(s: Sys, n: nat, current: int, ready: seq<int>, m: int)
    requires Scene(s, n, current, ready) && 0 < current && Tsk(s, current).resume == User
    requires 0 <= m < |s.mutexes| && Mtx(s, m) == NoMutex
    ensures Enabled(s, Lock(m))
    ensures var t := Acquire(s, m);
      && Apply(s, Lock(m)) == t && Scene(t, n, current, ready) && t.queues == s.queues && |t.mutexes| == |s.mutexes|
      && Mtx(t, m) == Mutex(true, current)
      && (forall p :: Tsk(t, p) == Tsk(s, p).(lockNum := Tsk(t, p).lockNum)) && t.sems == s.sems
  {
    hide Core, NobodyWaitsForDead, Slist.Valid, DoWait, Acquire, AcquireLoop, FreeCells;
    EventKeepsConsistent(s, Lock(m));
    InTable(s);
    TakenFields(s, m);
  }

  lemma InTable(s: Sys)
    requires Consistent(s) && !s.panicked
    ensures 0 <= s.current < |s.tasks|
  {
  }

  lemma TakenFields(s: Sys, m: int)
    requires 0 <= m < |s.mutexes| && Mtx(s, m) == NoMutex && 0 < s.current < |s.tasks|
    requires Tsk(s, s.current).resume == User
    ensures var t := Acquire(s, m);
      && t == s.(tasks := t.tasks, mutexes := t.mutexes) && |t.mutexes| == |s.mutexes|
      && Mtx(t, m) == Mutex(true, s.current)
      && forall p :: Tsk(t, p) == Tsk(s, p).(lockNum := Tsk(t, p).lockNum)
  {
  }

  /** Somebody else could be chosen. */
  lemma HasNext(s: Sys, rest: seq<int>, i: nat)
    requires rest == Without(On(s, Ready), s.current) && i < |rest| && IsLastMax(SchedulingKeys(s, rest), i)
    ensures Replaceable(s)
  {
    hide Eligible;
    assert Eligible(SchedulingKeys(s, rest)[i]);
  }

  /** The running task blocks on a mutex of another. */
  lemma Queues(s: Sys, n: nat, current: int, ready: seq<int>, m: int, rest: seq<int>, i: nat)
    requires Scene(s, n, current, ready) && 0 < current && Tsk(s, current).resume == User
    requires 0 <= m < |s.mutexes| && Mtx(s, m).locked && Mtx(s, m).owner != current
    requires rest == Without(ready, current) && i < |rest| && IsLastMax(SchedulingKeys(s, rest), i)
    ensures Enabled(s, Lock(m))
    ensures var t := Apply(s, Lock(m));
      && Scene(t, n, rest[i], rest) && t.mutexes == s.mutexes && On(t, MutexQ(m)) == On(s, MutexQ(m)) + [current]
      && (forall p :: p != current ==> Tsk(t, p) == After(s, rest, rest[i], p))
      && Tsk(t, current) == Tsk(s, current).(queue := MutexQ(m), status := BLOCKED, resume := Retry(m))
  {
    hide Core, NobodyWaitsForDead, Slist.Valid, DoWait, IsLastMax, SchedulingKeys, Replaceable;
    HasNext(s, rest, i);
    EventKeepsConsistent(s, Lock(m));
    assert QueueExists(s, MutexQ(m));
    Blocked(s, MutexQ(m), BLOCKED, Retry(m), rest, i);
  }

  /** The first and the third task have blocked on mutex 0; its release has woken the third. */
  lemma ThirdIsWoken() returns (t: Sys)
    ensures Leads(Boot(0, [], 0, []),
      [Spawn(1), Spawn(1), Spawn(2), Timer, Timer, Lock(0), Timer, Lock(0), Lock(0), Unlock(0)], t)
    ensures Consistent(t) && SyncOk(t) && !t.panicked && t.current == 2 && Tsk(t, 2).resume == User
    ensures On(t, Ready) == [2, 3] && On(t, MutexQ(0)) == [1] && Mtx(t, 0) == NoMutex && Tsk(t, 3).queue == Ready
  {
    hide Boot, Leads, Consistent, SyncOk, Apply, Enabled, SchedulingKeys;
    var s := Boot(0, [], 0, []);
    var es := [Spawn(1), Spawn(1), Spawn(2), Timer, Timer, Lock(0), Timer];
    var s7 := LockHeld();
    assert Without([1, 2, 3], 1) == [2, 3] && Without([2, 3], 3) == [2] by {
      assert [1, 2, 3][1..] == [2, 3] && [2, 3][1..] == [3] && [3][1..] == [];
    }
    KeysOfTwo(s7, 2, 3);
    Queues(s7, 3, 1, [1, 2, 3], 0, [2, 3], 1);
    Goes(s, es, s7, Lock(0));
    var s8 := Apply(s7, Lock(0));
    SameMutexes(s7, s8);
    KeysOfTwo(s8, 2, 3);
    Queues(s8, 3, 3, [2, 3], 0, [2], 0);
    Goes(s, es + [Lock(0)], s8, Lock(0));
    var s9 := Apply(s8, Lock(0));
    SameMutexes(s8, s9);
    assert [] + [1] == [1] && [1] + [3] == [1, 3];
    ThirdWoken(s9);
    Goes(s, es + [Lock(0)] + [Lock(0)], s9, Unlock(0));
    t := Apply(s9, Unlock(0));
    assert es + [Lock(0)] + [Lock(0)] + [Unlock(0)]
        == [Spawn(1), Spawn(1), Spawn(2), Timer, Timer, Lock(0), Timer, Lock(0), Lock(0), Unlock(0)];
  }

  lemma ThirdWoken(s: Sys)
    requires Scene(s, 3, 2, [2]) && On(s, MutexQ(0)) == [1, 3] && Mtx(s, 0) == Mutex(true, 2)
    requires |s.mutexes| == MAX_LOCKS_NUM
    requires Tsk(s, 2).resume == User
    requires Tsk(s, 1).priority == 1 && Tsk(s, 1).waitTime == 0 && Tsk(s, 3).priority == 2 && Tsk(s, 3).waitTime == 0
    ensures Enabled(s, Unlock(0))
    ensures var t := Apply(s, Unlock(0));
      && !t.panicked && t.current == 2 && Tsk(t, 2).resume == User && Mtx(t, 0) == NoMutex
      && On(t, Ready) == [2, 3] && On(t, MutexQ(0)) == [1] && Tsk(t, 3).queue == Ready
  {
    hide Core, NobodyWaitsForDead, Slist.Valid, UnblockOne;
    ThirdUnblocked(s);
  }

  lemma ThirdUnblocked(s: Sys)
    requires Core(s) && On(s, Ready) == [2] && On(s, MutexQ(0)) == [1, 3]
    requires Tsk(s, 1).priority == 1 && Tsk(s, 1).waitTime == 0 && Tsk(s, 3).priority == 2 && Tsk(s, 3).waitTime == 0
    ensures var t := UnblockOne(s, MutexQ(0));
      && SameObjects(s, t) && On(t, Ready) == [2, 3] && On(t, MutexQ(0)) == [1] && Tsk(t, 3).queue == Ready
  {
    hide Core, UnblockOne, Age;
    var q := MutexQ(0);
    ThirdChosen(s);
    UnblockOneEffect(s, q);
    AgeQueues(s, [1, 3]);
    assert Without([1, 3], 3) == [1] by { assert [1, 3][1..] == [3] && [3][1..] == []; }
    assert [2] + [3] == [2, 3];
    AgedThenWoken(s, q);
  }

  lemma ThirdChosen(s: Sys)
    requires On(s, MutexQ(0)) == [1, 3]
    requires Tsk(s, 1).priority == 1 && Tsk(s, 1).waitTime == 0 && Tsk(s, 3).priority == 2 && Tsk(s, 3).waitTime == 0
    ensures Pick(BlockingKeys(s, On(s, MutexQ(0)))) == 1 && Chosen(s, MutexQ(0)) == 3
  {
    assert BlockingKeys(s, [1, 3]) == [Key(1, 0), Key(2, 0)];
    LastMaxIsPick(BlockingKeys(s, [1, 3]), 1);
  }

  /** A run in which the task that a release has just woken is killed: the mutex is free, the first task is still
      queued on it, and nobody is about to try it. */
  lemma LostWakeUp()
    ensures var s, es := Boot(0, [], 0, []),
        [Spawn(1), Spawn(1), Spawn(2), Timer, Timer, Lock(0), Timer, Lock(0), Lock(0), Unlock(0), KillTask(3)];
      && IsRun(s, es) && !Tame(s, es)
      && !Mtx(Final(s, es), 0).locked && On(Final(s, es), MutexQ(0)) == [1]
      && (forall w :: !Retrying(Final(s, es), w, 0))
  {
    hide Consistent, SyncOk, Apply, Boot, Kill, Unlinked, Gone, Freed, Tame, HarmlessKill, RetriedWithout, Retrying;
    hide IsRun, Final;
    var s := Boot(0, [], 0, []);
    var es := [Spawn(1), Spawn(1), Spawn(2), Timer, Timer, Lock(0), Timer, Lock(0), Lock(0), Unlock(0)];
    var e := KillTask(3);
    var u := ThirdIsWoken();
    Then(s, es, u, e);
    assert es + [e]
      == [Spawn(1), Spawn(1), Spawn(2), Timer, Timer, Lock(0), Timer, Lock(0), Lock(0), Unlock(0), KillTask(3)];
    NobodyRetries(u);
    MutexAfterThird(u);
    NotTame(s, es, u, e);
  }

  lemma NobodyRetries(u: Sys)
    requires Consistent(u) && !u.panicked && u.current == 2 && Tsk(u, 2).resume == User
    requires On(u, Ready) == [2, 3] && On(u, MutexQ(0)) == [1] && Mtx(u, 0) == NoMutex
    ensures IsLive(u, 3) && !RetriedWithout(u, 3, 0) && !HarmlessKill(u, 3)
  {
    assert 3 in On(u, Ready);
    assert BelongsOn(u, Ready, 3);
    hide Consistent, IsLive;
    forall w | w != 3 ensures !Retrying(u, w, 0) {
    }
    assert !RetriedWithout(u, 3, 0);
  }

  lemma MutexAfterThird(u: Sys)
    requires Consistent(u) && SyncOk(u) && !u.panicked && u.current == 2 && IsLive(u, 3) && !RetriedWithout(u, 3, 0)
    requires On(u, MutexQ(0)) == [1] && Mtx(u, 0) == NoMutex && Tsk(u, 3).queue == Ready
    ensures var t := Apply(u, KillTask(3));
      !Mtx(t, 0).locked && On(t, MutexQ(0)) == [1] && forall w :: !Retrying(t, w, 0)
  {
    SyncParts(u);
    hide Core, NobodyWaitsForDead, Slist.Valid, SyncOk, Kill, Gone, TagOk, CountOk, Unlinked, RetriedWithout;
    PidFreed(u, 3);
    KillBuries(u, 3);
    KillFrees(u, 3);
    UnlinkedReady(u, 3);
    var t := Kill(u, 3).0;
    assert FreedAt(Unlinked(u, 3), t, 3, 0);
    MutexAfterKill(u, t, 3, 0);
    assert !MutexOk(t, 0);
    assert forall w :: !Retrying(t, w, 0);
  }

  // ---------------------------------------------------------------- a mutex outside locks[]

  /** The second task owns mutex 16, which is not one of locks[]; the first one runs. */
  lemma UserLockHeld() returns (t: Sys)
    ensures Leads(Boot(1, [], 0, []), [Spawn(1), Spawn(1), Timer, Lock(16), Timer], t)
    ensures Scene(t, 2, 1, [1, 2]) && SyncOk(t) && Mtx(t, 16) == Mutex(true, 2) && |t.mutexes| == 17
    ensures Tsk(t, 1).resume == User
  {
    hide Boot, Leads, Consistent, SyncOk, Apply, Enabled, SchedulingKeys, Acquire;
    var s := Boot(1, [], 0, []);
    var s3 := TwoTasks(1, []);
    Takes(s3, 2, 2, [1, 2], 16);
    Goes(s, [Spawn(1), Spawn(1), Timer], s3, Lock(16));
    var s4 := Apply(s3, Lock(16));
    assert [Spawn(1), Spawn(1), Timer] + [Lock(16)] == [Spawn(1), Spawn(1), Timer, Lock(16)];
    KeysOfTwo(s4, 1, 2);
    Ticked(s4, 2, 2, [1, 2], 0);
    Goes(s, [Spawn(1), Spawn(1), Timer, Lock(16)], s4, Timer);
    t := Apply(s4, Timer);
    assert [Spawn(1), Spawn(1), Timer, Lock(16)] + [Timer] == [Spawn(1), Spawn(1), Timer, Lock(16), Timer];
    SameMutexes(s4, t);
  }

  /** A run in which the owner of a mutex outside locks[] is killed: the mutex stays locked in the name of a dead pid,
      and the last task left blocks on it for ever. */
  lemma LockedByTheDead()
    ensures var s, es := Boot(1, [], 0, []), [Spawn(1), Spawn(1), Timer, Lock(16), Timer, KillTask(2)];
      && IsRun(s, es)
      && Mtx(Final(s, es), 16) == Mutex(true, 2) && !IsLive(Final(s, es), 2)
      && Enabled(Final(s, es), Lock(16)) && Apply(Final(s, es), Lock(16)).panicked
  {
    hide Consistent, SyncOk, Apply, Boot, Kill, IsRun, Final, IsLive;
    var s := Boot(1, [], 0, []);
    var es, e := [Spawn(1), Spawn(1), Timer, Lock(16), Timer], KillTask(2);
    var u := UserLockHeld();
    assert Enabled(u, e);
    Then(s, es, u, e);
    assert es + [e] == [Spawn(1), Spawn(1), Timer, Lock(16), Timer, KillTask(2)];
    OwnerKilled(u);
    EventKeepsConsistent(u, e);
    OnlyOneLeft(Apply(u, e));
  }

  lemma OwnerKilled(u: Sys)
    requires Scene(u, 2, 1, [1, 2]) && Mtx(u, 16) == Mutex(true, 2) && |u.mutexes| == 17 && Tsk(u, 1).resume == User
    ensures var t := Apply(u, KillTask(2));
      && Mtx(t, 16) == Mutex(true, 2) && |t.mutexes| == 17 && (forall p :: IsLive(t, p) ==> p == 1)
      && t.current == 1 && !t.panicked && Tsk(t, 1).resume == User
  {
    hide Core, NobodyWaitsForDead, Slist.Valid, Settled, Kill, Cleared, Unlinked, IsLive, FreeCells, Bereft;
    ReadyLives(u, 2);
    TwoLive(u);
    PidFreed(u, 2);
    KillBuries(u, 2);
    KillSparesUserMutexes(u, 2);
    ClearedWakes(u, 2);
    KillLives(u, 2);
    UnlinkedCurrent(u, 2);
    KillKeepsResume(u, 2);
  }

  lemma ReadyLives(u: Sys, p: int)
    requires Consistent(u) && p in On(u, Ready)
    ensures IsLive(u, p)
  {
    assert BelongsOn(u, Ready, p);
  }

  lemma UnlinkedCurrent(s: Sys, p: int)
    requires |s.pids| > 0
    ensures Unlinked(s, p).current == s.current && Unlinked(s, p).panicked == s.panicked
  {
  }

  lemma TwoLive(u: Sys)
    requires Consistent(u) && FreeCells(u.pids) == From(2)
    ensures forall p :: IsLive(u, p) ==> p == 1 || p == 2
  {
    forall p | 2 < p < MAX_TASK_NUM ensures p in FreeCells(u.pids) {
      assert From(2)[p - 3] == p;
    }
    Conservation(u.pids);
    LiveIsLive(u);
    hide FreeCells, IsLive, Slist.Valid, Core;
  }

  /** When the only task blocks, nobody is ready. */
  lemma OnlyOneLeft(t: Sys)
    requires Consistent(t) && !t.panicked && t.current == 1 && Tsk(t, 1).resume == User && Mtx(t, 16) == Mutex(true, 2)
    requires |t.mutexes| == 17 && forall p :: IsLive(t, p) ==> p == 1
    ensures Enabled(t, Lock(16)) && Apply(t, Lock(16)).panicked
  {
    hide Core, NobodyWaitsForDead, Slist.Valid, Settled, DoWait, Machine.Apply, IsLive, WaitFrame, QueueExists;
    var v := DoWait(t, MutexQ(16), BLOCKED, Retry(16));
    LockBlocks(t, 16);
    DoWaitEffect(t, MutexQ(16), BLOCKED, Retry(16));
    assert 1 in On(v, MutexQ(16));
    assert v.pids == t.pids by { WaitPids(t, MutexQ(16)); }
    SameLive(t, v);
    NobodyElse(v);
  }

  lemma LockBlocks(s: Sys, m: int)
    requires 0 <= m < |s.mutexes| && Mtx(s, m).locked && Mtx(s, m).owner != s.current
    ensures QueueExists(s, MutexQ(m)) && Apply(s, Lock(m)) == DoWait(s, MutexQ(m), BLOCKED, Retry(m))
  {
  }

  lemma WaitPids(s: Sys, q: QueueId)
    ensures forall status, r :: DoWait(s, q, status, r).pids == s.pids
  {
    hide DoWait;
  }

  lemma SameLive(t: Sys, v: Sys)
    requires v.pids == t.pids
    ensures forall p :: IsLive(v, p) == IsLive(t, p)
  {
  }

  lemma Somebody(l: seq<int>) returns (x: int)
    requires l != []
    ensures x in l
  {
    x := l[0];
  }

  lemma NobodyElse(v: Sys)
    requires Core(v) && 1 in On(v, MutexQ(16)) && forall p :: IsLive(v, p) ==> p == 1
    ensures On(v, Ready) == []
  {
    Elsewhere(v, MutexQ(16), Ready);
    assert forall x :: x in On(v, Ready) ==> BelongsOn(v, Ready, x);
    if On(v, Ready) != [] {
      var x := Somebody(On(v, Ready));
    }
  }

  // ---------------------------------------------------------------- two sleepers

  /** The running task goes to sleep for no time at all. */
  lemma Dozes(s: Sys, n: nat, current: int, ready: seq<int>, rest: seq<int>, i: nat)
    requires Stage(s, n, current, ready) && 0 < current && Tsk(s, current).resume == User
    requires rest == Without(ready, current) && i < |rest| && IsLastMax(SchedulingKeys(s, rest), i)
    ensures Enabled(s, SleepFor(0))
    ensures var t := Apply(s, SleepFor(0));
      && Stage(t, n, rest[i], rest) && On(t, Sleep) == On(s, Sleep) + [current] && t.ticks == s.ticks
      && (forall p :: p != current ==> Tsk(t, p) == After(s, rest, rest[i], p))
      && Tsk(t, current)
         == Tsk(s, current).(awakenedTime := s.ticks, queue := Sleep, status := SLEEPING, resume := User)
  {
    hide Core, NobodyWaitsForDead, Slist.Valid, Settled, DoWait, IsLastMax, SetAlarm, FreeCells, Replaceable;
    HasNext(s, rest, i);
    EventKeepsConsistent(s, SleepFor(0));
    AlarmWakes(s, 0);
    AlarmSet(s, rest);
    WokenKeepsInvariant(s, SetAlarm(s, 0));
    Blocked(SetAlarm(s, 0), Sleep, SLEEPING, User, rest, i);
  }

  lemma AlarmSet(s: Sys, rest: seq<int>)
    requires Core(s) && Settled(s)
    ensures var t := SetAlarm(s, 0);
      && t == s.(tasks := t.tasks) && SchedulingKeys(t, rest) == SchedulingKeys(s, rest)
      && (forall p :: p != s.current ==> Tsk(t, p) == Tsk(s, p))
      && Tsk(t, s.current) == Tsk(s, s.current).(awakenedTime := s.ticks)
  {
    assert |s.tasks| == MAX_TASK_NUM;
    hide Core, Settled;
  }

  lemma TwoDoze(s0: Sys, es: seq<Event>, s: Sys) returns (t: Sys)
    requires Leads(s0, es, s) && Scene(s, 3, 3, [1, 2, 3]) && SyncOk(s)
    requires Looks(s, 1, 1, 1, 1, Ready, User) && Looks(s, 2, 1, 1, 1, Ready, User) && Looks(s, 3, 1, 1, 0, Ready, User)
    ensures Leads(s0, es + [SleepFor(0)] + [SleepFor(0)], t)
    ensures Stage(t, 3, 1, [1]) && SyncOk(t) && On(t, Sleep) == [3, 2] && Looks(t, 1, 1, 1, 0, Ready, User)
    ensures Tsk(t, 3).awakenedTime == t.ticks && Tsk(t, 2).awakenedTime == t.ticks
    ensures Tsk(t, 3).status == SLEEPING && KeyOf(t, 3) == Key(1, 0)
  {
    hide Leads, Consistent, SyncOk, Apply, Enabled, SchedulingKeys;
    KeysOfTwo(s, 1, 2);
    assert Without([1, 2, 3], 3) == [1, 2] && Without([1, 2], 2) == [1] by {
      assert [1, 2, 3][1..] == [2, 3] && [2, 3][1..] == [3] && [3][1..] == [] && [1, 2][1..] == [2] && [2][1..] == [];
    }
    Dozes(s, 3, 3, [1, 2, 3], [1, 2], 1);
    Goes(s0, es, s, SleepFor(0));
    var s1 := Apply(s, SleepFor(0));
    KeysOfTwo(s1, 1, 2);
    Dozes(s1, 3, 2, [1, 2], [1], 0);
    Goes(s0, es + [SleepFor(0)], s1, SleepFor(0));
    t := Apply(s1, SleepFor(0));
    assert [] + [3] == [3] && [3] + [2] == [3, 2];
  }

  /** The third and the second task sleep for no time at all; the first one has spawned one of priority 5. */
  lemma TwoAsleep() returns (t: Sys)
    ensures Leads(Boot(0, [], 0, []), [Spawn(1), Spawn(1), Spawn(1), Timer, SleepFor(0), SleepFor(0), Spawn(5)], t)
    ensures Stage(t, 4, 1, [1, 4]) && On(t, Sleep) == [3, 2] && Tsk(t, 1).resume == User
    ensures Tsk(t, 3).awakenedTime == t.ticks && Tsk(t, 2).awakenedTime == t.ticks
    ensures Tsk(t, 3).status == SLEEPING && KeyOf(t, 3) == Key(1, 0) && KeyOf(t, 4) == Key(5, 0)
  {
    hide Boot, Leads, Consistent, SyncOk, Apply, Enabled, SchedulingKeys;
    var s := Boot(0, [], 0, []);
    var s3 := ThreeTasks([], 1);
    KeysOfThree(s3, 1, 2, 3);
    Ticked(s3, 3, 0, [1, 2, 3], 2);
    Goes(s, [Spawn(1), Spawn(1), Spawn(1)], s3, Timer);
    var s4 := Apply(s3, Timer);
    var es := [Spawn(1), Spawn(1), Spawn(1), Timer];
    assert [Spawn(1), Spawn(1), Spawn(1)] + [Timer] == es;
    assert s4.queues == s3.queues;
    var s6 := TwoDoze(s, es, s4);
    Spawned(s6, 3, 1, [1], 5);
    Goes(s, es + [SleepFor(0)] + [SleepFor(0)], s6, Spawn(5));
    t := Apply(s6, Spawn(5));
    assert es + [SleepFor(0)] + [SleepFor(0)] + [Spawn(5)]
        == [Spawn(1), Spawn(1), Spawn(1), Timer, SleepFor(0), SleepFor(0), Spawn(5)];
    assert [1] + [4] == [1, 4];
  }

  /** A run with two expired sleepers: the tick rouses one of them, which stands on the ready queue as SLEEPING while
      another task runs, and leaves the other one asleep although its time has come. */
  lemma TwoExpired()
    ensures var s, es := Boot(0, [], 0, []),
        [Spawn(1), Spawn(1), Spawn(1), Timer, SleepFor(0), SleepFor(0), Spawn(5), Timer];
      var t := Final(s, es);
      && IsRun(s, es)
      && 2 in On(t, Sleep) && Tsk(t, 2).awakenedTime < t.ticks
      && 3 in On(t, Ready) && Tsk(t, 3).status == SLEEPING && t.current != 3
  {
    hide Consistent, Apply, Boot, IsRun, Final, FreeCells;
    var s := Boot(0, [], 0, []);
    var es := [Spawn(1), Spawn(1), Spawn(1), Timer, SleepFor(0), SleepFor(0), Spawn(5)];
    var u := TwoAsleep();
    assert Enabled(u, Timer);
    Then(s, es, u, Timer);
    assert es + [Timer] == [Spawn(1), Spawn(1), Spawn(1), Timer, SleepFor(0), SleepFor(0), Spawn(5), Timer];
    OneRoused(u);
  }

  lemma OneRoused(u: Sys)
    requires Consistent(u) && !u.panicked && On(u, Ready) == [1, 4] && On(u, Sleep) == [3, 2]
    requires Tsk(u, 3).awakenedTime == u.ticks && Tsk(u, 2).awakenedTime == u.ticks
    requires Tsk(u, 3).status == SLEEPING && KeyOf(u, 3) == Key(1, 0) && KeyOf(u, 4) == Key(5, 0)
    ensures var t := Apply(u, Timer);
      && 2 in On(t, Sleep) && Tsk(t, 2).awakenedTime < t.ticks
      && 3 in On(t, Ready) && Tsk(t, 3).status == SLEEPING && t.current != 3
  {
    hide Core, NobodyWaitsForDead, Slist.Valid, Settled, Tick, KeyOf;
    var ws := Waiters(u, Sleep);
    assert FirstDue(ws, u.ticks + 1) == 0;
    NotAsleep(u);
    TickDropsFirstExpired(u);
    assert DropAt(ws, 0) == [ws[1]];
    assert Waiters(Tick(u), Sleep)[0] == ws[1];
    assert 4 in On(u, Ready) && Less(KeyOf(u, 3), KeyOf(u, 4));
    TickRouses(u, 3);
  }

  // ---------------------------------------------------------------- a task of priority 0

  /** A task of priority 0 beside one of priority 1: after any number of ticks it has not run. */
  lemma ZeroNeverRuns(n: nat)
    ensures var s, es := Boot(0, [], 0, []), [Spawn(1)] + ([Spawn(0)] + Ticks(n));
      IsRun(s, es) && Final(s, es).current != 2 && 2 in On(Final(s, es), Ready)
  {
    hide Boot, Consistent, Apply, FreeCells, InitPcb;
    var s, rest := Boot(0, [], 0, []), [Spawn(0)] + Ticks(n);
    Booted(0, [], 0, []);
    BootCounters(0, [], 0, []);
    Spawned(s, 0, 0, [], 1);
    assert Enabled(s, Spawn(1));
    var s1 := Apply(s, Spawn(1));
    SecondSpawned(s1, n);
    assert ([Spawn(1)] + rest)[1..] == rest;
  }

  lemma SecondSpawned(s: Sys, n: nat)
    requires Scene(s, 1, 0, [1]) && forall x :: Tsk(s, x).resume == User
    ensures var es := [Spawn(0)] + Ticks(n);
      IsRun(s, es) && Final(s, es).current != 2 && 2 in On(Final(s, es), Ready)
  {
    hide Consistent, InitPcb, PassedOver, Boot, Final, IsRun, AllocNode, FreeCells, IsFollowed;
    ZeroBorn(s);
    TicksRun(InitPcb(s, 0).0, 2, n);
    FirstSpawns(s, n);
    assert Ticks(n)[..n] == Ticks(n);
    RunIsFollowed(s, [Spawn(0)] + Ticks(n));
    LowNeverRuns(s, 0, Ticks(n), n);
  }

  lemma FirstSpawns(s: Sys, n: nat)
    requires Admitted(s, Spawn(0)) && IsRun(InitPcb(s, 0).0, Ticks(n))
    ensures IsRun(s, [Spawn(0)] + Ticks(n))
  {
    assert ([Spawn(0)] + Ticks(n))[1..] == Ticks(n);
  }

  lemma ZeroBorn(s: Sys)
    requires Scene(s, 1, 0, [1]) && forall x :: Tsk(s, x).resume == User
    ensures |s.pids| == MAX_TASK_NUM && 0 <= s.pids[0].cursor < |s.pids| && AllocNode(s.pids).1 == 2
    ensures Admitted(s, Spawn(0)) && InitPcb(s, 0).1
    ensures var t := InitPcb(s, 0).0;
      PassedOver(t, 2) && !t.panicked && On(t, Sleep) == [] && forall x :: Tsk(t, x).resume == User
  {
    hide Core, NobodyWaitsForDead, Settled, Slist.Valid, InitPcb, PassedOver, FreeCells, AllocNode;
    PidsSized(s);
    PidTaken(s);
    AllocPops(s.pids);
    assert From(1)[0] == 2;
    SpawnFields(s, 0);
    LowBorn(s, 0);
    SpawnResumes(s);
  }

  lemma PidsSized(s: Sys)
    requires Core(s)
    ensures |s.pids| == MAX_TASK_NUM
  {
  }

  lemma SpawnResumes(s: Sys)
    requires |s.pids| > 0 && 0 <= s.pids[0].cursor < |s.pids| && AllocNode(s.pids).1 == 2
    requires forall x :: Tsk(s, x).resume == User
    ensures forall x :: Tsk(InitPcb(s, 0).0, x).resume == User
  {
    hide InitPcb, AllocNode;
    SpawnFields(s, 0);
    forall x ensures Tsk(InitPcb(s, 0).0, x).resume == User {
    }
  }

  // ---------------------------------------------------------------- a blocked task that runs on

  /** One more event of a run, whether or not it finds a next task. */
  lemma {:induction false} ThenAny(s: Sys, es: seq<Event>, t: Sys, e: Event)
    requires Leads(s, es, t) && Admitted(t, e)
    ensures IsAnyRun(s, es + [e]) && Final(s, es + [e]) == Apply(t, e)
    ensures IsRun(s, es + [e]) <==> FindsNext(t, e)
    decreases |es|
  {
    hide Apply, Admitted, FindsNext;
    if es == [] {
      assert es + [e] == [e] && [e][1..] == [];
      assert IsRun(Apply(t, e), []) && IsAnyRun(Apply(t, e), []) && Final(Apply(t, e), []) == Apply(t, e);
    } else {
      ThenAny(Apply(s, es[0]), es[1..], t, e);
      assert (es + [e])[1..] == es[1..] + [e];
    }
  }

  /** The first task, of priority 1, runs and has spawned one of priority 0. */
  lemma ZeroBesideOne() returns (t: Sys)
    ensures Leads(Boot(0, [0], 0, []), [Spawn(1), Timer, Spawn(0)], t)
    ensures Stage(t, 2, 1, [1, 2]) && On(t, SemQ(0)) == [] && t.sems == [0] && Tsk(t, 1).resume == User
    ensures Looks(t, 2, 0, 0, 0, Ready, User)
  {
    hide Boot, Leads, Consistent, SyncOk, Apply, Enabled, SchedulingKeys;
    var s := Boot(0, [0], 0, []);
    Booted(0, [0], 0, []);
    Spawned(s, 0, 0, [], 1);
    Then(s, [], s, Spawn(1));
    var s1 := Apply(s, Spawn(1));
    assert [] + [Spawn(1)] == [Spawn(1)] && [] + [1] == [1] && [1] + [2] == [1, 2];
    KeysOfTwo(s1, 1, 1);
    Ticked(s1, 1, 0, [1], 0);
    Then(s, [Spawn(1)], s1, Timer);
    var s2 := Apply(s1, Timer);
    assert [Spawn(1)] + [Timer] == [Spawn(1), Timer];
    assert On(s2, SemQ(0)) == On(s1, SemQ(0)) == On(s, SemQ(0));
    Spawned(s2, 1, 1, [1], 0);
    Then(s, [Spawn(1), Timer], s2, Spawn(0));
    t := Apply(s2, Spawn(0));
    assert [Spawn(1), Timer] + [Spawn(0)] == [Spawn(1), Timer, Spawn(0)];
    OneSem();
  }

  /** A run in which a task blocks in semaphore_down while only a task of priority 0 is ready: nobody is dispatched,
      and the blocked task goes on running, marked RUNNING on the queue of the semaphore. */
  lemma BlockedRunsOn()
    ensures var s, es := Boot(0, [0], 0, []), [Spawn(1), Timer, Spawn(0), SemDown(0)];
      var t := Final(s, es);
      && IsAnyRun(s, es) && !IsRun(s, es)
      && !t.panicked && t.current == 1 && Tsk(t, 1).status == RUNNING
      && On(t, SemQ(0)) == [1] && On(t, Ready) == [2] && t.sems == [-1]
  {
    hide Boot, Consistent, Apply, Leads, IsAnyRun, IsRun, Final, Stage, Replaceable;
    var s, es := Boot(0, [0], 0, []), [Spawn(1), Timer, Spawn(0)];
    var u := ZeroBesideOne();
    ZeroNotFound(u);
    ThenAny(s, es, u, SemDown(0));
    assert es + [SemDown(0)] == [Spawn(1), Timer, Spawn(0), SemDown(0)];
    DownBesideZero(u);
  }

  lemma ZeroNotFound(u: Sys)
    requires Stage(u, 2, 1, [1, 2]) && u.sems == [0] && Tsk(u, 1).resume == User && Looks(u, 2, 0, 0, 0, Ready, User)
    ensures Admitted(u, SemDown(0)) && !FindsNext(u, SemDown(0))
  {
    hide Consistent, FreeCells;
    assert [1, 2][1..] == [2] && Without([1, 2], 1) == [2];
    assert !Eligible(Key(0, 0));
    assert !Replaceable(u);
  }

  lemma DownBesideZero(u: Sys)
    requires Stage(u, 2, 1, [1, 2]) && u.sems == [0] && On(u, SemQ(0)) == [] && !Replaceable(u)
    ensures var t := Apply(u, SemDown(0));
      && !t.panicked && t.current == 1 && Tsk(t, 1).status == RUNNING
      && On(t, SemQ(0)) == [1] && On(t, Ready) == [2] && t.sems == [-1]
  {
    hide Core, NobodyWaitsForDead, Slist.Valid, DoWait, Replaceable, FreeCells, Settled;
    var v := SetSem(u, 0, -1);
    CounterQueuesExist(u, 0, -1);
    SetKeepsSettled(u, 0, -1);
    SameReady(u, v);
    DoWaitEffect(v, SemQ(0), BLOCKED, User);
    assert Without([1, 2], 1) == [2] by { assert [1, 2][1..] == [2]; }
    assert [] + [1] == [1];
    StaysRunning(v, SemQ(0), BLOCKED, User);
  }

  lemma StaysRunning(s: Sys, q: QueueId, status: Status, r: Resume)
    requires 0 <= s.current < |s.tasks| && On(Park(s, q, status, r), Ready) != []
    requires DoWait(s, q, status, r).current == s.current
    ensures Tsk(DoWait(s, q, status, r), s.current).status == RUNNING
  {
    var u := Park(s, q, status, r);
    SchedulerTasks(u);
    assert |u.tasks| == |s.tasks|;
    hide Park, Scheduler, SchedulingKeys, Pick;
    RescheduledStatus(u, s.current, s.current);
  }
}
