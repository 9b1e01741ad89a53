/** Every live task is on exactly one queue, the one its record names, and the running task on the ready queue, in every
    run of events, kill included, in which each that takes the running task off finds a next one. */
module QueueRuns {
  import opened Sets
  import opened Slist
  import opened Machine
  import opened Selection

  // ---------------------------------------------------------------- the invariant

  ghost predicate QueueExists(s: Sys, q: QueueId) {
    match q
    case Ready => true
    case Sleep => true
    case WaitOf(p) => 0 <= p < MAX_TASK_NUM
    case MutexQ(m) => 0 <= m < |s.mutexes|
    case SemQ(i) => 0 <= i < |s.sems|
    case CondQ(i) => 0 <= i < |s.conds|
    case BarrierQ(i) => 0 <= i < |s.barriers|
  }

  /** The numbers that the selection loops rely on. */
  ghost predicate Sound(t: Task) {
    t.priority >= 1 && t.schedulerPriority >= 1 && t.waitTime >= 0
  }

  ghost predicate BelongsOn(s: Sys, q: QueueId, p: int) {
    IsLive(s, p) && Tsk(s, p).queue == q && QueueExists(s, q)
  }

  ghost predicate Shaped(s: Sys) {
    && |s.tasks| == MAX_TASK_NUM && |s.pids| == MAX_TASK_NUM && |s.mutexes| >= MAX_LOCKS_NUM
    && forall q :: q in s.queues <==> QueueExists(s, q)
  }

  /** A queue holds exactly the live tasks whose record names it, each once; every live task's record names a queue. */
  ghost predicate OneQueueEach(s: Sys) {
    && (forall q, p :: p in On(s, q) <==> BelongsOn(s, q, p))
    && (forall q :: Distinct(On(s, q)))
    && (forall p :: IsLive(s, p) ==> QueueExists(s, Tsk(s, p).queue))
  }

  /** A task of a priority below 1: it stands on the ready queue and has never run. */
  ghost predicate Dormant(t: Task) {
    t.priority < 1 && t.schedulerPriority < 1 && t.waitTime >= 0 && t.queue == Ready && t.resume == User
  }

  ghost predicate Fit(t: Task) {
    Sound(t) || Dormant(t)
  }

  ghost predicate AllFit(s: Sys) {
    forall p :: IsLive(s, p) ==> Fit(Tsk(s, p))
  }

  ghost predicate Core(s: Sys) {
    Shaped(s) && OneQueueEach(s) && AllFit(s)
  }

  /** The running task is on the ready queue (pid 0, the boot code, is on none) and has
      not waited since it was selected. */
  ghost predicate Settled(s: Sys) {
    && 0 <= s.current < MAX_TASK_NUM && Tsk(s, s.current).waitTime == 0
    && (s.current != 0 ==> s.current in On(s, Ready) && Sound(Tsk(s, s.current)))
  }

  /** The selection loop will find somebody. */
  ghost predicate Somebody(s: Sys, l: seq<int>) {
    exists p :: p in l && Sound(Tsk(s, p))
  }

  /** Nobody waits for a task that does not exist, so spawning may reset the wait queue of the pid it reuses. */
  ghost predicate NobodyWaitsForDead(s: Sys) {
    forall p :: 0 <= p < MAX_TASK_NUM && !IsLive(s, p) ==> On(s, WaitOf(p)) == []
  }

  ghost predicate Invariant(s: Sys) {
    Core(s) && NobodyWaitsForDead(s) && (!s.panicked ==> Settled(s))
  }

  // ---------------------------------------------------------------- lists

  lemma {:induction false} WithoutElems(l: seq<int>, p: int)
    ensures p !in l ==> Without(l, p) == l
    ensures Distinct(l) ==> Distinct(Without(l, p))
    ensures Distinct(l) ==> forall x :: x in Without(l, p) <==> x in l && x != p
    ensures forall x :: x in Without(l, p) ==> x in l
  {
    if l != [] && l[0] != p {
      WithoutElems(l[1..], p);
      assert l == [l[0]] + l[1..];
      assert Distinct(l) ==> Distinct(l[1..]) && l[0] !in l[1..];
      assert forall x :: x in Without(l[1..], p) ==> x in l[1..];
    } else if l != [] {
      assert l == [l[0]] + l[1..];
    }
  }

  lemma {:induction false} WithoutAt(l: seq<int>, k: nat)
    requires Distinct(l) && k < |l|
    ensures Without(l, l[k]) == l[..k] + l[k + 1..]
  {
    if k > 0 {
      WithoutAt(l[1..], k - 1);
      assert l[..k] == [l[0]] + l[1..][..k - 1];
    }
  }

  lemma EligiblePick(s: Sys, l: seq<int>, keys: seq<Key>)
    requires AllFit(s) && |s.pids| == MAX_TASK_NUM
    requires forall p :: p in l ==> IsLive(s, p)
    requires keys == SchedulingKeys(s, l) || keys == BlockingKeys(s, l)
    ensures Somebody(s, l) ==> 0 <= Pick(keys) < |l| && l[Pick(keys)] in l && Sound(Tsk(s, l[Pick(keys)]))
    ensures !Somebody(s, l) ==> Pick(keys) == -1
  {
    PickIsLastMax(keys);
    var i := Pick(keys);
    if i != -1 {
      assert l[i] in l && Eligible(keys[i]);
      assert Fit(Tsk(s, l[i]));
    }
    if p :| p in l && Sound(Tsk(s, p)) {
      var k :| 0 <= k < |l| && l[k] == p;
      assert Eligible(keys[k]);
    }
  }

  // ---------------------------------------------------------------- changes that keep the queues

  /** The two states have the same queues, the same live pids and the same queue names in the records. */
  ghost predicate SameQueues(s: Sys, t: Sys) {
    && t.queues == s.queues && t.pids == s.pids && |t.tasks| == |s.tasks|
    && |t.mutexes| == |s.mutexes| && |t.sems| == |s.sems| && |t.conds| == |s.conds| && |t.barriers| == |s.barriers|
    && forall p :: Tsk(t, p).queue == Tsk(s, p).queue
  }

  lemma SameQueuesKeepCore(s: Sys, t: Sys)
    requires Core(s) && SameQueues(s, t) && AllFit(t)
    ensures Core(t)
  {
    assert forall q :: On(t, q) == On(s, q);
    assert forall p :: IsLive(t, p) == IsLive(s, p);
    assert forall q :: QueueExists(t, q) == QueueExists(s, q);
    assert forall q, p :: BelongsOn(t, q, p) == BelongsOn(s, q, p);
  }

  /** The record of task p after a scheduling decision for task `next`. */
  function Rescheduled(s: Sys, next: int, p: int): Task {
    var t := Tsk(s, p);
    var t1 := if p == s.current && 0 <= p < |s.tasks| && t.status == RUNNING then t.(status := READY) else t;
    var t2 := if p in On(s, Ready) && 0 <= p < |s.tasks| then t1.(waitTime := t1.waitTime + 1) else t1;
    if p != next || !(0 <= p < |s.tasks|) then t2 else
    t2.(schedulerPriority := if t2.schedulerPriority > 1 then t2.schedulerPriority - 1 else t2.schedulerPriority,
        waitTime := 0, status := RUNNING)
  }

  lemma SchedulerTasks(s: Sys)
    requires On(s, Ready) != []
    ensures var i := Pick(SchedulingKeys(s, On(s, Ready)));
      var next := if i == -1 then s.current else On(s, Ready)[i];
      && Scheduler(s) == s.(tasks := Scheduler(s).tasks, current := next)
      && |Scheduler(s).tasks| == |s.tasks|
      && forall p :: Tsk(Scheduler(s), p) == Rescheduled(s, next, p)
  {
  }

  lemma ReadyPick(s: Sys)
    requires Core(s)
    ensures Somebody(s, On(s, Ready)) ==>
      var i := Pick(SchedulingKeys(s, On(s, Ready)));
      0 <= i < |On(s, Ready)| && Sound(Tsk(s, On(s, Ready)[i]))
    ensures !Somebody(s, On(s, Ready)) ==> Pick(SchedulingKeys(s, On(s, Ready))) == -1
    ensures forall p :: p in On(s, Ready) ==> IsLive(s, p) && 0 < p < MAX_TASK_NUM
  {
    var ready := On(s, Ready);
    forall p | p in ready ensures IsLive(s, p) && 0 < p < MAX_TASK_NUM {
      assert BelongsOn(s, Ready, p);
    }
    EligiblePick(s, ready, SchedulingKeys(s, ready));
  }

  /** Everything the scheduler leaves alone. */
  ghost predicate SchedulerFrame(s: Sys, t: Sys) {
    && SameQueues(s, t)
    && t.mutexes == s.mutexes && t.sems == s.sems && t.conds == s.conds && t.barriers == s.barriers
    && t.ticks == s.ticks
    && (forall p :: Tsk(t, p).resume == Tsk(s, p).resume && Tsk(t, p).lockNum == Tsk(s, p).lockNum)
    && (forall p :: Tsk(t, p).priority == Tsk(s, p).priority)
    && (forall p :: Tsk(t, p).awakenedTime == Tsk(s, p).awakenedTime)
    && (forall p :: p !in On(s, Ready) ==> Tsk(t, p).waitTime == Tsk(s, p).waitTime)
  }

  lemma RescheduledFrame(s: Sys, next: int, p: int)
    ensures var t, t' := Tsk(s, p), Rescheduled(s, next, p);
      && t'.resume == t.resume && t'.lockNum == t.lockNum && t'.queue == t.queue
      && t'.priority == t.priority && t'.awakenedTime == t.awakenedTime
      && (p !in On(s, Ready) && p != next ==> t'.waitTime == t.waitTime)
      && (Sound(t) ==> Sound(t')) && (p != next && Dormant(t) ==> Dormant(t'))
      && (p == next && 0 <= p < |s.tasks| ==> t'.waitTime == 0)
  {
  }

  /** Whatever the scheduler does, it leaves this alone. */
  lemma SchedulerLeaves(s: Sys)
    ensures var t := Scheduler(s);
      forall p :: Tsk(t, p).resume == Tsk(s, p).resume && Tsk(t, p).lockNum == Tsk(s, p).lockNum
                  && Tsk(t, p).queue == Tsk(s, p).queue && Tsk(t, p).priority == Tsk(s, p).priority
                  && Tsk(t, p).awakenedTime == Tsk(s, p).awakenedTime
  {
    var t := Scheduler(s);
    if On(s, Ready) != [] {
      SchedulerTasks(s);
      hide Scheduler, Pick, SchedulingKeys, Rescheduled, Tsk, On;
      forall p
        ensures Tsk(t, p).resume == Tsk(s, p).resume && Tsk(t, p).lockNum == Tsk(s, p).lockNum
        ensures Tsk(t, p).queue == Tsk(s, p).queue && Tsk(t, p).priority == Tsk(s, p).priority
        ensures Tsk(t, p).awakenedTime == Tsk(s, p).awakenedTime
      {
        RescheduledFrame(s, t.current, p);
      }
    }
  }

  /** The running task could go on: it has not waited, and it is sound unless it is dead. */
  ghost predicate CanStay(s: Sys) {
    Tsk(s, s.current).waitTime == 0 && (IsLive(s, s.current) ==> Sound(Tsk(s, s.current)))
  }

  lemma SettledCanStay(s: Sys)
    requires Settled(s) && (s.current == 0 ==> !IsLive(s, 0))
    ensures CanStay(s)
  {}

  lemma SchedulerKeepsFrame(s: Sys)
    requires Core(s) && (CanStay(s) || Somebody(s, On(s, Ready))) && On(s, Ready) != []
    ensures SchedulerFrame(s, Scheduler(s)) && AllFit(Scheduler(s))
    ensures Somebody(s, On(s, Ready)) ==> Settled(Scheduler(s))
  {
    SchedulerTasks(s);
    ReadyPick(s);
    var t := Scheduler(s);
    hide Scheduler, SchedulingKeys, Pick;
    forall p
      ensures Tsk(t, p).resume == Tsk(s, p).resume && Tsk(t, p).lockNum == Tsk(s, p).lockNum
      ensures Tsk(t, p).queue == Tsk(s, p).queue && Tsk(t, p).priority == Tsk(s, p).priority
      ensures Tsk(t, p).awakenedTime == Tsk(s, p).awakenedTime
      ensures p !in On(s, Ready) ==> Tsk(t, p).waitTime == Tsk(s, p).waitTime
      ensures Sound(Tsk(s, p)) ==> Sound(Tsk(t, p))
      ensures p != t.current && Dormant(Tsk(s, p)) ==> Dormant(Tsk(t, p))
      ensures p == t.current && 0 <= p < |s.tasks| ==> Tsk(t, p).waitTime == 0
    {
      RescheduledFrame(s, t.current, p);
    }
    forall p | IsLive(t, p) ensures Fit(Tsk(t, p)) {
      assert IsLive(s, p) && Fit(Tsk(s, p));
    }
  }

  /** The scheduler changes no queue; it runs the picked task of the ready queue, panics if that is empty, and leaves
      the running task running if nobody on it can be picked. */
  lemma SchedulerEffect(s: Sys)
    requires Core(s) && (CanStay(s) || On(s, Ready) == [] || Somebody(s, On(s, Ready)))
    ensures SchedulerFrame(s, Scheduler(s)) && Core(Scheduler(s))
    ensures On(s, Ready) == [] ==> Scheduler(s) == s.(panicked := true)
    ensures On(s, Ready) != [] ==> Scheduler(s).panicked == s.panicked
    ensures Somebody(s, On(s, Ready)) ==>
      && Settled(Scheduler(s))
      && Pick(SchedulingKeys(s, On(s, Ready))) >= 0
      && Scheduler(s).current == On(s, Ready)[Pick(SchedulingKeys(s, On(s, Ready)))]
      && Scheduler(s).current in On(s, Ready)
    ensures On(s, Ready) != [] && !Somebody(s, On(s, Ready)) ==> Scheduler(s).current == s.current
  {
    if On(s, Ready) != [] {
      SchedulerTasks(s);
      ReadyPick(s);
      SchedulerKeepsFrame(s);
    } else {
      assert forall p :: IsLive(Scheduler(s), p) ==> IsLive(s, p);
    }
    SameQueuesKeepCore(s, Scheduler(s));
  }

  // ---------------------------------------------------------------- a task moves from one queue to another

  ghost predicate StaysFit(t: Task, u: Task) {
    (Sound(t) ==> Sound(u)) && (Dormant(t) ==> Dormant(u))
  }

  /** `t` is `s` with task p taken off queue `a` and put at the tail of queue `b`, and named there. */
  ghost predicate Moved(s: Sys, t: Sys, p: int, a: QueueId, b: QueueId) {
    && t.pids == s.pids && |t.tasks| == |s.tasks|
    && |t.mutexes| == |s.mutexes| && |t.sems| == |s.sems| && |t.conds| == |s.conds| && |t.barriers| == |s.barriers|
    && t.queues.Keys == s.queues.Keys
    && On(t, a) == Without(On(s, a), p) && On(t, b) == On(s, b) + [p]
    && (forall q :: q != a && q != b ==> On(t, q) == On(s, q))
    && Tsk(t, p).queue == b && Sound(Tsk(t, p))
    && (forall x :: x != p ==> Tsk(t, x).queue == Tsk(s, x).queue)
    && (forall x :: x != p ==> StaysFit(Tsk(s, x), Tsk(t, x)))
  }

  lemma MovedKeepsCore(s: Sys, t: Sys, p: int, a: QueueId, b: QueueId)
    requires Core(s) && p in On(s, a) && a != b && QueueExists(s, b) && Moved(s, t, p, a, b)
    ensures Core(t)
  {
    WithoutElems(On(s, a), p);
    assert BelongsOn(s, a, p);
    assert forall x :: IsLive(t, x) == IsLive(s, x);
    assert forall q :: QueueExists(t, q) == QueueExists(s, q);
    forall q, x ensures x in On(t, q) <==> BelongsOn(t, q, x) {
      assert x in On(s, q) <==> BelongsOn(s, q, x);
      assert x in On(s, a) <==> BelongsOn(s, a, x);
      assert x in On(s, b) <==> BelongsOn(s, b, x);
    }
    forall q ensures Distinct(On(t, q)) {
      assert Distinct(On(s, q));
      if q == b {
        assert p in On(s, b) <==> BelongsOn(s, b, p);
      }
    }
    assert forall x :: IsLive(t, x) ==> QueueExists(t, Tsk(t, x).queue);
    forall x | IsLive(t, x) ensures Fit(Tsk(t, x)) {
      assert IsLive(s, x) && Fit(Tsk(s, x));
    }
  }

  /** Whoever is on a waiting queue has run. */
  lemma WaitersAreSound(s: Sys, q: QueueId, p: int)
    requires Core(s) && p in On(s, q) && q != Ready
    ensures Sound(Tsk(s, p)) && 0 < p < |s.tasks|
  {
    assert BelongsOn(s, q, p);
    assert Fit(Tsk(s, p));
  }

  lemma WakeEffect(s: Sys, q: QueueId, p: int)
    requires Core(s) && p in On(s, q) && q != Ready
    ensures Moved(s, Wake(s, q, p), p, q, Ready) && Core(Wake(s, q, p))
    ensures forall x :: x != p ==> Tsk(Wake(s, q, p), x) == Tsk(s, x)
    ensures var t := Tsk(s, p);
      Tsk(Wake(s, q, p), p)
      == t.(waitTime := 0, schedulerPriority := t.schedulerPriority + 1, queue := Ready, status := READY)
  {
    assert BelongsOn(s, q, p);
    WaitersAreSound(s, q, p);
    MovedKeepsCore(s, Wake(s, q, p), p, q, Ready);
  }

  function Aged(s: Sys, l: seq<int>, p: int): Task {
    if p in l && 0 <= p < |s.tasks| then Tsk(s, p).(waitTime := Tsk(s, p).waitTime + 1) else Tsk(s, p)
  }

  lemma AgeEffect(s: Sys, l: seq<int>)
    requires Core(s)
    ensures SameQueues(s, Age(s, l)) && Core(Age(s, l))
    ensures forall p :: Tsk(Age(s, l), p) == Aged(s, l, p)
  {
    forall p | IsLive(Age(s, l), p) ensures Fit(Tsk(Age(s, l), p)) {
      assert IsLive(s, p) && Fit(Tsk(s, p));
    }
    SameQueuesKeepCore(s, Age(s, l));
  }

  /** Nothing but queues, waiting times, statuses and scheduling priorities has changed. */
  ghost predicate SameObjects(s: Sys, t: Sys) {
    && t.pids == s.pids && t.current == s.current && t.mutexes == s.mutexes && t.sems == s.sems
    && t.conds == s.conds && t.barriers == s.barriers && t.ticks == s.ticks && t.panicked == s.panicked
    && |t.tasks| == |s.tasks| && t.queues.Keys == s.queues.Keys
    && (forall p :: Tsk(t, p).resume == Tsk(s, p).resume && Tsk(t, p).lockNum == Tsk(s, p).lockNum)
    && (forall p :: Tsk(t, p).priority == Tsk(s, p).priority)
    && (forall p :: Tsk(t, p).awakenedTime == Tsk(s, p).awakenedTime)
  }

  /** The waiter that do_unblock_one selects on queue q. */
  function Chosen(s: Sys, q: QueueId): int
    requires -1 < Pick(BlockingKeys(s, On(s, q)))
  {
    On(s, q)[Pick(BlockingKeys(s, On(s, q)))]
  }

  lemma SomebodyChosen(s: Sys, q: QueueId)
    requires Core(s) && On(s, q) != [] && q != Ready
    ensures -1 < Pick(BlockingKeys(s, On(s, q))) && Chosen(s, q) in On(s, q)
  {
    forall p | p in On(s, q) ensures IsLive(s, p) {
      assert BelongsOn(s, q, p);
    }
    assert On(s, q)[0] in On(s, q);
    WaitersAreSound(s, q, On(s, q)[0]);
    EligiblePick(s, On(s, q), BlockingKeys(s, On(s, q)));
  }

  lemma AgedThenWoken(s: Sys, q: QueueId)
    requires Core(s) && q != Ready && On(s, q) != []
    ensures -1 < Pick(BlockingKeys(s, On(s, q))) && Chosen(s, q) in On(s, q)
    ensures UnblockOne(s, q) == Wake(Age(s, On(s, q)), q, Chosen(s, q))
    ensures Core(UnblockOne(s, q))
    ensures Moved(Age(s, On(s, q)), UnblockOne(s, q), Chosen(s, q), q, Ready)
    ensures forall p :: p != Chosen(s, q) ==> Tsk(UnblockOne(s, q), p) == Aged(s, On(s, q), p)
    ensures var t := Tsk(s, Chosen(s, q));
      Tsk(UnblockOne(s, q), Chosen(s, q))
      == t.(waitTime := 0, schedulerPriority := t.schedulerPriority + 1, queue := Ready, status := READY)
  {
    hide Core, Wake, Moved;
    SomebodyChosen(s, q);
    AgeEffect(s, On(s, q));
    InQueueInRange(s, q, Chosen(s, q));
    WakeEffect(Age(s, On(s, q)), q, Chosen(s, q));
  }

  lemma InQueueInRange(s: Sys, q: QueueId, p: int)
    requires Core(s) && p in On(s, q)
    ensures 0 < p < |s.tasks|
  {
    assert BelongsOn(s, q, p);
  }

  /** do_unblock_one moves exactly one waiter, the chosen one, to the ready queue, if there is any. */
  lemma UnblockOneEffect(s: Sys, q: QueueId)
    requires Core(s) && q != Ready
    ensures Core(UnblockOne(s, q)) && SameObjects(s, UnblockOne(s, q))
    ensures On(s, q) == [] ==> UnblockOne(s, q) == s
    ensures On(s, q) != [] ==>
      && -1 < Pick(BlockingKeys(s, On(s, q)))
      && Chosen(s, q) in On(s, q)
      && Moved(s, UnblockOne(s, q), Chosen(s, q), q, Ready)
    ensures forall p :: p !in On(s, q) ==> Tsk(UnblockOne(s, q), p) == Tsk(s, p)
  {
    hide Core, UnblockOne, Moved, Chosen, Pick, BlockingKeys, Sound;
    UnblockOneShape(s, q);
    if On(s, q) != [] {
      AgedThenWoken(s, q);
      ChosenMoves(s, q);
      ReleaseKeepsFields(s, q);
    }
  }

  lemma ChosenMoves(s: Sys, q: QueueId)
    requires Core(s) && q != Ready && On(s, q) != []
    ensures -1 < Pick(BlockingKeys(s, On(s, q)))
    ensures Moved(s, UnblockOne(s, q), Chosen(s, q), q, Ready)
  {
    hide Core, UnblockOne, Chosen, Pick, BlockingKeys, Sound, Dormant, Aged;
    AgedThenWoken(s, q);
    UnblockOneShape(s, q);
    AgeQueues(s, On(s, q));
    hide Age;
  }

  lemma ReleaseKeepsFields(s: Sys, q: QueueId)
    requires Core(s) && q != Ready && On(s, q) != []
    ensures var t := UnblockOne(s, q);
      && |t.tasks| == |s.tasks|
      && forall p :: Tsk(t, p).resume == Tsk(s, p).resume && Tsk(t, p).lockNum == Tsk(s, p).lockNum
                     && Tsk(t, p).priority == Tsk(s, p).priority && Tsk(t, p).awakenedTime == Tsk(s, p).awakenedTime
                     && (p !in On(s, q) ==> Tsk(t, p) == Tsk(s, p))
  {
    hide Core, UnblockOne, Moved, Pick, BlockingKeys, Sound, Tsk, Age;
    AgedThenWoken(s, q);
    AgeCounts(s, On(s, q));
    MovedLength(Age(s, On(s, q)), UnblockOne(s, q), Chosen(s, q), q, Ready);
  }

  lemma MovedLength(s: Sys, t: Sys, p: int, a: QueueId, b: QueueId)
    requires Moved(s, t, p, a, b)
    ensures |t.tasks| == |s.tasks|
  {}

  lemma AgeCounts(s: Sys, l: seq<int>)
    ensures |Age(s, l).tasks| == |s.tasks|
    ensures forall p :: Aged(s, l, p) == Tsk(s, p).(waitTime := Aged(s, l, p).waitTime)
    ensures forall p :: p !in l ==> Aged(s, l, p) == Tsk(s, p)
  {}

  lemma AgeQueues(s: Sys, l: seq<int>)
    ensures Age(s, l).queues == s.queues && (forall x :: On(Age(s, l), x) == On(s, x))
    ensures forall x :: Tsk(Age(s, l), x).queue == Tsk(s, x).queue && StaysFit(Tsk(s, x), Tsk(Age(s, l), x))
  {
  }

  lemma UnblockOneShape(s: Sys, q: QueueId)
    ensures var t := UnblockOne(s, q);
      t == s.(tasks := t.tasks, queues := t.queues) && t.queues.Keys == s.queues.Keys
    ensures On(s, q) == [] ==> UnblockOne(s, q) == s
  {
  }

  lemma {:induction false} UnblockAllEffect(s: Sys, q: QueueId)
    requires Core(s) && q != Ready
    ensures Core(UnblockAll(s, q)) && SameObjects(s, UnblockAll(s, q))
    ensures On(UnblockAll(s, q), q) == []
    ensures On(UnblockAll(s, q), Ready) == On(s, Ready) + On(s, q)
    ensures forall r :: r != q && r != Ready ==> On(UnblockAll(s, q), r) == On(s, r)
    ensures forall p :: p !in On(s, q) ==> Tsk(UnblockAll(s, q), p) == Tsk(s, p)
    decreases |On(s, q)|
  {
    hide Core;
    var l := On(s, q);
    if l != [] {
      assert l[0] in l;
      WakeEffect(s, q, l[0]);
      assert l == [l[0]] + l[1..];
      UnblockAllEffect(Wake(s, q, l[0]), q);
    }
  }

  /** What do_wait leaves alone. */
  ghost predicate WaitFrame(s: Sys, t: Sys) {
    && t.pids == s.pids && |t.tasks| == |s.tasks| && t.ticks == s.ticks
    && t.mutexes == s.mutexes && t.sems == s.sems && t.conds == s.conds && t.barriers == s.barriers
    && (forall p :: Tsk(t, p).lockNum == Tsk(s, p).lockNum && Tsk(t, p).priority == Tsk(s, p).priority)
    && (forall p :: Tsk(t, p).awakenedTime == Tsk(s, p).awakenedTime)
    && (forall p :: p != s.current ==> Tsk(t, p).resume == Tsk(s, p).resume && Tsk(t, p).queue == Tsk(s, p).queue)
    && (forall p :: p != s.current && p !in On(s, Ready) ==> Tsk(t, p).waitTime == Tsk(s, p).waitTime)
  }

  /** The running task has gone to the tail of q. */
  ghost predicate WaitMove(s: Sys, t: Sys, q: QueueId, r: Resume) {
    && On(t, q) == On(s, q) + [s.current]
    && On(t, Ready) == Without(On(s, Ready), s.current)
    && (forall x :: x != q && x != Ready ==> On(t, x) == On(s, x))
    && Tsk(t, s.current).waitTime == 0 && Tsk(t, s.current).queue == q && Tsk(t, s.current).resume == r
  }

  lemma ParkEffect(s: Sys, q: QueueId, status: Status, r: Resume)
    requires Core(s) && Settled(s) && s.current != 0 && QueueExists(s, q) && q != Ready
    ensures var t := Park(s, q, status, r);
      && Core(t) && WaitFrame(s, t) && WaitMove(s, t, q, r) && t.panicked == s.panicked
      && s.current !in On(t, Ready) && t.current == s.current && CanStay(t)
  {
    var p, t := s.current, Park(s, q, status, r);
    assert BelongsOn(s, Ready, p);
    assert Distinct(On(s, Ready));
    WithoutElems(On(s, Ready), p);
    assert Moved(s, t, p, Ready, q);
    MovedKeepsCore(s, t, p, Ready, q);
  }

  /** Who is ready besides the running task. */
  function Rest(s: Sys): seq<int> {
    Without(On(s, Ready), s.current)
  }

  /** Among fit tasks the selection finds exactly those that are sound. */
  lemma ReplaceableIs(s: Sys)
    requires Core(s)
    ensures Replaceable(s) <==> Rest(s) == [] || Somebody(s, Rest(s))
  {
    var rest := Rest(s);
    WithoutElems(On(s, Ready), s.current);
    forall k | 0 <= k < |rest|
      ensures Eligible(Key(Tsk(s, rest[k]).schedulerPriority, Tsk(s, rest[k]).waitTime)) <==> Sound(Tsk(s, rest[k]))
    {
      assert rest[k] in rest;
      assert BelongsOn(s, Ready, rest[k]);
      assert Fit(Tsk(s, rest[k]));
    }
  }

  lemma ParkedRest(s: Sys, q: QueueId, status: Status, r: Resume)
    requires Core(s) && Settled(s) && s.current != 0 && QueueExists(s, q) && q != Ready
    ensures var t := Park(s, q, status, r);
      On(t, Ready) == Rest(s) && (Somebody(t, Rest(s)) <==> Somebody(s, Rest(s)))
  {
    assert Distinct(On(s, Ready));
    WithoutElems(On(s, Ready), s.current);
    assert BelongsOn(s, Ready, s.current);
  }

  /** do_wait: the running task goes to the tail of `q` with waiting time 0, then somebody else is dispatched. */
  lemma DoWaitEffect(s: Sys, q: QueueId, status: Status, r: Resume)
    requires Core(s) && Settled(s) && s.current != 0 && QueueExists(s, q) && q != Ready
    ensures var t := DoWait(s, q, status, r);
      && Core(t) && WaitFrame(s, t) && WaitMove(s, t, q, r)
      && (t.panicked <==> s.panicked || On(t, Ready) == [])
      && (Replaceable(s) && !t.panicked ==> Settled(t) && t.current in On(t, Ready))
      && (!Replaceable(s) ==> t.current == s.current && t.current !in On(t, Ready) && On(t, Ready) != [])
  {
    ReplaceableIs(s);
    ParkEffect(s, q, status, r);
    ParkedRest(s, q, status, r);
    hide OneQueueEach, AllFit, Shaped, Park, Scheduler, Replaceable, Sound, Pick, SchedulingKeys;
    SchedulerEffect(Park(s, q, status, r));
  }

  // ---------------------------------------------------------------- the events keep the invariant

  ghost predicate SameWaits(t: Task, u: Task) {
    u.priority == t.priority && u.schedulerPriority == t.schedulerPriority && u.waitTime == t.waitTime
  }

  ghost predicate Off(s: Sys, p: int) {
    forall q :: p !in On(s, q)
  }

  /** Queues may have lost tasks to the ready queue, which has only grown, by tasks that have run before; live tasks
      and the running task are as before. */
  ghost predicate Woken(s: Sys, t: Sys) {
    && Core(t) && t.pids == s.pids && t.current == s.current && t.panicked == s.panicked
    && (forall p :: p in On(s, Ready) ==> p in On(t, Ready) && SameWaits(Tsk(s, p), Tsk(t, p)))
    && (forall p :: p in On(t, Ready) ==> p in On(s, Ready) || Sound(Tsk(t, p)))
    && (forall q :: On(s, q) == [] && q != Ready ==> On(t, q) == [])
    && (forall p :: Off(s, p) ==> Off(t, p) && SameWaits(Tsk(s, p), Tsk(t, p)))
  }

  /** Waking somebody leaves the running task replaceable. */
  lemma WokenReplaceable(s: Sys, t: Sys)
    requires Core(s) && Woken(s, t) && Replaceable(s) && s.current in On(s, Ready)
    ensures Replaceable(t)
  {
    ReplaceableIs(s);
    ReplaceableIs(t);
    assert Distinct(On(s, Ready)) && Distinct(On(t, Ready));
    WithoutElems(On(s, Ready), s.current);
    WithoutElems(On(t, Ready), t.current);
    if Rest(t) != [] {
      if Rest(s) == [] {
        var p := Rest(t)[0];
        assert p in Rest(t);
        assert p !in Rest(s);
      } else {
        var p :| p in Rest(s) && Sound(Tsk(s, p));
        assert p in Rest(t) && Sound(Tsk(t, p));
      }
    }
  }

  lemma WokenKeepsInvariant(s: Sys, t: Sys)
    requires Invariant(s) && Woken(s, t)
    ensures Invariant(t)
  {
    assert forall p :: IsLive(t, p) == IsLive(s, p);
  }

  /** Whoever is on the ready queue is on no other. */
  lemma ReadyElsewhere(s: Sys, q: QueueId)
    requires Core(s) && q != Ready
    ensures forall p :: p in On(s, Ready) ==> p !in On(s, q)
  {
    forall p | p in On(s, Ready) ensures p !in On(s, q) {
      assert BelongsOn(s, Ready, p);
      assert p in On(s, q) <==> BelongsOn(s, q, p);
    }
  }

  lemma MovedWakes(s: Sys, t: Sys, p: int, q: QueueId)
    requires Core(t) && Moved(s, t, p, q, Ready) && q != Ready && p in On(s, q)
    requires t.current == s.current && t.panicked == s.panicked
    requires forall x :: x !in On(s, q) ==> Tsk(t, x) == Tsk(s, x)
    requires forall x :: x in On(s, Ready) ==> x !in On(s, q)
    ensures Woken(s, t)
  {
    hide Core, Sound, Dormant;
    WithoutElems(On(s, q), p);
    forall x | Off(s, x) ensures Off(t, x) && SameWaits(Tsk(s, x), Tsk(t, x)) {
      assert x !in On(s, q) && x !in On(s, Ready);
      forall r ensures x !in On(t, r) { assert x !in On(s, r); }
    }
  }

  lemma NothingWakes(s: Sys)
    requires Core(s)
    ensures Woken(s, s)
  {
    hide Core;
  }

  lemma UnblockOneWakes(s: Sys, q: QueueId)
    requires Core(s) && q != Ready
    ensures Woken(s, UnblockOne(s, q))
  {
    hide Core, UnblockOne, Moved, Woken, Chosen, BlockingKeys, Pick;
    UnblockOneEffect(s, q);
    if On(s, q) == [] {
      NothingWakes(s);
    } else {
      ReadyElsewhere(s, q);
      MovedWakes(s, UnblockOne(s, q), Chosen(s, q), q);
    }
  }

  lemma UnblockAllWakes(s: Sys, q: QueueId)
    requires Core(s) && q != Ready
    ensures Woken(s, UnblockAll(s, q))
  {
    UnblockAllEffect(s, q);
    var t := UnblockAll(s, q);
    forall p | p in On(s, Ready) ensures p in On(t, Ready) && SameWaits(Tsk(s, p), Tsk(t, p)) {
      assert BelongsOn(s, Ready, p);
      assert p in On(s, q) <==> BelongsOn(s, q, p);
    }
    forall p | p in On(t, Ready) && p !in On(s, Ready) ensures Sound(Tsk(t, p)) {
      WokenAreSound(s, q, p);
    }
    NullOnNone(s, q);
  }

  /** The boot code is on no queue. */
  lemma NullOnNone(s: Sys, q: QueueId)
    requires Core(s)
    ensures 0 !in On(s, q)
  {
    assert 0 in On(s, q) <==> BelongsOn(s, q, 0);
  }

  lemma {:induction false} WokenAreSound(s: Sys, q: QueueId, p: int)
    requires Core(s) && q != Ready && p in On(s, q)
    ensures Sound(Tsk(UnblockAll(s, q), p))
    decreases |On(s, q)|
  {
    var l := On(s, q);
    WakeEffect(s, q, l[0]) by { assert l[0] in l; }
    assert l == [l[0]] + l[1..];
    var t := Wake(s, q, l[0]);
    if p in On(t, q) {
      WokenAreSound(t, q, p);
    } else {
      UnblockAllEffect(t, q);
    }
  }

  /** Assignments to counters, locks, awakened times and resume points. */
  ghost predicate Assigned(s: Sys, t: Sys) {
    && SameQueues(s, t) && t.current == s.current && t.panicked == s.panicked
    && forall p :: SameWaits(Tsk(s, p), Tsk(t, p)) && StaysFit(Tsk(s, p), Tsk(t, p))
  }

  lemma AssignedWakes(s: Sys, t: Sys)
    requires Core(s) && Assigned(s, t)
    ensures Woken(s, t)
  {
    forall p | IsLive(t, p) ensures Fit(Tsk(t, p)) { assert IsLive(s, p) && Fit(Tsk(s, p)); }
    SameQueuesKeepCore(s, t);
    assert forall q :: On(t, q) == On(s, q);
  }

  lemma WokenTwice(s: Sys, t: Sys, u: Sys)
    requires Woken(s, t) && Woken(t, u)
    ensures Woken(s, u)
  {
  }

  lemma DoWaitKeepsInvariant(s: Sys, q: QueueId, status: Status, r: Resume)
    requires Invariant(s) && Settled(s) && s.current != 0 && QueueExists(s, q) && q != Ready && Replaceable(s)
    requires q.WaitOf? ==> IsLive(s, q.pid)
    ensures Invariant(DoWait(s, q, status, r))
  {
    DoWaitEffect(s, q, status, r);
    assert forall p :: IsLive(DoWait(s, q, status, r), p) == IsLive(s, p);
  }

  /** The same task but for its queue and its status. */
  ghost predicate SameTask(t: Task, u: Task) {
    u == t.(queue := u.queue, status := u.status)
  }

  lemma RouseFields(s: Sys, p: int)
    requires Shaped(s) && 0 < p < |s.tasks| && Sleep in s.queues && Ready in s.queues
    ensures var t := Rouse(s, p);
      && t == s.(queues := t.queues, tasks := t.tasks) && |t.tasks| == |s.tasks| && t.queues.Keys == s.queues.Keys
      && On(t, Sleep) == Without(On(s, Sleep), p) && On(t, Ready) == On(s, Ready) + [p]
      && (forall q :: q != Sleep && q != Ready ==> On(t, q) == On(s, q))
      && Tsk(t, p).queue == Ready
      && (forall x :: SameTask(Tsk(s, x), Tsk(t, x)) && (x != p ==> Tsk(t, x).queue == Tsk(s, x).queue))
  {
  }

  lemma RouseEffect(s: Sys, p: int)
    requires Core(s) && p in On(s, Sleep)
    ensures Core(Rouse(s, p)) && Moved(s, Rouse(s, p), p, Sleep, Ready)
    ensures Rouse(s, p) == s.(queues := Rouse(s, p).queues, tasks := Rouse(s, p).tasks)
    ensures forall x :: SameTask(Tsk(s, x), Tsk(Rouse(s, p), x))
  {
    assert BelongsOn(s, Sleep, p);
    RouseFields(s, p);
    hide Rouse;
    MovedKeepsCore(s, Rouse(s, p), p, Sleep, Ready);
  }

  lemma CheckSleepingWakes(s: Sys)
    requires Core(s)
    ensures Woken(s, CheckSleeping(s))
  {
    hide OneQueueEach, AllFit, Shaped;
    var i := FirstExpired(s, On(s, Sleep));
    if i == -1 {
      AssignedWakes(s, s);
    } else {
      RouseEffect(s, On(s, Sleep)[i]);
      hide Rouse;
      WithoutElems(On(s, Sleep), On(s, Sleep)[i]);
    }
  }

  lemma SchedulerKeepsInvariant(s: Sys)
    requires Core(s) && NobodyWaitsForDead(s) && (On(s, Ready) == [] || Somebody(s, On(s, Ready)))
    ensures Invariant(Scheduler(s)) && Scheduler(s).pids == s.pids
  {
    SchedulerEffect(s);
    assert forall p :: IsLive(Scheduler(s), p) == IsLive(s, p);
  }

  lemma CheckedWakes(s: Sys)
    requires Core(s)
    ensures Woken(s, CheckSleeping(s.(ticks := s.ticks + 1)))
  {
    hide Shaped, OneQueueEach, AllFit, CheckSleeping;
    var s1 := s.(ticks := s.ticks + 1);
    AssignedWakes(s, s1);
    CheckSleepingWakes(s1);
    WokenTwice(s, s1, CheckSleeping(s1));
  }

  /** A running task that is ready can go on. */
  lemma CurrentIsSomebody(s: Sys)
    requires Settled(s) && s.current != 0
    ensures Somebody(s, On(s, Ready))
  {}

  lemma CheckedCanStay(s: Sys)
    requires Core(s) && Settled(s)
    ensures CanStay(CheckSleeping(s.(ticks := s.ticks + 1)))
  {
    hide CheckSleeping;
    CheckedWakes(s);
    WokenSettled(s, CheckSleeping(s.(ticks := s.ticks + 1)));
  }

  lemma TickKeepsInvariant(s: Sys)
    requires Invariant(s) && Settled(s)
    ensures Invariant(Tick(s)) && Tick(s).pids == s.pids
  {
    hide Shaped, OneQueueEach, AllFit, NobodyWaitsForDead, CheckSleeping, Scheduler, Sound;
    CheckedWakes(s);
    var t := CheckSleeping(s.(ticks := s.ticks + 1));
    WokenKeepsInvariant(s, t);
    WokenSettled(s, t);
    SettledCanStay(t);
    if t.current != 0 {
      CurrentIsSomebody(t);
      SchedulerKeepsInvariant(t);
    } else if On(t, Ready) == [] || Somebody(t, On(t, Ready)) {
      SchedulerKeepsInvariant(t);
    } else {
      SchedulerEffect(t);
      BootGoesOn(t);
      NobodyWaits(t, Scheduler(t));
    }
  }

  /** Before the first dispatch, with nobody ready but tasks of a priority below 1, the boot code goes on. */
  lemma BootGoesOn(s: Sys)
    requires Settled(s) && s.current == 0 && SchedulerFrame(s, Scheduler(s)) && Scheduler(s).current == 0
    requires 0 !in On(s, Ready)
    ensures Settled(Scheduler(s))
  {
    hide Scheduler;
  }

  lemma NobodyWaits(s: Sys, t: Sys)
    requires NobodyWaitsForDead(s) && t.queues == s.queues && t.pids == s.pids
    ensures NobodyWaitsForDead(t)
  {
    assert forall p :: IsLive(t, p) == IsLive(s, p);
  }

  lemma WokenSettled(s: Sys, t: Sys)
    requires Core(s) && Woken(s, t) && Settled(s)
    ensures Settled(t) && 0 !in On(t, Ready)
  {
    forall q ensures 0 !in On(s, q) { NullOnNone(s, q); }
    NullOnNone(t, Ready);
  }

  lemma DropLockWakes(s: Sys, p: int, m: int)
    requires Core(s)
    ensures Woken(s, DropLock(s, p, m))
  {
    AssignedWakes(s, DropLock(s, p, m));
  }

  lemma ReleaseWakes(s: Sys, m: int)
    requires Core(s)
    ensures Woken(s, Release(s, m))
  {
    hide OneQueueEach, AllFit;
    if Mtx(s, m).owner == s.current {
      UnblockOneWakes(s, MutexQ(m));
      DropLockWakes(UnblockOne(s, MutexQ(m)), s.current, m);
      WokenTwice(s, UnblockOne(s, MutexQ(m)), Release(s, m));
    } else {
      AssignedWakes(s, s);
    }
  }

  lemma AcquireLoopKeepsInvariant(s: Sys, m: int)
    requires Invariant(s) && Settled(s) && s.current != 0 && (Mtx(s, m).locked ==> Replaceable(s))
    ensures Invariant(AcquireLoop(s, m))
  {
    hide Replaceable;
    if Mtx(s, m).locked {
      DoWaitKeepsInvariant(s, MutexQ(m), BLOCKED, Retry(m));
    } else {
      AssignedWakes(s, AcquireLoop(s, m));
    }
  }

  lemma AcquireKeepsInvariant(s: Sys, m: int)
    requires Invariant(s) && Settled(s) && s.current != 0
    requires Mtx(s, m).owner != s.current && Mtx(s, m).locked ==> Replaceable(s)
    ensures Invariant(Acquire(s, m))
  {
    hide Replaceable;
    if Mtx(s, m).owner == s.current {
      AssignedWakes(s, Acquire(s, m));
    } else {
      AcquireLoopKeepsInvariant(s, m);
    }
  }

  lemma CountedWakes(s: Sys, i: int, n: int)
    requires Core(s)
    ensures Woken(s, SetCond(s, i, n)) && Woken(s, SetSem(s, i, n)) && Woken(s, SetArrived(s, i, n))
  {
    AssignedWakes(s, SetCond(s, i, n));
    AssignedWakes(s, SetSem(s, i, n));
    AssignedWakes(s, SetArrived(s, i, n));
  }

  /** A counter is changed, then one or all waiters are woken. */
  lemma ThenUnblockOne(s: Sys, t: Sys, q: QueueId)
    requires Invariant(s) && Woken(s, t) && q != Ready
    ensures Invariant(UnblockOne(t, q))
  {
    hide Shaped, OneQueueEach, AllFit, Settled, NobodyWaitsForDead;
    assert Woken(s, UnblockOne(t, q)) by {
      UnblockOneWakes(t, q);
      WokenTwice(s, t, UnblockOne(t, q));
    }
    WokenKeepsInvariant(s, UnblockOne(t, q));
  }

  lemma ThenUnblockAll(s: Sys, t: Sys, q: QueueId)
    requires Invariant(s) && Woken(s, t) && q != Ready
    ensures Invariant(UnblockAll(t, q))
  {
    hide Shaped, OneQueueEach, AllFit, Settled, NobodyWaitsForDead;
    assert Woken(s, UnblockAll(t, q)) by {
      UnblockAllWakes(t, q);
      WokenTwice(s, t, UnblockAll(t, q));
    }
    WokenKeepsInvariant(s, UnblockAll(t, q));
  }

  lemma ThenWait(s: Sys, t: Sys, q: QueueId, status: Status, r: Resume)
    requires Invariant(s) && Settled(s) && s.current != 0 && Woken(s, t)
    requires QueueExists(t, q) && q != Ready && !q.WaitOf? && Replaceable(t)
    ensures Invariant(DoWait(t, q, status, r))
  {
    hide Replaceable;
    WokenKeepsInvariant(s, t);
    DoWaitKeepsInvariant(t, q, status, r);
  }

  lemma ReleaseShape(s: Sys, m: int)
    ensures |Release(s, m).conds| == |s.conds|
  {
  }

  lemma CondReleaseWakes(s: Sys, c: int, n: int, m: int)
    requires Core(s)
    ensures Woken(s, Release(SetCond(s, c, n), m))
    ensures |Release(SetCond(s, c, n), m).conds| == |s.conds|
  {
    hide Shaped, OneQueueEach, AllFit, Settled, NobodyWaitsForDead;
    CountedWakes(s, c, n);
    ReleaseWakes(SetCond(s, c, n), m);
    ReleaseShape(SetCond(s, c, n), m);
    WokenTwice(s, SetCond(s, c, n), Release(SetCond(s, c, n), m));
  }

  lemma ConditionWaitKeepsInvariant(s: Sys, c: int, m: int)
    requires Invariant(s) && Settled(s) && s.current != 0 && 0 <= c < |s.conds|
    requires Replaceable(Release(SetCond(s, c, s.conds[c] + 1), m))
    ensures Invariant(ConditionWait(s, c, m))
  {
    hide Replaceable, Shaped, OneQueueEach, AllFit, Settled, NobodyWaitsForDead;
    CondReleaseWakes(s, c, s.conds[c] + 1, m);
    ThenWait(s, Release(SetCond(s, c, s.conds[c] + 1), m), CondQ(c), BLOCKED, Reacquire(m));
  }

  lemma SignalKeepsInvariant(s: Sys, c: int)
    requires Invariant(s)
    ensures Invariant(Signal(s, c))
  {
    hide Shaped, OneQueueEach, AllFit, Settled, NobodyWaitsForDead;
    if 0 <= c < |s.conds| {
      CountedWakes(s, c, s.conds[c] - 1);
      ThenUnblockOne(s, SetCond(s, c, s.conds[c] - 1), CondQ(c));
    }
  }

  lemma BroadcastKeepsInvariant(s: Sys, c: int)
    requires Invariant(s)
    ensures Invariant(Broadcast(s, c))
  {
    hide Shaped, OneQueueEach, AllFit, Settled, NobodyWaitsForDead;
    if 0 <= c < |s.conds| {
      CountedWakes(s, c, 0);
      ThenUnblockAll(s, SetCond(s, c, 0), CondQ(c));
    }
  }

  lemma UpKeepsInvariant(s: Sys, i: int)
    requires Invariant(s)
    ensures Invariant(Up(s, i))
  {
    hide Shaped, OneQueueEach, AllFit, Settled, NobodyWaitsForDead;
    if 0 <= i < |s.sems| {
      var s1 := SetSem(s, i, s.sems[i] + 1);
      CountedWakes(s, i, s.sems[i] + 1);
      if s.sems[i] + 1 <= 0 {
        ThenUnblockOne(s, s1, SemQ(i));
      } else {
        WokenKeepsInvariant(s, s1);
      }
    }
  }

  lemma WhoRuns(s: Sys)
    requires Settled(s) && s.current != 0
    ensures s.current in On(s, Ready) && Sound(Tsk(s, s.current))
  {}

  lemma DownKeepsInvariant(s: Sys, i: int)
    requires Invariant(s) && Settled(s) && s.current != 0 && (0 <= i < |s.sems| && s.sems[i] <= 0 ==> Replaceable(s))
    ensures Invariant(Down(s, i))
  {
    hide Replaceable, Shaped, OneQueueEach, AllFit, Settled, NobodyWaitsForDead;
    if 0 <= i < |s.sems| {
      var s1 := SetSem(s, i, s.sems[i] - 1);
      CountedWakes(s, i, s.sems[i] - 1);
      if s.sems[i] - 1 < 0 {
        WhoRuns(s);
        WokenReplaceable(s, s1);
        ThenWait(s, s1, SemQ(i), BLOCKED, User);
      } else {
        WokenKeepsInvariant(s, s1);
      }
    }
  }

  lemma BarrierKeepsInvariant(s: Sys, b: int)
    requires Invariant(s) && Settled(s) && s.current != 0
    requires 0 <= b < |s.barriers| && s.barriers[b].arrived + 1 != s.barriers[b].goal ==> Replaceable(s)
    ensures Invariant(Arrive(s, b))
  {
    hide Replaceable, Shaped, OneQueueEach, AllFit, Settled, NobodyWaitsForDead, UnblockAll, DoWait, Woken;
    if 0 <= b < |s.barriers| {
      var n := s.barriers[b].arrived + 1;
      if n == s.barriers[b].goal {
        CountedWakes(s, b, 0);
        ThenUnblockAll(s, SetArrived(s, b, 0), BarrierQ(b));
      } else {
        CountedWakes(s, b, n);
        WhoRuns(s);
        WokenReplaceable(s, SetArrived(s, b, n));
        ThenWait(s, SetArrived(s, b, n), BarrierQ(b), WAITING, User);
      }
    }
  }

  /** A task with a fresh pid comes into being at the tail of the ready queue. */
  ghost predicate Born(s: Sys, t: Sys, p: int) {
    && |t.tasks| == |s.tasks| && |t.pids| == |s.pids| && |t.mutexes| == |s.mutexes| && |t.sems| == |s.sems|
    && |t.conds| == |s.conds| && |t.barriers| == |s.barriers|
    && t.queues.Keys == s.queues.Keys && t.current == s.current && t.panicked == s.panicked
    && (forall x :: IsLive(t, x) <==> IsLive(s, x) || x == p)
    && On(t, Ready) == On(s, Ready) + [p]
    && (forall q :: q != Ready ==> On(t, q) == On(s, q))
    && (forall x :: x != p ==> Tsk(t, x) == Tsk(s, x))
    && Tsk(t, p).queue == Ready && Fit(Tsk(t, p)) && Tsk(t, p).waitTime == 0 && Tsk(t, p).resume == User
  }

  lemma BirthKeepsInvariant(s: Sys, t: Sys, p: int)
    requires Invariant(s) && 0 < p < MAX_TASK_NUM && !IsLive(s, p) && Born(s, t, p)
    ensures Invariant(t)
  {
    assert forall q :: QueueExists(t, q) == QueueExists(s, q);
    forall q, x ensures x in On(t, q) <==> BelongsOn(t, q, x) {
      assert x in On(s, q) <==> BelongsOn(s, q, x);
    }
    forall q ensures Distinct(On(t, q)) {
      assert Distinct(On(s, q));
      assert p in On(s, q) <==> BelongsOn(s, q, p);
    }
    if s.current != 0 && !s.panicked {
      assert s.current in On(s, Ready) <==> BelongsOn(s, Ready, s.current);
    }
  }

  lemma LiveIsLive(s: Sys)
    requires |s.pids| == MAX_TASK_NUM
    ensures forall p :: IsLive(s, p) <==> p in Live(s.pids)
  {
  }

  lemma PidTaken(s: Sys)
    requires |s.pids| == MAX_TASK_NUM && Slist.Valid(s.pids)
    ensures 0 <= s.pids[0].cursor < |s.pids|
    ensures var (pids', p) := AllocNode(s.pids);
      && |pids'| == MAX_TASK_NUM && Slist.Valid(pids')
      && (p == 0 ==> forall x :: 0 < x < MAX_TASK_NUM ==> IsLive(s, x))
      && (p != 0 ==> 0 < p < MAX_TASK_NUM && !IsLive(s, p)
                     && forall x :: IsLive(s.(pids := pids'), x) <==> IsLive(s, x) || x == p)
  {
    AllocPops(s.pids);
    Conservation(s.pids);
    LiveIsLive(s);
    LiveIsLive(s.(pids := AllocNode(s.pids).0));
  }

  lemma BornFields(s: Sys, priority: int, p: int)
    requires Core(s) && 0 < p < MAX_TASK_NUM && On(s, WaitOf(p)) == []
    requires |s.pids| == MAX_TASK_NUM && 0 <= s.pids[0].cursor < |s.pids| && AllocNode(s.pids).1 == p
    ensures var t := InitPcb(s, priority).0;
      && InitPcb(s, priority).1
      && t.pids == AllocNode(s.pids).0
      && t == s.(pids := t.pids, queues := t.queues, tasks := t.tasks)
      && t.queues.Keys == s.queues.Keys && |t.tasks| == |s.tasks|
      && On(t, Ready) == On(s, Ready) + [p]
      && (forall q :: q != Ready ==> On(t, q) == On(s, q))
      && (forall x :: x != p ==> Tsk(t, x) == Tsk(s, x))
      && Tsk(t, p).queue == Ready && Fit(Tsk(t, p)) && Tsk(t, p).waitTime == 0 && Tsk(t, p).resume == User
      && Tsk(t, p) == Task(priority, priority, 0, Tsk(s, p).awakenedTime, READY, 0, Ready, User)
  {
  }

  /** init_pcb succeeds exactly when some pid is free; it then brings a task of a free pid into being, with that
      priority, ready, owning nothing, and its time of waking left over from the last task of that pid. */
  lemma SpawnBirth(s: Sys, priority: int) returns (p: int)
    requires Invariant(s) && Slist.Valid(s.pids)
    ensures 0 <= s.pids[0].cursor < |s.pids| && p == AllocNode(s.pids).1
    ensures InitPcb(s, priority).1 <==> p != 0
    ensures p == 0 ==> InitPcb(s, priority).0 == s && forall x :: 0 < x < MAX_TASK_NUM ==> IsLive(s, x)
    ensures p != 0 ==> 0 < p < MAX_TASK_NUM && !IsLive(s, p) && Born(s, InitPcb(s, priority).0, p)
    ensures p != 0 ==>
      Tsk(InitPcb(s, priority).0, p) == Task(priority, priority, 0, Tsk(s, p).awakenedTime, READY, 0, Ready, User)
    ensures p != 0 ==> |InitPcb(s, priority).0.pids| == MAX_TASK_NUM && Slist.Valid(InitPcb(s, priority).0.pids)
  {
    PidTaken(s);
    p := AllocNode(s.pids).1;
    if p != 0 {
      var t := InitPcb(s, priority).0;
      assert On(s, WaitOf(p)) == [];
      BornFields(s, priority, p);
      assert forall x :: IsLive(t, x) == IsLive(s.(pids := t.pids), x);
    }
  }

  // ---------------------------------------------------------------- kill

  /** How many of `ms` task p owns. */
  function CountOwned(ms: seq<Mutex>, p: int): nat {
    if ms == [] then 0 else (if ms[0].owner == p then 1 else 0) + CountOwned(ms[1..], p)
  }

  lemma {:induction false} CountAfterSet(ms: seq<Mutex>, i: nat, x: Mutex, p: int)
    requires i < |ms|
    ensures CountOwned(ms[i := x], p)
      == CountOwned(ms, p) - (if ms[i].owner == p then 1 else 0) + (if x.owner == p then 1 else 0)
  {
    if i > 0 {
      CountAfterSet(ms[1..], i - 1, x, p);
      assert ms[i := x][1..] == ms[1..][i - 1 := x];
    } else {
      assert ms[i := x][1..] == ms[1..];
    }
  }

  /** One lock of the scan that task p owns. */
  function ReleaseLock(s: Sys, p: int, i: nat): Sys {
    DropLock(UnblockOne(s, MutexQ(i)), p, i)
  }

  lemma ReleaseLockEffect(s: Sys, p: int, i: nat)
    requires Core(s) && !IsLive(s, p) && 0 < p < MAX_TASK_NUM && i < |s.mutexes|
    ensures var t := ReleaseLock(s, p, i);
      && Woken(s, t) && t.mutexes == s.mutexes[i := Mutex(false, 0)]
      && Tsk(t, p).lockNum == Tsk(s, p).lockNum - 1
      && Core(t) && !IsLive(t, p)
      && forall x :: On(t, WaitOf(x)) == On(s, WaitOf(x))
  {
    hide OneQueueEach, AllFit, UnblockOne, Woken, Moved, Chosen, BlockingKeys, Pick;
    UnblockOneEffect(s, MutexQ(i));
    UnblockOneWakes(s, MutexQ(i));
    DropLockWakes(UnblockOne(s, MutexQ(i)), p, i);
    WokenTwice(s, UnblockOne(s, MutexQ(i)), ReleaseLock(s, p, i));
    WokenIs(s, ReleaseLock(s, p, i));
    DeadIsOff(s, p);
    UnblockWaits(s, MutexQ(i));
  }

  lemma WokenIs(s: Sys, t: Sys)
    requires Woken(s, t)
    ensures Core(t) && t.pids == s.pids
  {}

  lemma DeadIsOff(s: Sys, p: int)
    requires Core(s) && !IsLive(s, p)
    ensures Off(s, p)
  {
    forall q ensures p !in On(s, q) { assert p in On(s, q) <==> BelongsOn(s, q, p); }
  }

  /** Unblocking leaves the other waiting queues alone. */
  lemma UnblockWaits(s: Sys, q: QueueId)
    requires Core(s) && q != Ready
    ensures forall x :: x != q && x != Ready ==> On(UnblockOne(s, q), x) == On(s, x)
  {
    hide Core, UnblockOne, Chosen, BlockingKeys, Pick;
    UnblockOneEffect(s, q);
  }

  lemma {:induction false} ReleaseLocksWakes(s: Sys, p: int, i: nat)
    requires Core(s) && !IsLive(s, p) && 0 < p < MAX_TASK_NUM && i <= MAX_LOCKS_NUM
    ensures Woken(s, ReleaseLocks(s, p, i))
    ensures forall x :: On(ReleaseLocks(s, p, i), WaitOf(x)) == On(s, WaitOf(x))
    ensures |ReleaseLocks(s, p, i).mutexes| == |s.mutexes|
    decreases MAX_LOCKS_NUM - i
  {
    hide OneQueueEach, AllFit, Woken, UnblockOne, IsLive;
    if i >= MAX_LOCKS_NUM || Tsk(s, p).lockNum <= 0 {
      AssignedWakes(s, s);
    } else if Mtx(s, i).owner != p {
      ReleaseLocksWakes(s, p, i + 1);
    } else {
      ReleaseLockEffect(s, p, i);
      ReleaseLocksWakes(ReleaseLock(s, p, i), p, i + 1);
      WokenTwice(s, ReleaseLock(s, p, i), ReleaseLocks(s, p, i));
    }
  }

  /** What is left of `owned` locks after releasing `count` of them. */
  function Leftover(owned: nat, count: int): nat {
    if count <= 0 then owned else if owned <= count then 0 else owned - count
  }

  /** The scan of locks[] releases as many of the locks that p owns as its lock count allows, first ones first. */
  lemma {:induction false} ReleaseLocksCount(s: Sys, p: int, i: nat)
    requires Core(s) && !IsLive(s, p) && 0 < p < MAX_TASK_NUM && i <= MAX_LOCKS_NUM <= |s.mutexes|
    ensures ReleaseLocks(s, p, i).mutexes[..i] == s.mutexes[..i]
    ensures CountOwned(ReleaseLocks(s, p, i).mutexes[i..MAX_LOCKS_NUM], p)
      == Leftover(CountOwned(s.mutexes[i..MAX_LOCKS_NUM], p), Tsk(s, p).lockNum)
    ensures forall x :: x != p && x != 0 ==> CountOwned(ReleaseLocks(s, p, i).mutexes, x) == CountOwned(s.mutexes, x)
    decreases MAX_LOCKS_NUM - i
  {
    hide Core, Woken, UnblockOne;
    if i < MAX_LOCKS_NUM && Tsk(s, p).lockNum > 0 {
      var u := if Mtx(s, i).owner != p then s else ReleaseLock(s, p, i);
      if Mtx(s, i).owner == p {
        ReleaseLockEffect(s, p, i);
        forall x | x != p && x != 0 ensures CountOwned(u.mutexes, x) == CountOwned(s.mutexes, x) {
          CountAfterSet(s.mutexes, i, Mutex(false, 0), x);
        }
      }
      var ms, ns, ks := s.mutexes, u.mutexes, ReleaseLocks(u, p, i + 1).mutexes;
      ReleaseLocksCount(u, p, i + 1);
      assert ks[i] == ks[..i + 1][i] == ns[..i + 1][i] == ns[i];
      assert ks[..i] == ks[..i + 1][..i] == ns[..i + 1][..i] == ms[..i];
      CountSplit(ks, i, p);
      CountSplit(ms, i, p);
      assert ns[i + 1..MAX_LOCKS_NUM] == ms[i + 1..MAX_LOCKS_NUM];
    }
  }

  lemma CountSplit(ms: seq<Mutex>, i: nat, p: int)
    requires i < MAX_LOCKS_NUM <= |ms|
    ensures CountOwned(ms[i..MAX_LOCKS_NUM], p)
      == (if ms[i].owner == p then 1 else 0) + CountOwned(ms[i + 1..MAX_LOCKS_NUM], p)
  {
    assert ms[i..MAX_LOCKS_NUM][1..] == ms[i + 1..MAX_LOCKS_NUM];
  }

  lemma PidFreed(s: Sys, p: int)
    requires |s.pids| == MAX_TASK_NUM && Slist.Valid(s.pids) && IsLive(s, p)
    ensures FreeNode(s.pids, p).1 && |Unlinked(s, p).pids| == MAX_TASK_NUM && Slist.Valid(Unlinked(s, p).pids)
    ensures forall x :: IsLive(Unlinked(s, p), x) <==> IsLive(s, x) && x != p
  {
    FreePushes(s.pids, p);
    LiveIsLive(s);
    LiveIsLive(Unlinked(s, p));
  }

  /** Task p is gone: its pid is dead and it is on no queue; everything else is as before. */
  ghost predicate Gone(s: Sys, t: Sys, p: int) {
    && (forall x :: IsLive(t, x) <==> IsLive(s, x) && x != p)
    && (forall q, x :: x in On(t, q) <==> x in On(s, q) && x != p)
    && (forall q :: Distinct(On(t, q)))
    && t == s.(pids := t.pids, queues := t.queues) && t.queues.Keys == s.queues.Keys && |t.pids| == |s.pids|
  }

  lemma GoneKeepsCore(s: Sys, t: Sys, p: int)
    requires Core(s) && Gone(s, t, p)
    ensures Core(t)
  {
    assert forall q :: QueueExists(t, q) == QueueExists(s, q);
    forall q, x ensures x in On(t, q) <==> BelongsOn(t, q, x) {
      assert x in On(s, q) <==> BelongsOn(s, q, x);
    }
  }

  lemma UnlinkedIsGone(s: Sys, p: int)
    requires Core(s) && Slist.Valid(s.pids) && IsLive(s, p)
    ensures Gone(s, Unlinked(s, p), p)
  {
    PidFreed(s, p);
    var t := Unlinked(s, p);
    forall q ensures Distinct(On(t, q)) {
      assert Distinct(On(s, q));
      WithoutElems(On(s, q), p);
    }
    forall q, x ensures x in On(t, q) <==> x in On(s, q) && x != p {
      assert Distinct(On(s, q));
      assert x in On(s, q) <==> BelongsOn(s, q, x);
      WithoutElems(On(s, q), p);
    }
  }

  lemma ClearedWakes(s: Sys, p: int)
    requires Core(s) && Slist.Valid(s.pids) && IsLive(s, p)
    ensures Woken(Unlinked(s, p), Cleared(s, p)) && Slist.Valid(Cleared(s, p).pids)
    ensures On(Cleared(s, p), WaitOf(p)) == []
    ensures forall w :: w in On(s, WaitOf(p)) && w != p ==> w in On(Cleared(s, p), Ready)
    ensures Cleared(s, p).mutexes == ReleaseLocks(Unlinked(s, p), p, 0).mutexes
  {
    var s1 := Unlinked(s, p);
    var s2 := ReleaseLocks(s1, p, 0);
    PidFreed(s, p);
    UnlinkedIsGone(s, p);
    GoneKeepsCore(s, s1, p);
    ReleaseLocksWakes(s1, p, 0);
    UnblockAllEffect(s2, WaitOf(p));
    UnblockAllWakes(s2, WaitOf(p));
    WokenTwice(s1, s2, Cleared(s, p));
    forall w | w in On(s, WaitOf(p)) && w != p ensures w in On(Cleared(s, p), Ready) {
      assert w in On(s1, WaitOf(p));
    }
  }

  /** The states that a kill passes through. */
  lemma KillStages(s: Sys, p: int)
    requires Invariant(s) && Slist.Valid(s.pids) && IsLive(s, p)
    ensures var s1 := Unlinked(s, p);
      && Gone(s, s1, p) && Core(s1) && !IsLive(s1, p) && 0 < p < MAX_TASK_NUM <= |s1.mutexes|
      && s1.mutexes == s.mutexes && Core(ReleaseLocks(s1, p, 0)) && Core(Cleared(s, p))
  {
    var s1 := Unlinked(s, p);
    PidFreed(s, p);
    UnlinkedIsGone(s, p);
    GoneKeepsCore(s, s1, p);
    ReleaseLocksWakes(s1, p, 0);
    ClearedWakes(s, p);
  }

  lemma ClearedKeepsInvariant(s: Sys, p: int)
    requires Invariant(s) && Slist.Valid(s.pids) && IsLive(s, p)
    ensures var t := Cleared(s, p);
      && Core(t) && NobodyWaitsForDead(t)
      && (forall q :: p !in On(t, q)) && !IsLive(t, p)
      && (Settled(s) && s.current != 0 && s.current != p ==> Settled(t))
  {
    var s1, t := Unlinked(s, p), Cleared(s, p);
    ClearedWakes(s, p);
    UnlinkedIsGone(s, p);
    assert forall x :: IsLive(t, x) == IsLive(s1, x);
    forall x | 0 <= x < MAX_TASK_NUM && !IsLive(t, x) ensures On(t, WaitOf(x)) == [] {
      if x != p {
        assert On(s, WaitOf(x)) == [];
        assert forall y :: y !in On(s1, WaitOf(x));
        assert On(s1, WaitOf(x)) == [];
      }
    }
    forall q ensures p !in On(t, q) {
      assert p in On(t, q) <==> BelongsOn(t, q, p);
    }
    if Settled(s) && s.current != 0 && s.current != p {
      assert s.current in On(s1, Ready);
    }
  }

  /** After a successful kill the pid is dead and on no queue, and everybody who waited for it is ready. The invariant
      holds exactly when the killed task did not run or can be replaced. */
  lemma KillBuries(s: Sys, p: int)
    requires Invariant(s) && Slist.Valid(s.pids) && Settled(s) && s.current != 0
    ensures Kill(s, p).1 <==> p != 1 && IsLive(s, p)
    ensures var t := Kill(s, p).0;
      && Slist.Valid(t.pids) && |s.pids| > 0
      && (!Kill(s, p).1 ==> t == s)
      && (Kill(s, p).1 ==>
            && Core(t) && !IsLive(t, p) && (forall q :: p !in On(t, q))
            && (forall w :: w in On(s, WaitOf(p)) && w != p ==> w in On(t, Ready)))
      && (p != s.current || p == 1 || Replaceable(Cleared(s, p)) ==> Invariant(t))
      && (p == s.current != 1 && !Replaceable(Cleared(s, p)) ==>
            t.current == s.current && t.current !in On(t, Ready) && t.panicked == s.panicked)
  {
    hide Replaceable, UnblockAll, ReleaseLocks, Unlinked, Cleared, Scheduler;
    if p != 1 && IsLive(s, p) {
      PidFreed(s, p);
      KillIs(s, p);
      ClearedWakes(s, p);
      ClearedKeepsInvariant(s, p);
      ClearedCurrent(s, p);
      if s.current == p {
        KilledItself(s, p);
      }
    }
  }

  lemma KillIs(s: Sys, p: int)
    requires |s.pids| == MAX_TASK_NUM && FreeNode(s.pids, p).1 && p != 1 && p >= 0
    ensures Kill(s, p) == (if s.current == p then Scheduler(Cleared(s, p)) else Cleared(s, p), true)
  {}

  /** The running task has killed itself. */
  lemma KilledItself(s: Sys, p: int)
    requires Invariant(s) && Slist.Valid(s.pids) && Settled(s) && s.current == p && p > 1 && IsLive(s, p)
    ensures var t := Scheduler(Cleared(s, p));
      && Core(t) && t.pids == Cleared(s, p).pids && t.queues == Cleared(s, p).queues
      && (Replaceable(Cleared(s, p)) ==> Invariant(t))
      && (!Replaceable(Cleared(s, p)) ==> t.current == p && t.panicked == s.panicked)
  {
    hide Replaceable, UnblockAll, ReleaseLocks, Unlinked, Cleared, Scheduler, Pick, SchedulingKeys;
    ClearedKeepsInvariant(s, p);
    ClearedCurrent(s, p);
    var u := Cleared(s, p);
    ReplaceableIs(u);
    NotThereAnyway(On(u, Ready), p);
    SchedulerEffect(u);
    if Replaceable(u) { SchedulerKeepsInvariant(u); }
  }

  lemma ClearedCanStay(s: Sys, p: int)
    requires Invariant(s) && Slist.Valid(s.pids) && Settled(s) && s.current != 0 && IsLive(s, p)
    ensures CanStay(Cleared(s, p))
  {
    hide Cleared, Core, NobodyWaitsForDead, Slist.Valid;
    ClearedKeepsInvariant(s, p);
    ClearedCurrent(s, p);
  }

  lemma NotThereAnyway(l: seq<int>, p: int)
    requires p !in l
    ensures Without(l, p) == l
  {
    WithoutElems(l, p);
  }

  lemma ClearedCurrent(s: Sys, p: int)
    requires Core(s) && Slist.Valid(s.pids) && IsLive(s, p)
    ensures Cleared(s, p).current == s.current && Cleared(s, p).panicked == s.panicked
    ensures SameWaits(Tsk(s, p), Tsk(Cleared(s, p), p))
  {
    PidFreed(s, p);
    UnlinkedIsGone(s, p);
    ClearedWakes(s, p);
    hide Cleared, Unlinked, Core;
  }

  /** The locks of locks[] that a killed task still owns: none exactly when its lock count covers them all. */
  lemma KillFreesLocks(s: Sys, p: int)
    requires Invariant(s) && Slist.Valid(s.pids) && p != 1 && IsLive(s, p)
    ensures |Kill(s, p).0.mutexes| == |s.mutexes|
    ensures CountOwned(Kill(s, p).0.mutexes[..MAX_LOCKS_NUM], p) == 0
      <==> CountOwned(s.mutexes[..MAX_LOCKS_NUM], p) == 0
           || CountOwned(s.mutexes[..MAX_LOCKS_NUM], p) <= Tsk(s, p).lockNum
    ensures forall x :: x != p && x != 0 ==> CountOwned(Kill(s, p).0.mutexes, x) == CountOwned(s.mutexes, x)
  {
    PidFreed(s, p);
    UnlinkedIsGone(s, p);
    GoneKeepsCore(s, Unlinked(s, p), p);
    ReleaseLocksCount(Unlinked(s, p), p, 0);
    ClearedWakes(s, p);
    var ms, ns := s.mutexes, Kill(s, p).0.mutexes;
    hide Scheduler, Unlinked, Core, Gone, Woken;
    assert ms[0..MAX_LOCKS_NUM] == ms[..MAX_LOCKS_NUM] && ns[0..MAX_LOCKS_NUM] == ns[..MAX_LOCKS_NUM];
  }

  // ---------------------------------------------------------------- every run

  lemma AlarmWakes(s: Sys, ms: nat)
    requires Core(s)
    ensures Woken(s, SetAlarm(s, ms))
  {
    AssignedWakes(s, SetAlarm(s, ms));
  }

  lemma SleepKeepsInvariant(s: Sys, ms: nat)
    requires Invariant(s) && Settled(s) && s.current != 0 && Replaceable(s)
    ensures Invariant(DoSleep(s, ms)) && DoSleep(s, ms).pids == s.pids
  {
    hide Replaceable, Shaped, OneQueueEach, AllFit, NobodyWaitsForDead, SetAlarm, DoWait;
    AlarmWakes(s, ms);
    WhoRuns(s);
    WokenReplaceable(s, SetAlarm(s, ms));
    ThenWait(s, SetAlarm(s, ms), Sleep, SLEEPING, User);
  }

  lemma ContinueKeepsInvariant(s: Sys)
    requires Invariant(s) && Settled(s) && s.current != 0 && (Leaves(s, Continue) ==> Replaceable(s))
    ensures Invariant(Apply(s, Continue))
  {
    hide Replaceable, Shaped, OneQueueEach, AllFit, NobodyWaitsForDead, Settled;
    match Tsk(s, s.current).resume
    case User =>
    case Retry(m) => AcquireLoopKeepsInvariant(s, m);
    case Reacquire(m) => AcquireKeepsInvariant(s, m);
  }

  /** Only spawning and killing touch the pid list. */
  lemma PidsUntouched(s: Sys, e: Event)
    requires !e.Spawn? && !e.KillTask?
    ensures Apply(s, e).pids == s.pids
  {
    hide Scheduler, DoWait, UnblockOne, UnblockAll, Release, AcquireLoop, FirstExpired;
  }

  /** The invariant, with the pid list threading every free pid. */
  ghost predicate Consistent(s: Sys) {
    Invariant(s) && Slist.Valid(s.pids)
  }

  lemma PidsThere(s: Sys)
    requires Core(s)
    ensures |s.pids| == MAX_TASK_NUM && |s.tasks| == MAX_TASK_NUM
  {}

  /** Every event keeps every live task on exactly one queue, and the running task on the ready queue. */
  lemma EventKeepsConsistent(s: Sys, e: Event)
    requires Consistent(s) && Enabled(s, e)
    ensures Consistent(Apply(s, e))
  {
    hide Shaped, OneQueueEach, AllFit, NobodyWaitsForDead, Slist.Valid, Replaceable, Cleared;
    hide Tick, InitPcb, Kill, DoSleep, Acquire, AcquireLoop, Release, ConditionWait, Signal, Broadcast, Up, Down,
      Arrive, DoWait;
    match e
    case Spawn(priority) =>
      var p := SpawnBirth(s, priority);
      if p != 0 {
        BirthKeepsInvariant(s, InitPcb(s, priority).0, p);
      }
    case KillTask(p) => PidsThere(s); KillBuries(s, p);
    case Timer => TickKeepsInvariant(s);
    case WaitFor(p) =>
      PidsUntouched(s, e);
      if Wait(s, p).1 {
        DoWaitKeepsInvariant(s, WaitOf(p), WAITING, User);
      }
    case SleepFor(ms) => SleepKeepsInvariant(s, ms);
    case Lock(m) => PidsUntouched(s, e); AcquireKeepsInvariant(s, m);
    case Unlock(m) => PidsUntouched(s, e); ReleaseWakes(s, m); WokenKeepsInvariant(s, Release(s, m));
    case CondWait(c, m) => PidsUntouched(s, e); ConditionWaitKeepsInvariant(s, c, m);
    case CondSignal(c) => PidsUntouched(s, e); SignalKeepsInvariant(s, c);
    case CondBroadcast(c) => PidsUntouched(s, e); BroadcastKeepsInvariant(s, c);
    case SemUp(i) => PidsUntouched(s, e); UpKeepsInvariant(s, i);
    case SemDown(i) => PidsUntouched(s, e); DownKeepsInvariant(s, i);
    case BarrierWait(b) => PidsUntouched(s, e); BarrierKeepsInvariant(s, b);
    case Continue => PidsUntouched(s, e); ContinueKeepsInvariant(s);
  }

  lemma BootQueues(mutexes: nat, sems: seq<int>, conds: nat, goals: seq<int>)
    ensures var s := Boot(mutexes, sems, conds, goals);
      && Shaped(s) && s.current == 0 && !s.panicked && s.pids == InitNodes(MAX_TASK_NUM) && Tsk(s, 0).waitTime == 0
      && forall q :: On(s, q) == []
  {
    var s := Boot(mutexes, sems, conds, goals);
    forall q ensures q in s.queues <==> QueueExists(s, q) {
    }
  }

  lemma BootIsConsistent(mutexes: nat, sems: seq<int>, conds: nat, goals: seq<int>)
    ensures Consistent(Boot(mutexes, sems, conds, goals))
  {
    var s := Boot(mutexes, sems, conds, goals);
    BootQueues(mutexes, sems, conds, goals);
    hide Boot, Slist.Valid, Shaped;
    InitThreads(MAX_TASK_NUM);
    assert |s.pids| == MAX_TASK_NUM by { hide *; BootPids(mutexes, sems, conds, goals); }
    LiveIsLive(s);
    assert forall p :: !IsLive(s, p);
    hide IsLive;
  }

  lemma BootPids(mutexes: nat, sems: seq<int>, conds: nat, goals: seq<int>)
    ensures |Boot(mutexes, sems, conds, goals).pids| == MAX_TASK_NUM
  {
  }

  lemma {:induction false} RunKeepsConsistent(s: Sys, es: seq<Event>)
    requires Consistent(s) && IsRun(s, es)
    ensures Consistent(Final(s, es))
    decreases |es|
  {
    hide Consistent;
    if es != [] {
      EventKeepsConsistent(s, es[0]);
      RunKeepsConsistent(Apply(s, es[0]), es[1..]);
    }
  }

  /** The kernel can be in state s after booting, by events that find a next task. */
  ghost predicate Reachable(s: Sys) {
    exists mutexes: nat, sems: seq<int>, conds: nat, goals: seq<int>, es: seq<Event> ::
      IsRun(Boot(mutexes, sems, conds, goals), es) && s == Final(Boot(mutexes, sems, conds, goals), es)
  }

  /** In every reachable state each live pid is on exactly one queue, once, and that is the queue
      its record names; dead pids are on no queue; and the running task is the boot code or on the
      ready queue, unless the kernel panicked. */
  lemma EveryTaskOnItsQueue(s: Sys)
    requires Reachable(s)
    ensures forall p, q :: p in On(s, q) <==> IsLive(s, p) && Tsk(s, p).queue == q && q in s.queues
    ensures forall q :: Distinct(On(s, q))
    ensures forall p :: IsLive(s, p) ==> p in On(s, Tsk(s, p).queue)
    ensures s.panicked || s.current == 0 || s.current in On(s, Ready)
  {
    var mutexes: nat, sems: seq<int>, conds: nat, goals: seq<int>, es: seq<Event> :|
      IsRun(Boot(mutexes, sems, conds, goals), es) && s == Final(Boot(mutexes, sems, conds, goals), es);
    BootIsConsistent(mutexes, sems, conds, goals);
    RunKeepsConsistent(Boot(mutexes, sems, conds, goals), es);
    assert forall p, q :: p in On(s, q) <==> BelongsOn(s, q, p);
  }
}
