/** The scheduler, the task queues and the blocking primitives as functions on one value: the kernel state.
    Kernel.dfy runs the same operations on linked objects and is proved to compute these functions. */
module Machine {
  import opened Slist

  const MAX_TASK_NUM := 16
  const MAX_LOCKS_NUM := 16
  const TIME_SLICE := 10

  datatype Status = BLOCKED | RUNNING | READY | EXITED | SLEEPING | WAITING

  /** Every queue a task can be on; `WaitOf(p)` holds the tasks that wait for task p to end. */
  datatype QueueId =
    | Ready
    | Sleep
    | WaitOf(pid: int)
    | MutexQ(m: int)
    | SemQ(sem: int)
    | CondQ(cond: int)
    | BarrierQ(barrier: int)

  /** Where a switched-out task goes on when it is selected again: back in user code, inside the retry loop of
      acquire, or in condition_wait just before it calls acquire. */
  datatype Resume = User | Retry(m: int) | Reacquire(m: int)

  datatype Task = Task(
    priority: int, schedulerPriority: int, waitTime: int, awakenedTime: int,
    status: Status, lockNum: int, queue: QueueId, resume: Resume)

  datatype Mutex = Mutex(locked: bool, owner: int)

  datatype Barrier = Barrier(goal: int, arrived: int)

  datatype Sys = Sys(
    queues: map<QueueId, seq<int>>,
    tasks: seq<Task>,
    current: int,
    pids: seq<Node>,
    mutexes: seq<Mutex>,
    sems: seq<int>,
    conds: seq<int>,
    barriers: seq<Barrier>,
    ticks: int,
    panicked: bool)

  // ---------------------------------------------------------------- selection

  datatype Key = Key(priority: int, wait: int)

  /** The selection loops start from priority 1 and waiting time 0. */
  predicate Eligible(k: Key) {
    k.priority > 1 || (k.priority == 1 && k.wait >= 0)
  }

  predicate Less(a: Key, b: Key) {
    a.priority < b.priority || (a.priority == b.priority && a.wait < b.wait)
  }

  /** The index the selection loops end with: the last eligible key that no eligible key
      exceeds, -1 if none is eligible. */
  function Pick(keys: seq<Key>): (i: int)
    ensures -1 <= i < |keys|
  {
    if keys == [] then -1 else
    var last := |keys| - 1;
    var i := Pick(keys[..last]);
    if Eligible(keys[last]) && (i == -1 || !Less(keys[last], keys[i])) then last else i
  }

  // ---------------------------------------------------------------- reading and writing the state

  const NoTask := Task(0, 0, 0, 0, EXITED, 0, Ready, User)
  const NoMutex := Mutex(false, 0)

  predicate IsLive(s: Sys, p: int) {
    |s.pids| == MAX_TASK_NUM && IsValid(s.pids, p, MAX_TASK_NUM)
  }

  function Tsk(s: Sys, p: int): Task {
    if 0 <= p < |s.tasks| then s.tasks[p] else NoTask
  }

  function On(s: Sys, q: QueueId): seq<int> {
    if q in s.queues then s.queues[q] else []
  }

  function Mtx(s: Sys, m: int): Mutex {
    if 0 <= m < |s.mutexes| then s.mutexes[m] else NoMutex
  }

  function SetTask(s: Sys, p: int, t: Task): Sys {
    if 0 <= p < |s.tasks| then s.(tasks := s.tasks[p := t]) else s
  }

  function SetQueue(s: Sys, q: QueueId, l: seq<int>): Sys {
    if q in s.queues then s.(queues := s.queues[q := l]) else s
  }

  function SetMutex(s: Sys, m: int, x: Mutex): Sys {
    if 0 <= m < |s.mutexes| then s.(mutexes := s.mutexes[m := x]) else s
  }

  function SetCond(s: Sys, c: int, n: int): Sys {
    if 0 <= c < |s.conds| then s.(conds := s.conds[c := n]) else s
  }

  function SetSem(s: Sys, i: int, n: int): Sys {
    if 0 <= i < |s.sems| then s.(sems := s.sems[i := n]) else s
  }

  function SetArrived(s: Sys, b: int, n: int): Sys {
    if 0 <= b < |s.barriers| then s.(barriers := s.barriers[b := s.barriers[b].(arrived := n)]) else s
  }

  /** Task p gives mutex m up: its lock count goes down and the mutex is free. */
  function DropLock(s: Sys, p: int, m: int): Sys {
    SetMutex(SetTask(s, p, Tsk(s, p).(lockNum := Tsk(s, p).lockNum - 1)), m, Mutex(false, 0))
  }

  /** The first occurrence of `p` taken out. */
  function Without(l: seq<int>, p: int): seq<int> {
    if l == [] then [] else if l[0] == p then l[1..] else [l[0]] + Without(l[1..], p)
  }

  function Remove(s: Sys, q: QueueId, p: int): Sys {
    SetQueue(s, q, Without(On(s, q), p))
  }

  function Push(s: Sys, q: QueueId, p: int): Sys {
    SetQueue(s, q, On(s, q) + [p])
  }

  /** Every task on `l` has waited once more. */
  function Age(s: Sys, l: seq<int>): Sys {
    s.(tasks := seq(|s.tasks|, p requires 0 <= p < |s.tasks| =>
                  if p in l then s.tasks[p].(waitTime := s.tasks[p].waitTime + 1) else s.tasks[p]))
  }

  function SchedulingKeys(s: Sys, l: seq<int>): seq<Key> {
    seq(|l|, k requires 0 <= k < |l| => Key(Tsk(s, l[k]).schedulerPriority, Tsk(s, l[k]).waitTime))
  }

  function BlockingKeys(s: Sys, l: seq<int>): seq<Key> {
    seq(|l|, k requires 0 <= k < |l| => Key(Tsk(s, l[k]).priority, Tsk(s, l[k]).waitTime))
  }

  /** The counters, the clock and the number of tasks and mutexes are the same. */
  predicate SameCounters(s: Sys, t: Sys) {
    && t.sems == s.sems && t.conds == s.conds && t.barriers == s.barriers && t.ticks == s.ticks
    && |t.tasks| == |s.tasks| && |t.mutexes| == |s.mutexes|
  }

  // ---------------------------------------------------------------- kernel/sched/sched.c

  function Dispatch(s: Sys, p: int): Sys {
    var t := Tsk(s, p);
    var turn := if t.schedulerPriority > 1 then t.schedulerPriority - 1 else t.schedulerPriority;
    SetTask(s, p, t.(schedulerPriority := turn, waitTime := 0, status := RUNNING)).(current := p)
  }

  function Scheduler(s: Sys): (t: Sys)
    ensures t.pids == s.pids && t.queues == s.queues && t.mutexes == s.mutexes && SameCounters(s, t)
  {
    var ready := On(s, Ready);
    if ready == [] then s.(panicked := true) else
    var c := Tsk(s, s.current);
    var s1 := if c.status == RUNNING then SetTask(s, s.current, c.(status := READY)) else s;
    var i := Pick(SchedulingKeys(s, ready));
    Dispatch(Age(s1, ready), if i == -1 then s.current else ready[i])
  }

  /** The running task leaves the ready queue for the tail of `q`; `r` is where it will go on. */
  function Park(s: Sys, q: QueueId, status: Status, r: Resume): Sys {
    var s1 := Push(Remove(s, Ready, s.current), q, s.current);
    SetTask(s1, s.current, Tsk(s1, s.current).(queue := q, status := status, resume := r))
  }

  function DoWait(s: Sys, q: QueueId, status: Status, r: Resume): (t: Sys)
    ensures t.pids == s.pids && SameCounters(s, t)
  {
    Scheduler(Park(s, q, status, r))
  }

  function Wake(s: Sys, q: QueueId, p: int): Sys {
    var s1 := Push(Remove(s, q, p), Ready, p);
    var t := Tsk(s1, p);
    SetTask(s1, p, t.(waitTime := 0, schedulerPriority := t.schedulerPriority + 1, queue := Ready, status := READY))
  }

  function UnblockOne(s: Sys, q: QueueId): (t: Sys)
    ensures t.pids == s.pids && SameCounters(s, t)
  {
    var l := On(s, q);
    var i := Pick(BlockingKeys(s, l));
    if i == -1 then s else Wake(Age(s, l), q, l[i])
  }

  function UnblockAll(s: Sys, q: QueueId): (t: Sys)
    ensures t.pids == s.pids && SameCounters(s, t)
    decreases |On(s, q)|
  {
    var l := On(s, q);
    if l == [] || q == Ready then s else
    var s1 := Wake(s, q, l[0]);
    UnblockAll(s1, q)
  }

  /** The running task notes when it wants to be woken. */
  function SetAlarm(s: Sys, ms: nat): Sys {
    SetTask(s, s.current, Tsk(s, s.current).(awakenedTime := s.ticks + ms / TIME_SLICE))
  }

  function DoSleep(s: Sys, ms: nat): Sys {
    DoWait(SetAlarm(s, ms), Sleep, SLEEPING, User)
  }

  /** The first task on `l` whose time has come, -1 if there is none. */
  function FirstExpired(s: Sys, l: seq<int>): (i: int)
    ensures -1 <= i < |l|
  {
    if l == [] then -1
    else if Tsk(s, l[0]).awakenedTime <= s.ticks then 0
    else var i := FirstExpired(s, l[1..]); if i == -1 then -1 else i + 1
  }

  /** A sleeper goes to the ready queue; it is the running task, not the sleeper, whose status is set. */
  function Rouse(s: Sys, p: int): Sys {
    var s1 := Push(Remove(s, Sleep, p), Ready, p);
    var s2 := SetTask(s1, p, Tsk(s1, p).(queue := Ready));
    SetTask(s2, s2.current, Tsk(s2, s2.current).(status := READY))
  }

  function CheckSleeping(s: Sys): Sys {
    var l := On(s, Sleep);
    var i := FirstExpired(s, l);
    if i == -1 then s else Rouse(s, l[i])
  }

  /** The timer interrupt. */
  function Tick(s: Sys): Sys {
    Scheduler(CheckSleeping(s.(ticks := s.ticks + 1)))
  }

  function InitPcb(s: Sys, priority: int): (r: (Sys, bool)) {
    if !(|s.pids| > 0 && 0 <= s.pids[0].cursor < |s.pids|) then (s, false) else
    var (pids', p) := AllocNode(s.pids);
    if p == 0 then (s, false) else
    var t := Tsk(s, p);
    var s1 := SetTask(s.(pids := pids'), p,
                      t.(lockNum := 0, priority := priority, schedulerPriority := priority, waitTime := 0,
                         queue := Ready, status := READY, resume := User));
    (SetQueue(Push(s1, Ready, p), WaitOf(p), []), true)
  }

  /** The scan of locks[] in kill: from lock `i` on, release what `p` owns while its lock count is positive. */
  function ReleaseLocks(s: Sys, p: int, i: nat): (t: Sys)
    ensures SameCounters(s, t)
    decreases MAX_LOCKS_NUM - i
  {
    if i >= MAX_LOCKS_NUM || Tsk(s, p).lockNum <= 0 then s
    else if Mtx(s, i).owner != p then ReleaseLocks(s, p, i + 1)
    else ReleaseLocks(DropLock(UnblockOne(s, MutexQ(i)), p, i), p, i + 1)
  }

  /** The killed task's pid is freed and it is taken off its queue. */
  function Unlinked(s: Sys, p: int): Sys
    requires |s.pids| > 0
  {
    Remove(s.(pids := FreeNode(s.pids, p).0), Tsk(s, p).queue, p)
  }

  /** The state of a kill just before the scheduler may be called. */
  function Cleared(s: Sys, p: int): (t: Sys)
    requires |s.pids| > 0
    ensures SameCounters(s, t)
  {
    UnblockAll(ReleaseLocks(Unlinked(s, p), p, 0), WaitOf(p))
  }

  function Kill(s: Sys, p: int): (r: (Sys, bool))
    ensures SameCounters(s, r.0)
  {
    if p == 1 || |s.pids| == 0 || !FreeNode(s.pids, p).1 || p < 0 then (s, false) else
    (if s.current == p then Scheduler(Cleared(s, p)) else Cleared(s, p), true)
  }

  function Wait(s: Sys, p: int): (Sys, bool) {
    if !IsLive(s, p) || p == s.current then (s, false)
    else (DoWait(s, WaitOf(p), WAITING, User), true)
  }

  // ---------------------------------------------------------------- kernel/lock/lock.c

  /** One test of the loop in acquire: block again, or take the lock and return. */
  function AcquireLoop(s: Sys, m: int): (t: Sys)
    ensures t.pids == s.pids && SameCounters(s, t)
  {
    if Mtx(s, m).locked then DoWait(s, MutexQ(m), BLOCKED, Retry(m)) else
    var t := Tsk(s, s.current);
    SetMutex(SetTask(s, s.current, t.(lockNum := t.lockNum + 1, resume := User)), m, Mutex(true, s.current))
  }

  function Acquire(s: Sys, m: int): (t: Sys)
    ensures t.pids == s.pids && SameCounters(s, t)
  {
    if Mtx(s, m).owner == s.current then SetTask(s, s.current, Tsk(s, s.current).(resume := User))
    else AcquireLoop(s, m)
  }

  function Release(s: Sys, m: int): (t: Sys)
    ensures t.pids == s.pids && SameCounters(s, t)
  {
    if Mtx(s, m).owner != s.current then s else
    DropLock(UnblockOne(s, MutexQ(m)), s.current, m)
  }

  // ---------------------------------------------------------------- kernel/lock/cond.c, sem.c, barrier.c

  function ConditionWait(s: Sys, c: int, m: int): Sys {
    if !(0 <= c < |s.conds|) then s else
    DoWait(Release(SetCond(s, c, s.conds[c] + 1), m), CondQ(c), BLOCKED, Reacquire(m))
  }

  function Signal(s: Sys, c: int): Sys {
    if !(0 <= c < |s.conds|) || s.conds[c] <= 0 then s else
    UnblockOne(SetCond(s, c, s.conds[c] - 1), CondQ(c))
  }

  function Broadcast(s: Sys, c: int): Sys {
    if !(0 <= c < |s.conds|) || s.conds[c] <= 0 then s else
    UnblockAll(SetCond(s, c, 0), CondQ(c))
  }

  function Up(s: Sys, i: int): Sys {
    if !(0 <= i < |s.sems|) then s else
    var s1 := SetSem(s, i, s.sems[i] + 1);
    if s.sems[i] + 1 <= 0 then UnblockOne(s1, SemQ(i)) else s1
  }

  function Down(s: Sys, i: int): Sys {
    if !(0 <= i < |s.sems|) then s else
    var s1 := SetSem(s, i, s.sems[i] - 1);
    if s.sems[i] - 1 < 0 then DoWait(s1, SemQ(i), BLOCKED, User) else s1
  }

  function Arrive(s: Sys, b: int): Sys {
    if !(0 <= b < |s.barriers|) then s else
    var x := s.barriers[b];
    if x.arrived + 1 == x.goal
    then UnblockAll(SetArrived(s, b, 0), BarrierQ(b))
    else DoWait(SetArrived(s, b, x.arrived + 1), BarrierQ(b), WAITING, User)
  }

  // ---------------------------------------------------------------- runs

  datatype Event =
    | Timer
    | Spawn(priority: int)
    | KillTask(pid: int)
    | WaitFor(pid: int)
    | SleepFor(ms: nat)
    | Lock(m: int)
    | Unlock(m: int)
    | CondWait(cond: int, m: int)
    | CondSignal(cond: int)
    | CondBroadcast(cond: int)
    | SemUp(sem: int)
    | SemDown(sem: int)
    | BarrierWait(barrier: int)
    | Continue

  function Apply(s: Sys, e: Event): Sys {
    match e
    case Timer => Tick(s)
    case Spawn(priority) => InitPcb(s, priority).0
    case KillTask(p) => Kill(s, p).0
    case WaitFor(p) => Wait(s, p).0
    case SleepFor(ms) => DoSleep(s, ms)
    case Lock(m) => Acquire(s, m)
    case Unlock(m) => Release(s, m)
    case CondWait(c, m) => ConditionWait(s, c, m)
    case CondSignal(c) => Signal(s, c)
    case CondBroadcast(c) => Broadcast(s, c)
    case SemUp(i) => Up(s, i)
    case SemDown(i) => Down(s, i)
    case BarrierWait(b) => Arrive(s, b)
    case Continue =>
      match Tsk(s, s.current).resume
      case User => s
      case Retry(m) => AcquireLoop(s, m)
      case Reacquire(m) => Acquire(s, m)
  }

  /** What can happen next: the running task finishes the kernel call it was switched out of, and otherwise makes
      a new call or is interrupted. Before the first dispatch the boot code (pid 0) only spawns and is interrupted. */
  predicate Admitted(s: Sys, e: Event) {
    && !s.panicked
    && (e == Continue <==> Tsk(s, s.current).resume != User)
    && (s.current == 0 ==> e.Timer? || e.Spawn?)
    && (e.Lock? || e.Unlock? || e.CondWait? ==> 0 <= e.m < |s.mutexes|)
    && (e.CondWait? || e.CondSignal? || e.CondBroadcast? ==> 0 <= e.cond < |s.conds|)
    && (e.SemUp? || e.SemDown? ==> 0 <= e.sem < |s.sems|)
    && (e.BarrierWait? ==> 0 <= e.barrier < |s.barriers|)
  }

  /** The event takes the running task off the ready queue. */
  predicate Leaves(s: Sys, e: Event) {
    match e
    case KillTask(p) => p == s.current && p != 1
    case WaitFor(p) => IsLive(s, p) && p != s.current
    case SleepFor(_) => true
    case Lock(m) => Mtx(s, m).owner != s.current && Mtx(s, m).locked
    case CondWait(_, _) => true
    case SemDown(i) => 0 <= i < |s.sems| && s.sems[i] <= 0
    case BarrierWait(b) => 0 <= b < |s.barriers| && s.barriers[b].arrived + 1 != s.barriers[b].goal
    case Continue =>
      (match Tsk(s, s.current).resume
       case User => false
       case Retry(m) => Mtx(s, m).locked
       case Reacquire(m) => Mtx(s, m).owner != s.current && Mtx(s, m).locked)
    case _ => false
  }

  /** What the event does before it takes the running task off: condition_wait releases the mutex, kill the locks of the
      task, and wakes those who wait for it. */
  function BeforeLeaving(s: Sys, e: Event): Sys {
    match e
    case CondWait(c, m) => if 0 <= c < |s.conds| then Release(SetCond(s, c, s.conds[c] + 1), m) else s
    case KillTask(p) => if |s.pids| > 0 then Cleared(s, p) else s
    case _ => s
  }

  /** Besides the running task nobody is ready, or somebody whom the selection can find. */
  predicate Replaceable(s: Sys) {
    var rest := Without(On(s, Ready), s.current);
    || rest == []
    || exists k :: 0 <= k < |rest| && Eligible(Key(Tsk(s, rest[k]).schedulerPriority, Tsk(s, rest[k]).waitTime))
  }

  /** If the event takes the running task off the ready queue, the scheduler finds another one or nobody is left. */
  predicate FindsNext(s: Sys, e: Event) {
    Leaves(s, e) ==> Replaceable(BeforeLeaving(s, e))
  }

  /** It can happen next, and it finds a next task for one that it takes off. */
  predicate Enabled(s: Sys, e: Event) {
    Admitted(s, e) && FindsNext(s, e)
  }

  predicate IsRun(s: Sys, es: seq<Event>)
    decreases |es|
  {
    es == [] || (Enabled(s, es[0]) && IsRun(Apply(s, es[0]), es[1..]))
  }

  /** A run in which anything happens that the kernel lets happen. */
  predicate IsAnyRun(s: Sys, es: seq<Event>)
    decreases |es|
  {
    es == [] || (Admitted(s, es[0]) && IsAnyRun(Apply(s, es[0]), es[1..]))
  }

  function Final(s: Sys, es: seq<Event>): Sys
    decreases |es|
  {
    if es == [] then s else Final(Apply(s, es[0]), es[1..])
  }

  /** The state after init_task has set up the boot task, before it has spawned anything; the mutexes, semaphores,
      conditions and barriers have been initialised. */
  function Boot(mutexes: nat, sems: seq<int>, conds: nat, goals: seq<int>): Sys {
    var qs: set<QueueId> :=
      {Ready, Sleep}
      + (set p | 0 <= p < MAX_TASK_NUM :: WaitOf(p))
      + (set m | 0 <= m < MAX_LOCKS_NUM + mutexes :: MutexQ(m))
      + (set i | 0 <= i < |sems| :: SemQ(i))
      + (set i | 0 <= i < conds :: CondQ(i))
      + (set i | 0 <= i < |goals| :: BarrierQ(i));
    Sys(map q | q in qs :: [],
        seq(MAX_TASK_NUM, _ => NoTask)[0 := NoTask.(status := RUNNING)],
        0,
        InitNodes(MAX_TASK_NUM),
        seq(MAX_LOCKS_NUM + mutexes, _ => NoMutex),
        seq(|sems|, i requires 0 <= i < |sems| => if sems[i] < 0 then 0 else sems[i]),
        seq(conds, _ => 0),
        seq(|goals|, i requires 0 <= i < |goals| => Barrier(if goals[i] < 1 then 1 else goals[i], 0)),
        0,
        false)
  }
}
