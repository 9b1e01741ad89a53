/** What the scheduler and the blocking primitives guarantee over whole runs. */
module Guarantees {
  import opened Sets
  import opened Slist
  import opened Machine
  import opened Selection
  import opened QueueRuns
  import opened SyncRuns
  import opened LockRuns
  import opened KillRuns
  import opened Fairness

  /** The kernel can be in state s after booting, with no kills but harmless ones. */
  ghost predicate Reached(s: Sys) {
    exists mutexes: nat, sems: seq<int>, conds: nat, goals: seq<int>, es: seq<Event> ::
      && IsRun(Boot(mutexes, sems, conds, goals), es) && Tame(Boot(mutexes, sems, conds, goals), es)
      && s == Final(Boot(mutexes, sems, conds, goals), es)
  }

  /** Task p is not killed in the run. */
  ghost predicate Survives(es: seq<Event>, p: int) {
    KillTask(p) !in es
  }

  // ---------------------------------------------------------------- the invariants in every run

  lemma BootCounters(mutexes: nat, sems: seq<int>, conds: nat, goals: seq<int>)
    ensures var s := Boot(mutexes, sems, conds, goals);
      && (forall m :: Mtx(s, m) == NoMutex)
      && (forall c :: 0 <= c < |s.conds| ==> s.conds[c] == 0)
      && (forall i :: 0 <= i < |s.sems| ==> s.sems[i] >= 0)
      && (forall b :: 0 <= b < |s.barriers| ==> s.barriers[b].arrived == 0 && s.barriers[b].goal >= 1)
      && (forall p :: Tsk(s, p).resume == User)
      && s.ticks == 0 && Tsk(s, 0).status == RUNNING && |s.mutexes| == 16 + mutexes && |s.conds| == conds
  {
  }

  lemma BootIsSync(mutexes: nat, sems: seq<int>, conds: nat, goals: seq<int>)
    ensures SyncOk(Boot(mutexes, sems, conds, goals))
  {
    var s := Boot(mutexes, sems, conds, goals);
    BootQueues(mutexes, sems, conds, goals);
    BootCounters(mutexes, sems, conds, goals);
    hide Boot, Shaped;
    forall p ensures CountOk(s, p) {
      if 0 < p < MAX_TASK_NUM {
        forall i | 0 <= i < |s.mutexes| ensures s.mutexes[i].owner == 0 {
          assert Mtx(s, i) == s.mutexes[i];
        }
        NoneOwned(s.mutexes, p);
        assert !IsLive(s, p);
      }
    }
    assert forall p :: !IsLive(s, p);
  }

  lemma ReachedIsSync(s: Sys)
    requires Reached(s)
    ensures Consistent(s) && SyncOk(s)
  {
    hide Consistent, SyncOk;
    var mutexes: nat, sems: seq<int>, conds: nat, goals: seq<int>, es: seq<Event> :|
      && IsRun(Boot(mutexes, sems, conds, goals), es) && Tame(Boot(mutexes, sems, conds, goals), es)
      && s == Final(Boot(mutexes, sems, conds, goals), es);
    BootIsConsistent(mutexes, sems, conds, goals);
    BootIsSync(mutexes, sems, conds, goals);
    RunKeepsSyncIff(Boot(mutexes, sems, conds, goals), es);
    assert es[..|es|] == es;
  }

  /** In every run whose kills are harmless: a mutex is locked exactly while it has an owner; a task's lock count is
      the number of mutexes it owns; and if a mutex is free while tasks are blocked on it, some ready task is about to
      try it again. */
  lemma MutexesInEveryRun(s: Sys, m: int, p: int)
    requires Reached(s)
    ensures Mtx(s, m).locked <==> Mtx(s, m).owner != 0
    ensures IsLive(s, p) ==> Tsk(s, p).lockNum == CountOwned(s.mutexes, p)
    ensures !Mtx(s, m).locked && On(s, MutexQ(m)) != [] ==>
      exists w :: w in On(s, Ready) && Tsk(s, w).resume == Retry(m)
  {
    ReachedIsSync(s);
    hide Consistent;
    assert MutexOk(s, m) && CountOk(s, p);
    if !Mtx(s, m).locked && On(s, MutexQ(m)) != [] {
      var w :| Retrying(s, w, m);
      assert w in On(s, Ready);
    }
  }

  /** In every run whose kills are harmless the counters are what the queues say. */
  lemma CountersInEveryRun(s: Sys, i: int)
    requires Reached(s)
    ensures 0 <= i < |s.conds| ==> s.conds[i] == |On(s, CondQ(i))|
    ensures 0 <= i < |s.sems| ==> |On(s, SemQ(i))| == if s.sems[i] < 0 then -s.sems[i] else 0
    ensures 0 <= i < |s.barriers| ==>
      s.barriers[i].arrived < s.barriers[i].goal && |On(s, BarrierQ(i))| == s.barriers[i].arrived
  {
    ReachedIsSync(s);
    ObjectOk(s, i);
  }

  // ---------------------------------------------------------------- semaphores

  function Count(es: seq<Event>, e: Event): nat
    decreases |es|
  {
    if es == [] then 0 else (if es[0] == e then 1 else 0) + Count(es[1..], e)
  }

  lemma EventSems(s: Sys, e: Event, i: int)
    requires Enabled(s, e)
    ensures |Apply(s, e).sems| == |s.sems|
    ensures 0 <= i < |s.sems| ==>
      Apply(s, e).sems[i] == s.sems[i] + (if e == SemUp(i) then 1 else 0) - (if e == SemDown(i) then 1 else 0)
  {
    hide Scheduler, DoWait, UnblockOne, UnblockAll, Release, AcquireLoop;
  }

  lemma {:induction false} RunSems(s: Sys, es: seq<Event>, i: int)
    requires IsRun(s, es) && 0 <= i < |s.sems|
    ensures |Final(s, es).sems| == |s.sems|
    ensures Final(s, es).sems[i] == s.sems[i] + Count(es, SemUp(i)) - Count(es, SemDown(i))
    decreases |es|
  {
    hide Apply, Enabled;
    if es != [] {
      EventSems(s, es[0], i);
      RunSems(Apply(s, es[0]), es[1..], i);
    }
  }

  /** In every run the value is the initial value, 0 for a negative one, plus the ups less the downs; and no run whose
      kills are harmless lets more downs return than the initial value plus the ups: the downs made so far, less the
      tasks still blocked in one, never exceed it. */
  lemma SemaphoreIsSafe(mutexes: nat, sems: seq<int>, conds: nat, goals: seq<int>, es: seq<Event>, i: int)
    requires IsRun(Boot(mutexes, sems, conds, goals), es) && 0 <= i < |sems|
    ensures var s, t := Boot(mutexes, sems, conds, goals), Final(Boot(mutexes, sems, conds, goals), es);
      var initial := if sems[i] < 0 then 0 else sems[i];
      && |t.sems| == |sems|
      && t.sems[i] == initial + Count(es, SemUp(i)) - Count(es, SemDown(i))
      && (Tame(s, es) ==> Count(es, SemDown(i)) - |On(t, SemQ(i))| <= initial + Count(es, SemUp(i)))
  {
    var s := Boot(mutexes, sems, conds, goals);
    BootSems(mutexes, sems, conds, goals);
    hide Boot, Consistent;
    RunSems(s, es, i);
    if Tame(s, es) {
      assert Reached(Final(s, es));
      CountersInEveryRun(Final(s, es), i);
    }
  }

  lemma BootSems(mutexes: nat, sems: seq<int>, conds: nat, goals: seq<int>)
    ensures var s := Boot(mutexes, sems, conds, goals);
      |s.sems| == |sems| && forall i :: 0 <= i < |sems| ==> s.sems[i] == if sems[i] < 0 then 0 else sems[i]
  {
  }

  /** A down returns at once exactly when the downs before it are fewer than the initial value and the ups together: the
      first `sems[i]` downs of a run do, whatever else happens in it. */
  lemma DownReturnsIff(mutexes: nat, sems: seq<int>, conds: nat, goals: seq<int>, es: seq<Event>, i: int)
    requires IsRun(Boot(mutexes, sems, conds, goals), es) && 0 <= i < |sems|
    requires Enabled(Final(Boot(mutexes, sems, conds, goals), es), SemDown(i))
    ensures var t := Final(Boot(mutexes, sems, conds, goals), es);
      var u := Apply(t, SemDown(i));
      var initial := if sems[i] < 0 then 0 else sems[i];
      && (Count(es, SemDown(i)) < initial + Count(es, SemUp(i)) ==>
            u.current == t.current && u.queues == t.queues && u.tasks == t.tasks && u.current in On(u, Ready))
      && (Count(es, SemDown(i)) >= initial + Count(es, SemUp(i)) ==>
            t.current !in On(u, Ready) && On(u, SemQ(i)) == On(t, SemQ(i)) + [t.current])
  {
    var s := Boot(mutexes, sems, conds, goals);
    BootIsConsistent(mutexes, sems, conds, goals);
    SemaphoreIsSafe(mutexes, sems, conds, goals, es, i);
    hide Boot, Consistent, Count;
    RunKeepsConsistent(s, es);
    DownIs(Final(s, es), i);
  }

  lemma DownIs(t: Sys, i: int)
    requires Consistent(t) && Enabled(t, SemDown(i)) && t.current != 0
    ensures var u := Apply(t, SemDown(i));
      && (t.sems[i] > 0 ==>
            u.current == t.current && u.queues == t.queues && u.tasks == t.tasks && u.current in On(u, Ready))
      && (t.sems[i] <= 0 ==> t.current !in On(u, Ready) && On(u, SemQ(i)) == On(t, SemQ(i)) + [t.current])
  {
    hide Core, NobodyWaitsForDead, Slist.Valid, DoWait, Replaceable;
    if t.sems[i] <= 0 {
      var t1 := SetSem(t, i, t.sems[i] - 1);
      SetKeepsSettled(t, i, t.sems[i] - 1);
      CounterQueuesExist(t, i, t.sems[i] - 1);
      DoWaitEffect(t1, SemQ(i), BLOCKED, User);
      QueueFacts(t1, Ready);
      WithoutElems(On(t1, Ready), t.current);
    }
  }

  // ---------------------------------------------------------------- barriers

  /** A task leaves a barrier alive only together with everybody else on it, in the event in which the last of `goal`
      tasks of the round arrives. */
  lemma LeavesWhenFull(s: Sys, e: Event, b: int, p: int)
    requires Consistent(s) && SyncOk(s) && Enabled(s, e) && e != KillTask(p) && 0 <= b < |s.barriers|
    requires p in On(s, BarrierQ(b)) && p !in On(Apply(s, e), BarrierQ(b))
    ensures e == BarrierWait(b)
    ensures |On(s, BarrierQ(b))| + 1 == s.barriers[b].goal && On(Apply(s, e), BarrierQ(b)) == []
  {
    hide Consistent, Apply, SyncOk;
    EventAffects(s, e, BarrierQ(b));
    ObjectOk(s, b);
    if e.KillTask? {
      OthersStay(s, e.pid, BarrierQ(b), p);
    } else if Waiters(s, BarrierQ(b)) <= Waiters(Apply(s, e), BarrierQ(b)) {
      StaysOn(s, Apply(s, e), BarrierQ(b), p);
    }
  }

  lemma StaysOn(s: Sys, t: Sys, q: QueueId, p: int)
    requires Waiters(s, q) <= Waiters(t, q) && p in On(s, q)
    ensures p in On(t, q)
  {
    var k :| 0 <= k < |On(s, q)| && On(s, q)[k] == p;
    assert Waiters(s, q)[k] == Waiters(t, q)[k];
    assert On(t, q)[k] == p;
  }

  /** A kill takes nobody else off a queue on which nobody waits for a mutex or for the killed task. */
  lemma OthersStay(s: Sys, y: int, q: QueueId, p: int)
    requires Consistent(s) && Enabled(s, KillTask(y)) && p != y && p in On(s, q) && q != Ready
    requires !q.MutexQ? && !q.WaitOf?
    ensures p in On(Apply(s, KillTask(y)), q)
  {
    hide Consistent, Apply, Enabled;
    var t := Apply(s, KillTask(y));
    OnlyLeaves(s, y, q);
    var k :| 0 <= k < |On(s, q)| && On(s, q)[k] == p;
    if Waiters(t, q) == Waiters(s, q) {
      assert On(t, q)[k] == p;
    } else {
      var k' := LeftBehind(Waiters(s, q), y, k);
      assert On(t, q)[k'] == p;
    }
  }

  lemma OnlyLeaves(s: Sys, y: int, q: QueueId)
    requires Consistent(s) && Enabled(s, KillTask(y)) && q != Ready && !q.MutexQ? && !q.WaitOf?
    ensures var ws, wt := Waiters(s, q), Waiters(Apply(s, KillTask(y)), q);
      wt == ws || wt == LeaveQueue(ws, y)
  {
    hide Consistent, Apply, Enabled, Waiters;
    EventAffects(s, KillTask(y), q);
  }

  /** Whoever does not leave keeps its place or moves one forward. */
  lemma LeftBehind(ws: seq<Waiter>, y: int, k: int) returns (k': nat)
    requires 0 <= k < |ws| && ws[k].pid != y
    ensures k' <= k && k' < |LeaveQueue(ws, y)| && LeaveQueue(ws, y)[k'] == ws[k]
  {
    var j := LeaveIsCut(ws, y);
    k' := if j < k then k - 1 else k;
  }

  lemma EventBarrier(s: Sys, e: Event, b: int)
    requires Enabled(s, e)
    ensures |Apply(s, e).barriers| == |s.barriers|
    ensures 0 <= b < |s.barriers| ==>
      Apply(s, e).barriers[b] == if e != BarrierWait(b) then s.barriers[b]
        else var x := s.barriers[b]; x.(arrived := if x.arrived + 1 == x.goal then 0 else x.arrived + 1)
  {
    hide Scheduler, DoWait, UnblockOne, UnblockAll, Release, AcquireLoop;
  }

  /** The tasks that have entered barrier b fill whole rounds of `goal` and the one under way. */
  lemma {:induction false} BarrierRounds(s: Sys, es: seq<Event>, b: int) returns (rounds: nat)
    requires IsRun(s, es) && 0 <= b < |s.barriers|
    requires 0 <= s.barriers[b].arrived < s.barriers[b].goal
    ensures |Final(s, es).barriers| == |s.barriers| && Final(s, es).barriers[b].goal == s.barriers[b].goal
    ensures s.barriers[b].arrived + Count(es, BarrierWait(b))
      == rounds * s.barriers[b].goal + Final(s, es).barriers[b].arrived
    decreases |es|
  {
    hide Apply, Enabled;
    if es == [] {
      rounds := 0;
    } else {
      EventBarrier(s, es[0], b);
      rounds := BarrierRounds(Apply(s, es[0]), es[1..], b);
      if es[0] == BarrierWait(b) && s.barriers[b].arrived + 1 == s.barriers[b].goal {
        assert (rounds + 1) * s.barriers[b].goal == rounds * s.barriers[b].goal + s.barriers[b].goal;
        rounds := rounds + 1;
      }
    }
  }

  /** No task leaves a round of a barrier alive before `goal` tasks have entered it: whenever some task leaves, the
      number of tasks that have entered so far is a multiple of `goal`. */
  lemma RoundIsComplete(mutexes: nat, sems: seq<int>, conds: nat, goals: seq<int>,
          es: seq<Event>, e: Event, b: int, p: int)
    returns (rounds: nat)
    requires IsRun(Boot(mutexes, sems, conds, goals), es) && Tame(Boot(mutexes, sems, conds, goals), es)
    requires Enabled(Final(Boot(mutexes, sems, conds, goals), es), e) && e != KillTask(p) && 0 <= b < |goals|
    requires var t := Final(Boot(mutexes, sems, conds, goals), es);
      p in On(t, BarrierQ(b)) && p !in On(Apply(t, e), BarrierQ(b))
    ensures e == BarrierWait(b)
    ensures Count(es, e) + 1 == rounds * (if goals[b] < 1 then 1 else goals[b])
  {
    hide Boot, Apply, Consistent, SyncOk, Final, IsRun, Enabled, On;
    var s := Boot(mutexes, sems, conds, goals);
    BootBarrier(mutexes, sems, conds, goals, b);
    var before := BarrierRounds(s, es, b);
    var t := Final(s, es);
    assert Reached(t);
    hide Reached;
    ReachedIsSync(t);
    LeavesWhenFull(t, e, b, p);
    CountersInEveryRun(t, b);
    rounds := before + 1;
    NextRound(before, s.barriers[b].goal);
  }

  lemma BootBarrier(mutexes: nat, sems: seq<int>, conds: nat, goals: seq<int>, b: int)
    requires 0 <= b < |goals|
    ensures var s := Boot(mutexes, sems, conds, goals);
      |s.barriers| == |goals| && s.barriers[b] == Barrier(if goals[b] < 1 then 1 else goals[b], 0)
  {
  }

  lemma NextRound(rounds: int, goal: int)
    ensures (rounds + 1) * goal == rounds * goal + goal
  {
  }

  // ---------------------------------------------------------------- a blocked task is not overtaken for ever

  /** What a run does to queue q, as joins, releases and losses. */
  ghost function OpsOn(s: Sys, es: seq<Event>, q: QueueId): seq<QueueOp>
    requires IsRun(s, es)
    decreases |es|
  {
    if es == [] then [] else
    (match EffectOn(s, es[0], q)
     case Stay => []
     case Enter => [Join(Waiter(s.current, Key(Tsk(s, s.current).priority, 0), Tsk(s, s.current).awakenedTime))]
     case TakeOne => [Unblock]
     case TakeAll => []
     case Lose(p) => [Leave(p)]
     case LoseAndTake(p) => [Leave(p), Unblock])
    + OpsOn(Apply(s, es[0]), es[1..], q)
  }

  lemma {:induction false} RunReleases(s: Sys, es: seq<Event>, q: QueueId, x: int) returns (k: nat)
    requires Consistent(s) && IsRun(s, es) && (q.MutexQ? || q.SemQ?)
    requires x in On(s, q) && Released(Waiters(s, q), OpsOn(s, es, q), x)
    ensures k <= |es| && x !in On(Final(s, es[..k]), q)
    decreases |es|
  {
    hide Consistent, Apply, Waiters, OpsOn, Released, Final, IsRun, On;
    FirstStepReleases(s, es, q, x);
    var t := Apply(s, es[0]);
    if x !in On(t, q) {
      k := 1;
      FinalAfter(s, es, 0);
    } else {
      k := RunReleases(t, es[1..], q, x);
      FinalAfter(s, es, k);
      k := k + 1;
    }
  }

  lemma FirstStepReleases(s: Sys, es: seq<Event>, q: QueueId, x: int)
    requires Consistent(s) && IsRun(s, es) && (q.MutexQ? || q.SemQ?)
    requires Released(Waiters(s, q), OpsOn(s, es, q), x)
    ensures es != [] && Consistent(Apply(s, es[0])) && IsRun(Apply(s, es[0]), es[1..])
    ensures x in On(Apply(s, es[0]), q) ==> Released(Waiters(Apply(s, es[0]), q), OpsOn(Apply(s, es[0]), es[1..], q), x)
  {
    ReleasedTakesEvents(s, es, q, x);
    hide Consistent, Apply, Waiters, OpsOn, Released, Affected, EffectOn, Enabled, On;
    EventKeepsConsistent(s, es[0]);
    EventAffects(s, es[0], q);
    if x in On(Apply(s, es[0]), q) {
      StillWaiting(s, es, q, x);
    }
  }

  lemma FinalAfter(s: Sys, es: seq<Event>, k: nat)
    requires k < |es|
    ensures Final(s, es[..k + 1]) == Final(Apply(s, es[0]), es[1..][..k])
    ensures k == 0 ==> Final(s, es[..1]) == Apply(s, es[0])
  {
    assert es[..k + 1][1..] == es[1..][..k];
  }

  lemma ReleasedTakesEvents(s: Sys, es: seq<Event>, q: QueueId, x: int)
    requires IsRun(s, es) && Released(Waiters(s, q), OpsOn(s, es, q), x)
    ensures es != []
  {}

  /** If the first event does not take x off the queue, a later one does. */
  lemma StillWaiting(s: Sys, es: seq<Event>, q: QueueId, x: int)
    requires Consistent(s) && IsRun(s, es) && es != [] && (q.MutexQ? || q.SemQ?)
    requires Released(Waiters(s, q), OpsOn(s, es, q), x) && x in On(Apply(s, es[0]), q)
    requires Waiters(Apply(s, es[0]), q) == Affected(s, q, EffectOn(s, es[0], q))
    ensures Released(Waiters(Apply(s, es[0]), q), OpsOn(Apply(s, es[0]), es[1..], q), x)
  {
    assert Distinct(On(s, q)) by { QueueFacts(s, q); }
    hide Consistent, Apply;
    var ops, rest := OpsOn(s, es, q), OpsOn(Apply(s, es[0]), es[1..], q);
    match EffectOn(s, es[0], q)
    case Stay => assert ops == rest;
    case Enter => assert ops[1..] == rest;
    case TakeOne =>
      assert ops[1..] == rest;
      TakenIsGone(On(s, q), Waiters(s, q), On(Apply(s, es[0]), q));
    case Lose(y) => assert ops[1..] == rest;
    case LoseAndTake(y) =>
      assert ops[1..][1..] == rest;
      assert !Released(Waiters(s, q), [], x);
      LeaversAreGone(Waiters(s, q), y);
      TakenIsGone(PidsOf(QueueStep(Waiters(s, q), Leave(y))), QueueStep(Waiters(s, q), Leave(y)),
        On(Apply(s, es[0]), q));
  }

  function PidsOf(ws: seq<Waiter>): seq<int> {
    seq(|ws|, k requires 0 <= k < |ws| => ws[k].pid)
  }

  lemma LeaversAreGone(ws: seq<Waiter>, y: int)
    requires Distinct(PidsOf(ws))
    ensures Distinct(PidsOf(QueueStep(ws, Leave(y))))
  {
    var j := LeaveIsCut(ws, y);
    CutIsDistinct(PidsOf(ws), PidsOf(LeaveQueue(ws, y)), j);
  }

  lemma CutIsDistinct(l: seq<int>, next: seq<int>, j: nat)
    requires Distinct(l) && |next| <= |l|
    requires forall k :: 0 <= k < |next| ==> (k < j || k + 1 < |l|) && next[k] == l[if k < j then k else k + 1]
    ensures Distinct(next)
  {}

  /** Whoever do_unblock_one takes is not on the queue any more. */
  lemma TakenIsGone(l: seq<int>, ws: seq<Waiter>, l': seq<int>)
    requires Distinct(l) && |l| == |ws| && forall k :: 0 <= k < |l| ==> ws[k].pid == l[k]
    requires |l'| == |QueueStep(ws, Unblock)| && forall k :: 0 <= k < |l'| ==> QueueStep(ws, Unblock)[k].pid == l'[k]
    ensures Pick(WaiterKeys(ws)) != -1 ==> ws[Pick(WaiterKeys(ws))].pid !in l'
  {
    var i := Pick(WaiterKeys(ws));
    if i != -1 {
      forall k | 0 <= k < |l'| ensures l'[k] != l[i] {
        assert l'[k] == l[if k < i then k else k + 1];
      }
    }
  }

  /** A task that the run does not kill leaves no queue by being killed. */
  lemma {:induction false} SparedInRun(s: Sys, es: seq<Event>, q: QueueId, x: int)
    requires IsRun(s, es) && Survives(es, x)
    ensures Spared(OpsOn(s, es, q), x)
    decreases |es|
  {
    hide Apply, Enabled;
    if es != [] {
      SparedInRun(Apply(s, es[0]), es[1..], q, x);
    }
  }

  /** When every task that is blocked or blocks on a mutex or semaphore has the same priority, whoever is on its queue
      at the next release and is not killed is released within as many releases as the queue is long. */
  lemma ReleasedInTurn(s: Sys, es: seq<Event>, q: QueueId, priority: int, i: int)
    requires Consistent(s) && IsRun(s, es) && (q.MutexQ? || q.SemQ?) && 0 <= i < |On(s, q)| && Survives(es, On(s, q)[i])
    requires Peers(Waiters(s, q), priority) && FreshJoins(OpsOn(s, es, q), priority)
    requires OpsOn(s, es, q) != [] && OpsOn(s, es, q)[0] == Unblock && Unblocks(OpsOn(s, es, q)) >= |On(s, q)|
    ensures exists k :: 0 <= k <= |es| && On(s, q)[i] !in On(Final(s, es[..k]), q)
  {
    hide Consistent;
    SparedInRun(s, es, q, On(s, q)[i]);
    BoundedBypass(Waiters(s, q), priority, i, OpsOn(s, es, q));
    var k := RunReleases(s, es, q, On(s, q)[i]);
  }

  // ---------------------------------------------------------------- sleepers

  /** The first sleeper whose time has come, -1 if there is none. */
  function FirstDue(ws: seq<Waiter>, now: int): (i: int)
    ensures -1 <= i < |ws|
    ensures i == -1 ==> forall k :: 0 <= k < |ws| ==> ws[k].alarm > now
    ensures i != -1 ==> ws[i].alarm <= now && forall k :: 0 <= k < i ==> ws[k].alarm > now
  {
    if ws == [] then -1
    else if ws[0].alarm <= now then 0
    else var i := FirstDue(ws[1..], now); if i == -1 then -1 else i + 1
  }

  function DropAt(ws: seq<Waiter>, i: int): seq<Waiter>
    requires -1 <= i < |ws|
  {
    if i == -1 then ws else ws[..i] + ws[i + 1..]
  }

  lemma {:induction false} ExpiredIsDue(s: Sys, l: seq<int>, ws: seq<Waiter>)
    requires |ws| == |l| && forall k :: 0 <= k < |l| ==> ws[k].alarm == Tsk(s, l[k]).awakenedTime
    ensures FirstExpired(s, l) == FirstDue(ws, s.ticks)
  {
    if l != [] && Tsk(s, l[0]).awakenedTime > s.ticks {
      ExpiredIsDue(s, l[1..], ws[1..]);
    }
  }

  /** The task at position i has left queue q, and nobody else's record has changed. */
  lemma DroppedWaiters(s: Sys, t: Sys, q: QueueId, i: int)
    requires 0 <= i < |On(s, q)| && On(t, q) == On(s, q)[..i] + On(s, q)[i + 1..]
    requires forall x :: WaiterOf(t, x) == WaiterOf(s, x)
    ensures Waiters(t, q) == DropAt(Waiters(s, q), i)
  {
    hide Waiters, WaiterKeys, BlockingKeys, WaiterOf;
    WaitersAt(s, q);
    WaitersAt(t, q);
    var ws, wt := DropAt(Waiters(s, q), i), Waiters(t, q);
    forall k | 0 <= k < |wt| ensures wt[k] == ws[k] {
      assert On(t, q)[k] == On(s, q)[if k < i then k else k + 1];
    }
  }

  lemma SameTasksWait(s: Sys, t: Sys)
    requires forall x :: SameTask(Tsk(s, x), Tsk(t, x))
    ensures forall x :: WaiterOf(t, x) == WaiterOf(s, x)
  {
    forall x ensures WaiterOf(t, x) == WaiterOf(s, x) { assert SameTask(Tsk(s, x), Tsk(t, x)); }
  }

  lemma CheckSleepingDrops(s: Sys)
    requires Core(s)
    ensures Core(CheckSleeping(s))
    ensures Waiters(CheckSleeping(s), Sleep) == DropAt(Waiters(s, Sleep), FirstDue(Waiters(s, Sleep), s.ticks))
  {
    var l, t := On(s, Sleep), CheckSleeping(s);
    ExpiredIsDue(s, l, Waiters(s, Sleep));
    hide Core, Rouse, Waiters, WaiterOf, SameTask, FirstDue;
    var i := FirstExpired(s, l);
    if i != -1 {
      RouseEffect(s, l[i]);
      QueueFacts(s, Sleep);
      WithoutAt(l, i);
      SameTasksWait(s, t);
      DroppedWaiters(s, t, Sleep, i);
    }
  }

  /** A timer tick takes the first expired sleeper off the sleep queue, no other, and keeps the order of the rest. */
  lemma TickDropsFirstExpired(s: Sys)
    requires Core(s) && (s.current in On(s, Sleep) ==> Tsk(s, s.current).waitTime == 0)
    ensures Waiters(Tick(s), Sleep) == DropAt(Waiters(s, Sleep), FirstDue(Waiters(s, Sleep), s.ticks + 1))
    ensures Tick(s).ticks == s.ticks + 1
  {
    var s1 := s.(ticks := s.ticks + 1);
    hide Core, CheckSleeping, Scheduler, Waiters;
    ClockQuiet(s);
    Unaffected(s, s1, Sleep);
    CheckSleepingDrops(s1);
    CheckSleepingCurrent(s1);
    SchedulerAffects(CheckSleeping(s1), Sleep);
    TickTicks(s);
  }

  /** check_sleeping puts nobody to sleep and changes nobody's waiting time. */
  lemma CheckSleepingCurrent(s: Sys)
    requires Core(s)
    ensures var t := CheckSleeping(s);
      && t.current == s.current && t.ticks == s.ticks && (forall p :: p in On(t, Sleep) ==> p in On(s, Sleep))
      && forall p :: Tsk(t, p).waitTime == Tsk(s, p).waitTime && Tsk(t, p).awakenedTime == Tsk(s, p).awakenedTime
  {
    hide Core, Rouse;
    var i := FirstExpired(s, On(s, Sleep));
    if i != -1 {
      RouseEffect(s, On(s, Sleep)[i]);
      WithoutElems(On(s, Sleep), On(s, Sleep)[i]);
    }
  }

  lemma TickTicks(s: Sys)
    ensures Tick(s).ticks == s.ticks + 1
  {
    hide Scheduler;
  }

  /** What any event does to the sleepers. */
  lemma EventSleepers(s: Sys, e: Event)
    requires Consistent(s) && Enabled(s, e)
    ensures var ws, wt := Waiters(s, Sleep), Waiters(Apply(s, e), Sleep);
      if e == Timer then wt == DropAt(ws, FirstDue(ws, s.ticks + 1)) && Apply(s, e).ticks == s.ticks + 1
      else if e.KillTask? then (wt == ws || wt == LeaveQueue(ws, e.pid)) && Apply(s, e).ticks == s.ticks
      else ws <= wt && Apply(s, e).ticks == s.ticks
  {
    hide Core, NobodyWaitsForDead, Slist.Valid, Waiters;
    hide Tick, DoSleep, DoWait, UnblockOne, UnblockAll, AcquireLoop, Release, Kill;
    if e == Timer {
      TickDropsFirstExpired(s);
    } else if e.SleepFor? {
      SleepAffects(s, e.ms, Sleep);
      SleepTicks(s, e.ms);
    } else {
      EventAffects(s, e, Sleep);
    }
  }

  lemma SleepTicks(s: Sys, ms: nat)
    ensures DoSleep(s, ms).ticks == s.ticks
  {
    hide DoWait;
  }

  /** A sleeper is never woken early: it leaves the sleep queue alive only in a tick, and then its time has come. */
  lemma NeverWokenEarly(s: Sys, e: Event, i: int)
    requires Consistent(s) && Enabled(s, e) && 0 <= i < |On(s, Sleep)| && e != KillTask(On(s, Sleep)[i])
    requires On(s, Sleep)[i] !in On(Apply(s, e), Sleep)
    ensures e == Timer && Tsk(s, On(s, Sleep)[i]).awakenedTime <= s.ticks + 1
  {
    hide Consistent, Apply;
    EventSleepers(s, e);
    var ws, wt := Waiters(s, Sleep), Waiters(Apply(s, e), Sleep);
    if e == Timer {
      var j := FirstDue(ws, s.ticks + 1);
      if j != i {
        SleepsOn(ws, wt, j, i);
      }
    } else if e.KillTask? {
      OthersStay(s, e.pid, Sleep, On(s, Sleep)[i]);
    } else if ws <= wt {
      StaysOn(s, Apply(s, e), Sleep, On(s, Sleep)[i]);
    }
  }

  /** Dropping position j keeps everybody else. */
  lemma SleepsOn(ws: seq<Waiter>, wt: seq<Waiter>, j: int, i: int)
    requires -1 <= j < |ws| && wt == DropAt(ws, j) && 0 <= i < |ws| && i != j
    ensures var i' := if j != -1 && j < i then i - 1 else i; i' < |wt| && wt[i'] == ws[i]
  {
  }

  /** Once expired at position i of the sleep queue, a task is woken within i + 1 ticks unless it is killed, however
      many go to sleep after it. */
  lemma {:induction false} WokenInTime(s: Sys, es: seq<Event>, i: int)
    requires Consistent(s) && IsRun(s, es) && 0 <= i < |On(s, Sleep)| && Survives(es, On(s, Sleep)[i])
    requires Tsk(s, On(s, Sleep)[i]).awakenedTime <= s.ticks && Count(es, Timer) >= i + 1
    ensures exists k :: 0 <= k <= |es| && On(s, Sleep)[i] !in On(Final(s, es[..k]), Sleep)
    decreases |es|
  {
    hide Consistent, Apply;
    var p, e, t := On(s, Sleep)[i], es[0], Apply(s, es[0]);
    EventKeepsConsistent(s, e);
    EventSleepers(s, e);
    assert es[..1][1..] == [];
    if p in On(t, Sleep) {
      var i' := StillAsleep(s, e, i);
      WokenInTime(t, es[1..], i');
      var k :| 0 <= k <= |es| - 1 && p !in On(Final(t, es[1..][..k]), Sleep);
      assert es[..k + 1][1..] == es[1..][..k];
      assert p !in On(Final(s, es[..k + 1]), Sleep);
    } else {
      assert p !in On(Final(s, es[..1]), Sleep);
    }
  }

  /** An expired sleeper that is still asleep after an event has moved at least one position forward if the event was a
      tick, and never back. */
  lemma StillAsleep(s: Sys, e: Event, i: int) returns (i': int)
    requires Consistent(s) && Enabled(s, e) && 0 <= i < |On(s, Sleep)| && e != KillTask(On(s, Sleep)[i])
    requires Tsk(s, On(s, Sleep)[i]).awakenedTime <= s.ticks && On(s, Sleep)[i] in On(Apply(s, e), Sleep)
    ensures var t := Apply(s, e);
      && 0 <= i' < |On(t, Sleep)| && On(t, Sleep)[i'] == On(s, Sleep)[i]
      && i' <= (if e == Timer then i - 1 else i)
      && Tsk(t, On(t, Sleep)[i']).awakenedTime == Tsk(s, On(s, Sleep)[i]).awakenedTime
      && Tsk(t, On(t, Sleep)[i']).awakenedTime <= t.ticks
  {
    assert Distinct(On(s, Sleep)) by { QueueFacts(s, Sleep); }
    hide Consistent, Apply, Enabled;
    EventSleepers(s, e);
    var ws, wt := Waiters(s, Sleep), Waiters(Apply(s, e), Sleep);
    i' := if e == Timer then i - 1 else i;
    if e.KillTask? && wt != ws {
      i' := LeftBehind(ws, e.pid, i);
    } else if e == Timer {
      NotDropped(ws, FirstDue(ws, s.ticks + 1), i, On(Apply(s, e), Sleep));
    }
    assert wt[i'] == ws[i];
  }

  lemma NotDropped(ws: seq<Waiter>, j: int, i: int, l: seq<int>)
    requires 0 <= j <= i < |ws| && forall a, b :: 0 <= a < b < |ws| ==> ws[a].pid != ws[b].pid
    requires |l| == |ws| - 1 && forall k :: 0 <= k < |l| ==> l[k] == DropAt(ws, j)[k].pid
    requires ws[i].pid in l
    ensures j != i && DropAt(ws, j)[i - 1] == ws[i]
  {
    var k :| 0 <= k < |l| && l[k] == ws[i].pid;
    var source := if k < j then k else k + 1;
    assert DropAt(ws, j)[k] == ws[source];
  }
}
