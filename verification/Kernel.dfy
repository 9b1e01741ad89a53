/** The queues, the scheduler and the blocking primitives as they run: on the table of process control blocks, with
    queues threaded through it. The ghost field `sys` is the abstract state; every procedure is proved to change it
    as the function of the same name in Machine does. */
module Kernel {
  import opened Sets
  import opened Slist
  import opened Machine
  import opened Selection
  import opened QueueRuns
  import opened LockRuns

  const NULL := -1

  /** An entry of the table pcb[]. A pointer to an entry is its index, or NULL. */
  datatype Pcb = Pcb(task: Task, prev: int, next: int)

  datatype Queue = Queue(head: int, tail: int)

  // ---------------------------------------------------------------- a queue threaded through the table

  /** Entry `l[k]` points at its neighbours on the list. */
  ghost predicate Linked(l: seq<int>, table: seq<Pcb>, k: int)
    requires 0 <= k < |l|
  {
    && 0 <= l[k] < |table|
    && table[l[k]].prev == (if k == 0 then NULL else l[k - 1])
    && table[l[k]].next == (if k == |l| - 1 then NULL else l[k + 1])
  }

  /** The queue runs from head to tail through the entries on the list, each once, linked both ways. */
  ghost predicate Threaded(q: Queue, l: seq<int>, table: seq<Pcb>) {
    && Distinct(l)
    && q == (if l == [] then Queue(NULL, NULL) else Queue(l[0], l[|l| - 1]))
    && forall k :: 0 <= k < |l| ==> Linked(l, table, k)
  }

  /** The links of the entries on a list are the same in both tables. */
  ghost predicate SameLinks(l: seq<int>, a: seq<Pcb>, b: seq<Pcb>) {
    |b| == |a| && forall p :: p in l && 0 <= p < |a| ==> b[p].prev == a[p].prev && b[p].next == a[p].next
  }

  /** A queue keeps its shape when the entries on it keep their links. */
  lemma ThreadedKept(q: Queue, l: seq<int>, a: seq<Pcb>, b: seq<Pcb>)
    requires Threaded(q, l, a) && SameLinks(l, a, b)
    ensures Threaded(q, l, b)
  {
    forall k | 0 <= k < |l| ensures Linked(l, b, k) {
      assert Linked(l, a, k);
    }
  }

  /** Nothing but links has changed, and those only in entries on the list or in the entry `item`. */
  ghost predicate OnlyLinks(a: seq<Pcb>, b: seq<Pcb>, l: seq<int>, item: int) {
    && |b| == |a|
    && forall p :: 0 <= p < |a| ==> b[p].task == a[p].task && (p !in l && p != item ==> b[p] == a[p])
  }

  /** No task is on two queues. */
  ghost predicate Apart(s: Sys) {
    forall q, r, p :: p in On(s, q) && p in On(s, r) ==> q == r
  }

  ghost predicate AllThreaded(queues: map<QueueId, Queue>, s: Sys, table: seq<Pcb>) {
    && queues.Keys == s.queues.Keys
    && (forall q :: q in queues ==> Threaded(queues[q], On(s, q), table))
    && Apart(s)
  }

  lemma StillApart(s: Sys, q: QueueId, item: int, l: seq<int>)
    requires Apart(s) && forall p :: p in l ==> p in On(s, q) || p == item
    requires item in On(s, q) || forall r :: item !in On(s, r)
    ensures Apart(SetQueue(s, q, l))
  {
    var t := SetQueue(s, q, l);
    forall r1, r2, p | p in On(t, r1) && p in On(t, r2) ensures r1 == r2 {
      assert r1 == q || p in On(s, r1);
      assert r2 == q || p in On(s, r2);
    }
  }

  /** After a change to queue `q` that touches only entries of that queue and an entry that is on no other queue. */
  lemma OneQueueChanged(queues: map<QueueId, Queue>, s: Sys, a: seq<Pcb>, q: QueueId, item: int,
                        x: Queue, l: seq<int>, b: seq<Pcb>)
    requires AllThreaded(queues, s, a) && q in queues
    requires Threaded(x, l, b) && OnlyLinks(a, b, On(s, q), item)
    requires forall p :: p in l ==> p in On(s, q) || p == item
    requires item in On(s, q) || forall r :: item !in On(s, r)
    ensures AllThreaded(queues[q := x], SetQueue(s, q, l), b)
  {
    hide Threaded;
    StillApart(s, q, item, l);
    forall r | r in queues && r != q ensures Threaded(queues[r], On(s, r), b) {
      forall p | p in On(s, r) ensures p !in On(s, q) && p != item {
        assert p in On(s, q) ==> q == r;
      }
      ThreadedKept(queues[r], On(s, r), a, b);
    }
  }

  lemma PushThreaded(q: Queue, l: seq<int>, a: seq<Pcb>, item: int, b: seq<Pcb>)
    requires Threaded(q, l, a) && item !in l && 0 <= item < |a| == |b|
    requires forall p :: p in l && p != q.tail && 0 <= p < |a| ==> b[p].prev == a[p].prev && b[p].next == a[p].next
    requires l == [] ==> b[item].prev == NULL && b[item].next == NULL
    requires l != [] ==> 0 <= q.tail < |a| && b[q.tail].prev == a[q.tail].prev && b[q.tail].next == item
                         && b[item].prev == q.tail && b[item].next == NULL
    ensures Threaded(if l == [] then Queue(item, item) else q.(tail := item), l + [item], b)
  {
    forall k | 0 <= k < |l + [item]| ensures Linked(l + [item], b, k) {
      if k < |l| {
        assert Linked(l, a, k);
      }
    }
  }

  /** The ends of the queue after the entry at position k is taken out. */
  function EndsWithout(q: Queue, l: seq<int>, k: int): Queue
    requires 0 <= k < |l|
  {
    Queue(if k == 0 then (if |l| == 1 then NULL else l[1]) else q.head,
          if k == |l| - 1 then (if |l| == 1 then NULL else l[k - 1]) else q.tail)
  }

  /** The neighbours of the entry at position k point at each other, and nobody else on the list is touched. */
  ghost predicate Bridged(l: seq<int>, k: int, a: seq<Pcb>, b: seq<Pcb>)
    requires 0 <= k < |l|
  {
    |b| == |a| && forall j :: 0 <= j < |l| && j != k && 0 <= l[j] < |a| ==>
      && b[l[j]].prev == (if j != k + 1 then a[l[j]].prev else if k == 0 then NULL else l[k - 1])
      && b[l[j]].next == (if j != k - 1 then a[l[j]].next else if k == |l| - 1 then NULL else l[k + 1])
  }

  /** What the links around position k say. */
  lemma Around(q: Queue, l: seq<int>, table: seq<Pcb>, k: int)
    requires Threaded(q, l, table) && 0 <= k < |l|
    ensures Distinct(l) && forall j :: 0 <= j < |l| ==> 0 <= l[j] < |table|
    ensures l[k] == q.head <==> k == 0
    ensures l[k] == q.tail <==> k == |l| - 1
    ensures table[l[k]].prev == if k == 0 then NULL else l[k - 1]
    ensures table[l[k]].next == if k == |l| - 1 then NULL else l[k + 1]
  {
    assert Linked(l, table, k);
    forall j | 0 <= j < |l| ensures 0 <= l[j] < |table| {
      assert Linked(l, table, j);
    }
  }

  lemma RemoveThreaded(q: Queue, l: seq<int>, a: seq<Pcb>, k: int, b: seq<Pcb>)
    requires Threaded(q, l, a) && 0 <= k < |l| && Bridged(l, k, a, b)
    ensures Threaded(EndsWithout(q, l, k), l[..k] + l[k + 1..], b)
  {
    var r := l[..k] + l[k + 1..];
    forall i | 0 <= i < |r| ensures Linked(r, b, i) {
      assert Linked(l, a, if i < k then i else i + 1);
    }
  }

  /** The table after entry k of several is taken out. */
  function CutOut(a: seq<Pcb>, l: seq<int>, k: int): seq<Pcb>
    requires 0 <= k < |l| && forall j :: 0 <= j < |l| ==> 0 <= l[j] < |a|
  {
    var before, after := if k > 0 then l[k - 1] else NULL, if k + 1 < |l| then l[k + 1] else NULL;
    var a1 := if k > 0 then a[l[k - 1] := a[l[k - 1]].(next := after)] else a;
    var a2 := if k + 1 < |l| then a1[l[k + 1] := a1[l[k + 1]].(prev := before)] else a1;
    a2[l[k] := a2[l[k]].(prev := NULL, next := NULL)]
  }

  lemma CutOutBridges(l: seq<int>, a: seq<Pcb>, k: int)
    requires 0 <= k < |l| && Distinct(l) && forall j :: 0 <= j < |l| ==> 0 <= l[j] < |a|
    ensures |l| == 1 ==> Bridged(l, k, a, a) && OnlyLinks(a, a, l, l[k])
    ensures Bridged(l, k, a, CutOut(a, l, k)) && OnlyLinks(a, CutOut(a, l, k), l, l[k])
  {}

  // ---------------------------------------------------------------- insertion by priority

  function PriorityAt(table: seq<Pcb>, p: int): int {
    if 0 <= p < |table| then table[p].task.priority else 0
  }

  /** The first position whose entry has at most the given priority, the end if there is none. */
  function Slot(l: seq<int>, table: seq<Pcb>, priority: int): (k: nat)
    ensures k <= |l| && forall j :: 0 <= j < k ==> PriorityAt(table, l[j]) > priority
    ensures k < |l| ==> PriorityAt(table, l[k]) <= priority
  {
    if l == [] || PriorityAt(table, l[0]) <= priority then 0 else 1 + Slot(l[1..], table, priority)
  }

  function Inserted(l: seq<int>, k: nat, item: int): seq<int>
    requires k <= |l|
  {
    l[..k] + [item] + l[k..]
  }

  /** Priorities increase from tail to head. */
  ghost predicate Increasing(l: seq<int>, table: seq<Pcb>) {
    forall i, j :: 0 <= i < j < |l| ==> PriorityAt(table, l[i]) >= PriorityAt(table, l[j])
  }

  lemma InsertedAt(l: seq<int>, k: nat, item: int, j: nat)
    requires k <= |l| && j <= |l|
    ensures |Inserted(l, k, item)| == |l| + 1
    ensures Inserted(l, k, item)[j] == if j < k then l[j] else if j == k then item else l[j - 1]
  {}

  lemma InsertionKeepsOrder(l: seq<int>, table: seq<Pcb>, item: int)
    requires Increasing(l, table)
    ensures Increasing(Inserted(l, Slot(l, table, PriorityAt(table, item)), item), table)
  {
    hide Inserted, PriorityAt;
    var k := Slot(l, table, PriorityAt(table, item));
    var r := Inserted(l, k, item);
    InsertedAt(l, k, item, 0);
    forall i, j | 0 <= i < j < |r| ensures PriorityAt(table, r[i]) >= PriorityAt(table, r[j]) {
      InsertedAt(l, k, item, i);
      InsertedAt(l, k, item, j);
      if i == k && j > k + 1 { assert PriorityAt(table, l[k]) >= PriorityAt(table, l[j - 1]); }
    }
  }

  /** Insertion keeps the order of the queue, and cannot repair one that was out of order. */
  lemma InsertionKeepsOrderIff(l: seq<int>, table: seq<Pcb>, item: int)
    ensures var k := Slot(l, table, PriorityAt(table, item));
      Increasing(Inserted(l, k, item), table) <==> Increasing(l, table)
  {
    hide Inserted, PriorityAt;
    var k := Slot(l, table, PriorityAt(table, item));
    var r := Inserted(l, k, item);
    if Increasing(l, table) { InsertionKeepsOrder(l, table, item); }
    if Increasing(r, table) {
      forall i, j | 0 <= i < j < |l| ensures PriorityAt(table, l[i]) >= PriorityAt(table, l[j]) {
        var x, y := if i < k then i else i + 1, if j < k then j else j + 1;
        InsertedAt(l, k, item, x);
        InsertedAt(l, k, item, y);
        assert PriorityAt(table, r[x]) >= PriorityAt(table, r[y]);
      }
    }
  }

  /** The table after `item` is hooked in between the entries before and after position k. */
  function HookedIn(a: seq<Pcb>, l: seq<int>, k: nat, item: int): seq<Pcb>
    requires k <= |l| && 0 <= item < |a| && forall j :: 0 <= j < |l| ==> 0 <= l[j] < |a|
  {
    var before, after := if k > 0 then l[k - 1] else NULL, if k < |l| then l[k] else NULL;
    var a1 := if k > 0 then a[before := a[before].(next := item)] else a;
    var a2 := if k < |l| then a1[after := a1[after].(prev := item)] else a1;
    a2[item := a2[item].(prev := before, next := after)]
  }

  lemma HookedAt(a: seq<Pcb>, l: seq<int>, k: nat, item: int, p: int)
    requires k <= |l| && 0 <= item < |a| && Distinct(l) && item !in l && 0 <= p < |a|
    requires forall j :: 0 <= j < |l| ==> 0 <= l[j] < |a|
    ensures var b := HookedIn(a, l, k, item);
      && |b| == |a| && b[p].task == a[p].task
      && b[p].prev == (if p == item then (if k > 0 then l[k - 1] else NULL)
                       else if k < |l| && p == l[k] then item else a[p].prev)
      && b[p].next == (if p == item then (if k < |l| then l[k] else NULL)
                       else if k > 0 && p == l[k - 1] then item else a[p].next)
  {
    assert k < |l| ==> l[k] in l;
    assert k > 0 ==> l[k - 1] in l;
  }

  lemma HookedLinks(a: seq<Pcb>, l: seq<int>, k: nat, item: int)
    requires k <= |l| && 0 <= item < |a| && Distinct(l) && item !in l && forall j :: 0 <= j < |l| ==> 0 <= l[j] < |a|
    ensures OnlyLinks(a, HookedIn(a, l, k, item), l, item)
  {
    hide Distinct;
    forall p | 0 <= p < |a| ensures HookedIn(a, l, k, item)[p].task == a[p].task
                                  && (p !in l && p != item ==> HookedIn(a, l, k, item)[p] == a[p]) {
      HookedAt(a, l, k, item, p);
    }
  }

  lemma HookedInThreads(q: Queue, l: seq<int>, a: seq<Pcb>, k: nat, item: int)
    requires Threaded(q, l, a) && k <= |l| && 0 <= item < |a| && item !in l
    ensures forall j :: 0 <= j < |l| ==> 0 <= l[j] < |a|
    ensures var b := HookedIn(a, l, k, item);
      && Threaded(Queue(if k == 0 then item else q.head, if k == |l| then item else q.tail), Inserted(l, k, item), b)
      && OnlyLinks(a, b, l, item)
  {
    hide HookedIn, OnlyLinks, Inserted;
    forall j | 0 <= j < |l| ensures 0 <= l[j] < |a| && l[j] != item { assert Linked(l, a, j); }
    HookedLinks(a, l, k, item);
    var b, r := HookedIn(a, l, k, item), Inserted(l, k, item);
    InsertedAt(l, k, item, 0);
    InsertedAt(l, k, item, |l|);
    forall j | 0 <= j < |r| ensures Linked(r, b, j) {
      InsertedAt(l, k, item, j);
      if j > 0 { InsertedAt(l, k, item, j - 1); }
      if j < |l| { InsertedAt(l, k, item, j + 1); }
      if j < k { assert Linked(l, a, j); }
      if j > k { assert Linked(l, a, j - 1); }
      HookedAt(a, l, k, item, r[j]);
    }
    forall i, j | 0 <= i < j < |r| ensures r[i] != r[j] {
      InsertedAt(l, k, item, i);
      InsertedAt(l, k, item, j);
    }
  }

  lemma EndsInRange(q: Queue, l: seq<int>, table: seq<Pcb>)
    requires Threaded(q, l, table)
    ensures q.head == NULL <==> l == []
    ensures l != [] ==> 0 <= q.head < |table| && 0 <= q.tail < |table| && q.head in l && q.tail in l
    ensures forall p :: p in l ==> 0 <= p < |table|
  {
    if l != [] {
      assert Linked(l, table, 0) && Linked(l, table, |l| - 1);
    }
    forall p | p in l ensures 0 <= p < |table| {
      var k :| 0 <= k < |l| && l[k] == p;
      assert Linked(l, table, k);
    }
  }

  lemma EndsAre(q: Queue, l: seq<int>, table: seq<Pcb>)
    requires Threaded(q, l, table)
    ensures q == if l == [] then Queue(NULL, NULL) else Queue(l[0], l[|l| - 1])
  {}

  lemma LinksKeepTasks(a: seq<Pcb>, b: seq<Pcb>, l: seq<int>, item: int)
    requires OnlyLinks(a, b, l, item)
    ensures |a| == |b| && forall k :: 0 <= k < |a| ==> b[k].task == a[k].task
  {}

  lemma AllApart(queues: map<QueueId, Queue>, s: Sys, table: seq<Pcb>)
    requires AllThreaded(queues, s, table)
    ensures Apart(s)
  {
  }

  lemma AtQueue(queues: map<QueueId, Queue>, s: Sys, table: seq<Pcb>, q: QueueId)
    requires AllThreaded(queues, s, table) && q in queues
    ensures q in s.queues && Threaded(queues[q], On(s, q), table)
    ensures queues[q].head == NULL <==> On(s, q) == []
    ensures On(s, q) != [] ==>
      && 0 <= queues[q].head < |table| && 0 <= queues[q].tail < |table|
      && queues[q].head in On(s, q) && queues[q].tail in On(s, q)
    ensures forall p :: p in On(s, q) ==> 0 <= p < |table|
  {
    EndsInRange(queues[q], On(s, q), table);
  }

  /** Aging the next task of the list, whoever is running. */
  lemma AgedCurrent(s: Sys, l: seq<int>, k: int, c: int)
    requires 0 <= k < |l| && Distinct(l)
    ensures var t := Age(s, l[..k]).(current := c);
      SetTask(t, l[k], Tsk(t, l[k]).(waitTime := Tsk(t, l[k]).waitTime + 1)) == Age(s, l[..k + 1]).(current := c)
  {
    AgeStep(s, l, k);
    hide Age;
    AgeShape(s);
  }

  lemma BootFields(userMutexes: nat, values: seq<int>, conditions: nat, goals: seq<int>)
    ensures var s := Boot(userMutexes, values, conditions, goals);
      && |s.tasks| == MAX_TASK_NUM && s.current == 0 && s.ticks == 0 && !s.panicked
      && s.pids == InitNodes(MAX_TASK_NUM) && forall q :: On(s, q) == []
  {
  }

  /** Empty queues are threaded through any table. */
  lemma EmptyThreaded(s: Sys, queues: map<QueueId, Queue>, table: seq<Pcb>)
    requires queues.Keys == s.queues.Keys && forall q :: On(s, q) == []
    requires forall q :: q in queues ==> queues[q] == Queue(NULL, NULL)
    ensures AllThreaded(queues, s, table)
  {
  }

  /** The three steps of the scheduler: the running task becomes ready, everybody ages, the choice is dispatched. */
  lemma SchedulerSteps(s: Sys)
    ensures var l := On(s, Ready);
      var s1 := if Tsk(s, s.current).status == RUNNING
                then SetTask(s, s.current, Tsk(s, s.current).(status := READY)) else s;
      var i := Pick(SchedulingKeys(s, l));
      Scheduler(s) == if l == [] then s.(panicked := true)
                      else Dispatch(Age(s1, l), if i == -1 then s.current else l[i])
  {
  }

  lemma AgeShape(s: Sys)
    ensures Age(s, []) == s
    ensures forall l :: Age(s, l) == s.(tasks := Age(s, l).tasks) && |Age(s, l).tasks| == |s.tasks|
  {
  }

  lemma KeysAre(s: Sys, l: seq<int>)
    ensures |SchedulingKeys(s, l)| == |l|
    ensures forall k :: 0 <= k < |l| ==>
      SchedulingKeys(s, l)[k] == Key(Tsk(s, l[k]).schedulerPriority, Tsk(s, l[k]).waitTime)
  {
  }

  lemma BlockingKeysAre(s: Sys, l: seq<int>)
    ensures |BlockingKeys(s, l)| == |l|
    ensures forall k :: 0 <= k < |l| ==> BlockingKeys(s, l)[k] == Key(Tsk(s, l[k]).priority, Tsk(s, l[k]).waitTime)
  {
  }

  /** In whichever order the record and the queues are updated. */
  lemma WakeInOrder(s: Sys, q: QueueId, p: int)
    requires 0 <= p < |s.tasks|
    ensures var t := Tsk(s, p);
      var s1 := SetTask(s, p, t.(waitTime := 0, schedulerPriority := t.schedulerPriority + 1));
      var s2 := Push(Remove(s1, q, p), Ready, p);
      SetTask(s2, p, Tsk(s2, p).(queue := Ready, status := READY)) == Wake(s, q, p)
  {
    hide Without;
  }

  /** A pid that is not in use is on no queue and nobody waits for it. */
  lemma UnusedPid(s: Sys, p: int)
    requires Invariant(s) && 0 < p < MAX_TASK_NUM && !IsLive(s, p)
    ensures (forall q :: p !in On(s, q)) && On(s, WaitOf(p)) == [] && QueueExists(s, WaitOf(p)) && Shaped(s)
  {
    forall q ensures p !in On(s, q) {
      assert p in On(s, q) <==> BelongsOn(s, q, p);
    }
  }

  lemma FreeKeepsValid(s: seq<Node>, index: int)
    requires Slist.Valid(s) && |s| > 0
    ensures Slist.Valid(FreeNode(s, index).0) && |FreeNode(s, index).0| == |s|
  {
    FreePushes(s, index);
  }

  lemma LiveIsQueued(s: Sys, p: int)
    requires Core(s) && IsLive(s, p)
    ensures 0 < p < MAX_TASK_NUM && p in On(s, Tsk(s, p).queue) && QueueExists(s, Tsk(s, p).queue)
    ensures QueueExists(s, WaitOf(p))
  {
    assert BelongsOn(s, Tsk(s, p).queue, p);
  }

  /** kill succeeds exactly on live tasks other than the first; otherwise nothing happens. */
  lemma KillSucceeds(s: Sys, p: int)
    requires Consistent(s) && !s.panicked && s.current != 0
    ensures |s.pids| == MAX_TASK_NUM
    ensures Machine.Kill(s, p).1 <==> p != 1 && IsLive(s, p)
    ensures !Machine.Kill(s, p).1 ==> Machine.Kill(s, p).0 == s
    ensures FreeNode(s.pids, p).1 <==> IsLive(s, p)
    ensures !FreeNode(s.pids, p).1 ==> FreeNode(s.pids, p).0 == s.pids
  {
    hide OneQueueEach, AllFit, NobodyWaitsForDead, Settled, Slist.Valid, Machine.Kill;
    KillBuries(s, p);
    FreePushes(s.pids, p);
    LiveIsLive(s);
  }

  /** What kill relies on once the pid is free. */
  lemma KillFacts(s: Sys, p: int)
    requires Consistent(s) && IsLive(s, p)
    ensures |s.pids| == MAX_TASK_NUM && 0 < p < MAX_TASK_NUM
    ensures var t := s.(pids := FreeNode(s.pids, p).0);
      && Shaped(t) && p in On(t, Tsk(t, p).queue) && QueueExists(t, Tsk(t, p).queue) && QueueExists(t, WaitOf(p))
    ensures Core(Unlinked(s, p)) && !IsLive(Unlinked(s, p), p)
  {
    hide OneQueueEach, AllFit, NobodyWaitsForDead, Settled, Slist.Valid, Remove;
    UnlinkedIsGone(s, p);
    GoneKeepsCore(s, Unlinked(s, p), p);
    LiveIsQueued(s, p);
    FreePushes(s.pids, p);
  }

  lemma InitFails(s: Sys, priority: int)
    requires |s.pids| == MAX_TASK_NUM && 0 <= s.pids[0].cursor < MAX_TASK_NUM && AllocNode(s.pids).1 == 0
    ensures Machine.InitPcb(s, priority) == (s, false) && AllocNode(s.pids).0 == s.pids
  {
  }

  /** init_pcb fills in the record, queues it, fills in the rest and empties the wait queue. */
  lemma InitSteps(s: Sys, priority: int)
    requires |s.pids| == MAX_TASK_NUM && 0 <= s.pids[0].cursor < MAX_TASK_NUM && 0 < AllocNode(s.pids).1 < |s.tasks|
    ensures var (pids', p) := AllocNode(s.pids);
      var s1 := s.(pids := pids');
      var s2 := SetTask(s1, p, Tsk(s1, p).(lockNum := 0, priority := priority, schedulerPriority := priority,
                                           waitTime := 0, resume := User));
      var s3 := Push(s2, Ready, p);
      var s4 := SetTask(s3, p, Tsk(s3, p).(queue := Ready, status := READY));
      Machine.InitPcb(s, priority) == (SetQueue(s4, WaitOf(p), []), true)
  {
    var (pids', p) := AllocNode(s.pids);
    var t := Tsk(s, p).(lockNum := 0, priority := priority, schedulerPriority := priority, waitTime := 0,
      resume := User);
    var s1 := s.(pids := pids');
    assert SetTask(SetTask(s1, p, t), p, t.(queue := Ready, status := READY))
        == SetTask(s1, p, t.(queue := Ready, status := READY));
  }

  lemma EmptiedThreaded(queues: map<QueueId, Queue>, s: Sys, table: seq<Pcb>, q: QueueId)
    requires AllThreaded(queues, s, table) && q in queues && On(s, q) == []
    ensures AllThreaded(queues[q := Queue(NULL, NULL)], SetQueue(s, q, []), table)
  {
    assert SetQueue(s, q, []).queues == s.queues;
    assert Threaded(queues[q], On(s, q), table);
  }

  lemma WakeShrinks(s: Sys, q: QueueId, p: int)
    requires q in s.queues && q != Ready && On(s, q) != [] && On(s, q)[0] == p
    ensures |On(Wake(s, q, p), q)| < |On(s, q)|
  {}

  lemma WakeIs(s: Sys, q: QueueId, p: int)
    requires 0 <= p < |s.tasks| && q in s.queues && q != Ready && On(s, q) != [] && On(s, q)[0] == p
    ensures var s1 := Push(Remove(s, q, p), Ready, p);
      var t := Tsk(s1, p);
      SetTask(s1, p, t.(waitTime := 0, schedulerPriority := t.schedulerPriority + 1, queue := Ready, status := READY))
      == Wake(s, q, p)
    ensures |On(Wake(s, q, p), q)| < |On(s, q)|
    ensures UnblockAll(s, q) == UnblockAll(Wake(s, q, p), q)
  {
    hide Push, Remove, SetTask, Tsk;
    WakeShrinks(s, q, p);
  }

  /** The first expired sleeper is the one that a walk from the head meets first. */
  lemma {:induction false} WalkFinds(s: Sys, l: seq<int>, k: int)
    requires 0 <= k <= |l| && forall j :: 0 <= j < k ==> Tsk(s, l[j]).awakenedTime > s.ticks
    requires k < |l| ==> Tsk(s, l[k]).awakenedTime <= s.ticks
    ensures FirstExpired(s, l) == if k < |l| then k else -1
  {
    if k > 0 {
      WalkFinds(s, l[1..], k - 1);
    }
  }

  lemma RouseSteps(s: Sys, p: int)
    requires 0 <= p < |s.tasks|
    ensures var s1 := Push(Remove(s, Sleep, p), Ready, p);
      var s2 := SetTask(s1, p, Tsk(s1, p).(queue := Ready));
      Rouse(s, p) == SetTask(s2, s2.current, Tsk(s2, s2.current).(status := READY))
    ensures var i := FirstExpired(s, On(s, Sleep));
      CheckSleeping(s) == if i == -1 then s else Rouse(s, On(s, Sleep)[i])
  {
  }

  lemma QueueThere(queues: map<QueueId, Queue>, s: Sys, table: seq<Pcb>, q: QueueId)
    requires AllThreaded(queues, s, table) && Shaped(s)
    ensures QueueExists(s, q) <==> q in queues
    ensures Ready in queues && Sleep in queues
  {
    assert QueueExists(s, Ready) && QueueExists(s, Sleep);
  }

  lemma UnblockSteps(s: Sys, q: QueueId)
    ensures On(s, q) == [] ==> UnblockOne(s, q) == s
    ensures var i := Pick(BlockingKeys(s, On(s, q)));
      0 <= i ==> i < |On(s, q)| && UnblockOne(s, q) == Wake(Age(s, On(s, q)), q, On(s, q)[i])
  {
  }

  /** The comparison made for the k-th task against the best of the first k. */
  lemma PickStep(keys: seq<Key>, k: int)
    requires 0 <= k < |keys|
    ensures var i := Pick(keys[..k]);
      -1 <= i < k
      && Pick(keys[..k + 1]) == (if Eligible(keys[k]) && (i == -1 || !Less(keys[k], keys[i])) then k else i)
      && (i != -1 ==> Eligible(keys[i]))
    ensures Pick(keys[..0]) == -1
  {
    assert keys[..k + 1][..k] == keys[..k];
    PickIsLastMax(keys[..k]);
  }

  /** The same comparison, with the best so far as the loop holds it. */
  lemma PickAgain(keys: seq<Key>, k: int, maxPriority: int, maxWaitTime: int)
    requires 0 <= k < |keys|
    requires Key(maxPriority, maxWaitTime) == (var i := Pick(keys[..k]); if 0 <= i < k then keys[i] else Key(1, 0))
    ensures -1 <= Pick(keys[..k]) < k
    ensures Pick(keys[..k + 1]) == if Less(keys[k], Key(maxPriority, maxWaitTime)) then Pick(keys[..k]) else k
  {
    PickStep(keys, k);
  }

  lemma NothingAged(s: Sys, l: seq<int>, keys: seq<Key>)
    ensures l[..0] == [] && keys[..0] == [] && Age(s, l[..0]) == s && Pick(keys[..0]) == -1
  {
    assert l[..0] == [] && keys[..0] == [];
  }

  lemma AgedQueues(s: Sys, l: seq<int>)
    ensures Age(s, l) == s.(tasks := Age(s, l).tasks) && |Age(s, l).tasks| == |s.tasks|
  {
    AgeShape(s);
  }

  lemma KeysSize(s: Sys, l: seq<int>)
    ensures |SchedulingKeys(s, l)| == |l| && |BlockingKeys(s, l)| == |l|
  {}

  lemma KeyAt(s: Sys, l: seq<int>, k: int)
    requires 0 <= k < |l|
    ensures |SchedulingKeys(s, l)| == |l| && |BlockingKeys(s, l)| == |l|
    ensures SchedulingKeys(s, l)[k] == Key(Tsk(s, l[k]).schedulerPriority, Tsk(s, l[k]).waitTime)
    ensures BlockingKeys(s, l)[k] == Key(Tsk(s, l[k]).priority, Tsk(s, l[k]).waitTime)
  {
    KeysAre(s, l);
    BlockingKeysAre(s, l);
  }

  /** Statuses do not enter into the selection. */
  lemma SameKeys(s: Sys, t: Sys, l: seq<int>)
    requires forall p :: Tsk(t, p).schedulerPriority == Tsk(s, p).schedulerPriority
    requires forall p :: Tsk(t, p).waitTime == Tsk(s, p).waitTime
    ensures SchedulingKeys(t, l) == SchedulingKeys(s, l)
  {
  }

  lemma HeadIs(q: Queue, l: seq<int>, table: seq<Pcb>)
    requires Threaded(q, l, table) && l != []
    ensures q.head == l[0]
  {
  }

  /** Changing tasks but no links keeps all queues. */
  lemma TasksChanged(queues: map<QueueId, Queue>, s: Sys, t: Sys, a: seq<Pcb>, b: seq<Pcb>)
    requires AllThreaded(queues, s, a) && t.queues == s.queues && |b| == |a|
    requires forall p :: 0 <= p < |a| ==> b[p].prev == a[p].prev && b[p].next == a[p].next
    ensures AllThreaded(queues, t, b)
  {
    hide Threaded;
    forall q | q in queues ensures Threaded(queues[q], On(t, q), b) {
      ThreadedKept(queues[q], On(s, q), a, b);
    }
    assert forall q :: On(t, q) == On(s, q);
  }

  /** A task taken off its queue is on none. */
  lemma OffAllQueues(s: Sys, q: QueueId, p: int)
    requires Apart(s) && p in On(s, q) && Distinct(On(s, q)) && q in s.queues
    ensures forall r :: p !in On(Remove(s, q, p), r)
  {
    WithoutElems(On(s, q), p);
    forall r ensures p !in On(Remove(s, q, p), r) {
      assert r != q ==> p !in On(s, r);
    }
  }

  lemma AgeStep(s: Sys, l: seq<int>, k: int)
    requires 0 <= k < |l| && Distinct(l)
    ensures Age(s, l[..k + 1])
      == SetTask(Age(s, l[..k]), l[k], Tsk(Age(s, l[..k]), l[k]).(waitTime := Tsk(s, l[k]).waitTime + 1))
    ensures Tsk(Age(s, l[..k]), l[k]) == Tsk(s, l[k])
  {
    assert l[..k + 1] == l[..k] + [l[k]];
    assert l[k] !in l[..k];
  }

  /** An array that holds the elements of s. */
  method ArrayOf<T>(s: seq<T>) returns (a: array<T>)
    ensures a[..] == s && fresh(a)
  {
    a := new T[|s|](i requires 0 <= i < |s| => s[i]);
  }

  /** slist_init on an array of its own. */
  method FreshList(n: nat) returns (l: array<Node>)
    requires 0 < n
    ensures l[..] == InitNodes(n) && Slist.Valid(l[..]) && l.Length == n && fresh(l)
  {
    l := new Node[n];
    Slist.Init(l, n);
    InitThreads(n);
    assert l[..] == l[..n];
  }

  class Machinery {
    const pcb: array<Pcb>
    const pidList: array<Node>
    const mutexes: array<Mutex>
    const sems: array<int>
    const conds: array<int>
    const barriers: array<Barrier>
    var queues: map<QueueId, Queue>
    var current: int
    var ticks: int
    var panicked: bool

    ghost var sys: Sys

    // -------------------------------------------------------------- the representation

    /** The tables hold the abstract state. */
    ghost predicate TablesOk()
      reads this, pcb, pidList, mutexes, sems, conds, barriers
    {
      && conds != sems && pcb.Length == MAX_TASK_NUM && pidList.Length == MAX_TASK_NUM
      && |sys.tasks| == MAX_TASK_NUM && (forall p :: 0 <= p < MAX_TASK_NUM ==> sys.tasks[p] == pcb[p].task)
      && sys.pids == pidList[..] && Slist.Valid(sys.pids)
      && sys.mutexes == mutexes[..] && sys.sems == sems[..] && sys.conds == conds[..] && sys.barriers == barriers[..]
      && sys.current == current && 0 <= current < MAX_TASK_NUM && sys.ticks == ticks && sys.panicked == panicked
    }

    ghost predicate Valid()
      reads this, pcb, pidList, mutexes, sems, conds, barriers
    {
      TablesOk() && AllThreaded(queues, sys, pcb[..])
    }

    /** init_task, with the user's mutexes, semaphores, conditions and barriers initialised as well. */
    constructor (userMutexes: nat, values: seq<int>, conditions: nat, goals: seq<int>)
      ensures Valid() && sys == Boot(userMutexes, values, conditions, goals)
    {
      hide Boot, InitNodes, AllThreaded, Slist.Valid;
      var s := Boot(userMutexes, values, conditions, goals);
      BootFields(userMutexes, values, conditions, goals);
      pcb := new Pcb[MAX_TASK_NUM](p requires 0 <= p < MAX_TASK_NUM => Pcb(s.tasks[p], NULL, NULL));
      var pidList0 := FreshList(MAX_TASK_NUM);
      pidList := pidList0;
      var mutexes0 := ArrayOf(s.mutexes);
      mutexes := mutexes0;
      var sems0 := ArrayOf(s.sems);
      sems := sems0;
      var conds0 := ArrayOf(s.conds);
      conds := conds0;
      var barriers0 := ArrayOf(s.barriers);
      barriers := barriers0;
      queues := map q | q in s.queues :: Queue(NULL, NULL);
      current, ticks, panicked := 0, 0, false;
      sys := s;
      new;
      EmptyThreaded(s, queues, pcb[..]);
      assert TablesOk();
    }

    // -------------------------------------------------------------- kernel/sched/queue.c

    /** Appends `item` to the queue that runs through the entries `l`. */
    method QueuePush(q: QueueId, item: int, ghost l: seq<int>)
      requires q in queues && Threaded(queues[q], l, pcb[..]) && 0 <= item < pcb.Length && item !in l
      modifies this`queues, pcb
      ensures q in queues && queues == old(queues)[q := queues[q]]
      ensures Threaded(queues[q], l + [item], pcb[..]) && OnlyLinks(old(pcb[..]), pcb[..], l, item)
    {
      EndsInRange(queues[q], l, pcb[..]);
      hide Threaded;
      if queues[q].head == NULL {
        queues := queues[q := Queue(item, item)];
        pcb[item] := pcb[item].(next := NULL);
        pcb[item] := pcb[item].(prev := NULL);
      } else {
        var tail := queues[q].tail;
        pcb[tail] := pcb[tail].(next := item);
        pcb[item] := pcb[item].(next := NULL);
        pcb[item] := pcb[item].(prev := tail);
        queues := queues[q := queues[q].(tail := item)];
      }
      PushThreaded(old(queues)[q], l, old(pcb[..]), item, pcb[..]);
    }

    /** Hooks `item` in before the first entry whose priority is not greater. */
    method QueuePushIncreasingly(q: QueueId, item: int, ghost l: seq<int>)
      requires q in queues && Threaded(queues[q], l, pcb[..]) && 0 <= item < pcb.Length && item !in l
      modifies this`queues, pcb
      ensures q in queues && queues == old(queues)[q := queues[q]]
      ensures Threaded(queues[q], Inserted(l, Slot(l, old(pcb[..]), PriorityAt(old(pcb[..]), item)), item), pcb[..])
      ensures OnlyLinks(old(pcb[..]), pcb[..], l, item)
    {
      hide Threaded, OnlyLinks, Inserted;
      ghost var a := pcb[..];
      EndsInRange(queues[q], l, a);
      EndsAre(queues[q], l, a);
      if queues[q].head == NULL {
        queues := queues[q := Queue(item, item)];
        pcb[item] := pcb[item].(next := NULL);
        pcb[item] := pcb[item].(prev := NULL);
        assert pcb[..] == HookedIn(a, l, 0, item);
        HookedInThreads(old(queues)[q], l, a, 0, item);
      } else {
        var t := queues[q].head;
        ghost var k := 0;
        while t != NULL && pcb[t].task.priority > pcb[item].task.priority
          modifies {}
          invariant 0 <= k <= |l| && t == (if k < |l| then l[k] else NULL) && (k < |l| ==> 0 <= t < pcb.Length)
          invariant forall j :: 0 <= j < k ==> PriorityAt(a, l[j]) > PriorityAt(a, item)
          decreases |l| - k
        {
          Around(queues[q], l, a, k);
          t := pcb[t].next;
          k := k + 1;
        }
        HookedInThreads(queues[q], l, a, k, item);
        if k < |l| { Around(queues[q], l, a, k); }
        if t == queues[q].head {
          pcb[t] := pcb[t].(prev := item);
          pcb[item] := pcb[item].(next := t);
          pcb[item] := pcb[item].(prev := NULL);
          queues := queues[q := queues[q].(head := item)];
        } else if t == NULL {
          t := queues[q].tail;
          pcb[t] := pcb[t].(next := item);
          pcb[item] := pcb[item].(prev := t);
          pcb[item] := pcb[item].(next := NULL);
          queues := queues[q := queues[q].(tail := item)];
        } else {
          pcb[pcb[t].prev] := pcb[pcb[t].prev].(next := item);
          pcb[item] := pcb[item].(prev := pcb[t].prev);
          pcb[t] := pcb[t].(prev := item);
          pcb[item] := pcb[item].(next := t);
        }
        assert pcb[..] == HookedIn(a, l, k, item);
      }
    }

    /** Takes out the entry at position k and returns the one after it. */
    method QueueRemove(q: QueueId, item: int, ghost l: seq<int>, ghost k: int) returns (next: int)
      requires q in queues && Threaded(queues[q], l, pcb[..]) && 0 <= k < |l| && l[k] == item
      modifies this`queues, pcb
      ensures q in queues && queues == old(queues)[q := queues[q]]
      ensures Threaded(queues[q], l[..k] + l[k + 1..], pcb[..]) && OnlyLinks(old(pcb[..]), pcb[..], l, item)
      ensures next == if k + 1 < |l| then l[k + 1] else NULL
    {
      hide Threaded, Bridged, OnlyLinks, Distinct;
      Around(queues[q], l, pcb[..], k);
      ghost var a := pcb[..];
      next := pcb[item].next;
      var prev := pcb[item].prev;
      if item == queues[q].head && item == queues[q].tail {
        queues := queues[q := Queue(NULL, NULL)];
      } else {
        if item == queues[q].head {
          queues := queues[q := queues[q].(head := next)];
          pcb[next] := pcb[next].(prev := NULL);
        } else if item == queues[q].tail {
          queues := queues[q := queues[q].(tail := prev)];
          pcb[prev] := pcb[prev].(next := NULL);
        } else {
          pcb[prev] := pcb[prev].(next := next);
          pcb[next] := pcb[next].(prev := prev);
        }
        pcb[item] := pcb[item].(prev := NULL);
        pcb[item] := pcb[item].(next := NULL);
        assert pcb[..] == CutOut(a, l, k);
      }
      CutOutBridges(l, a, k);
      RemoveThreaded(old(queues)[q], l, a, k, pcb[..]);
    }

    /** Takes out the first entry of a queue that is not empty. */
    method QueueDequeue(q: QueueId, ghost l: seq<int>) returns (head: int)
      requires q in queues && Threaded(queues[q], l, pcb[..]) && l != []
      modifies this`queues, pcb
      ensures q in queues && queues == old(queues)[q := queues[q]] && head == l[0]
      ensures Threaded(queues[q], l[1..], pcb[..]) && OnlyLinks(old(pcb[..]), pcb[..], l, head)
    {
      hide Threaded, Bridged, OnlyLinks, Distinct;
      Around(queues[q], l, pcb[..], 0);
      ghost var a := pcb[..];
      head := queues[q].head;
      if pcb[head].next == NULL {
        queues := queues[q := Queue(NULL, NULL)];
      } else {
        var next := pcb[head].next;
        queues := queues[q := queues[q].(head := next)];
        pcb[next] := pcb[next].(prev := NULL);
        pcb[head] := pcb[head].(prev := NULL);
        pcb[head] := pcb[head].(next := NULL);
        assert pcb[..] == CutOut(a, l, 0);
      }
      CutOutBridges(l, a, 0);
      RemoveThreaded(old(queues)[q], l, a, 0, pcb[..]);
      assert l[..0] + l[1..] == l[1..];
    }

    // -------------------------------------------------------------- the queues of the kernel

    method PushTo(q: QueueId, item: int)
      requires Valid() && q in queues && 0 <= item < MAX_TASK_NUM && forall r :: item !in On(sys, r)
      modifies this`queues, this`sys, pcb
      ensures Valid() && queues.Keys == old(queues.Keys) && sys == Push(old(sys), q, item)
    {
      hide AllThreaded, Threaded, Slist.Valid;
      ghost var l := On(sys, q);
      AtQueue(queues, sys, pcb[..], q);
      QueuePush(q, item, l);
      OneQueueChanged(old(queues), sys, old(pcb[..]), q, item, queues[q], l + [item], pcb[..]);
      sys := Push(sys, q, item);
    }

    method RemoveFrom(q: QueueId, item: int) returns (next: int)
      requires Valid() && q in queues && item in On(sys, q)
      modifies this`queues, this`sys, pcb
      ensures Valid() && queues.Keys == old(queues.Keys)
      ensures sys == Remove(old(sys), q, item) && forall r :: item !in On(sys, r)
    {
      hide AllThreaded, Threaded, Slist.Valid, Apart, OnlyLinks;
      ghost var l := On(sys, q);
      AtQueue(queues, sys, pcb[..], q);
      ghost var k :| 0 <= k < |l| && l[k] == item;
      Around(queues[q], l, pcb[..], k);
      next := QueueRemove(q, item, l, k);
      LinksKeepTasks(old(pcb[..]), pcb[..], l, item);
      WithoutAt(l, k);
      OneQueueChanged(old(queues), sys, old(pcb[..]), q, item, queues[q], Without(l, item), pcb[..]);
      sys := Remove(sys, q, item);
      assert Valid();
      AllApart(old(queues), old(sys), old(pcb[..]));
      OffAllQueues(old(sys), q, item);
    }

    /** The record of task p is changed in place. */
    method PutTask(p: int, t: Task)
      requires Valid() && 0 <= p < MAX_TASK_NUM
      modifies this`sys, pcb
      ensures Valid() && sys == SetTask(old(sys), p, t) && pcb[p].task == t
    {
      hide AllThreaded, Slist.Valid;
      pcb[p] := pcb[p].(task := t);
      TasksChanged(queues, sys, SetTask(sys, p, t), old(pcb[..]), pcb[..]);
      sys := SetTask(sys, p, t);
    }

    // -------------------------------------------------------------- kernel/sched/sched.c

    /** The loops over a queue count the waiting time of the task they are at up and go on to the next. */
    method Visit(q: QueueId, p: int, ghost k: int) returns (next: int)
      requires Valid() && q in queues && 0 <= k < |On(sys, q)| && p == On(sys, q)[k]
      modifies this`sys, pcb
      ensures Valid() && 0 <= p < MAX_TASK_NUM
      ensures sys == SetTask(old(sys), p, Tsk(old(sys), p).(waitTime := Tsk(old(sys), p).waitTime + 1))
      ensures next == if k + 1 < |On(sys, q)| then On(sys, q)[k + 1] else NULL
    {
      hide AllThreaded, Slist.Valid;
      AtQueue(queues, sys, pcb[..], q);
      Around(queues[q], On(sys, q), pcb[..], k);
      var t := pcb[p].task;
      PutTask(p, t.(waitTime := t.waitTime + 1));
      AtQueue(queues, sys, pcb[..], q);
      Around(queues[q], On(sys, q), pcb[..], k);
      next := pcb[p].next;
    }

    /** current_running is set. */
    method SetCurrent(p: int)
      requires Valid() && 0 <= p < MAX_TASK_NUM
      modifies this`sys, this`current
      ensures Valid() && sys == old(sys).(current := p) && current == p
    {
      hide AllThreaded, Slist.Valid;
      current := p;
      TasksChanged(queues, sys, sys.(current := p), pcb[..], pcb[..]);
      sys := sys.(current := p);
    }

    /** The task at hand becomes the running one if its key is the greatest so far. */
    method Consider(p: int, t: Task, maxPriority: int, maxWaitTime: int) returns (priority: int, waitTime: int)
      requires Valid() && 0 <= p < MAX_TASK_NUM
      modifies this`sys, this`current
      ensures Valid() && sys == old(sys).(current := current)
      ensures var beats := !Less(Key(t.schedulerPriority, t.waitTime), Key(maxPriority, maxWaitTime));
        && current == (if beats then p else old(current))
        && Key(priority, waitTime)
             == if beats then Key(t.schedulerPriority, t.waitTime) else Key(maxPriority, maxWaitTime)
    {
      hide AllThreaded, TablesOk;
      priority, waitTime := maxPriority, maxWaitTime;
      CurrentIs();
      if t.schedulerPriority > priority {
        SetCurrent(p);
        priority := t.schedulerPriority;
        waitTime := t.waitTime;
      }
      if t.schedulerPriority == priority && t.waitTime >= waitTime {
        SetCurrent(p);
        waitTime := t.waitTime;
      }
    }

    /** One round of the scheduler's loop. */
    method AgeNext(p: int, ghost s: Sys, ghost l: seq<int>, ghost k: int, maxPriority: int, maxWaitTime: int)
      returns (next: int, priority: int, waitTime: int)
      requires Valid() && Ready in queues && l == On(s, Ready) && 0 <= k < |l| && p == l[k] && Distinct(l)
      requires sys == Age(s, l[..k]).(current := current)
      modifies this`sys, this`current, pcb
      ensures Valid() && sys == Age(s, l[..k + 1]).(current := current)
      ensures next == (if k + 1 < |l| then l[k + 1] else NULL) && (k + 1 < |l| ==> 0 <= next < MAX_TASK_NUM)
      ensures var key := Key(Tsk(s, p).schedulerPriority, Tsk(s, p).waitTime);
        var beats := !Less(key, Key(maxPriority, maxWaitTime));
        && current == (if beats then p else old(current))
        && Key(priority, waitTime) == if beats then key else Key(maxPriority, maxWaitTime)
    {
      hide AllThreaded, Slist.Valid, Age, TablesOk, SetTask, Threaded, Distinct, Less;
      AgedQueues(s, l[..k]);
      EntryAt(Ready, k);
      ReadTask(p);
      AgeStep(s, l, k);
      var t := pcb[p].task;
      priority, waitTime := Consider(p, t, maxPriority, maxWaitTime);
      AgedCurrent(s, l, k, current);
      next := Visit(Ready, p, k);
      AgedQueues(s, l[..k + 1]);
      if k + 1 < |l| { EntryAt(Ready, k + 1); }
    }

    /** The loop of the scheduler over the ready queue: everybody ages, the choice becomes the running task. */
    method AgeAndSelect(ghost s: Sys)
      requires Valid() && Ready in queues && sys.queues == s.queues && sys.current == s.current
      requires SchedulingKeys(sys, On(sys, Ready)) == SchedulingKeys(s, On(s, Ready)) && On(s, Ready) != []
      modifies this`sys, this`current, pcb
      ensures Valid()
      ensures var i := Pick(SchedulingKeys(s, On(s, Ready)));
        sys == Age(old(sys), On(s, Ready)).(current := if i == -1 then s.current else On(s, Ready)[i])
    {
      hide AllThreaded, Slist.Valid, Age, SchedulingKeys, TablesOk, Pick, Threaded, Distinct, Less;
      ghost var s1, l, keys, k, best := sys, On(s, Ready), SchedulingKeys(s, On(s, Ready)), 0, -1;
      HeadOf(Ready);
      CurrentIs();
      KeysSize(s, l);
      NothingAged(s1, l, keys);
      EntryAt(Ready, 0);
      var p := queues[Ready].head;
      var maxPriority, maxWaitTime := 1, 0;
      while p != NULL
        invariant Valid() && 0 <= k <= |l| && p == (if k < |l| then l[k] else NULL)
        invariant k < |l| ==> 0 <= p < MAX_TASK_NUM
        invariant sys == Age(s1, l[..k]).(current := current)
        invariant best == Pick(keys[..k]) && -1 <= best < k && current == if best == -1 then s.current else l[best]
        invariant Key(maxPriority, maxWaitTime) == if best == -1 then Key(1, 0) else keys[best]
        decreases |l| - k
      {
        KeyAt(s1, l, k);
        PickAgain(keys, k, maxPriority, maxWaitTime);
        best := if Less(keys[k], Key(maxPriority, maxWaitTime)) then best else k;
        p, maxPriority, maxWaitTime := AgeNext(p, s1, l, k, maxPriority, maxWaitTime);
        k := k + 1;
      }
      assert l[..k] == l && keys[..k] == keys;
    }

    lemma HeadOf(q: QueueId)
      requires Valid() && q in queues
      ensures queues[q].head == if On(sys, q) == [] then NULL else On(sys, q)[0]
      ensures Distinct(On(sys, q))
    {
      AtQueue(queues, sys, pcb[..], q);
    }

    lemma EntryAt(q: QueueId, k: int)
      requires Valid() && q in queues && 0 <= k < |On(sys, q)|
      ensures 0 <= On(sys, q)[k] < MAX_TASK_NUM
    {
      QueueInTable(q);
    }

    lemma QueueInTable(q: QueueId)
      requires Valid() && q in queues
      ensures Distinct(On(sys, q)) && forall j :: 0 <= j < |On(sys, q)| ==> 0 <= On(sys, q)[j] < MAX_TASK_NUM
    {
      AtQueue(queues, sys, pcb[..], q);
      forall j | 0 <= j < |On(sys, q)| ensures 0 <= On(sys, q)[j] < MAX_TASK_NUM {
        assert On(sys, q)[j] in On(sys, q);
      }
    }

    lemma ReadTask(p: int)
      requires Valid() && 0 <= p < MAX_TASK_NUM
      ensures pcb.Length == MAX_TASK_NUM && pcb[p].task == Tsk(sys, p) && |sys.tasks| == MAX_TASK_NUM
      ensures sys.current == current && 0 <= current < MAX_TASK_NUM && sys.ticks == ticks
    {
    }

    method RunScheduler()
      requires Valid() && Ready in queues
      modifies this`sys, this`current, this`panicked, pcb
      ensures Valid() && sys == Scheduler(old(sys))
    {
      hide AllThreaded, Slist.Valid, Age, Scheduler, SchedulingKeys;
      ghost var s := sys;
      SchedulerSteps(s);
      AgeShape(s);
      AtQueue(queues, sys, pcb[..], Ready);
      if queues[Ready].head == NULL {
        panicked := true;
        sys := sys.(panicked := true);
        TasksChanged(queues, s, sys, pcb[..], pcb[..]);
        return;
      }
      if pcb[current].task.status == RUNNING {
        PutTask(current, pcb[current].task.(status := READY));
      }
      SameKeys(s, sys, On(s, Ready));
      AgeAndSelect(s);
      var t := pcb[current].task;
      if t.schedulerPriority > 1 {
        t := t.(schedulerPriority := t.schedulerPriority - 1);
      }
      PutTask(current, t.(waitTime := 0, status := RUNNING));
    }

    /** The running task leaves the ready queue for the tail of queue q; somebody else is dispatched. `r` is where the
        kernel registers saved by do_scheduler will make it go on. */
    method DoWait(q: QueueId, status: Status, r: Resume)
      requires Valid() && Ready in queues && q in queues && q != Ready && current in On(sys, Ready)
      modifies this`sys, this`queues, this`current, this`panicked, pcb
      ensures Valid() && queues.Keys == old(queues.Keys) && sys == Machine.DoWait(old(sys), q, status, r)
    {
      hide AllThreaded, Slist.Valid, Scheduler;
      var p := current;
      ReadTask(p);
      var _ := RemoveFrom(Ready, p);
      PushTo(q, p);
      ReadTask(p);
      PutTask(p, pcb[p].task.(queue := q, status := status, resume := r));
      RunScheduler();
    }

    /** The waiter at hand is selected if its key is the greatest so far. */
    static method ConsiderWaiter(p: int, t: Task, chosen: int, maxPriority: int, maxWaitTime: int)
      returns (selected: int, priority: int, waitTime: int)
      ensures var beats := !Less(Key(t.priority, t.waitTime), Key(maxPriority, maxWaitTime));
        && selected == (if beats then p else chosen)
        && Key(priority, waitTime) == if beats then Key(t.priority, t.waitTime) else Key(maxPriority, maxWaitTime)
    {
      selected, priority, waitTime := chosen, maxPriority, maxWaitTime;
      if t.priority > priority {
        selected := p;
        priority := t.priority;
        waitTime := t.waitTime;
      }
      if t.priority == priority && t.waitTime >= waitTime {
        selected := p;
        waitTime := t.waitTime;
      }
    }

    /** One round of the selection loop. */
    method WaiterNext(q: QueueId, p: int, ghost s: Sys, ghost l: seq<int>, ghost k: int,
                      chosen: int, maxPriority: int, maxWaitTime: int)
      returns (next: int, selected: int, priority: int, waitTime: int)
      requires Valid() && q in queues && l == On(s, q) && 0 <= k < |l| && p == l[k] && Distinct(l)
      requires sys == Age(s, l[..k])
      modifies this`sys, pcb
      ensures Valid() && sys == Age(s, l[..k + 1])
      ensures next == (if k + 1 < |l| then l[k + 1] else NULL) && (k + 1 < |l| ==> 0 <= next < MAX_TASK_NUM)
      ensures var key := Key(Tsk(s, p).priority, Tsk(s, p).waitTime);
        var beats := !Less(key, Key(maxPriority, maxWaitTime));
        && selected == (if beats then p else chosen)
        && Key(priority, waitTime) == if beats then key else Key(maxPriority, maxWaitTime)
    {
      hide AllThreaded, Slist.Valid, Age, TablesOk, SetTask, Threaded, Distinct, Less;
      AgedQueues(s, l[..k]);
      EntryAt(q, k);
      ReadTask(p);
      AgeStep(s, l, k);
      selected, priority, waitTime := ConsiderWaiter(p, pcb[p].task, chosen, maxPriority, maxWaitTime);
      next := Visit(q, p, k);
      AgedQueues(s, l[..k + 1]);
      if k + 1 < |l| { EntryAt(q, k + 1); }
    }

    /** The selection loop of do_unblock_one: everybody ages, the choice is returned. */
    method SelectWaiter(q: QueueId) returns (selected: int)
      requires Valid() && q in queues && 0 <= Pick(BlockingKeys(sys, On(sys, q)))
      modifies this`sys, pcb
      ensures Valid() && sys == Age(old(sys), On(old(sys), q))
      ensures selected == On(old(sys), q)[Pick(BlockingKeys(old(sys), On(old(sys), q)))]
    {
      hide AllThreaded, Slist.Valid, Age, BlockingKeys, TablesOk, Pick, Threaded, Distinct, Less;
      ghost var s, l, keys, k, best := sys, On(sys, q), BlockingKeys(sys, On(sys, q)), 0, -1;
      HeadOf(q);
      KeysSize(s, l);
      NothingAged(s, l, keys);
      if l != [] { EntryAt(q, 0); }
      var p := queues[q].head;
      var maxPriority, maxWaitTime := 1, 0;
      selected := NULL;
      while p != NULL
        invariant Valid() && 0 <= k <= |l| && p == (if k < |l| then l[k] else NULL)
        invariant k < |l| ==> 0 <= p < MAX_TASK_NUM
        invariant sys == Age(s, l[..k])
        invariant best == Pick(keys[..k]) && -1 <= best < k && (best != -1 ==> selected == l[best])
        invariant Key(maxPriority, maxWaitTime) == if best == -1 then Key(1, 0) else keys[best]
        decreases |l| - k
      {
        KeyAt(s, l, k);
        PickAgain(keys, k, maxPriority, maxWaitTime);
        best := if Less(keys[k], Key(maxPriority, maxWaitTime)) then best else k;
        p, selected, maxPriority, maxWaitTime := WaiterNext(q, p, s, l, k, selected, maxPriority, maxWaitTime);
        k := k + 1;
      }
      assert l[..k] == l && keys[..k] == keys;
    }

    /** The waiter p of queue q becomes ready. */
    method MakeReady(q: QueueId, p: int)
      requires Valid() && Ready in queues && q in queues && q != Ready && p in On(sys, q)
      modifies this`sys, this`queues, pcb
      ensures Valid() && queues.Keys == old(queues.Keys) && sys == Wake(old(sys), q, p)
    {
      hide AllThreaded, Slist.Valid, Threaded, Wake;
      QueueInTable(q);
      ReadTask(p);
      WakeInOrder(sys, q, p);
      var t := pcb[p].task.(waitTime := 0);
      PutTask(p, t.(schedulerPriority := t.schedulerPriority + 1));
      var _ := RemoveFrom(q, p);
      PushTo(Ready, p);
      ReadTask(p);
      PutTask(p, pcb[p].task.(queue := Ready, status := READY));
    }

    /** Unblocks the waiter of queue q with the greatest priority and waiting time. The selection must find somebody:
        the source reads an uninitialised pointer when no waiter has a priority of at least 1. */
    method DoUnblockOne(q: QueueId)
      requires Valid() && Ready in queues && q in queues && q != Ready
      requires On(sys, q) != [] ==> 0 <= Pick(BlockingKeys(sys, On(sys, q)))
      modifies this`sys, this`queues, pcb
      ensures Valid() && queues.Keys == old(queues.Keys) && sys == UnblockOne(old(sys), q)
    {
      hide AllThreaded, Slist.Valid, Threaded, Age, BlockingKeys, UnblockOne, Wake;
      AtQueue(queues, sys, pcb[..], q);
      AgeShape(sys);
      UnblockSteps(sys, q);
      if queues[q].head != NULL {
        var selected := SelectWaiter(q);
        MakeReady(q, selected);
      }
    }

    method DoUnblockAll(q: QueueId)
      requires Valid() && Ready in queues && q in queues && q != Ready
      modifies this`sys, this`queues, pcb
      ensures Valid() && queues.Keys == old(queues.Keys) && sys == UnblockAll(old(sys), q)
    {
      hide AllThreaded, Slist.Valid, Threaded, Wake;
      ghost var s := sys;
      AtQueue(queues, sys, pcb[..], q);
      while queues[q].head != NULL
        invariant Valid() && queues.Keys == old(queues.Keys)
        invariant queues[q].head == NULL <==> On(sys, q) == []
        invariant UnblockAll(sys, q) == UnblockAll(s, q)
        decreases |On(sys, q)|
      {
        ghost var before := sys;
        var p := DequeueFrom(q);
        PushTo(Ready, p);
        ReadTask(p);
        var t := pcb[p].task.(waitTime := 0);
        t := t.(schedulerPriority := t.schedulerPriority + 1);
        PutTask(p, t.(queue := Ready, status := READY));
        WakeIs(before, q, p);
        AtQueue(queues, sys, pcb[..], q);
      }
    }

    method DequeueFrom(q: QueueId) returns (head: int)
      requires Valid() && q in queues && On(sys, q) != []
      modifies this`queues, this`sys, pcb
      ensures Valid() && queues.Keys == old(queues.Keys)
      ensures head == On(old(sys), q)[0] && 0 <= head < MAX_TASK_NUM
      ensures sys == Remove(old(sys), q, head) && forall r :: head !in On(sys, r)
    {
      hide AllThreaded, Threaded, Slist.Valid;
      ghost var l := On(sys, q);
      AtQueue(queues, sys, pcb[..], q);
      QueueInTable(q);
      head := QueueDequeue(q, l);
      OneQueueChanged(old(queues), sys, old(pcb[..]), q, head, queues[q], l[1..], pcb[..]);
      AllApart(old(queues), sys, old(pcb[..]));
      OffAllQueues(sys, q, head);
      sys := Remove(sys, q, head);
    }

    /** An expired sleeper goes to the tail of the ready queue, where it has no successor. */
    method RouseSleeper(p: int)
      requires Valid() && Ready in queues && Sleep in queues && p in On(sys, Sleep)
      modifies this`sys, this`queues, pcb
      ensures Valid() && queues.Keys == old(queues.Keys) && sys == Rouse(old(sys), p)
      ensures 0 <= p < pcb.Length && pcb[p].next == NULL
    {
      hide AllThreaded, Slist.Valid, Threaded, Rouse;
      QueueInTable(Sleep);
      ReadTask(p);
      RouseSteps(sys, p);
      var _ := RemoveFrom(Sleep, p);
      AtQueue(queues, sys, pcb[..], Ready);
      ghost var l := On(sys, Ready);
      PushTo(Ready, p);
      ReadTask(p);
      PutTask(p, pcb[p].task.(queue := Ready));
      ReadTask(current);
      PutTask(current, pcb[current].task.(status := READY));
      assert On(sys, Ready) == l + [p];
      LastHasNoNext(Ready);
    }

    method CheckSleeping()
      requires Valid() && Ready in queues && Sleep in queues
      modifies this`sys, this`queues, pcb
      ensures Valid() && queues.Keys == old(queues.Keys) && sys == Machine.CheckSleeping(old(sys))
    {
      hide AllThreaded, Slist.Valid, Threaded, Machine.CheckSleeping, Rouse, TablesOk, Machine.FirstExpired;
      ghost var s, l, k := sys, On(sys, Sleep), 0;
      AtQueue(queues, sys, pcb[..], Sleep);
      QueueInTable(Sleep);
      ReadTask(0);
      if l != [] {
        HeadIs(queues[Sleep], l, pcb[..]);
        RouseSteps(s, l[0]);
      } else {
        WalkFinds(s, l, 0);
        RouseSteps(s, 0);
      }
      var p := queues[Sleep].head;
      while p != NULL
        invariant Valid() && queues.Keys == old(queues.Keys) && 0 <= k <= |l|
        invariant p != NULL ==> sys == s && k < |l| && p == l[k]
        invariant p != NULL ==> forall j :: 0 <= j < k ==> Tsk(s, l[j]).awakenedTime > s.ticks
        invariant p == NULL ==> sys == Machine.CheckSleeping(s)
        decreases |l| - k
      {
        ReadTask(p);
        if pcb[p].task.awakenedTime <= ticks {
          WalkFinds(s, l, k);
          RouseSteps(s, p);
          RouseSleeper(p);
        } else {
          AtQueue(queues, sys, pcb[..], Sleep);
          Around(queues[Sleep], l, pcb[..], k);
          if k + 1 == |l| {
            WalkFinds(s, l, k + 1);
            RouseSteps(s, p);
          }
        }
        p := pcb[p].next;
        k := k + 1;
      }
    }

    /** The last entry of a queue has no successor: this ends the walk in CheckSleeping after one wake-up. */
    lemma LastHasNoNext(q: QueueId)
      requires Valid() && q in queues && On(sys, q) != []
      ensures var p := On(sys, q)[|On(sys, q)| - 1]; 0 <= p < pcb.Length && pcb[p].next == NULL
    {
      AtQueue(queues, sys, pcb[..], q);
      Around(queues[q], On(sys, q), pcb[..], |On(sys, q)| - 1);
    }

    /** The timer interrupt: time passes, sleepers are checked, the scheduler runs. */
    method IrqTimer()
      requires Valid() && Ready in queues && Sleep in queues
      modifies this`sys, this`queues, this`current, this`panicked, this`ticks, pcb
      ensures Valid() && queues.Keys == old(queues.Keys) && sys == Tick(old(sys))
    {
      hide AllThreaded, Slist.Valid, Machine.CheckSleeping, Scheduler;
      ghost var s := sys;
      ticks := ticks + 1;
      sys := sys.(ticks := ticks);
      TasksChanged(queues, s, sys, pcb[..], pcb[..]);
      CheckSleeping();
      RunScheduler();
    }

    method DoSleep(ms: nat)
      requires Valid() && Ready in queues && Sleep in queues && current in On(sys, Ready)
      modifies this`sys, this`queues, this`current, this`panicked, pcb
      ensures Valid() && queues.Keys == old(queues.Keys) && sys == Machine.DoSleep(old(sys), ms)
    {
      hide AllThreaded, Slist.Valid, Machine.DoWait;
      ReadTask(current);
      PutTask(current, pcb[current].task.(awakenedTime := ticks + ms / TIME_SLICE));
      DoWait(Sleep, SLEEPING, User);
    }

    // -------------------------------------------------------------- spawn, kill, wait

    /** The invariant of the kernel: what it is booted into, and what every event keeps that finds a next task. */
    ghost predicate Running()
      reads this, pcb, pidList, mutexes, sems, conds, barriers
    {
      Valid() && Consistent(sys) && ResumeInRange(sys)
    }

    /** queue_init on a queue that is empty anyway. */
    method QueueInit(q: QueueId)
      requires Valid() && q in queues && On(sys, q) == []
      modifies this`queues, this`sys
      ensures Valid() && queues.Keys == old(queues.Keys) && sys == SetQueue(old(sys), q, [])
    {
      hide AllThreaded, Slist.Valid;
      queues := queues[q := Queue(NULL, NULL)];
      EmptiedThreaded(old(queues), sys, pcb[..], q);
      sys := SetQueue(sys, q, []);
    }

    method TakePid() returns (pid: int)
      requires Valid()
      modifies this`sys, pidList
      ensures Valid() && |old(sys).pids| == MAX_TASK_NUM && 0 <= old(sys).pids[0].cursor < MAX_TASK_NUM
      ensures (sys.pids, pid) == AllocNode(old(sys).pids) && sys == old(sys).(pids := sys.pids)
    {
      hide AllThreaded, Slist.Valid;
      PidTaken(sys);
      pid := AllocCell(pidList);
      TasksChanged(queues, sys, sys.(pids := pidList[..]), pcb[..], pcb[..]);
      sys := sys.(pids := pidList[..]);
    }

    /** Spawns a task, if a pid is free. */
    method InitPcb(priority: int) returns (ok: bool)
      requires Running()
      modifies this`sys, this`queues, pcb, pidList
      ensures Valid() && (sys, ok) == Machine.InitPcb(old(sys), priority)
    {
      hide AllThreaded, Slist.Valid, Core, NobodyWaitsForDead, TablesOk, Machine.InitPcb, Settled;
      ghost var s := sys;
      PidsThere(s);
      ghost var born := SpawnBirth(s, priority);
      var pid := TakePid();
      if pid == 0 {
        InitFails(s, priority);
        return false;
      }
      ok := true;
      InitSteps(s, priority);
      UnusedPid(s, pid);
      QueueThere(queues, sys, pcb[..], WaitOf(pid));
      ReadTask(pid);
      PutTask(pid, pcb[pid].task.(lockNum := 0, priority := priority, schedulerPriority := priority, waitTime := 0,
                                  resume := User));
      assert forall r :: On(sys, r) == On(s, r);
      PushTo(Ready, pid);
      ReadTask(pid);
      PutTask(pid, pcb[pid].task.(queue := Ready, status := READY));
      QueueInit(WaitOf(pid));
    }

    method FreePid(pid: int) returns (ok: bool)
      requires Valid()
      modifies this`sys, pidList
      ensures Valid() && |old(sys).pids| == MAX_TASK_NUM
      ensures (sys.pids, ok) == FreeNode(old(sys).pids, pid) && sys == old(sys).(pids := sys.pids)
    {
      hide AllThreaded, Slist.Valid;
      FreeKeepsValid(sys.pids, pid);
      ok := FreeCell(pidList, pid, MAX_TASK_NUM);
      TasksChanged(queues, sys, sys.(pids := pidList[..]), pcb[..], pcb[..]);
      sys := sys.(pids := pidList[..]);
    }

    method PutMutex(m: int, x: Mutex)
      requires Valid() && 0 <= m < mutexes.Length
      modifies this`sys, mutexes
      ensures Valid() && sys == SetMutex(old(sys), m, x)
    {
      hide AllThreaded, Slist.Valid;
      mutexes[m] := x;
      TasksChanged(queues, sys, SetMutex(sys, m, x), pcb[..], pcb[..]);
      sys := SetMutex(sys, m, x);
    }

    lemma MutexThere(m: int)
      requires Valid() && Shaped(sys)
      ensures mutexes.Length == |sys.mutexes| && (0 <= m < mutexes.Length ==> mutexes[m] == Mtx(sys, m))
      ensures 0 <= m < mutexes.Length <==> MutexQ(m) in queues
      ensures Ready in queues && Sleep in queues && mutexes.Length >= MAX_LOCKS_NUM
    {
      QueueThere(queues, sys, pcb[..], MutexQ(m));
    }

    /** The scan of locks[] in kill. */
    method ReleaseOwned(pid: int)
      requires Valid() && Core(sys) && !IsLive(sys, pid) && 0 < pid < MAX_TASK_NUM
      modifies this`sys, this`queues, pcb, mutexes
      ensures Valid() && queues.Keys == old(queues.Keys) && sys == ReleaseLocks(old(sys), pid, 0)
    {
      hide AllThreaded, Slist.Valid, OneQueueEach, AllFit, TablesOk, UnblockOne, DropLock;
      ghost var s := sys;
      var i := 0;
      ReadTask(pid);
      while i < MAX_LOCKS_NUM && pcb[pid].task.lockNum > 0
        invariant Valid() && queues.Keys == old(queues.Keys) && 0 <= i <= MAX_LOCKS_NUM
        invariant Core(sys) && !IsLive(sys, pid) && pcb.Length == MAX_TASK_NUM && pcb[pid].task == Tsk(sys, pid)
        invariant ReleaseLocks(sys, pid, i) == ReleaseLocks(s, pid, 0)
        decreases MAX_LOCKS_NUM - i
      {
        MutexThere(i);
        if mutexes[i].owner == pid {
          ReleaseLockEffect(sys, pid, i);
          TakeBack(pid, i);
        }
        i := i + 1;
        ReadTask(pid);
      }
    }

    /** Mutex m of the dead task p wakes a waiter and is free. */
    method TakeBack(p: int, m: int)
      requires Valid() && Core(sys) && 0 < p < MAX_TASK_NUM && 0 <= m < mutexes.Length
      modifies this`sys, this`queues, pcb, mutexes
      ensures Valid() && queues.Keys == old(queues.Keys) && sys == ReleaseLock(old(sys), p, m)
    {
      hide AllThreaded, Slist.Valid, OneQueueEach, AllFit, UnblockOne, DropLock;
      MutexThere(m);
      if On(sys, MutexQ(m)) != [] {
        SomebodyChosen(sys, MutexQ(m));
      }
      DoUnblockOne(MutexQ(m));
      GiveUp(p, m);
    }

    /** The lock count of task p goes down and mutex m is free. */
    method GiveUp(p: int, m: int)
      requires Valid() && 0 <= p < MAX_TASK_NUM && 0 <= m < mutexes.Length
      modifies this`sys, pcb, mutexes
      ensures Valid() && sys == DropLock(old(sys), p, m)
    {
      hide AllThreaded, Slist.Valid;
      ReadTask(p);
      PutTask(p, pcb[p].task.(lockNum := pcb[p].task.lockNum - 1));
      PutMutex(m, mutexes[m].(owner := 0));
      PutMutex(m, mutexes[m].(locked := false));
    }

    /** kill: the task is taken off its queue, its locks are released, and those who wait for it are woken. */
    method Kill(pid: int) returns (ok: bool)
      requires Running() && !sys.panicked && current != 0
      modifies this`sys, this`queues, this`current, this`panicked, pcb, pidList, mutexes
      ensures Valid() && (sys, ok) == Machine.Kill(old(sys), pid)
    {
      hide AllThreaded, Slist.Valid, Invariant, Shaped, Core, TablesOk, UnblockAll, ReleaseLocks, Scheduler, IsLive,
        Remove, QueueExists;
      ghost var s := sys;
      CurrentIs();
      KillSucceeds(s, pid);
      if pid == 1 {
        return false;
      }
      ok := FreePid(pid);
      if !ok {
        return;
      }
      KillFacts(s, pid);
      ReadTask(pid);
      QueueThere(queues, sys, pcb[..], pcb[pid].task.queue);
      QueueThere(queues, sys, pcb[..], WaitOf(pid));
      var _ := RemoveFrom(pcb[pid].task.queue, pid);
      assert sys == Unlinked(s, pid);
      ReleaseOwned(pid);
      DoUnblockAll(WaitOf(pid));
      if current == pid {
        RunScheduler();
      }
    }

    lemma CurrentIs()
      requires Valid()
      ensures sys.current == current && sys.panicked == panicked && 0 <= current < MAX_TASK_NUM
    {
    }

    /** wait: the running task waits for task `pid` to end. */
    method WaitFor(pid: int) returns (ok: bool)
      requires Running() && !sys.panicked && current != 0
      modifies this`sys, this`queues, this`current, this`panicked, pcb
      ensures Valid() && (sys, ok) == Machine.Wait(old(sys), pid)
    {
      hide AllThreaded, Slist.Valid, OneQueueEach, AllFit, NobodyWaitsForDead, Machine.DoWait;
      CurrentIs();
      if !IsValid(pidList[..], pid, MAX_TASK_NUM) || pid == current {
        return false;
      }
      LiveIsQueued(sys, pid);
      QueueThere(queues, sys, pcb[..], WaitOf(pid));
      DoWait(WaitOf(pid), WAITING, User);
      ok := true;
    }

    // -------------------------------------------------------------- kernel/lock/lock.c

    /** One round of the retry loop: returns false when the task has blocked again. */
    method MutexLockLoop(m: int) returns (acquired: bool)
      requires Running() && !sys.panicked && current != 0 && 0 <= m < mutexes.Length
      modifies this`sys, this`queues, this`current, this`panicked, pcb, mutexes
      ensures Valid() && sys == AcquireLoop(old(sys), m)
      ensures acquired <==> !Mtx(old(sys), m).locked
    {
      hide AllThreaded, Slist.Valid, OneQueueEach, AllFit, NobodyWaitsForDead, Machine.DoWait;
      CurrentIs();
      MutexThere(m);
      ReadTask(current);
      if mutexes[m].locked {
        DoWait(MutexQ(m), BLOCKED, Retry(m));
        return false;
      }
      PutTask(current, pcb[current].task.(lockNum := pcb[current].task.lockNum + 1, resume := User));
      PutMutex(m, mutexes[m].(owner := current));
      PutMutex(m, mutexes[m].(locked := true));
      acquired := true;
    }

    method MutexLockAcquire(m: int)
      requires Running() && !sys.panicked && current != 0 && 0 <= m < mutexes.Length
      modifies this`sys, this`queues, this`current, this`panicked, pcb, mutexes
      ensures Valid() && sys == Acquire(old(sys), m)
    {
      hide AllThreaded, Slist.Valid, Consistent, AcquireLoop;
      CurrentIs();
      MutexRead(m);
      ReadTask(current);
      if mutexes[m].owner == current {
        PutTask(current, pcb[current].task.(resume := User));
        return;
      }
      var _ := MutexLockLoop(m);
    }

    lemma MutexRead(m: int)
      requires Valid() && 0 <= m < mutexes.Length
      ensures mutexes[m] == Mtx(sys, m)
    {
    }

    /** An unblock needs somebody to select: in a consistent state every waiter has run, so it has
        a priority of at least 1. */
    lemma CanUnblock(q: QueueId)
      requires Core(sys) && q != Ready
      ensures On(sys, q) != [] ==> 0 <= Pick(BlockingKeys(sys, On(sys, q)))
    {
      if On(sys, q) != [] {
        SomebodyChosen(sys, q);
      }
    }

    method MutexLockRelease(m: int)
      requires Valid() && Core(sys) && 0 <= m < mutexes.Length
      modifies this`sys, this`queues, pcb, mutexes
      ensures Valid() && queues.Keys == old(queues.Keys) && sys == Release(old(sys), m)
    {
      hide AllThreaded, Slist.Valid, OneQueueEach, AllFit, UnblockOne, DropLock;
      CurrentIs();
      MutexThere(m);
      if mutexes[m].owner != current {
        return;
      }
      CanUnblock(MutexQ(m));
      DoUnblockOne(MutexQ(m));
      GiveUp(current, m);
    }

    // -------------------------------------------------------------- kernel/lock/cond.c, sem.c, barrier.c

    method PutCond(c: int, n: int)
      requires Valid() && 0 <= c < conds.Length
      modifies this`sys, conds
      ensures Valid() && sys == SetCond(old(sys), c, n) && conds[c] == n
    {
      hide AllThreaded, Slist.Valid;
      conds[c] := n;
      TasksChanged(queues, sys, SetCond(sys, c, n), pcb[..], pcb[..]);
      sys := SetCond(sys, c, n);
    }

    method PutSem(i: int, n: int)
      requires Valid() && 0 <= i < sems.Length
      modifies this`sys, sems
      ensures Valid() && sys == SetSem(old(sys), i, n) && sems[i] == n
    {
      hide AllThreaded, Slist.Valid;
      sems[i] := n;
      TasksChanged(queues, sys, SetSem(sys, i, n), pcb[..], pcb[..]);
      sys := SetSem(sys, i, n);
    }

    method PutArrived(b: int, n: int)
      requires Valid() && 0 <= b < barriers.Length
      modifies this`sys, barriers
      ensures Valid() && sys == SetArrived(old(sys), b, n) && barriers[b] == old(barriers[b]).(arrived := n)
    {
      hide AllThreaded, Slist.Valid;
      barriers[b] := barriers[b].(arrived := n);
      TasksChanged(queues, sys, SetArrived(sys, b, n), pcb[..], pcb[..]);
      sys := SetArrived(sys, b, n);
    }

    lemma CounterThere(i: int)
      requires Valid() && Shaped(sys)
      ensures |sys.conds| == conds.Length && |sys.sems| == sems.Length && |sys.barriers| == barriers.Length
      ensures 0 <= i < conds.Length ==> CondQ(i) in queues && conds[i] == sys.conds[i]
      ensures 0 <= i < sems.Length ==> SemQ(i) in queues && sems[i] == sys.sems[i]
      ensures 0 <= i < barriers.Length ==> BarrierQ(i) in queues && barriers[i] == sys.barriers[i]
      ensures Ready in queues
    {
      hide AllThreaded, Slist.Valid;
      QueueThere(queues, sys, pcb[..], CondQ(i));
      QueueThere(queues, sys, pcb[..], SemQ(i));
      QueueThere(queues, sys, pcb[..], BarrierQ(i));
    }

    method ConditionWait(c: int, m: int)
      requires Running() && !sys.panicked && current != 0 && 0 <= c < conds.Length && 0 <= m < mutexes.Length
      modifies this`sys, this`queues, this`current, this`panicked, pcb, mutexes, conds
      ensures Valid() && sys == Machine.ConditionWait(old(sys), c, m)
    {
      hide AllThreaded, Slist.Valid, OneQueueEach, AllFit, NobodyWaitsForDead, Machine.DoWait, Release, TablesOk;
      ghost var s := sys;
      CurrentIs();
      CounterThere(c);
      CondReleaseWakes(s, c, s.conds[c] + 1, m);
      WokenKeepsInvariant(s, Release(SetCond(s, c, s.conds[c] + 1), m));
      CountedWakes(s, c, s.conds[c] + 1);
      PutCond(c, conds[c] + 1);
      MutexLockRelease(m);
      CurrentIs();
      DoWait(CondQ(c), BLOCKED, Reacquire(m));
    }

    method ConditionSignal(c: int)
      requires Running() && 0 <= c < conds.Length
      modifies this`sys, this`queues, pcb, conds
      ensures Valid() && sys == Signal(old(sys), c)
    {
      hide AllThreaded, Slist.Valid, OneQueueEach, AllFit, NobodyWaitsForDead, UnblockOne;
      CounterThere(c);
      if conds[c] > 0 {
        CountedWakes(sys, c, sys.conds[c] - 1);
        PutCond(c, conds[c] - 1);
        CanUnblock(CondQ(c));
        DoUnblockOne(CondQ(c));
      }
    }

    method ConditionBroadcast(c: int)
      requires Running() && 0 <= c < conds.Length
      modifies this`sys, this`queues, pcb, conds
      ensures Valid() && sys == Broadcast(old(sys), c)
    {
      hide AllThreaded, Slist.Valid, OneQueueEach, AllFit, NobodyWaitsForDead, UnblockAll;
      CounterThere(c);
      if conds[c] > 0 {
        PutCond(c, 0);
        DoUnblockAll(CondQ(c));
      }
    }

    method SemaphoreUp(i: int)
      requires Running() && 0 <= i < sems.Length
      modifies this`sys, this`queues, pcb, sems
      ensures Valid() && sys == Up(old(sys), i)
    {
      hide AllThreaded, Slist.Valid, OneQueueEach, AllFit, NobodyWaitsForDead, UnblockOne;
      CounterThere(i);
      CountedWakes(sys, i, sys.sems[i] + 1);
      PutSem(i, sems[i] + 1);
      if sems[i] <= 0 {
        CanUnblock(SemQ(i));
        DoUnblockOne(SemQ(i));
      }
    }

    method SemaphoreDown(i: int)
      requires Running() && !sys.panicked && current != 0 && 0 <= i < sems.Length
      modifies this`sys, this`queues, this`current, this`panicked, pcb, sems
      ensures Valid() && sys == Down(old(sys), i)
    {
      hide AllThreaded, Slist.Valid, OneQueueEach, AllFit, NobodyWaitsForDead, Machine.DoWait;
      CurrentIs();
      CounterThere(i);
      PutSem(i, sems[i] - 1);
      CurrentIs();
      if sems[i] < 0 {
        DoWait(SemQ(i), BLOCKED, User);
      }
    }

    method BarrierArrive(b: int)
      requires Running() && !sys.panicked && current != 0 && 0 <= b < barriers.Length
      modifies this`sys, this`queues, this`current, this`panicked, pcb, barriers
      ensures Valid() && sys == Arrive(old(sys), b)
    {
      hide AllThreaded, Slist.Valid, OneQueueEach, AllFit, NobodyWaitsForDead, Machine.DoWait, UnblockAll;
      CurrentIs();
      CounterThere(b);
      ghost var s := sys;
      var n := barriers[b].arrived + 1;
      PutArrived(b, n);
      if barriers[b].arrived == barriers[b].goal {
        PutArrived(b, 0);
        assert sys == SetArrived(s, b, 0);
        DoUnblockAll(BarrierQ(b));
      } else {
        CurrentIs();
        DoWait(BarrierQ(b), WAITING, User);
      }
    }

    // -------------------------------------------------------------- system_call_helper and irq_timer

    /** Every call and every interrupt does to the tables what the event does to the abstract state. */
    method Serve(e: Event)
      requires Running() && Admitted(sys, e)
      modifies this`sys, this`queues, this`current, this`panicked, this`ticks
      modifies pcb, pidList, mutexes, sems, conds, barriers
      ensures Valid() && sys == Apply(old(sys), e)
      ensures old(Enabled(sys, e)) ==> Running()
    {
      hide AllThreaded, Slist.Valid, OneQueueEach, AllFit, NobodyWaitsForDead;
      hide Tick, Machine.InitPcb, Machine.Kill, Machine.DoSleep, Acquire, AcquireLoop, Release;
      hide Machine.ConditionWait, Signal, Broadcast, Up, Down, Arrive, Machine.Wait, TablesOk;
      if Enabled(sys, e) {
        EventKeepsConsistent(sys, e);
        EventKeepsResume(sys, e);
      }
      CurrentIs();
      QueueThere(queues, sys, pcb[..], Ready);
      ReadTask(current);
      match e {
        case Timer => IrqTimer();
        case Spawn(priority) => var _ := InitPcb(priority);
        case KillTask(p) => var _ := Kill(p);
        case WaitFor(p) => var _ := WaitFor(p);
        case SleepFor(ms) => DoSleep(ms);
        case Lock(m) => MutexThere(m); MutexLockAcquire(m);
        case Unlock(m) => MutexThere(m); MutexLockRelease(m);
        case CondWait(c, m) => MutexThere(m); CounterThere(c); ConditionWait(c, m);
        case CondSignal(c) => CounterThere(c); ConditionSignal(c);
        case CondBroadcast(c) => CounterThere(c); ConditionBroadcast(c);
        case SemUp(i) => CounterThere(i); SemaphoreUp(i);
        case SemDown(i) => CounterThere(i); SemaphoreDown(i);
        case BarrierWait(b) => CounterThere(b); BarrierArrive(b);
        case Continue =>
          match pcb[current].task.resume {
            case User =>
            case Retry(m) => MutexThere(m); var _ := MutexLockLoop(m);
            case Reacquire(m) => MutexThere(m); MutexLockAcquire(m);
          }
      }
    }
  }
}
