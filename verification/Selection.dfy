/** What the two selection loops of kernel/sched/sched.c choose, and how long anyone has to wait for it. */
module Selection {
  import opened Sets
  import opened Machine

  // ---------------------------------------------------------------- the choice

  /** The choice is the lexicographic maximum of (priority, waiting time) among the
      eligible keys, the latest on ties. */
  ghost predicate IsLastMax(keys: seq<Key>, i: int) {
    && (i == -1 || 0 <= i < |keys|)
    && (i == -1 ==> forall j :: 0 <= j < |keys| ==> !Eligible(keys[j]))
    && (i != -1 ==>
          && Eligible(keys[i])
          && (forall j :: 0 <= j < |keys| && Eligible(keys[j]) ==> !Less(keys[i], keys[j]))
          && (forall j :: i < j < |keys| && Eligible(keys[j]) ==> Less(keys[j], keys[i])))
  }

  lemma {:induction false} PickIsLastMax(keys: seq<Key>)
    ensures IsLastMax(keys, Pick(keys))
  {
    if keys != [] {
      PickIsLastMax(keys[..|keys| - 1]);
    }
  }

  lemma LastMaxIsPick(keys: seq<Key>, i: int)
    requires IsLastMax(keys, i)
    ensures i == Pick(keys)
  {
    PickIsLastMax(keys);
  }

  // ---------------------------------------------------------------- starvation in the ready queue

  /** One call of the scheduler seen from a ready queue whose membership does not change. */
  function Turn(keys: seq<Key>): (r: seq<Key>)
    ensures |r| == |keys|
  {
    var i := Pick(keys);
    seq(|keys|, k requires 0 <= k < |keys| =>
      if k == i then Key(if keys[k].priority > 1 then keys[k].priority - 1 else keys[k].priority, 0)
      else Key(keys[k].priority, keys[k].wait + 1))
  }

  function Turns(keys: seq<Key>, k: nat): (r: seq<Key>)
    ensures |r| == |keys|
    decreases k
  {
    if k == 0 then keys else Turns(Turn(keys), k - 1)
  }

  ghost predicate Waited(keys: seq<Key>) {
    forall k :: 0 <= k < |keys| ==> keys[k].wait >= 0
  }

  /** The sum of (priority - 1) over the keys above priority 1. */
  function Slack(keys: seq<Key>): nat {
    if keys == [] then 0 else
    var last := keys[|keys| - 1];
    Slack(keys[..|keys| - 1]) + (if last.priority > 1 then last.priority - 1 else 0)
  }

  ghost predicate Before(keys: seq<Key>, x: int, j: int)
    requires 0 <= x < |keys| && 0 <= j < |keys|
  {
    Eligible(keys[j]) && (Less(keys[x], keys[j]) || (!Less(keys[j], keys[x]) && x < j))
  }

  /** The positions that are chosen before x when all priorities are 1. */
  ghost function Ahead(keys: seq<Key>, x: int): set<int>
    requires 0 <= x < |keys|
  {
    set j | 0 <= j < |keys| && Before(keys, x, j)
  }

  lemma {:induction false} SlackZero(keys: seq<Key>)
    ensures Slack(keys) == 0 <==> forall k :: 0 <= k < |keys| ==> keys[k].priority <= 1
  {
    if keys != [] {
      SlackZero(keys[..|keys| - 1]);
    }
  }

  /** Changing waiting times does not change the slack; lowering one priority above 1 lowers it by one. */
  lemma {:induction false} SlackChange(a: seq<Key>, b: seq<Key>, i: int)
    requires |a| == |b|
    requires forall k :: 0 <= k < |a| && k != i ==> a[k].priority == b[k].priority
    requires 0 <= i < |a| ==> a[i].priority > 1 && b[i].priority == a[i].priority - 1
    ensures Slack(b) == Slack(a) - (if 0 <= i < |a| then 1 else 0)
  {
    if a != [] {
      SlackChange(a[..|a| - 1], b[..|a| - 1], i);
    }
  }

  lemma TurnSlack(keys: seq<Key>)
    requires Slack(keys) > 0 && Waited(keys)
    ensures Pick(keys) != -1 && Slack(Turn(keys)) == Slack(keys) - 1
  {
    PickIsLastMax(keys);
    SlackZero(keys);
    var j :| 0 <= j < |keys| && keys[j].priority > 1;
    assert Eligible(keys[j]);
    SlackChange(keys, Turn(keys), Pick(keys));
  }

  /** The chosen one falls behind x; nobody else changes sides. */
  lemma TurnBefore(keys: seq<Key>, x: int, j: int)
    requires 0 <= x < |keys| && 0 <= j < |keys| && keys[x].priority == 1 && keys[x].wait >= 0 && Pick(keys) != x
    requires keys[j].priority <= 1 && (keys[j].wait >= 0)
    ensures Before(Turn(keys), x, j) <==> Before(keys, x, j) && j != Pick(keys)
  {
    hide Pick;
    var next := Turn(keys);
    assert next[x] == Key(1, keys[x].wait + 1);
    assert next[j] == if j == Pick(keys) then Key(keys[j].priority, 0) else Key(keys[j].priority, keys[j].wait + 1);
  }

  lemma TurnKeepsSlack(keys: seq<Key>)
    requires Slack(keys) == 0
    ensures Slack(Turn(keys)) == 0
  {
    hide Pick, Slack;
    SlackZero(keys);
    SlackZero(Turn(keys));
  }

  /** With every priority at 1 the chosen one is nobody behind x, and it falls behind x. */
  lemma TurnAhead(keys: seq<Key>, x: int)
    requires 0 <= x < |keys| && keys[x].priority == 1 && Slack(keys) == 0 && Waited(keys)
    ensures Pick(keys) != -1
    ensures Pick(keys) == x <==> Ahead(keys, x) == {}
    ensures Slack(Turn(keys)) == 0
    ensures Pick(keys) != x ==> Ahead(Turn(keys), x) == Ahead(keys, x) - {Pick(keys)} && Pick(keys) in Ahead(keys, x)
  {
    hide Turn, Slack;
    var i, next := Pick(keys), Turn(keys);
    PickIsLastMax(keys);
    hide Pick;
    SlackZero(keys);
    TurnKeepsSlack(keys);
    assert Eligible(keys[x]);
    if i != x {
      assert Before(keys, x, i);
      assert i in Ahead(keys, x);
      forall j | 0 <= j < |keys| ensures Before(next, x, j) <==> Before(keys, x, j) && j != i {
        TurnBefore(keys, x, j);
      }
      assert Ahead(next, x) == Ahead(keys, x) - {i};
    } else {
      forall j | 0 <= j < |keys| ensures !Before(keys, x, j) {
      }
      assert Ahead(keys, x) == {};
    }
  }

  lemma AheadBound(keys: seq<Key>, x: int)
    requires 0 <= x < |keys|
    ensures |Ahead(keys, x)| < |keys|
  {
    assert !Before(keys, x, x);
    SubsetSize(Ahead(keys, x), Below(|keys|) - {x});
  }

  /** A task of priority at least 1 is selected within (slack + number of tasks) calls. */
  lemma {:induction false} SelectedSoon(keys: seq<Key>, x: int) returns (k: nat)
    requires 0 <= x < |keys| && Waited(keys) && keys[x].priority >= 1
    ensures k < Slack(keys) + |keys| && Pick(Turns(keys, k)) == x
    ensures Slack(keys) == 0 ==> k == |Ahead(keys, x)|
    decreases Slack(keys), |Ahead(keys, x)|
  {
    if Slack(keys) > 0 {
      if Pick(keys) == x {
        k := 0;
      } else {
        TurnSlack(keys);
        k := SelectedSoon(Turn(keys), x);
        k := k + 1;
      }
    } else {
      SlackZero(keys);
      TurnAhead(keys, x);
      AheadBound(keys, x);
      if Pick(keys) == x {
        k := 0;
      } else {
        k := SelectedSoon(Turn(keys), x);
        k := k + 1;
      }
    }
  }

  /** Below priority 1 a task is never selected and never rises. */
  lemma {:induction false} NeverSelected(keys: seq<Key>, x: int, k: nat)
    requires 0 <= x < |keys| && keys[x].priority < 1
    ensures Pick(Turns(keys, k)) != x
    decreases k
  {
    PickIsLastMax(keys);
    if k > 0 {
      NeverSelected(Turn(keys), x, k - 1);
    }
  }

  /** While the membership of the ready queue stays the same, exactly the tasks of priority at least 1 get to run. */
  lemma StarvesIff(keys: seq<Key>, x: int)
    requires 0 <= x < |keys| && Waited(keys)
    ensures (exists k: nat :: Pick(Turns(keys, k)) == x) <==> keys[x].priority >= 1
  {
    if keys[x].priority >= 1 {
      var k := SelectedSoon(keys, x);
    } else {
      forall k: nat ensures Pick(Turns(keys, k)) != x {
        NeverSelected(keys, x, k);
      }
    }
  }

  /** When all priorities have reached 1, nobody runs twice before x has run. */
  lemma {:induction false} NobodyTwiceBefore(keys: seq<Key>, x: int, a: nat, b: nat)
    requires 0 <= x < |keys| && Waited(keys) && keys[x].priority == 1 && Slack(keys) == 0
    requires a < b && Pick(Turns(keys, a)) == Pick(Turns(keys, b))
    ensures exists c: nat :: c <= b && Pick(Turns(keys, c)) == x
    decreases a + |Ahead(keys, x)|
  {
    TurnAhead(keys, x);
    if Pick(keys) == x {
      assert Pick(Turns(keys, 0)) == x;
    } else if a > 0 {
      NobodyTwiceBefore(Turn(keys), x, a - 1, b - 1);
      var c: nat :| c <= b - 1 && Pick(Turns(Turn(keys), c)) == x;
      assert Pick(Turns(keys, c + 1)) == x;
    } else {
      var i := Pick(keys);
      assert i !in Ahead(Turn(keys), x);
      var c := BehindStaysBehind(Turn(keys), x, i, b - 1);
      assert Pick(Turns(keys, c + 1)) == x;
    }
  }

  lemma {:induction false} BehindStaysBehind(keys: seq<Key>, x: int, i: int, b: nat) returns (c: nat)
    requires 0 <= x < |keys| && Waited(keys) && keys[x].priority == 1 && Slack(keys) == 0
    requires 0 <= i < |keys| && i !in Ahead(keys, x) && Pick(Turns(keys, b)) == i
    ensures c <= b && Pick(Turns(keys, c)) == x
    decreases b
  {
    TurnAhead(keys, x);
    if Pick(keys) == x {
      c := 0;
    } else {
      c := BehindStaysBehind(Turn(keys), x, i, b - 1);
      c := c + 1;
    }
  }

  // ---------------------------------------------------------------- bypass in a waiting queue

  /** A task on a waiting queue: what the selection compares, and the time at which a sleeper wants to be woken. */
  datatype Waiter = Waiter(pid: int, key: Key, alarm: int)

  /** What happens to a waiting queue: a task joins at the tail, a killed task leaves,
      or do_unblock_one is called on it. */
  datatype QueueOp = Join(w: Waiter) | Leave(pid: int) | Unblock

  function WaiterKeys(ws: seq<Waiter>): seq<Key> {
    seq(|ws|, k requires 0 <= k < |ws| => ws[k].key)
  }

  function AgeWaiters(ws: seq<Waiter>): (r: seq<Waiter>)
    ensures |r| == |ws|
  {
    seq(|ws|, k requires 0 <= k < |ws| => ws[k].(key := Key(ws[k].key.priority, ws[k].key.wait + 1)))
  }

  function LeaveQueue(ws: seq<Waiter>, p: int): seq<Waiter> {
    if ws == [] then [] else if ws[0].pid == p then ws[1..] else [ws[0]] + LeaveQueue(ws[1..], p)
  }

  function QueueStep(ws: seq<Waiter>, op: QueueOp): seq<Waiter> {
    match op
    case Join(w) => ws + [w]
    case Leave(p) => LeaveQueue(ws, p)
    case Unblock =>
      var i := Pick(WaiterKeys(ws));
      if i == -1 then ws else AgeWaiters(ws)[..i] + AgeWaiters(ws)[i + 1..]
  }

  /** Some call of do_unblock_one in `ops` takes task x off the queue. */
  predicate Released(ws: seq<Waiter>, ops: seq<QueueOp>, x: int)
    decreases |ops|
  {
    ops != [] &&
    (|| (ops[0] == Unblock && Pick(WaiterKeys(ws)) != -1 && ws[Pick(WaiterKeys(ws))].pid == x)
     || Released(QueueStep(ws, ops[0]), ops[1..], x))
  }

  function Unblocks(ops: seq<QueueOp>): nat
    decreases |ops|
  {
    if ops == [] then 0 else (if ops[0] == Unblock then 1 else 0) + Unblocks(ops[1..])
  }

  /** All waiters have the same priority, at least 1. */
  ghost predicate Peers(ws: seq<Waiter>, priority: int) {
    priority >= 1 && forall k :: 0 <= k < |ws| ==> ws[k].key.priority == priority && ws[k].key.wait >= 0
  }

  /** Every arrival has that priority and comes in with waiting time 0. */
  ghost predicate FreshJoins(ops: seq<QueueOp>, priority: int) {
    forall k :: 0 <= k < |ops| && ops[k].Join? ==> ops[k].w.key == Key(priority, 0)
  }

  /** Task x is not killed. */
  ghost predicate Spared(ops: seq<QueueOp>, x: int) {
    Leave(x) !in ops
  }

  /** The number of waiters that do_unblock_one takes before the one at position i. */
  function Rivals(ws: seq<Waiter>, i: int, n: nat): nat
    requires 0 <= i < |ws| && n <= |ws|
  {
    if n == 0 then 0 else
    Rivals(ws, i, n - 1) + (if RivalAt(ws, i, n - 1) then 1 else 0)
  }

  predicate RivalAt(ws: seq<Waiter>, i: int, j: int)
    requires 0 <= i < |ws| && 0 <= j < |ws|
  {
    ws[j].key.wait > ws[i].key.wait || (ws[j].key.wait == ws[i].key.wait && i < j)
  }

  lemma {:induction false} RivalsBound(ws: seq<Waiter>, i: int, n: nat)
    requires 0 <= i < |ws| && n <= |ws|
    ensures Rivals(ws, i, n) <= if i < n then n - 1 else n
  {
    if n > 0 {
      RivalsBound(ws, i, n - 1);
    }
  }

  lemma {:induction false} NoRivals(ws: seq<Waiter>, i: int, n: nat)
    requires 0 <= i < |ws| && n <= |ws|
    ensures Rivals(ws, i, n) == 0 <==> forall j :: 0 <= j < n ==> !RivalAt(ws, i, j)
  {
    if n > 0 {
      NoRivals(ws, i, n - 1);
    }
  }

  /** An arrival with waiting time 0 is no rival of anyone who has waited through a call. */
  lemma {:induction false} JoinKeepsRivals(ws: seq<Waiter>, w: Waiter, i: int, n: nat)
    requires 0 <= i < |ws| && n <= |ws|
    ensures Rivals(ws + [w], i, n) == Rivals(ws, i, n)
  {
    if n > 0 {
      JoinKeepsRivals(ws, w, i, n - 1);
      assert RivalAt(ws + [w], i, n - 1) == RivalAt(ws, i, n - 1);
    }
  }

  lemma {:induction false} LeaveIsCut(ws: seq<Waiter>, p: int) returns (j: nat)
    ensures j <= |ws| && (j < |ws| ==> ws[j].pid == p)
    ensures LeaveQueue(ws, p) == if j < |ws| then ws[..j] + ws[j + 1..] else ws
  {
    if ws == [] {
      j := 0;
    } else if ws[0].pid == p {
      j := 0;
    } else {
      j := LeaveIsCut(ws[1..], p);
      j := j + 1;
    }
  }

  /** A waiter that leaves rivals nobody any more. */
  lemma {:induction false} CutKeepsRivals(ws: seq<Waiter>, j: int, i: int, n: nat)
    requires 0 <= i < |ws| && 0 <= j < |ws| && i != j && n <= |ws|
    ensures var next, i' := ws[..j] + ws[j + 1..], if j < i then i - 1 else i;
      && (n <= j ==> Rivals(next, i', n) == Rivals(ws, i, n))
      && (j < n ==> Rivals(next, i', n - 1) <= Rivals(ws, i, n))
  {
    var next, i' := ws[..j] + ws[j + 1..], if j < i then i - 1 else i;
    if n > 0 {
      CutKeepsRivals(ws, j, i, n - 1);
      if n - 1 < j {
        assert RivalAt(next, i', n - 1) == RivalAt(ws, i, n - 1);
      } else if n - 1 > j {
        assert RivalAt(next, i', n - 2) == RivalAt(ws, i, n - 1);
      }
    }
  }

  lemma LeaveKeepsRivals(ws: seq<Waiter>, priority: int, i: int, p: int) returns (i': nat)
    requires Peers(ws, priority) && 0 <= i < |ws| && ws[i].pid != p
    ensures var next := LeaveQueue(ws, p);
      Peers(next, priority) && i' < |next| && next[i'] == ws[i] && Rivals(next, i', |next|) <= Rivals(ws, i, |ws|)
  {
    var j := LeaveIsCut(ws, p);
    i' := if j < i then i - 1 else i;
    if j < |ws| {
      CutKeepsRivals(ws, j, i, |ws|);
    }
  }

  lemma AgedCutAt(ws: seq<Waiter>, p: int, j: int)
    requires 0 <= p < |ws| && 0 <= j < |ws| - 1
    ensures var aged := AgeWaiters(ws);
      |aged| == |ws| && |aged[..p] + aged[p + 1..]| == |ws| - 1
      && (aged[..p] + aged[p + 1..])[j] == aged[if j < p then j else j + 1]
  {}

  /** Ageing all waiters alike leaves each other's rivals. */
  lemma AgedCutRival(ws: seq<Waiter>, p: int, i: int, j: int)
    requires 0 <= i < |ws| && 0 <= p < |ws| && p != i && 0 <= j < |ws| - 1
    ensures var next := AgeWaiters(ws)[..p] + AgeWaiters(ws)[p + 1..];
      RivalAt(next, if p < i then i - 1 else i, j) == RivalAt(ws, i, if j < p then j else j + 1)
  {
    AgedCutAt(ws, p, j);
    AgedCutAt(ws, p, if p < i then i - 1 else i);
  }

  lemma {:induction false} UnblockDropsRival(ws: seq<Waiter>, p: int, i: int, n: nat)
    requires 0 <= i < |ws| && 0 <= p < |ws| && p != i && n <= |ws|
    ensures var next := AgeWaiters(ws)[..p] + AgeWaiters(ws)[p + 1..];
      && (n <= p ==> Rivals(next, if p < i then i - 1 else i, n) == Rivals(ws, i, n))
      && (p < n ==> Rivals(next, if p < i then i - 1 else i, n - 1)
                    == Rivals(ws, i, n) - (if RivalAt(ws, i, p) then 1 else 0))
  {
    var next := AgeWaiters(ws)[..p] + AgeWaiters(ws)[p + 1..];
    var i' := if p < i then i - 1 else i;
    if n > 0 {
      UnblockDropsRival(ws, p, i, n - 1);
      if n - 1 < p {
        AgedCutRival(ws, p, i, n - 1);
      } else if n - 1 > p {
        AgedCutRival(ws, p, i, n - 2);
      }
    }
  }

  /** One call: either the waiter at position i is chosen, or one of its rivals is and everybody else has waited. */
  lemma UnblockTakesRival(ws: seq<Waiter>, priority: int, i: int)
    requires Peers(ws, priority) && 0 <= i < |ws|
    ensures var p, next := Pick(WaiterKeys(ws)), QueueStep(ws, Unblock);
      && 0 <= p < |ws| && Peers(next, priority)
      && (p != i ==> var i' := if p < i then i - 1 else i;
            && |next| == |ws| - 1 && i' < |next| && next[i'].pid == ws[i].pid && next[i'].key.wait > 0
            && Rivals(next, i', |next|) == Rivals(ws, i, |ws|) - 1)
  {
    var p := Pick(WaiterKeys(ws));
    PickIsLastMax(WaiterKeys(ws));
    assert Eligible(WaiterKeys(ws)[i]);
    if p != i {
      assert RivalAt(ws, i, p);
      UnblockDropsRival(ws, p, i, |ws|);
    }
  }

  lemma {:induction false} ReleasedAfterRivals(ws: seq<Waiter>, priority: int, i: int, ops: seq<QueueOp>)
    requires Peers(ws, priority) && FreshJoins(ops, priority) && 0 <= i < |ws| && Spared(ops, ws[i].pid)
    requires Unblocks(ops) > Rivals(ws, i, |ws|)
    requires ws[i].key.wait > 0 || (ops != [] && ops[0] == Unblock)
    ensures Released(ws, ops, ws[i].pid)
    decreases |ops|
  {
    var next, rest := QueueStep(ws, ops[0]), ops[1..];
    match ops[0]
    case Join(w) =>
      JoinKeepsRivals(ws, w, i, |ws|);
      assert !RivalAt(next, i, |ws|);
      assert Rivals(next, i, |next|) == Rivals(ws, i, |ws|);
      ReleasedAfterRivals(next, priority, i, rest);
    case Leave(p) =>
      var i' := LeaveKeepsRivals(ws, priority, i, p);
      ReleasedAfterRivals(next, priority, i', rest);
    case Unblock =>
      UnblockTakesRival(ws, priority, i);
      var p := Pick(WaiterKeys(ws));
      if p != i {
        hide QueueStep, Peers;
        ReleasedAfterRivals(next, priority, if p < i then i - 1 else i, rest);
      }
  }

  /** Bounded bypass: among waiters of equal priority, whoever is on the queue when do_unblock_one is called is
      released within as many calls as the queue is long, whatever arrives and whoever else is killed meanwhile. */
  lemma BoundedBypass(ws: seq<Waiter>, priority: int, i: int, ops: seq<QueueOp>)
    requires Peers(ws, priority) && FreshJoins(ops, priority) && 0 <= i < |ws| && Spared(ops, ws[i].pid)
    requires ops != [] && ops[0] == Unblock && Unblocks(ops) >= |ws|
    ensures Released(ws, ops, ws[i].pid)
  {
    RivalsBound(ws, i, |ws|);
    ReleasedAfterRivals(ws, priority, i, ops);
  }
}
