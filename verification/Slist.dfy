/** The static linked list of libs/slist.c: a free list threaded through an array.
    It hands out pids, file descriptors, physical frames, page tables and swap slots. */
module Slist {
  import opened Sets

  datatype Node = Node(valid: bool, cursor: int)

  datatype Op = Alloc | Free(index: int)

  // ---------------------------------------------------------------- meaning

  /** The cells met by following cursors from `at` until cell 0 (or a wild index), at most `fuel` of them. */
  ghost function ChainFrom(s: seq<Node>, at: int, fuel: nat): seq<int>
    decreases fuel
  {
    if fuel == 0 || at <= 0 || |s| <= at then [] else [at] + ChainFrom(s, s[at].cursor, fuel - 1)
  }

  /** The free cells, in the order in which they will be handed out. */
  ghost function FreeCells(s: seq<Node>): seq<int> {
    if s == [] then [] else ChainFrom(s, s[0].cursor, |s|)
  }

  /** The cell at position `k` of the chain is free and points at the next one, the last at cell 0. */
  ghost predicate LinkAt(s: seq<Node>, f: seq<int>, k: nat)
    requires k < |f|
  {
    0 < f[k] < |s| && s[f[k]] == Node(false, if k + 1 < |f| then f[k + 1] else 0)
  }

  /** `f` is a single acyclic chain from cell 0 back to cell 0 through every cell that is not valid. */
  ghost predicate Threads(s: seq<Node>, f: seq<int>)
  {
    && 0 < |s| && s[0] == Node(true, if f == [] then 0 else f[0])
    && 0 <= s[0].cursor < |s|
    && Distinct(f)
    && (forall k :: 0 <= k < |f| ==> LinkAt(s, f, k))
    && (forall i :: 0 <= i < |s| && !s[i].valid ==> i in f)
  }

  ghost predicate Valid(s: seq<Node>) {
    Threads(s, FreeCells(s))
  }

  ghost function Live(s: seq<Node>): set<int> {
    set i | 1 <= i < |s| && s[i].valid
  }

  // ---------------------------------------------------------------- the operations on values

  function InitNodes(length: nat): seq<Node>
    requires 0 < length
  {
    seq(length, i => Node(i == 0, if i == length - 1 then 0 else i + 1))
  }

  predicate IsValid(s: seq<Node>, index: int, length: int)
    requires length <= |s|
  {
    0 < index < length && s[index].valid
  }

  function AllocNode(s: seq<Node>): (seq<Node>, int)
    requires 0 < |s| && 0 <= s[0].cursor < |s|
  {
    var t := s[0].cursor;
    if t == 0 then (s, 0) else
    var s' := s[0 := s[0].(cursor := s[t].cursor)];
    (s'[t := s'[t].(valid := true)], t)
  }

  function FreeNode(s: seq<Node>, index: int): (seq<Node>, bool)
    requires 0 < |s|
  {
    if !IsValid(s, index, |s|) then (s, false) else
    (s[0 := s[0].(cursor := index)][index := Node(false, s[0].cursor)], true)
  }

  // ---------------------------------------------------------------- the source's procedures

  method Init(l: array<Node>, length: int)
    requires 0 < length <= l.Length
    modifies l
    ensures l[..length] == InitNodes(length)
    ensures l[length..] == old(l[length..])
  {
    var i := 0;
    while i < length
      invariant 0 <= i <= length
      invariant forall k :: 0 <= k < i ==> l[k] == Node(false, k + 1)
      invariant forall k :: length <= k < l.Length ==> l[k] == old(l[k])
    {
      l[i] := Node(false, i + 1);
      i := i + 1;
    }
    l[0] := l[0].(valid := true);
    l[i - 1] := l[i - 1].(cursor := 0);
  }

  method AllocCell(l: array<Node>) returns (t: int)
    requires Valid(l[..])
    modifies l
    ensures (l[..], t) == AllocNode(old(l[..]))
  {
    t := l[0].cursor;
    if l[0].cursor == 0 {
      return 0;
    }
    l[0] := l[0].(cursor := l[t].cursor);
    l[t] := l[t].(valid := true);
  }

  method FreeCell(l: array<Node>, index: int, length: int) returns (ok: bool)
    requires Valid(l[..]) && length == l.Length
    modifies l
    ensures (l[..], ok) == FreeNode(old(l[..]), index)
  {
    var t := l[0].cursor;
    if !IsValid(l[..], index, length) {
      return false;
    }
    l[0] := l[0].(cursor := index);
    l[index] := l[index].(valid := false);
    l[index] := l[index].(cursor := t);
    ok := true;
    assert l[..] == FreeNode(old(l[..]), index).0;
  }

  // ---------------------------------------------------------------- the chain is determined by the array

  lemma {:induction false} ChainFromThreads(s: seq<Node>, f: seq<int>, k: nat, fuel: nat)
    requires Threads(s, f) && k <= |f| && |f| - k <= fuel
    ensures ChainFrom(s, if k < |f| then f[k] else 0, fuel) == f[k..]
    decreases |f| - k
  {
    if k < |f| {
      assert LinkAt(s, f, k);
      ChainFromThreads(s, f, k + 1, fuel - 1);
    }
  }

  lemma ThreadsInRange(s: seq<Node>, f: seq<int>)
    requires Threads(s, f)
    ensures forall k :: 0 <= k < |f| ==> 0 < f[k] < |s| && !s[f[k]].valid
    ensures forall i :: 0 <= i < |s| ==> (i in f <==> !s[i].valid)
  {
    forall k | 0 <= k < |f| ensures 0 < f[k] < |s| && !s[f[k]].valid {
      assert LinkAt(s, f, k);
    }
  }

  /** Any threading chain is the chain found by following cursors. */
  lemma ThreadsUnique(s: seq<Node>, f: seq<int>)
    requires Threads(s, f)
    ensures FreeCells(s) == f && Valid(s)
  {
    ThreadsInRange(s, f);
    DistinctBound(f, |s|);
    ChainFromThreads(s, f, 0, |s|);
    assert f[0..] == f;
  }

  // ---------------------------------------------------------------- one operation

  lemma InitThreads(length: nat)
    requires 0 < length
    ensures Valid(InitNodes(length))
    ensures FreeCells(InitNodes(length)) == seq(length - 1, i => i + 1)
    ensures Live(InitNodes(length)) == {}
  {
    var s, f := InitNodes(length), seq(length - 1, i => i + 1);
    forall i | 0 <= i < |s| && !s[i].valid ensures i in f {
      assert f[i - 1] == i;
    }
    ThreadsUnique(s, f);
  }

  lemma PopThreads(s: seq<Node>, f: seq<int>)
    requires Threads(s, f) && f != []
    ensures 0 < f[0] < |s| && AllocNode(s).1 == f[0] && Threads(AllocNode(s).0, f[1..])
  {
    ThreadsInRange(s, f);
    assert LinkAt(s, f, 0);
    var s', g := AllocNode(s).0, f[1..];
    forall k | 0 <= k < |g| ensures LinkAt(s', g, k) {
      assert LinkAt(s, f, k + 1);
    }
    forall i | 0 <= i < |s'| && !s'[i].valid ensures i in g {
      var k :| 0 <= k < |f| && f[k] == i;
      assert g[k - 1] == i;
    }
  }

  lemma PushThreads(s: seq<Node>, f: seq<int>, index: int)
    requires Threads(s, f) && 0 < index < |s| && s[index].valid
    ensures Threads(FreeNode(s, index).0, [index] + f)
  {
    ThreadsInRange(s, f);
    var s', g := FreeNode(s, index).0, [index] + f;
    forall k | 0 <= k < |g| ensures LinkAt(s', g, k) {
      if 0 < k {
        assert LinkAt(s, f, k - 1);
      }
    }
    forall i | 0 <= i < |s'| && !s'[i].valid ensures i in g {
      if i != index {
        var k :| 0 <= k < |f| && f[k] == i;
        assert g[k + 1] == i;
      }
    }
  }

  /** An allocation pops the chain: it fails exactly when every cell is live, and otherwise returns a cell
      that was not live and makes that one live. */
  lemma AllocPops(s: seq<Node>)
    requires Valid(s)
    ensures var (s', t) := AllocNode(s);
      && Valid(s') && |s'| == |s|
      && (t == 0 <==> FreeCells(s) == [])
      && (t == 0 ==> s' == s)
      && (t != 0 ==> 0 < t < |s| && t !in Live(s) && Live(s') == Live(s) + {t}
                     && t == FreeCells(s)[0] && FreeCells(s') == FreeCells(s)[1..])
  {
    var f := FreeCells(s);
    if f != [] {
      ThreadsInRange(s, f);
      PopThreads(s, f);
      ThreadsUnique(AllocNode(s).0, f[1..]);
    }
  }

  /** A release succeeds exactly on live cells and pushes the cell on the chain; a second release is refused. */
  lemma FreePushes(s: seq<Node>, index: int)
    requires Valid(s)
    ensures var (s', ok) := FreeNode(s, index);
      && Valid(s') && |s'| == |s|
      && (ok <==> index in Live(s))
      && (!ok ==> s' == s)
      && (ok ==> Live(s') == Live(s) - {index} && FreeCells(s') == [index] + FreeCells(s)
                 && !FreeNode(s', index).1)
  {
    if index in Live(s) {
      PushThreads(s, FreeCells(s), index);
      ThreadsUnique(FreeNode(s, index).0, [index] + FreeCells(s));
    }
  }

  /** Live and free cells partition 1 .. length - 1. */
  lemma Conservation(s: seq<Node>)
    requires Valid(s)
    ensures |FreeCells(s)| + |Live(s)| == |s| - 1
    ensures forall i :: 0 < i < |s| ==> (i in Live(s) <==> i !in FreeCells(s))
  {
    var f := FreeCells(s);
    ThreadsInRange(s, f);
    ElemsSize(f);
    assert Elems(f) + Live(s) == Below(|s|) - {0};
    assert Elems(f) * Live(s) == {};
  }

  /** The cell just released is the next one handed out, and taking it back restores the live set and the chain. */
  lemma FreeThenAlloc(s: seq<Node>, index: int)
    requires Valid(s) && index in Live(s)
    ensures var s' := FreeNode(s, index).0;
      && 0 <= s'[0].cursor < |s'|
      && AllocNode(s').1 == index
      && FreeCells(AllocNode(s').0) == FreeCells(s) && Live(AllocNode(s').0) == Live(s)
  {
    FreePushes(s, index);
    AllocPops(FreeNode(s, index).0);
  }

  // ---------------------------------------------------------------- whole runs

  /** One call on the array: the new array and the value returned (0 for a refused call). */
  ghost function Step(s: seq<Node>, op: Op): (seq<Node>, int)
    requires Valid(s)
  {
    match op
    case Alloc => AllocNode(s)
    case Free(i) => var (s', ok) := FreeNode(s, i); (s', if ok then 1 else 0)
  }

  ghost function AfterStep(s: seq<Node>, op: Op): (s': seq<Node>)
    requires Valid(s)
    ensures Valid(s') && |s'| == |s|
  {
    AllocPops(s);
    FreePushes(s, if op.Free? then op.index else 0);
    Step(s, op).0
  }

  ghost function Run(s: seq<Node>, ops: seq<Op>): (r: (seq<Node>, seq<int>))
    requires Valid(s)
    ensures Valid(r.0) && |r.0| == |s| && |r.1| == |ops|
    decreases |ops|
  {
    if ops == [] then (s, []) else
    var rest := Run(AfterStep(s, ops[0]), ops[1..]);
    (rest.0, [Step(s, ops[0]).1] + rest.1)
  }

  /** The reference definition: a stack of free numbers below `n`, with no array and no cursors. */
  function StackStep(n: nat, free: seq<int>, op: Op): (seq<int>, int) {
    match op
    case Alloc => if free == [] then (free, 0) else (free[1..], free[0])
    case Free(i) => if 0 < i < n && i !in free then ([i] + free, 1) else (free, 0)
  }

  function StackRun(n: nat, free: seq<int>, ops: seq<Op>): (r: (seq<int>, seq<int>))
    ensures |r.1| == |ops|
    decreases |ops|
  {
    if ops == [] then (free, []) else
    var (free', v) := StackStep(n, free, ops[0]);
    var (free'', vs) := StackRun(n, free', ops[1..]);
    (free'', [v] + vs)
  }

  /** One call: what the stack does, and the live cells it leaves. */
  lemma StepRefinesStack(s: seq<Node>, op: Op)
    requires Valid(s)
    ensures Valid(AfterStep(s, op)) && |AfterStep(s, op)| == |s|
    ensures (FreeCells(AfterStep(s, op)), Step(s, op).1) == StackStep(|s|, FreeCells(s), op)
    ensures op.Alloc? && Step(s, op).1 != 0 ==> Live(AfterStep(s, op)) == Live(s) + {Step(s, op).1}
    ensures op.Alloc? ==> Step(s, op).1 !in Live(s)
    ensures forall t :: t in Live(s) && op != Free(t) ==> t in Live(AfterStep(s, op))
    ensures op.Free? && op.index in Live(s) ==> Step(s, op).1 == 1
  {
    match op
    case Alloc => AllocPops(s);
    case Free(i) => FreePushes(s, i); Conservation(s);
  }

  /** Every run on the array returns what the stack returns and ends with the stack as its chain. */
  lemma {:induction false} RefinesStack(s: seq<Node>, ops: seq<Op>)
    requires Valid(s)
    ensures Run(s, ops).1 == StackRun(|s|, FreeCells(s), ops).1
    ensures FreeCells(Run(s, ops).0) == StackRun(|s|, FreeCells(s), ops).0
    decreases |ops|
  {
    if ops != [] {
      StepRefinesStack(s, ops[0]);
      RefinesStack(AfterStep(s, ops[0]), ops[1..]);
    }
  }

  lemma StackResults(n: nat, free: seq<int>, ops: seq<Op>, i: nat)
    requires i < |ops|
    ensures StackRun(n, free, ops).1[i] ==
      if i == 0 then StackStep(n, free, ops[0]).1 else StackRun(n, StackStep(n, free, ops[0]).0, ops[1..]).1[i - 1]
  {}

  /** On the stack: a number that is not free and is handed out later has been released in between. */
  lemma {:induction false} StackReleasedBefore(n: nat, free: seq<int>, ops: seq<Op>, t: int, j: nat) returns (k: nat)
    requires t !in free && t != 0 && j < |ops| && ops[j] == Alloc
    requires StackRun(n, free, ops).1[j] == t
    ensures k < j && ops[k] == Free(t) && StackRun(n, free, ops).1[k] == 1
    decreases |ops|
  {
    var free' := StackStep(n, free, ops[0]).0;
    StackResults(n, free, ops, j);
    if j == 0 || t in free' {
      k := 0;
    } else {
      StackResults(n, free', ops[1..], j - 1);
      k := StackReleasedBefore(n, free', ops[1..], t, j - 1);
      k := k + 1;
    }
    StackResults(n, free, ops, k);
  }

  lemma {:induction false} StackNoDoubleHandout(n: nat, free: seq<int>, ops: seq<Op>, t: int, i: nat, j: nat)
    returns (k: nat)
    requires Distinct(free)
    requires i < j < |ops| && ops[i] == Alloc && ops[j] == Alloc && t != 0
    requires StackRun(n, free, ops).1[i] == t && StackRun(n, free, ops).1[j] == t
    ensures i < k < j && ops[k] == Free(t) && StackRun(n, free, ops).1[k] == 1
    decreases |ops|
  {
    var free' := StackStep(n, free, ops[0]).0;
    StackResults(n, free, ops, i);
    StackResults(n, free, ops, j);
    StackResults(n, free', ops[1..], j - 1);
    if i == 0 {
      k := StackReleasedBefore(n, free', ops[1..], t, j - 1);
    } else {
      k := StackNoDoubleHandout(n, free', ops[1..], t, i - 1, j - 1);
    }
    k := k + 1;
    StackResults(n, free, ops, k);
  }

  /** Between two allocations of one run that return the same cell there is a successful release of that cell:
      no live index is handed out twice. */
  lemma NoDoubleHandout(s: seq<Node>, ops: seq<Op>, i: nat, j: nat)
    requires Valid(s) && i < j < |ops| && ops[i] == Alloc && ops[j] == Alloc
    ensures var vs := Run(s, ops).1;
      vs[i] == vs[j] && vs[i] != 0 ==> exists k :: i < k < j && ops[k] == Free(vs[i]) && vs[k] == 1
  {
    RefinesStack(s, ops);
    var vs := Run(s, ops).1;
    if vs[i] == vs[j] && vs[i] != 0 {
      var k := StackNoDoubleHandout(|s|, FreeCells(s), ops, vs[i], i, j);
      assert ops[k] == Free(vs[i]);
    }
  }
}
