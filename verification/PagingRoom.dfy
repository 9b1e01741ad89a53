/** How much room there is: free frames and free swap slots together, and a run that uses all of it up. */
module PagingRoom {
  import opened Slist
  import opened Paging
  import opened PagingRuns
  import opened PagingStrays

  const ALL_UNITS := PM_SLIST_SIZE - 1 + SWAP_AREA_SIZE - 1

  /** The places that no page has yet. */
  ghost function Spare(m: Vm): nat {
    |FreeCells(m.frameList)| + |FreeCells(m.swapList)|
  }

  // ---------------------------------------------------------------- what the steps of a fault do to the lists

  lemma MoveOutLists(m: Vm, f: int, base: int, slots: seq<Node>)
    requires |m.frameList| > 0
    ensures var n := MoveOut(m, f, base, slots); n.swapList == slots && n.poolList == m.poolList && n.dirs == m.dirs
  {
    hide Entry, FrameAt, FreeNode, DirOf, SlotOf;
  }

  lemma InstallLists(m: Vm, p: int, va: int, f: int)
    ensures var n := Install(m, p, va, f);
      && n.swapList == m.swapList && n.frameList == m.frameList && n.poolList == m.poolList && n.dirs == m.dirs
  {
    hide Pfn, DirOf, SlotOf, PageOf, VpnOf;
  }

  lemma TlbWriteLists(m: Vm, p: int, v: int, slot: int)
    ensures var n := TlbWrite(m, p, v, slot);
      && n.swapList == m.swapList && n.frameList == m.frameList && n.poolList == m.poolList && n.dirs == m.dirs
  {
    hide Entry;
  }

  /** A frame costs one place, and an eviction none: what it takes from the swap area it gives to the frames. */
  lemma TakeFrameSpends(m: Vm, timer: nat)
    requires Consistent(m) && HasRoom(m)
    ensures Spare(TakeFrame(m, timer).0) == Spare(m) - 1
  {
    hide Entry, SwapAddress, TlbOk, DirsOk, MapBut, Slist.Valid, MoveOut, AllocNode, OnlyEvicts, FreeCells;
    AllocEffect(m.frameList);
    if Full(m.frameList) {
      AllocEffect(m.swapList);
      FullIsLive(m.frameList);
      MoveOutEffect(m, Victim(timer));
      var (slots, t) := AllocNode(m.swapList);
      MoveOutLists(m, Victim(timer), SwapAddress(t), slots);
      AllocEffect(SwapOut(m, timer).frameList);
    }
  }

  lemma FetchSpends(m: Vm, f: int, p: int, v: int)
    requires ConsistentBut(m, f) && 0 <= f < PM_SLIST_SIZE - 1 && Swapped(m, p, v)
    ensures var n := FetchSlot(m, f, Entry(m, p, v).addr);
      Spare(n) == Spare(m) + 1 && n.poolList == m.poolList && n.dirs == m.dirs
  {
    hide Entry, SwapIndex, DirsOk, TlbOk, MapBut, Slist.Valid, SwapAt, FreeNode, FreeCells;
    SwappedHasSlot(m, f, p, v);
    FreeEffect(m.swapList, SwapIndex(Entry(m, p, v).addr));
  }

  /** Making a page present costs a place only if the page was never touched: a swap-in gives back a slot. */
  lemma MakePresentSpends(m: Vm, p: int, va: int, timer: nat)
    requires Consistent(m) && (Present(m, p, PageOf(va)) || HasRoom(m))
    ensures var n := MakePresent(m, p, va, timer);
      && Spare(n) == Spare(m) - (if Mapped(m, p, PageOf(va)) then 0 else 1)
      && n.poolList == m.poolList && n.dirs == m.dirs
  {
    hide Entry, PageOf, TakeFrame, Install, FetchSlot, ConsistentBut, HasRoom, FreeCells, View;
    if !Present(m, p, PageOf(va)) {
      TakeFrameEffect(m, timer);
      TakeFrameSpends(m, timer);
      var (m1, f) := TakeFrame(m, timer);
      if Mapped(m, p, PageOf(va)) {
        FetchSpends(m1, f, p, PageOf(va));
        InstallLists(FetchSlot(m1, f, Entry(m, p, PageOf(va)).addr), p, va, f);
      } else {
        InstallLists(m1, p, va, f);
      }
    }
  }

  lemma FaultSpends(m: Vm, p: int, va: int, timer: nat, slot: int)
    requires Consistent(m) && UserAccess(p, va, slot) && CanServe(m, p, va)
    ensures var (n, e) := (Fault(m, p, va, timer, slot).0, EnsureTable(m, p, DirNumber(va)).0);
      && Spare(n) == Spare(m) - (if Mapped(m, p, PageOf(va)) then 0 else 1)
      && n.poolList == e.poolList && n.dirs == e.dirs
  {
    UserAddress(va);
    hide Entry, EnsureTable, MakePresent, TlbWrite, PageOf, DirNumber, ConsistentBut, SameMapped;
    EnsureTableEffect(m, p, DirNumber(va));
    var m1 := EnsureTable(m, p, DirNumber(va)).0;
    StillServed(m, m1, p, va);
    StillUnmapped(m, m1, p, PageOf(va));
    MakePresentSpends(m1, p, va, timer);
    TlbWriteLists(MakePresent(m1, p, va, timer), p, PageOf(va), slot);
  }

  // ---------------------------------------------------------------- whole runs

  /** The pages of all processes that a run touches. */
  function Pages(es: seq<Access>): set<(int, int)> {
    set i | 0 <= i < |es| :: (es[i].p, PageOf(es[i].va))
  }

  /** Exactly the pages of `s` are mapped, and with them there are n places. */
  ghost predicate Accounts(m: Vm, s: set<(int, int)>, n: nat) {
    (forall q, w :: Mapped(m, q, w) <==> (q, w) in s) && Spare(m) + |s| == n
  }

  lemma TranslateAccounts(m: Vm, a: Access, s: set<(int, int)>, n: nat)
    requires Consistent(m) && Served(m, a) && Accounts(m, s, n)
    ensures Accounts(Translate(m, a.p, a.va, a.timer, a.slot), s + {(a.p, PageOf(a.va))}, n)
  {
    hide Entry, View, Fault, FrameOf, PageOf, DirNumber, ConsistentBut, Spare, Hits, EnsureTable;
    TranslateEffect(m, a);
    var v := PageOf(a.va);
    if Hits(m, a.p, a.va) {
      HitReaches(m, a.p, a.va);
      assert s + {(a.p, v)} == s;
    } else {
      FaultSpends(m, a.p, a.va, a.timer, a.slot);
      if Mapped(m, a.p, v) { assert s + {(a.p, v)} == s; }
    }
  }

  lemma AccessAccounts(m: Vm, a: Access, s: set<(int, int)>, n: nat)
    requires Consistent(m) && Served(m, a) && Accounts(m, s, n)
    ensures Accounts(Perform(m, a), s + {(a.p, PageOf(a.va))}, n)
  {
    hide Entry, Translate, PageOf, ConsistentBut, PhysicalOf, Poke, Served;
    TranslateAccounts(m, a, s, n);
    var m1 := Translate(m, a.p, a.va, a.timer, a.slot);
    SameTables(m1, Perform(m, a));
  }

  /** Frames and slots are conserved: over every run, with all its faults, evictions and swap-ins, exactly the pages
      that were touched are mapped, and each of them has one place. */
  lemma {:induction false} PlacesAreConserved(m: Vm, es: seq<Access>, s: set<(int, int)>, n: nat)
    requires Consistent(m) && AllServed(m, es) && Accounts(m, s, n)
    ensures Consistent(RunVm(m, es)) && Accounts(RunVm(m, es), s + Pages(es), n)
    decreases |es|
  {
    hide Accounts, Perform, ConsistentBut, Served, PageOf;
    if es == [] {
      assert s + Pages(es) == s;
    } else {
      AccessIsTransparent(m, es[0]);
      AccessAccounts(m, es[0], s, n);
      PlacesAreConserved(Perform(m, es[0]), es[1..], s + {(es[0].p, PageOf(es[0].va))}, n);
      PagesSplit(es);
      assert s + {(es[0].p, PageOf(es[0].va))} + Pages(es[1..]) == s + Pages(es);
    }
  }

  lemma PagesSplit(es: seq<Access>)
    requires es != []
    ensures Pages(es) == {(es[0].p, PageOf(es[0].va))} + Pages(es[1..])
  {
    hide PageOf;
    forall x | x in Pages(es) ensures x in {(es[0].p, PageOf(es[0].va))} + Pages(es[1..]) {
      var i :| 0 <= i < |es| && x == (es[i].p, PageOf(es[i].va));
      if i > 0 { assert es[1..][i - 1] == es[i]; }
    }
    forall x | x in Pages(es[1..]) ensures x in Pages(es) {
      var i :| 0 <= i < |es| - 1 && x == (es[1..][i].p, PageOf(es[1..][i].va));
      assert es[1..][i] == es[i + 1];
    }
  }

  /** Every state in which nothing is mapped and every frame and slot is free: the initial one. */
  ghost predicate Empty(m: Vm) {
    Accounts(m, {}, ALL_UNITS)
  }

  /** From the initial state on there is room for one more page exactly as long as fewer than 3072 pages of all
      processes together were touched, however often and in whatever order. */
  lemma RoomIff(m: Vm, es: seq<Access>)
    requires Consistent(m) && Empty(m) && AllServed(m, es)
    ensures |Pages(es)| <= ALL_UNITS && (HasRoom(RunVm(m, es)) <==> |Pages(es)| < ALL_UNITS)
  {
    hide RunVm, AllServed, ConsistentBut, FreeCells, Pages;
    PlacesAreConserved(m, es, {}, ALL_UNITS);
    assert {} + Pages(es) == Pages(es);
  }

  // ---------------------------------------------------------------- a run that uses everything up

  /** Process 0 reads page pair k for the first time. */
  function Touch(k: nat): Access {
    Load(0, k * 0x2000, 0, 0)
  }

  function TouchAll(k: nat, n: nat): seq<Access>
    decreases n - k
  {
    if n <= k then [] else [Touch(k)] + TouchAll(k + 1, n)
  }

  function FirstPages(k: nat): (s: set<(int, int)>) {
    set v | 0 <= v < k :: (0, v)
  }

  lemma {:induction false} FirstPagesSize(k: nat)
    ensures |FirstPages(k)| == k
    ensures k > 0 ==> FirstPages(k) == FirstPages(k - 1) + {(0, k - 1)}
  {
    if k > 0 {
      FirstPagesSize(k - 1);
      assert FirstPages(k) == FirstPages(k - 1) + {(0, k - 1)};
    }
  }

  /** 512 pages to a page table. */
  function TablesFor(k: nat): nat { (k + 511) / 512 }

  /** Process 0 has touched its first k pages, and nobody has touched anything else. */
  ghost predicate Swept(m: Vm, k: nat) {
    && Consistent(m) && Accounts(m, FirstPages(k), ALL_UNITS)
    && |FreeCells(m.poolList)| == PAGE_TABLE_POOL_SIZE - TablesFor(k)
    && (forall d :: DirEntry(m, 0, d).valid <==> 0 <= d < TablesFor(k))
  }

  lemma EnsureSweeps(m: Vm, d: nat)
    requires Consistent(m) && d < PDE_NUMBER && !Full(m.poolList) && !DirEntry(m, 0, d).valid
    ensures var e := EnsureTable(m, 0, d).0;
      && |FreeCells(e.poolList)| == |FreeCells(m.poolList)| - 1
      && forall c :: DirEntry(e, 0, c).valid <==> (DirEntry(m, 0, c).valid || c == d)
  {
    hide PoolEntry, TlbOk, DirsOk, MapBut, Slist.Valid, AllocNode, FreeCells, NewTable;
    AllocEffect(m.poolList);
    var (list, t) := AllocNode(m.poolList);
    NewTableAdds(m, 0, d, list, t - 1);
  }

  lemma TouchAddress(k: nat)
    requires k <= ALL_UNITS
    ensures UserAccess(0, Touch(k).va, 0) && PageOf(Touch(k).va) == k && DirNumber(Touch(k).va) == k / 512
    ensures TablesFor(k + 1) == if k % 512 == 0 then TablesFor(k) + 1 else TablesFor(k)
    ensures k / 512 < TablesFor(k) <==> k % 512 != 0
    ensures k % 512 == 0 ==> TablesFor(k) == k / 512
    ensures TablesFor(k) <= 6
  {}

  /** The page that comes next is not mapped, and if there is a table for it then it is the last one. */
  lemma NextIsNew(m: Vm, k: nat)
    requires Swept(m, k) && k <= ALL_UNITS
    ensures !Mapped(m, 0, k) && !Hits(m, 0, Touch(k).va) && HasTable(m, 0, Touch(k).va)
    ensures HasRoom(m) <==> k < ALL_UNITS
  {
    hide Entry, ConsistentBut, DirEntry, FreeCells, Hits, TablesFor, DirNumber, PageOf;
    TouchAddress(k);
    FirstPagesSize(k);
    if Hits(m, 0, Touch(k).va) { HitReaches(m, 0, Touch(k).va); }
  }

  lemma TouchSweeps(m: Vm, k: nat)
    requires Swept(m, k) && k < ALL_UNITS
    ensures Served(m, Touch(k)) && Swept(Perform(m, Touch(k)), k + 1)
  {
    hide Entry, ConsistentBut, FreeCells, Hits, TablesFor, DirNumber, PageOf, Accounts, HasRoom, EnsureTable, Fault;
    TouchAddress(k);
    NextIsNew(m, k);
    FirstPagesSize(k + 1);
    AccessIsTransparent(m, Touch(k));
    AccessAccounts(m, Touch(k), FirstPages(k), ALL_UNITS);
    assert Accounts(Perform(m, Touch(k)), FirstPages(k + 1), ALL_UNITS) by {
      assert FirstPages(k) + {(0, k)} == FirstPages(k + 1);
    }
    FaultSpends(m, 0, Touch(k).va, 0, 0);
    SweepTables(m, k);
    SameDirs(EnsureTable(m, 0, DirNumber(Touch(k).va)).0, Perform(m, Touch(k)));
  }

  lemma SameDirs(m: Vm, n: Vm)
    requires m.dirs == n.dirs
    ensures forall d :: DirEntry(n, 0, d) == DirEntry(m, 0, d)
  {}

  lemma SweepTables(m: Vm, k: nat)
    requires Swept(m, k) && k < ALL_UNITS
    ensures var e := EnsureTable(m, 0, DirNumber(Touch(k).va)).0;
      && |FreeCells(e.poolList)| == PAGE_TABLE_POOL_SIZE - TablesFor(k + 1)
      && forall d :: DirEntry(e, 0, d).valid <==> 0 <= d < TablesFor(k + 1)
  {
    hide Entry, ConsistentBut, FreeCells, DirEntry, TablesFor, DirNumber, PageOf, Accounts;
    TouchAddress(k);
    if k % 512 == 0 {
      EnsureSweeps(m, k / 512);
    }
  }

  lemma {:induction false} TouchAllSweeps(m: Vm, k: nat, n: nat)
    requires Swept(m, k) && k <= n <= ALL_UNITS
    ensures AllServed(m, TouchAll(k, n)) && Swept(RunVm(m, TouchAll(k, n)), n)
    decreases n - k
  {
    hide Swept, Served, Perform, Touch;
    if k < n {
      TouchSweeps(m, k);
      TouchAllSweeps(Perform(m, Touch(k)), k + 1, n);
      assert TouchAll(k, n)[1..] == TouchAll(k + 1, n);
    }
  }

  lemma BootIsEmpty(dirs: seq<seq<Pde>>, pool: seq<seq<Pte>>, frames: seq<Page>,
                    framePid: seq<int>, frameVpn: seq<int>, swap: map<int, Page>)
    requires |dirs| == MAX_TASK_NUM && (forall p :: 0 <= p < |dirs| ==> |dirs[p]| == PDE_NUMBER)
    requires |pool| == PAGE_TABLE_POOL_SIZE && (forall n :: 0 <= n < |pool| ==> |pool[n]| == PTE_NUMBER)
    requires |frames| == PM_SLIST_SIZE - 1 && |framePid| == PM_SLIST_SIZE && |frameVpn| == PM_SLIST_SIZE
    ensures var m := BootVm(dirs, pool, frames, framePid, frameVpn, swap); Empty(m) && Swept(m, 0)
  {
    hide Entry, ConsistentBut, FreeCells, InitNodes;
    BootIsConsistent(dirs, pool, frames, framePid, frameVpn, swap);
    InitThreads(PAGE_TABLE_POOL_SIZE + 1);
    InitThreads(PM_SLIST_SIZE);
    InitThreads(SWAP_AREA_SIZE);
    assert FirstPages(0) == {};
  }

  /** Process 0 reads 3072 page pairs after the start, and every access is served. The next page pair it reads finds a
      page table but neither a frame nor a slot: the mapping is lost, though no process sees it yet. */
  lemma OnePageTooMany(m: Vm, timer: nat, slot: int)
    requires Swept(m, 0) && 0 <= slot < TLB_ENTRY_NUMBER
    ensures AllServed(m, TouchAll(0, ALL_UNITS))
    ensures var (n, va) := (RunVm(m, TouchAll(0, ALL_UNITS)), Touch(ALL_UNITS).va);
      var after := Fault(n, 0, va, timer, slot);
      && Consistent(n) && Full(n.frameList) && Full(n.swapList) && !Hits(n, 0, va)
      && after.1 && !Consistent(after.0) && KeepsViews(n, after.0) && Full(after.0.swapList)
  {
    hide ConsistentBut, FreeCells, Hits, RunVm, AllServed, Accounts, HasTable, Fault, KeepsViews, Entry, Touch,
      TouchAll, DirEntry;
    TouchAllSweeps(m, 0, ALL_UNITS);
    var n := RunVm(m, TouchAll(0, ALL_UNITS));
    TouchAddress(ALL_UNITS);
    NextIsNew(n, ALL_UNITS);
    PanicsIff(n, 0, Touch(ALL_UNITS).va, timer, slot);
    StrayFaultIsUnseen(n, 0, Touch(ALL_UNITS).va, timer, slot);
  }
}
