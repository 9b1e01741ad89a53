/** The procedures of memory.c and tlb.c on the kernel's arrays: each does to the arrays what the function of the same
    name in Paging does to their contents. */
module PagingUnit {
  import opened Slist
  import opened Paging
  import opened PagingRuns

  lemma WalkOf(va: int)
    ensures DirOf(PageOf(va)) == DirNumber(va) && SlotOf(PageOf(va)) == TableNumber(va)
  {
    assert va == 0x2000 * (va / 0x2000) + va % 0x2000;
    assert va / 0x2000 == 512 * (va / 0x2000 / 512) + va / 0x2000 % 512;
  }

  lemma TableIsThere(m: Vm, p: int, d: int)
    requires DirsOk(m) && DirEntry(m, p, d).valid
    ensures 0 <= DirEntry(m, p, d).poolNum < PAGE_TABLE_POOL_SIZE
  {
    assert DirOk(m, p, d);
  }

  lemma UserDir(v: int)
    requires 0 <= v < USER_PAGES
    ensures 0 <= DirOf(v) < PDE_NUMBER
  {}

  lemma SetEntryShape(m: Vm, p: int, v: int, e: Pte)
    requires Shaped(m)
    ensures var n := SetEntry(m, p, v, e); n == m.(pool := n.pool) && Shaped(n)
  {
    hide DirOf, SlotOf;
  }

  /** Whatever happens to the mapping, an eviction leaves sound free lists and the page tables where they were. */
  lemma SwapOutShape(m: Vm, timer: nat)
    requires Shaped(m) && ListsOk(m)
    ensures var n := Paging.SwapOut(m, timer);
      && Shaped(n) && ListsOk(n) && n.dirs == m.dirs && n.poolList == m.poolList
      && n.framePid == m.framePid && n.frameVpn == m.frameVpn && n.frames == m.frames
  {
    hide DirOf, SlotOf, Slist.Valid, SetEntry, Entry, BlankPage;
    AllocEffect(m.swapList);
    FreePushes(m.frameList, Victim(timer) + 1);
    var (slots, t) := AllocNode(m.swapList);
    var f := Victim(timer);
    var m1 := m.(frameList := FreeNode(m.frameList, f + 1).0, swapList := slots,
      swap := m.swap[SwapAddress(t) := FrameAt(m, f)]);
    SetEntryShape(m1, OwnerPid(m, f), OwnerPage(m, f),
      Pte(SwapAddress(t), Entry(m, OwnerPid(m, f), OwnerPage(m, f)).valid, false));
  }

  lemma ConsistentLists(m: Vm)
    requires Consistent(m)
    ensures Shaped(m) && ListsOk(m) && DirsOk(m)
  {}

  lemma TakeFrameShape(m: Vm, timer: nat)
    requires Consistent(m)
    ensures var (n, f) := Paging.TakeFrame(m, timer);
      && 0 <= f < PM_SLIST_SIZE - 1 && Shaped(n) && ListsOk(n) && n.dirs == m.dirs && n.poolList == m.poolList
      && n.framePid == m.framePid && n.frameVpn == m.frameVpn && n.frames == m.frames
      && forall q, w :: !Present(m, q, w) ==> Entry(n, q, w) == Entry(m, q, w)
  {
    hide DirsOk, MapBut, TlbOk, Slist.Valid, Entry, View, Paging.SwapOut, BlankPage;
    AllocEffect(m.frameList);
    if Full(m.frameList) {
      var m1 := Paging.SwapOut(m, timer);
      SwapOutShape(m, timer);
      if !Full(m.swapList) {
        EvictedFrameIsNext(m, timer);
      } else {
        StraySwapOut(m, timer);
      }
      AllocEffect(m1.frameList);
      SameTables(m1, Paging.TakeFrame(m, timer).0);
    } else {
      SameTables(m, Paging.TakeFrame(m, timer).0);
    }
  }

  lemma EvictedFrameIsNext(m: Vm, timer: nat)
    requires Consistent(m) && Full(m.frameList) && !Full(m.swapList)
    ensures FreeCells(Paging.SwapOut(m, timer).frameList) == [Victim(timer) + 1]
    ensures forall q, w :: !Present(m, q, w) ==> Entry(Paging.SwapOut(m, timer), q, w) == Entry(m, q, w)
  {
    hide Entry, View, DirsOk, MapBut, TlbOk, Slist.Valid, MoveOut;
    FullIsLive(m.frameList);
    MoveOutEffect(m, Victim(timer));
  }

  lemma NewTableIff(m: Vm, p: int, d: int)
    requires Consistent(m) && 0 <= p < MAX_TASK_NUM && 0 <= d < PDE_NUMBER
    ensures EnsureTable(m, p, d).1 ==> Consistent(EnsureTable(m, p, d).0)
  {
    hide ConsistentBut;
    ConsistentLists(m);
    AllocEffect(m.poolList);
    if EnsureTable(m, p, d).1 { EnsureTableEffect(m, p, d); }
  }

  /** Making a page present leaves the directories alone. */
  lemma InstallShape(m: Vm, p: int, va: int, timer: nat)
    requires Consistent(m)
    ensures var n := MakePresent(m, p, va, timer); Shaped(n) && n.dirs == m.dirs
  {
    hide Consistent, Slist.Valid, Entry, Paging.TakeFrame, PageOf, VpnOf, Pfn, SwapIndex, SetEntry, BlankPage;
    ConsistentLists(m);
    TakeFrameShape(m, timer);
    var (m1, f) := Paging.TakeFrame(m, timer);
    FetchShaped(m1, f, Entry(m, p, PageOf(va)).addr);
    var m2 := FetchSlot(m1, f, Entry(m, p, PageOf(va)).addr);
    SetEntryShape(Register(m1, f, p, VpnOf(va)), p, PageOf(va), Pte(Pfn(f), true, true));
    SetEntryShape(Register(m2, f, p, VpnOf(va)), p, PageOf(va), Pte(Pfn(f), true, true));
  }

  class Memory {
    const dirs: array<seq<Pde>>
    const pool: array<seq<Pte>>
    const poolList: array<Node>
    const frames: array<Page>
    const frameList: array<Node>
    const framePid: array<int>
    const frameVpn: array<int>
    var swap: map<int, Page>
    const swapList: array<Node>
    const tlb: array<TlbEntry>

    function State(): Vm
      reads this, dirs, pool, poolList, frames, frameList, framePid, frameVpn, swapList, tlb
    {
      Vm(dirs[..], pool[..], poolList[..], frames[..], frameList[..], framePid[..], frameVpn[..], swap, swapList[..],
        tlb[..])
    }

    predicate Apart() {
      poolList != frameList && poolList != swapList && frameList != swapList && framePid != frameVpn
    }

    /** init_memory */
    constructor (dirs0: array<seq<Pde>>, pool0: array<seq<Pte>>, frames0: array<Page>, swap0: map<int, Page>)
      ensures Apart()
      ensures State() == BootVm(old(dirs0[..]), old(pool0[..]), old(frames0[..]), framePid[..], frameVpn[..], swap0)
      ensures framePid.Length == PM_SLIST_SIZE && frameVpn.Length == PM_SLIST_SIZE
    {
      dirs := new seq<Pde>[dirs0.Length](p requires 0 <= p < dirs0.Length reads dirs0 => InitDir(dirs0[p]));
      pool := pool0;
      frames := frames0;
      swap := swap0;
      framePid := new int[PM_SLIST_SIZE];
      frameVpn := new int[PM_SLIST_SIZE];
      poolList := new Node[PAGE_TABLE_POOL_SIZE + 1];
      frameList := new Node[PM_SLIST_SIZE];
      swapList := new Node[SWAP_AREA_SIZE];
      tlb := new TlbEntry[TLB_ENTRY_NUMBER](i => TlbEntry(USER_PAGES, 0, 0, false, 0, false));
      new;
      Init(frameList, PM_SLIST_SIZE);
      Init(poolList, PAGE_TABLE_POOL_SIZE + 1);
      Init(swapList, SWAP_AREA_SIZE);
      assert frameList[..] == frameList[..PM_SLIST_SIZE];
      assert poolList[..] == poolList[..PAGE_TABLE_POOL_SIZE + 1];
      assert swapList[..] == swapList[..SWAP_AREA_SIZE];
      assert dirs[..] == BootVm(old(dirs0[..]), [], [], [], [], map[]).dirs;
    }

    method PageDirInit(p: int)
      requires 0 <= p < dirs.Length
      modifies dirs
      ensures State() == old(State()).(dirs := old(dirs[..])[p := InitDir(old(dirs[p]))])
    {
      var i := 0;
      while i < |dirs[p]|
        invariant 0 <= i <= |dirs[p]| == |old(dirs[p])|
        invariant forall k :: 0 <= k < i ==> dirs[p][k] == old(dirs[p])[k].(valid := false)
        invariant forall k :: i <= k < |dirs[p]| ==> dirs[p][k] == old(dirs[p])[k]
        invariant dirs[..] == old(dirs[..])[p := dirs[p]]
      {
        dirs[p] := dirs[p][i := dirs[p][i].(valid := false)];
        i := i + 1;
      }
      assert dirs[p] == InitDir(old(dirs[p]));
    }

    method PageTableInit(n: int)
      requires 0 <= n < pool.Length
      modifies pool
      ensures State() == old(State()).(pool := old(pool[..])[n := InitTable(old(pool[n]))])
    {
      var i := 0;
      while i < |pool[n]|
        invariant 0 <= i <= |pool[n]| == |old(pool[n])|
        invariant forall k :: 0 <= k < i ==> pool[n][k] == old(pool[n])[k].(valid := false)
        invariant forall k :: i <= k < |pool[n]| ==> pool[n][k] == old(pool[n])[k]
        invariant pool[..] == old(pool[..])[n := pool[n]]
      {
        pool[n] := pool[n][i := pool[n][i].(valid := false)];
        i := i + 1;
      }
      assert pool[n] == InitTable(old(pool[n]));
    }

    method PmAlloc() returns (f: int)
      requires Slist.Valid(frameList[..]) && Apart()
      modifies frameList
      ensures State() == old(State()).(frameList := AllocNode(old(frameList[..])).0)
      ensures f == AllocNode(old(frameList[..])).1 - 1
    {
      f := AllocCell(frameList);
      f := f - 1;
    }

    method PmFree(f: int) returns (ok: bool)
      requires Slist.Valid(frameList[..]) && Apart()
      modifies frameList
      ensures State() == old(State()).(frameList := FreeNode(old(frameList[..]), f + 1).0)
      ensures ok == FreeNode(old(frameList[..]), f + 1).1
    {
      ok := FreeCell(frameList, f + 1, frameList.Length);
    }

    method PtPoolAlloc() returns (n: int)
      requires Slist.Valid(poolList[..]) && Apart()
      modifies poolList
      ensures State() == old(State()).(poolList := AllocNode(old(poolList[..])).0)
      ensures n == AllocNode(old(poolList[..])).1 - 1
    {
      n := AllocCell(poolList);
      n := n - 1;
    }

    method SwapAreaAlloc() returns (address: int)
      requires Slist.Valid(swapList[..]) && Apart()
      modifies swapList
      ensures State() == old(State()).(swapList := AllocNode(old(swapList[..])).0)
      ensures address == SwapAddress(AllocNode(old(swapList[..])).1)
    {
      var t := AllocCell(swapList);
      address := SWAP_AREA_BASE + (t - 1) * SWAP_AREA_UNIT_SIZE;
    }

    method SwapAreaFree(address: int) returns (ok: bool)
      requires Slist.Valid(swapList[..]) && Apart()
      modifies swapList
      ensures State() == old(State()).(swapList := FreeNode(old(swapList[..]), SwapIndex(address)).0)
      ensures ok == FreeNode(old(swapList[..]), SwapIndex(address)).1
    {
      var index := (address - SWAP_AREA_BASE) % TWO32 / SWAP_AREA_UNIT_SIZE + 1;
      ok := FreeCell(swapList, index, swapList.Length);
    }

    method SetTlbInvalid(p: int, v: int)
      modifies tlb
      ensures State() == TlbInvalidate(old(State()), p, v)
    {
      var i := Probe(tlb[..], p, v);
      if i != -1 {
        tlb[i] := TlbEntry(v, p, 0, false, 0, false);
        assert tlb[..] == old(tlb[..])[i := TlbEntry(v, p, 0, false, 0, false)];
      }
    }

    method SwapOut(timer: nat)
      requires Apart() && Consistent(State()) && Full(frameList[..])
      modifies this`swap, frameList, swapList, pool, tlb
      ensures State() == Paging.SwapOut(old(State()), timer)
    {
      hide Slist.Valid, DirOf, SlotOf, PageOf, DirNumber, TableNumber, MapBut, TlbOk, DirsOk, SwapAddress;
      ghost var m := State();
      var f := Victim(timer);
      FullIsLive(frameList[..]);
      OwnerIsMapped(m, f);
      var p := framePid[f] % 0x100;
      var vpn := frameVpn[f];
      WalkOf(vpn);
      MappedHasTable(m, p, PageOf(vpn));
      TableIsThere(m, p, DirNumber(vpn));
      SlotRange(PageOf(vpn));
      UserDir(PageOf(vpn));
      AllocEffect(m.swapList);
      var n := dirs[p][DirNumber(vpn)].poolNum;
      var k := TableNumber(vpn);
      var freed := PmFree(f);
      var base := SwapAreaAlloc();
      pool[n] := pool[n][k := pool[n][k].(present := false, addr := base)];
      assert State().pool == SetEntry(m, p, PageOf(vpn), Pte(base, Entry(m, p, PageOf(vpn)).valid, false)).pool;
      SetTlbInvalid(p, PageOf(vpn));
      swap := swap[base := frames[f]];
    }

    /** What swap_in and the exception helper both do for a frame. */
    method TakeFrame(timer: nat) returns (f: int)
      requires Apart() && Consistent(State())
      modifies this`swap, frameList, swapList, pool, tlb
      ensures (State(), f) == Paging.TakeFrame(old(State()), timer)
    {
      hide Consistent, Slist.Valid, Shaped, Paging.SwapOut;
      ghost var m := State();
      ConsistentLists(m);
      AllocEffect(m.frameList);
      f := PmAlloc();
      assert m.frameList[0].cursor == 0 ==> AllocNode(m.frameList).0 == m.frameList;
      if f == -1 {
        SwapOut(timer);
        SwapOutShape(m, timer);
        AllocEffect(frameList[..]);
        f := PmAlloc();
      }
    }

    /** swap_in, for the entry k of page table n. */
    method SwapIn(n: int, k: int, p: int, va: int, timer: nat)
      requires Apart() && Consistent(State()) && UserAccess(p, va, 0)
      requires DirEntry(State(), p, DirNumber(va)) == Pde(n, true) && k == TableNumber(va)
      requires Swapped(State(), p, PageOf(va))
      modifies this`swap, frames, frameList, framePid, frameVpn, swapList, pool, tlb
      ensures State() == Paging.SwapIn(old(State()), p, va, timer)
    {
      hide Consistent, Slist.Valid, DirOf, SlotOf, PageOf, DirNumber, TableNumber, VpnOf, Paging.TakeFrame, SwapIndex,
        Pfn, BlankPage;
      ghost var m := State();
      ConsistentLists(m);
      WalkOf(va);
      SlotRange(PageOf(va));
      TableIsThere(m, p, DirNumber(va));
      var address := pool[n][k].addr;
      TakeFrameShape(m, timer);
      var f := TakeFrame(timer);
      frames[f] := if address in swap then swap[address] else BlankPage();
      var freed := SwapAreaFree(address);
      ghost var m1 := State();
      assert m1 == FetchSlot(Paging.TakeFrame(m, timer).0, f, address);
      assert Entry(m1, p, PageOf(va)) == PoolEntry(m1, n, k);
      SameTables(Paging.TakeFrame(m, timer).0, m1);
      pool[n] := pool[n][k := pool[n][k].(addr := Pfn(f), present := true)];
      framePid[f] := p;
      frameVpn[f] := VpnOf(va);
      assert State() == Install(m1, p, va, f);
    }

    /** The helper's first part: the page table of directory entry d, -1 if none is left. */
    method FindTable(p: int, d: int) returns (n: int)
      requires Apart() && Consistent(State()) && 0 <= p < MAX_TASK_NUM && 0 <= d < PDE_NUMBER
      modifies dirs, pool, poolList
      ensures (State(), n != -1) == EnsureTable(old(State()), p, d)
      ensures n != -1 ==> DirEntry(State(), p, d) == Pde(n, true)
    {
      hide Consistent, Slist.Valid, LiveIn, FreeCells, DirsOk, Full;
      ghost var m := State();
      ConsistentLists(m);
      AllocEffect(m.poolList);
      if !dirs[p][d].valid {
        n := PtPoolAlloc();
        if n == -1 {
          return;
        }
        dirs[p] := dirs[p][d := dirs[p][d].(poolNum := n)];
        PageTableInit(n);
        dirs[p] := dirs[p][d := dirs[p][d].(valid := true)];
        assert dirs[p] == m.dirs[p][d := Pde(n, true)];
        assert dirs[..] == m.dirs[p := m.dirs[p][d := Pde(n, true)]];
      } else {
        n := dirs[p][d].poolNum;
        TableIsThere(m, p, d);
      }
    }

    /** The helper's second part for a page that was never mapped. */
    method MapPage(n: int, k: int, p: int, va: int, timer: nat)
      requires Apart() && Consistent(State()) && UserAccess(p, va, 0)
      requires DirEntry(State(), p, DirNumber(va)) == Pde(n, true) && k == TableNumber(va)
      modifies this`swap, frameList, framePid, frameVpn, swapList, pool, tlb
      ensures State() == DemandPage(old(State()), p, va, timer)
    {
      hide Consistent, Slist.Valid, DirOf, SlotOf, PageOf, DirNumber, TableNumber, VpnOf, Paging.TakeFrame, Pfn;
      ghost var m := State();
      ConsistentLists(m);
      WalkOf(va);
      SlotRange(PageOf(va));
      TableIsThere(m, p, DirNumber(va));
      TakeFrameShape(m, timer);
      var f := TakeFrame(timer);
      ghost var m1 := State();
      framePid[f] := p;
      frameVpn[f] := VpnOf(va);
      pool[n] := pool[n][k := Pte(Pfn(f), true, true)];
      assert State() == Install(m1, p, va, f);
    }

    /** TLB_exception_helper; false for a panic. */
    method TlbExceptionHelper(p: int, va: int, timer: nat, slot: int) returns (ok: bool)
      requires Apart() && Consistent(State()) && UserAccess(p, va, slot)
      modifies this`swap, dirs, frames, frameList, framePid, frameVpn, swapList, pool, poolList, tlb
      ensures (State(), ok) == Fault(old(State()), p, va, timer, slot)
    {
      hide Consistent, Slist.Valid, DirOf, SlotOf, PageOf, DirNumber, TableNumber, EnsureTable, DemandPage,
        Paging.SwapIn;
      ghost var m := State();
      UserAddress(va);
      NewTableIff(m, p, DirNumber(va));
      var k := TableNumber(va);
      var n := FindTable(p, DirNumber(va));
      if n == -1 {
        return false;
      }
      ghost var m1 := State();
      ConsistentLists(m1);
      TableIsThere(m1, p, DirNumber(va));
      assert Entry(m1, p, PageOf(va)) == pool[n][k];
      if !pool[n][k].valid {
        MapPage(n, k, p, va, timer);
      } else {
        if !pool[n][k].present {
          SwapIn(n, k, p, va, timer);
        }
      }
      ghost var m2 := State();
      assert m2 == MakePresent(m1, p, va, timer);
      InstallShape(m1, p, va, timer);
      assert Entry(m2, p, PageOf(va)) == pool[n][k];
      var pfn := pool[n][k].addr;
      var i := Probe(tlb[..], p, PageOf(va));
      if i == -1 {
        tlb[slot] := TlbEntry(PageOf(va), p, pfn, true, pfn + 1, true);
      } else {
        tlb[i] := TlbEntry(PageOf(va), p, pfn, true, pfn + 1, true);
      }
      ok := true;
      assert State() == TlbWrite(m2, p, PageOf(va), slot);
    }
  }
}
