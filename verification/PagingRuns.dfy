/** What paging promises: the mapping stays a bijection, and eviction and swap-in cannot be seen by any process. */
module PagingRuns {
  import opened Slist
  import opened Paging

  // ---------------------------------------------------------------- arithmetic of addresses

  lemma FrameInverse(f: int)
    ensures FrameOf(Pfn(f)) == f
  {
    assert (PM_BASE + f * PM_SCHE_SIZE) == 0x1000 * (0x1000 + 2 * f);
  }

  lemma SamePage(v: int, w: int)
    requires DirOf(v) == DirOf(w) && SlotOf(v) == SlotOf(w)
    ensures v == w
  {
    assert v == DirOf(v) * PTE_NUMBER + SlotOf(v) && w == DirOf(w) * PTE_NUMBER + SlotOf(w);
  }

  lemma SlotRange(v: int)
    ensures 0 <= SlotOf(v) < PTE_NUMBER
  {}

  /** The table walk uses the same page for a fault, for its registration and for the directory. */
  lemma UserAddress(va: int)
    requires 0 <= va < USER_TOP
    ensures 0 <= PageOf(va) < USER_PAGES && PageOf(VpnOf(va)) == PageOf(va)
    ensures DirOf(PageOf(va)) == DirNumber(va) && 0 <= DirNumber(va) < PDE_NUMBER
    ensures SlotOf(PageOf(va)) == TableNumber(va) && 0 <= TableNumber(va) < PTE_NUMBER
  {
    assert va == 0x2000 * (va / 0x2000) + va % 0x2000;
    assert va / 0x2000 == 512 * (va / 0x2000 / 512) + va / 0x2000 % 512;
    assert va == 0x1000 * (va / 0x1000) + va % 0x1000;
  }

  /** Allocating and releasing swap slots are inverse, on disjoint 8 KB units inside the swap area. The address before
      the area, which stands for no slot, is taken for one far beyond the list. */
  lemma SwapUnits(t: int, u: int)
    requires 0 < t < SWAP_AREA_SIZE && 0 < u < SWAP_AREA_SIZE
    ensures SwapIndex(SwapAddress(t)) == t && SwapIndex(SwapAddress(0)) == 0x80000
    ensures SWAP_AREA_BASE <= SwapAddress(t) && SwapAddress(t) + SWAP_AREA_UNIT_SIZE <= 0xf00200
    ensures t < u ==> SwapAddress(t) + SWAP_AREA_UNIT_SIZE <= SwapAddress(u)
  {
    assert SwapAddress(t) - SWAP_AREA_BASE == (t - 1) * SWAP_AREA_UNIT_SIZE;
  }

  lemma PhysicalAddress(e: TlbEntry, f: int, va: int)
    requires e.pfn0 == Pfn(f) && e.pfn1 == e.pfn0 + 1
    ensures (Physical(e, va) - PM_BASE) / PM_SCHE_SIZE == f && (Physical(e, va) - PM_BASE) % PM_SCHE_SIZE == Offset(va)
  {
    assert Pfn(f) == 0x1000 + 2 * f;
    assert va == 0x1000 * (va / 0x1000) + va % 0x1000;
    assert va / 0x1000 == 2 * (va / 0x1000 / 2) + va / 0x1000 % 2;
    assert Offset(va) == va / 0x1000 % 2 * 0x1000 + va % 0x1000;
    assert Physical(e, va) - PM_BASE == f * 0x2000 + Offset(va);
  }

  // ---------------------------------------------------------------- free lists

  ghost predicate Full(l: seq<Node>) {
    FreeCells(l) == []
  }

  lemma FullIsLive(l: seq<Node>)
    requires Slist.Valid(l)
    ensures Full(l) ==> forall i :: 0 < i < |l| ==> LiveIn(l, i)
  {
    ThreadsInRange(l, FreeCells(l));
  }

  lemma AllocEffect(l: seq<Node>)
    requires Slist.Valid(l)
    ensures CanAlloc(l)
    ensures var (l', t) := AllocNode(l);
      && Slist.Valid(l') && |l'| == |l| && 0 <= t < |l| && (t == 0 <==> Full(l))
      && (t != 0 ==> !LiveIn(l, t) && forall i :: LiveIn(l', i) <==> (LiveIn(l, i) || i == t))
      && (t != 0 ==> FreeCells(l)[0] == t && FreeCells(l') == FreeCells(l)[1..])
  {
    AllocPops(l);
    var (l', t) := AllocNode(l);
    assert forall i :: i in Live(l) <==> LiveIn(l, i);
    assert forall i :: i in Live(l') <==> LiveIn(l', i);
  }

  lemma FreeEffect(l: seq<Node>, index: int)
    requires Slist.Valid(l) && LiveIn(l, index)
    ensures var l' := FreeNode(l, index).0;
      && Slist.Valid(l') && |l'| == |l| && FreeCells(l') == [index] + FreeCells(l)
      && forall i :: LiveIn(l', i) <==> (LiveIn(l, i) && i != index)
  {
    FreePushes(l, index);
    var l' := FreeNode(l, index).0;
    assert forall i :: i in Live(l) <==> LiveIn(l, i);
    assert forall i :: i in Live(l') <==> LiveIn(l', i);
  }

  // ---------------------------------------------------------------- one entry changes

  ghost predicate EntryChanged(m: Vm, n: Vm, p: int, v: int, e: Pte) {
    forall q, w :: Entry(n, q, w) == if q == p && w == v then e else Entry(m, q, w)
  }

  lemma SameTables(m: Vm, n: Vm)
    requires m.dirs == n.dirs && m.pool == n.pool
    ensures forall q, w :: Entry(n, q, w) == Entry(m, q, w)
    ensures m.poolList == n.poolList && DirsOk(m) ==> DirsOk(n)
  {
    assert forall q, d :: DirEntry(n, q, d) == DirEntry(m, q, d);
    assert forall q, k :: PoolEntry(n, q, k) == PoolEntry(m, q, k);
    if m.poolList == n.poolList && DirsOk(m) {
      assert forall q, d :: DirOk(m, q, d) ==> DirOk(n, q, d);
      assert forall q, d, r, e :: SameDir(m, q, d, r, e) ==> SameDir(n, q, d, r, e);
    }
  }

  /** Because no page table is shared, writing one entry changes the entry of no other page of any process. */
  lemma SetEntryEffect(m: Vm, p: int, v: int, e: Pte)
    requires Shaped(m) && DirsOk(m) && DirEntry(m, p, DirOf(v)).valid
    ensures var n := SetEntry(m, p, v, e);
      n == m.(pool := n.pool) && Shaped(n) && DirsOk(n) && EntryChanged(m, n, p, v, e)
  {
    hide DirOf, SlotOf;
    var n := SetEntry(m, p, v, e);
    assert DirOk(m, p, DirOf(v));
    SlotRange(v);
    assert forall q, d :: DirEntry(n, q, d) == DirEntry(m, q, d);
    assert forall q, d :: DirOk(m, q, d) ==> DirOk(n, q, d);
    assert forall q, d, r, c :: SameDir(m, q, d, r, c) ==> SameDir(n, q, d, r, c);
    forall q, w ensures Entry(n, q, w) == if q == p && w == v then e else Entry(m, q, w) {
      if q != p || w != v {
        assert SameDir(m, p, DirOf(v), q, DirOf(w));
        if DirOf(v) == DirOf(w) && SlotOf(v) == SlotOf(w) { SamePage(v, w); }
      }
    }
  }

  // ---------------------------------------------------------------- a page table is added

  ghost predicate SameMapped(m: Vm, n: Vm) {
    forall q, w :: Mapped(n, q, w) == Mapped(m, q, w) && (Mapped(m, q, w) ==> Entry(n, q, w) == Entry(m, q, w))
  }

  ghost predicate SameRest(m: Vm, n: Vm) {
    && n.frames == m.frames && n.frameList == m.frameList && n.framePid == m.framePid && n.frameVpn == m.frameVpn
    && n.swap == m.swap && n.swapList == m.swapList && n.tlb == m.tlb
  }

  /** Table n, fresh, is what directory entry (p, d) now leads to; no other directory
      entry and no other table changes. */
  ghost predicate TableAdded(m: Vm, e: Vm, p: int, d: int, n: int) {
    && (forall q, c :: DirEntry(e, q, c) == if q == p && c == d then Pde(n, true) else DirEntry(m, q, c))
    && (forall q, k :: q != n ==> PoolEntry(e, q, k) == PoolEntry(m, q, k))
    && (forall k :: !PoolEntry(e, n, k).valid)
    && 0 <= n < PAGE_TABLE_POOL_SIZE && !LiveIn(m.poolList, n + 1) && !DirEntry(m, p, d).valid
    && (forall i :: LiveIn(e.poolList, i) <==> (LiveIn(m.poolList, i) || i == n + 1))
  }

  lemma AddedKeepsDirs(m: Vm, e: Vm, p: int, d: int, n: int)
    requires DirsOk(m) && TableAdded(m, e, p, d, n)
    ensures DirsOk(e) && SameMapped(m, e)
  {
    hide DirEntry, PoolEntry, DirOf, SlotOf;
    forall q, c ensures DirOk(e, q, c) { assert DirOk(m, q, c); }
    forall q, c, r, f
      ensures SameDir(e, q, c, r, f) { assert SameDir(m, q, c, r, f) && DirOk(m, q, c) && DirOk(m, r, f); }
    forall q, w ensures Mapped(e, q, w) == Mapped(m, q, w) && (Mapped(m, q, w) ==> Entry(e, q, w) == Entry(m, q, w)) {
      assert DirOk(m, q, DirOf(w));
    }
  }

  lemma NewTableAdds(m: Vm, p: int, d: int, list: seq<Node>, n: int)
    requires Shaped(m) && 0 <= p < MAX_TASK_NUM && 0 <= d < PDE_NUMBER && 0 <= n < PAGE_TABLE_POOL_SIZE
    requires |list| == |m.poolList| && !LiveIn(m.poolList, n + 1) && !DirEntry(m, p, d).valid
    requires forall i :: LiveIn(list, i) <==> (LiveIn(m.poolList, i) || i == n + 1)
    ensures var e := NewTable(m, p, d, list, n);
      Shaped(e) && TableAdded(m, e, p, d, n) && SameRest(m, e) && e.poolList == list
  {}

  /** A new page table starts with no valid entry, and it is nobody else's. */
  lemma NewTableEffect(m: Vm, p: int, d: int)
    requires Shaped(m) && Slist.Valid(m.poolList) && DirsOk(m) && !Full(m.poolList)
    requires 0 <= p < MAX_TASK_NUM && 0 <= d < PDE_NUMBER && !DirEntry(m, p, d).valid
    ensures CanAlloc(m.poolList)
    ensures var (list, t) := AllocNode(m.poolList);
      var n := NewTable(m, p, d, list, t - 1);
      && Shaped(n) && Slist.Valid(n.poolList) && DirsOk(n) && SameMapped(m, n) && SameRest(m, n)
      && DirEntry(n, p, d).valid
  {
    hide DirEntry, PoolEntry, DirsOk, SameMapped, NewTable, Slist.Valid;
    AllocEffect(m.poolList);
    var (list, t) := AllocNode(m.poolList);
    NewTableAdds(m, p, d, list, t - 1);
    AddedKeepsDirs(m, NewTable(m, p, d, list, t - 1), p, d, t - 1);
  }

  lemma SameMappedKeepsMap(m: Vm, n: Vm, f: int)
    requires SameMapped(m, n) && SameRest(m, n) && MapBut(m, f) && TlbOk(m)
    ensures MapBut(n, f) && TlbOk(n)
  {
    hide Entry, FrameOf, Pfn, SwapIndex, SwapAddress;
    forall p, v
      ensures PresentOk(n, p, v) && (Present(n, p, v) ==> Entry(n, p, v).addr != Pfn(f)) && SwappedOk(n, p, v)
    {
      assert Mapped(n, p, v) == Mapped(m, p, v);
      assert PresentOk(m, p, v) && SwappedOk(m, p, v);
    }
    forall g | g != f ensures FrameOk(n, g) {
      assert FrameOk(m, g);
      assert Mapped(n, OwnerPid(n, g), OwnerPage(n, g)) == Mapped(m, OwnerPid(n, g), OwnerPage(n, g));
    }
    forall p, v, q, w ensures SameSlot(n, p, v, q, w) {
      assert SameSlot(m, p, v, q, w);
      assert Mapped(n, p, v) == Mapped(m, p, v) && Mapped(n, q, w) == Mapped(m, q, w);
    }
    forall i | 0 <= i < |n.tlb| ensures TlbEntryOk(n, n.tlb[i]) {
      assert TlbEntryOk(m, m.tlb[i]);
      assert Mapped(n, n.tlb[i].asid, n.tlb[i].vpn2) == Mapped(m, n.tlb[i].asid, n.tlb[i].vpn2);
    }
  }

  /** Every page that was mapped finds in `n` what it finds in `m`. */
  ghost predicate KeepsViews(m: Vm, n: Vm) {
    forall q, w :: Mapped(m, q, w) ==> Mapped(n, q, w) && View(n, q, w) == View(m, q, w)
  }

  lemma EnsureTableEffect(m: Vm, p: int, d: int)
    requires Consistent(m) && 0 <= p < MAX_TASK_NUM && 0 <= d < PDE_NUMBER
    requires DirEntry(m, p, d).valid || !Full(m.poolList)
    ensures var (n, ok) := EnsureTable(m, p, d);
      ok && Consistent(n) && SameMapped(m, n) && SameRest(m, n) && DirEntry(n, p, d).valid
  {
    if DirEntry(m, p, d).valid {
      assert SameMapped(m, m);
    } else {
      AllocEffect(m.poolList);
      NewTableEffect(m, p, d);
      SameMappedKeepsMap(m, EnsureTable(m, p, d).0, -1);
    }
  }

  // ---------------------------------------------------------------- eviction

  /** The shootdown leaves no translation of the page. */
  lemma InvalidateEffect(m: Vm, n: Vm, p: int, v: int, e: Pte)
    requires TlbOk(m) && EntryChanged(m, n, p, v, e) && n.tlb == m.tlb && UserPage(p, v)
    ensures var n' := TlbInvalidate(n, p, v); n' == n.(tlb := n'.tlb) && |n'.tlb| == |n.tlb| && TlbOk(n')
  {
    hide Entry;
    var n' := TlbInvalidate(n, p, v);
    SameTables(n, n');
    var i := Probe(n.tlb, p, v);
    forall k | 0 <= k < |n'.tlb| ensures TlbEntryOk(n', n'.tlb[k]) {
      assert TlbEntryOk(m, m.tlb[k]);
    }
  }

  /** Frame f is free again and its page owns the fresh slot t. */
  ghost predicate Moved(m: Vm, n: Vm, f: int, t: int) {
    && EntryChanged(m, n, OwnerPid(m, f), OwnerPage(m, f), Pte(SwapAddress(t), true, false))
    && n.framePid == m.framePid && n.frameVpn == m.frameVpn
    && |n.frameList| == |m.frameList| && |n.swapList| == |m.swapList|
    && (forall i :: LiveIn(n.frameList, i) <==> (LiveIn(m.frameList, i) && i != f + 1))
    && (forall i :: LiveIn(n.swapList, i) <==> (LiveIn(m.swapList, i) || i == t))
    && !LiveIn(m.swapList, t) && 0 < t < SWAP_AREA_SIZE
  }

  lemma MovedKeepsMap(m: Vm, n: Vm, f: int, t: int)
    requires MapOk(m) && Moved(m, n, f, t)
    requires 0 <= f < PM_SLIST_SIZE - 1 && LiveIn(m.frameList, f + 1)
    ensures MapOk(n)
  {
    hide Entry, FrameOf, Pfn, SwapIndex, SwapAddress;
    var p, v := OwnerPid(m, f), OwnerPage(m, f);
    SwapUnits(t, t);
    FrameInverse(f);
    assert FrameOk(m, f);
    forall q, w
      ensures PresentOk(n, q, w) && (Present(n, q, w) ==> Entry(n, q, w).addr != Pfn(-1)) && SwappedOk(n, q, w)
    {
      assert PresentOk(m, q, w) && SwappedOk(m, q, w);
      assert Entry(n, q, w) == if q == p && w == v then Pte(SwapAddress(t), true, false) else Entry(m, q, w);
    }
    forall g ensures g != -1 ==> FrameOk(n, g) {
      assert FrameOk(m, g);
      FrameInverse(g);
    }
    forall q, w, r, x ensures SameSlot(n, q, w, r, x) {
      assert SameSlot(m, q, w, r, x);
      assert SwappedOk(m, q, w) && SwappedOk(m, r, x);
    }
  }

  /** What a page had in the frame is now in the slot; nothing else is in either. */
  lemma MovedKeepsViews(m: Vm, n: Vm, f: int, t: int)
    requires MapOk(m) && Moved(m, n, f, t)
    requires 0 <= f < PM_SLIST_SIZE - 1 && LiveIn(m.frameList, f + 1)
    requires n.frames == m.frames && n.swap == m.swap[SwapAddress(t) := FrameAt(m, f)]
    ensures KeepsViews(m, n)
  {
    hide Entry, FrameOf, Pfn, SwapIndex, SwapAddress;
    var p, v := OwnerPid(m, f), OwnerPage(m, f);
    SwapUnits(t, t);
    FrameInverse(f);
    assert FrameOk(m, f);
    forall q, w | Mapped(m, q, w) ensures Mapped(n, q, w) && View(n, q, w) == View(m, q, w) {
      assert PresentOk(m, q, w) && SwappedOk(m, q, w);
      assert Entry(n, q, w) == if q == p && w == v then Pte(SwapAddress(t), true, false) else Entry(m, q, w);
    }
  }

  /** A page table walk ends in a directory entry of the process. */
  lemma MappedHasTable(m: Vm, p: int, v: int)
    requires Shaped(m) && Mapped(m, p, v)
    ensures UserPage(p, v) && DirEntry(m, p, DirOf(v)).valid
  {}

  /** The pages that are mapped are the same; pages in the swap area stay where they are. */
  ghost predicate OnlyEvicts(m: Vm, n: Vm) {
    && n.dirs == m.dirs && n.poolList == m.poolList
    && (forall q, w :: Mapped(n, q, w) == Mapped(m, q, w))
    && (forall q, w :: !Present(m, q, w) ==> Entry(n, q, w) == Entry(m, q, w))
    && (forall i :: LiveIn(m.swapList, i) ==> LiveIn(n.swapList, i))
    && KeepsViews(m, n)
  }

  /** The entry is set and the TLB shot down: no other entry changes. */
  lemma EvictEntry(m: Vm, m1: Vm, p: int, v: int, base: int)
    requires Shaped(m1) && DirsOk(m) && TlbOk(m) && m1.dirs == m.dirs && m1.pool == m.pool && m1.poolList == m.poolList
    requires m1.tlb == m.tlb && UserPage(p, v) && DirEntry(m, p, DirOf(v)).valid
    ensures var e := Pte(base, true, false);
      var n := TlbInvalidate(SetEntry(m1, p, v, e), p, v);
      && n == m1.(pool := n.pool, tlb := n.tlb) && EntryChanged(m, n, p, v, e) && Shaped(n) && DirsOk(n) && TlbOk(n)
  {
    hide Entry, DirOf, SlotOf, TlbOk, DirsOk, SetEntry, Matches;
    var e := Pte(base, true, false);
    SameTables(m, m1);
    assert DirEntry(m1, p, DirOf(v)).valid;
    SetEntryEffect(m1, p, v, e);
    var m2 := SetEntry(m1, p, v, e);
    assert EntryChanged(m, m2, p, v, e);
    InvalidateEffect(m, m2, p, v, e);
    SameTables(m2, TlbInvalidate(m2, p, v));
  }

  /** The steps of swap_out one by one. */
  lemma MoveOutMoves(m: Vm, f: int)
    requires Shaped(m) && ListsOk(m) && DirsOk(m) && TlbOk(m) && MapOk(m)
    requires 0 <= f < PM_SLIST_SIZE - 1 && LiveIn(m.frameList, f + 1) && !Full(m.swapList)
    ensures CanAlloc(m.swapList)
    ensures var (slots, t) := AllocNode(m.swapList);
      var n := MoveOut(m, f, SwapAddress(t), slots);
      && Moved(m, n, f, t) && Shaped(n) && ListsOk(n) && DirsOk(n) && TlbOk(n)
      && FreeCells(n.frameList) == [f + 1] + FreeCells(m.frameList)
      && n.frames == m.frames && n.swap == m.swap[SwapAddress(t) := FrameAt(m, f)]
      && n.dirs == m.dirs && n.poolList == m.poolList
  {
    hide SwapAddress, DirOf, TlbOk, DirsOk, MapBut, Slist.Valid, SetEntry, TlbInvalidate, FrameAt, Pfn, EntryChanged,
      LiveIn, OwnerPid, OwnerPage, AllocNode, FreeNode, FreeCells, Entry, Matches;
    AllocEffect(m.swapList);
    FreeEffect(m.frameList, f + 1);
    var (slots, t) := AllocNode(m.swapList);
    var p, v := OwnerPid(m, f), OwnerPage(m, f);
    OwnerIsMapped(m, f);
    MappedHasTable(m, p, v);
    var m1 := m.(frameList := FreeNode(m.frameList, f + 1).0, swapList := slots,
      swap := m.swap[SwapAddress(t) := FrameAt(m, f)]);
    EvictEntry(m, m1, p, v, SwapAddress(t));
  }

  lemma MoveOutEffect(m: Vm, f: int)
    requires Consistent(m) && 0 <= f < PM_SLIST_SIZE - 1 && LiveIn(m.frameList, f + 1) && !Full(m.swapList)
    ensures CanAlloc(m.swapList)
    ensures var (slots, t) := AllocNode(m.swapList);
      var n := MoveOut(m, f, SwapAddress(t), slots);
      && Consistent(n) && OnlyEvicts(m, n) && FreeCells(n.frameList) == [f + 1] + FreeCells(m.frameList)
      && View(n, OwnerPid(m, f), OwnerPage(m, f)) == FrameAt(m, f) && Swapped(n, OwnerPid(m, f), OwnerPage(m, f))
  {
    hide Entry, FrameOf, Pfn, SwapIndex, SwapAddress, TlbOk, DirsOk, MapBut, Slist.Valid, MoveOut, FrameAt, BlankPage;
    MoveOutMoves(m, f);
    var (slots, t) := AllocNode(m.swapList);
    var n := MoveOut(m, f, SwapAddress(t), slots);
    MovedKeepsMap(m, n, f, t);
    MovedKeepsViews(m, n, f, t);
    OwnerIsMapped(m, f);
  }

  lemma OwnerIsMapped(m: Vm, f: int)
    requires MapOk(m) && 0 <= f < PM_SLIST_SIZE - 1 && LiveIn(m.frameList, f + 1)
    ensures Present(m, OwnerPid(m, f), OwnerPage(m, f)) && Entry(m, OwnerPid(m, f), OwnerPage(m, f)).addr == Pfn(f)
  {
    assert FrameOk(m, f);
  }

  ghost predicate SameEntries(m: Vm, n: Vm) {
    forall q, w :: Entry(n, q, w) == Entry(m, q, w)
  }

  lemma SameEntriesKeepTlb(m: Vm, n: Vm)
    requires SameEntries(m, n) && n.tlb == m.tlb && TlbOk(m)
    ensures TlbOk(n)
  {
    hide Entry;
    forall i | 0 <= i < |n.tlb| ensures TlbEntryOk(n, n.tlb[i]) { assert TlbEntryOk(m, m.tlb[i]); }
  }

  lemma TakenKeepsMap(m: Vm, n: Vm, f: int)
    requires MapOk(m) && SameEntries(m, n) && n.framePid == m.framePid && n.frameVpn == m.frameVpn
    requires n.swapList == m.swapList && !LiveIn(m.frameList, f + 1)
    requires forall i :: LiveIn(n.frameList, i) <==> (LiveIn(m.frameList, i) || i == f + 1)
    ensures MapBut(n, f)
  {
    hide Entry, FrameOf, Pfn, SwapIndex, SwapAddress;
    FrameInverse(f);
    forall p, v
      ensures PresentOk(n, p, v) && (Present(n, p, v) ==> Entry(n, p, v).addr != Pfn(f)) && SwappedOk(n, p, v)
    {
      assert PresentOk(m, p, v) && SwappedOk(m, p, v);
    }
    forall g | g != f ensures FrameOk(n, g) { assert FrameOk(m, g); }
    forall p, v, q, w ensures SameSlot(n, p, v, q, w) { assert SameSlot(m, p, v, q, w); }
  }

  /** A frame leaves the free list: nobody has it, and everything else is as before. */
  lemma AllocFrameEffect(m: Vm)
    requires Consistent(m) && !Full(m.frameList)
    ensures CanAlloc(m.frameList)
    ensures var (list, t) := AllocNode(m.frameList);
      var n := m.(frameList := list);
      && 0 < t < PM_SLIST_SIZE && ConsistentBut(n, t - 1) && OnlyEvicts(m, n) && LiveIn(n.frameList, t)
      && t == FreeCells(m.frameList)[0]
  {
    hide Entry, FrameOf, Pfn, SwapIndex, SwapAddress, TlbOk, DirsOk, MapBut, Slist.Valid;
    AllocEffect(m.frameList);
    var (list, t) := AllocNode(m.frameList);
    var n := m.(frameList := list);
    SameTables(m, n);
    assert SameEntries(m, n);
    SameEntriesKeepTlb(m, n);
    TakenKeepsMap(m, n, t - 1);
  }

  lemma OnlyEvictsTwice(l: Vm, m: Vm, n: Vm)
    requires OnlyEvicts(l, m) && OnlyEvicts(m, n)
    requires forall q, w :: Present(m, q, w) ==> Present(l, q, w)
    ensures OnlyEvicts(l, n)
  {
    hide Entry, View;
  }

  /** A frame can be had: one is free, or one can be emptied. */
  ghost predicate HasRoom(m: Vm) {
    !Full(m.frameList) || !Full(m.swapList)
  }

  /** Taking a frame, evicting its page if none is free: no process sees it. */
  lemma TakeFrameEffect(m: Vm, timer: nat)
    requires Consistent(m) && HasRoom(m)
    ensures var (n, f) := TakeFrame(m, timer);
      && 0 <= f < PM_SLIST_SIZE - 1 && LiveIn(n.frameList, f + 1) && ConsistentBut(n, f) && OnlyEvicts(m, n)
      && (Full(m.frameList) ==> f == Victim(timer))
  {
    hide Entry, FrameOf, Pfn, SwapIndex, SwapAddress, DirOf, SlotOf, TlbOk, DirsOk, MapBut, Slist.Valid;
    AllocEffect(m.frameList);
    if Full(m.frameList) {
      FullIsLive(m.frameList);
      var f := Victim(timer);
      MoveOutEffect(m, f);
      var m1 := SwapOut(m, timer);
      AllocFrameEffect(m1);
      assert AllocNode(m1.frameList).1 == f + 1;
      EvictedNotPresent(m, m1);
      OnlyEvictsTwice(m, m1, TakeFrame(m, timer).0);
    } else {
      AllocFrameEffect(m);
    }
  }

  lemma EvictedNotPresent(m: Vm, n: Vm)
    requires OnlyEvicts(m, n)
    ensures forall q, w :: Present(n, q, w) ==> Present(m, q, w)
  {
    hide Entry, View;
    assert forall q, w :: Present(m, q, w) || Entry(n, q, w) == Entry(m, q, w);
  }

  // ---------------------------------------------------------------- a page gets the frame

  /** Page v of process p, not present in m, is present in frame f in n, and its slot, if it had one, is free. */
  ghost predicate Installed(m: Vm, n: Vm, f: int, p: int, v: int) {
    && EntryChanged(m, n, p, v, Pte(Pfn(f), true, true)) && !Present(m, p, v)
    && n.frameList == m.frameList && n.swap == m.swap && |n.frames| == |m.frames|
    && (forall g :: OwnerPid(n, g) == if g == f then p else OwnerPid(m, g))
    && (forall g :: OwnerPage(n, g) == if g == f then v else OwnerPage(m, g))
    && (forall g :: FrameAt(n, g)
         == if g == f && Swapped(m, p, v) then SwapAt(m, Entry(m, p, v).addr) else FrameAt(m, g))
    && (forall i :: LiveIn(n.swapList, i) <==>
          (LiveIn(m.swapList, i) && !(Swapped(m, p, v) && i == SwapIndex(Entry(m, p, v).addr))))
  }

  lemma InstalledKeepsMap(m: Vm, n: Vm, f: int, p: int, v: int)
    requires Installed(m, n, f, p, v) && MapBut(m, f)
    requires 0 <= f < PM_SLIST_SIZE - 1 && LiveIn(m.frameList, f + 1)
    ensures MapOk(n)
  {
    hide Entry, FrameOf, Pfn, SwapIndex, SwapAddress;
    FrameInverse(f);
    FrameInverse(-1);
    forall q, w ensures PresentOk(n, q, w) && (Present(n, q, w) ==> Entry(n, q, w).addr != Pfn(-1)) {
      assert PresentOk(m, q, w);
      assert Entry(n, q, w) == if q == p && w == v then Pte(Pfn(f), true, true) else Entry(m, q, w);
    }
    forall g ensures FrameOk(n, g) {
      assert g != f ==> FrameOk(m, g);
    }
    forall q, w ensures SwappedOk(n, q, w) {
      assert SwappedOk(m, q, w) && SwappedOk(m, p, v) && SameSlot(m, p, v, q, w);
    }
    forall q, w, r, x ensures SameSlot(n, q, w, r, x) { assert SameSlot(m, q, w, r, x); }
  }

  lemma InstalledKeepsTlb(m: Vm, n: Vm, f: int, p: int, v: int)
    requires Installed(m, n, f, p, v) && TlbOk(m) && n.tlb == m.tlb
    ensures TlbOk(n)
  {
    hide Entry, FrameOf, Pfn, SwapIndex, SwapAddress;
    forall i | 0 <= i < |n.tlb| ensures TlbEntryOk(n, n.tlb[i]) { assert TlbEntryOk(m, m.tlb[i]); }
  }

  /** The page finds in the frame what it had in the slot; the frame was nobody's, so nobody else loses anything. */
  lemma InstalledKeepsViews(m: Vm, n: Vm, f: int, p: int, v: int)
    requires Installed(m, n, f, p, v) && MapBut(m, f)
    ensures KeepsViews(m, n) && Present(n, p, v)
  {
    hide Entry, FrameOf, Pfn, SwapIndex, SwapAddress;
    FrameInverse(f);
    forall q, w | Mapped(m, q, w) ensures Mapped(n, q, w) && View(n, q, w) == View(m, q, w) {
      assert PresentOk(m, q, w);
    }
  }

  lemma RegisterEffect(m: Vm, f: int, p: int, va: int)
    requires Shaped(m) && 0 <= f < PM_SLIST_SIZE - 1 && 0 <= p < MAX_TASK_NUM && 0 <= va < USER_TOP
    ensures var n := Register(m, f, p, VpnOf(va));
      && n == m.(framePid := n.framePid, frameVpn := n.frameVpn) && Shaped(n)
      && (forall g :: OwnerPid(n, g) == if g == f then p else OwnerPid(m, g))
      && (forall g :: OwnerPage(n, g) == if g == f then PageOf(va) else OwnerPage(m, g))
  {
    UserAddress(va);
    hide PageOf, VpnOf;
  }

  /** Frame f has got what the page had in its slot, and the slot, if there was one, is free. */
  ghost predicate Fetched(m: Vm, n: Vm, f: int, p: int, v: int) {
    && n == m.(frames := n.frames, swapList := n.swapList)
    && |n.frames| == |m.frames| && |n.swapList| == |m.swapList| && Slist.Valid(n.swapList)
    && (forall g :: FrameAt(n, g)
         == if g == f && Swapped(m, p, v) then SwapAt(m, Entry(m, p, v).addr) else FrameAt(m, g))
    && (forall i :: LiveIn(n.swapList, i) <==>
          (LiveIn(m.swapList, i) && !(Swapped(m, p, v) && i == SwapIndex(Entry(m, p, v).addr))))
  }

  lemma InstalledFrom(m: Vm, m1: Vm, n: Vm, f: int, p: int, v: int)
    requires Fetched(m, m1, f, p, v) && !Present(m, p, v) && EntryChanged(m, n, p, v, Pte(Pfn(f), true, true))
    requires n.frameList == m1.frameList && n.swap == m1.swap && n.frames == m1.frames && n.swapList == m1.swapList
    requires forall g :: OwnerPid(n, g) == if g == f then p else OwnerPid(m1, g)
    requires forall g :: OwnerPage(n, g) == if g == f then v else OwnerPage(m1, g)
    ensures Installed(m, n, f, p, v)
  {
    hide Entry, SwapIndex, SwapAt, Slist.Valid, Pfn, BlankPage;
    assert forall g :: OwnerPid(m1, g) == OwnerPid(m, g) && OwnerPage(m1, g) == OwnerPage(m, g);
    assert forall g :: FrameAt(m1, g) == FrameAt(n, g);
  }

  /** Registering the frame and writing the entry. */
  lemma InstallInstalls(m: Vm, m1: Vm, f: int, p: int, va: int)
    requires Shaped(m) && DirsOk(m) && Fetched(m, m1, f, p, PageOf(va)) && !Present(m, p, PageOf(va))
    requires 0 <= f < PM_SLIST_SIZE - 1 && 0 <= p < MAX_TASK_NUM && 0 <= va < USER_TOP
    requires DirEntry(m, p, DirNumber(va)).valid
    ensures var n := Install(m1, p, va, f);
      && Shaped(n) && DirsOk(n) && Installed(m, n, f, p, PageOf(va))
      && n.dirs == m.dirs && n.poolList == m.poolList && n.swapList == m1.swapList && n.tlb == m.tlb
  {
    UserAddress(va);
    hide Entry, Pfn, SwapIndex, SwapAddress, DirOf, SlotOf, DirNumber, PageOf, VpnOf, DirsOk, Slist.Valid, SetEntry,
      Register;
    hide OwnerPid, OwnerPage, FrameAt, SwapAt, Installed, LiveIn;
    var v := PageOf(va);
    assert Shaped(m1);
    RegisterEffect(m1, f, p, va);
    var m2 := Register(m1, f, p, VpnOf(va));
    SameTables(m, m2);
    assert DirEntry(m2, p, DirOf(v)).valid;
    SetEntryEffect(m2, p, v, Pte(Pfn(f), true, true));
    var n := Install(m1, p, va, f);
    SameOwners(m2, n);
    InstalledFrom(m, m1, n, f, p, v);
  }

  lemma SameOwners(m: Vm, n: Vm)
    requires m.framePid == n.framePid && m.frameVpn == n.frameVpn
    ensures forall g :: OwnerPid(n, g) == OwnerPid(m, g)
    ensures forall g :: OwnerPage(n, g) == OwnerPage(m, g)
  {}

  lemma InstallEffect(m: Vm, m1: Vm, f: int, p: int, va: int)
    requires ConsistentBut(m, f) && 0 <= f < PM_SLIST_SIZE - 1 && LiveIn(m.frameList, f + 1)
    requires 0 <= p < MAX_TASK_NUM && 0 <= va < USER_TOP && DirEntry(m, p, DirNumber(va)).valid
    requires Fetched(m, m1, f, p, PageOf(va)) && !Present(m, p, PageOf(va))
    ensures var n := Install(m1, p, va, f);
      && Consistent(n) && OnlyMaps(m, n, p, PageOf(va)) && n.dirs == m.dirs && n.poolList == m.poolList
  {
    hide Entry, View, Install, FrameOf, Pfn, SwapIndex, SwapAddress, DirNumber, PageOf, TlbOk, DirsOk, MapBut,
      Slist.Valid;
    var n, v := Install(m1, p, va, f), PageOf(va);
    InstallInstalls(m, m1, f, p, va);
    InstalledKeepsMap(m, n, f, p, v);
    InstalledKeepsTlb(m, n, f, p, v);
    InstalledKeepsViews(m, n, f, p, v);
  }

  ghost predicate OnlyMaps(m: Vm, n: Vm, p: int, v: int) {
    && Present(n, p, v) && KeepsViews(m, n)
    && forall q, w :: (q != p || w != v) ==> Mapped(n, q, w) == Mapped(m, q, w)
  }

  lemma OnlyMapsAfter(l: Vm, m: Vm, n: Vm, p: int, v: int)
    requires OnlyEvicts(l, m) && OnlyMaps(m, n, p, v)
    ensures OnlyMaps(l, n, p, v)
  {
    hide Entry, View;
  }

  lemma NothingToFetch(m: Vm, f: int, p: int, v: int)
    requires Slist.Valid(m.swapList) && !Mapped(m, p, v)
    ensures Fetched(m, m, f, p, v)
  {
    hide Entry, SwapIndex, Slist.Valid, FrameAt, SwapAt;
  }

  lemma DemandPageEffect(m: Vm, p: int, va: int, timer: nat)
    requires Consistent(m) && HasRoom(m)
    requires 0 <= p < MAX_TASK_NUM && 0 <= va < USER_TOP && DirEntry(m, p, DirNumber(va)).valid
    requires !Mapped(m, p, PageOf(va))
    ensures Consistent(DemandPage(m, p, va, timer)) && OnlyMaps(m, DemandPage(m, p, va, timer), p, PageOf(va))
  {
    hide Entry, View, Install, TakeFrame, Fetched, PageOf, DirNumber, DirsOk, TlbOk, MapBut, Slist.Valid;
    TakeFrameEffect(m, timer);
    var (m1, f) := TakeFrame(m, timer);
    assert !Mapped(m1, p, PageOf(va));
    NothingToFetch(m1, f, p, PageOf(va));
    InstallEffect(m1, m1, f, p, va);
    OnlyMapsAfter(m, m1, DemandPage(m, p, va, timer), p, PageOf(va));
  }

  lemma FetchSlotFrames(m: Vm, f: int, address: int)
    requires 0 <= f < |m.frames| && |m.swapList| > 0
    ensures forall g :: FrameAt(FetchSlot(m, f, address), g) == if g == f then SwapAt(m, address) else FrameAt(m, g)
  {
    hide SwapAt, SwapIndex, BlankPage;
  }

  lemma SwappedHasSlot(m: Vm, f: int, p: int, v: int)
    requires MapBut(m, f) && Swapped(m, p, v)
    ensures LiveIn(m.swapList, SwapIndex(Entry(m, p, v).addr))
  {
    assert SwappedOk(m, p, v);
  }

  lemma FetchSlotFetches(m: Vm, f: int, p: int, v: int)
    requires ConsistentBut(m, f) && 0 <= f < PM_SLIST_SIZE - 1 && Swapped(m, p, v)
    ensures Fetched(m, FetchSlot(m, f, Entry(m, p, v).addr), f, p, v)
  {
    hide Entry, SwapIndex, SwapAddress, DirsOk, TlbOk, MapBut, Slist.Valid, FrameAt, SwapAt, BlankPage;
    SwappedHasSlot(m, f, p, v);
    FreeEffect(m.swapList, SwapIndex(Entry(m, p, v).addr));
    FetchSlotFrames(m, f, Entry(m, p, v).addr);
  }

  lemma SwapInEffect(m: Vm, p: int, va: int, timer: nat)
    requires Consistent(m) && HasRoom(m)
    requires 0 <= p < MAX_TASK_NUM && 0 <= va < USER_TOP && DirEntry(m, p, DirNumber(va)).valid
    requires Swapped(m, p, PageOf(va))
    ensures Consistent(SwapIn(m, p, va, timer)) && OnlyMaps(m, SwapIn(m, p, va, timer), p, PageOf(va))
  {
    hide Entry, View, Install, TakeFrame, FetchSlot, Fetched, PageOf, DirNumber, ConsistentBut;
    TakeFrameEffect(m, timer);
    var (m1, f) := TakeFrame(m, timer);
    assert Entry(m1, p, PageOf(va)) == Entry(m, p, PageOf(va));
    FetchSlotFetches(m1, f, p, PageOf(va));
    InstallEffect(m1, FetchSlot(m1, f, Entry(m, p, PageOf(va)).addr), f, p, va);
    OnlyMapsAfter(m, m1, SwapIn(m, p, va, timer), p, PageOf(va));
  }

  lemma MakePresentEffect(m: Vm, p: int, va: int, timer: nat)
    requires Consistent(m) && (Present(m, p, PageOf(va)) || HasRoom(m))
    requires 0 <= p < MAX_TASK_NUM && 0 <= va < USER_TOP && DirEntry(m, p, DirNumber(va)).valid
    ensures Consistent(MakePresent(m, p, va, timer)) && OnlyMaps(m, MakePresent(m, p, va, timer), p, PageOf(va))
  {
    hide Entry, View, DirNumber, PageOf, ConsistentBut, HasRoom, DemandPage, SwapIn;
    if !Mapped(m, p, PageOf(va)) {
      DemandPageEffect(m, p, va, timer);
    } else if !Present(m, p, PageOf(va)) {
      SwapInEffect(m, p, va, timer);
    }
  }

  // ---------------------------------------------------------------- the TLB entry

  /** The new entry translates as the page table does and is the only one for its page. */
  lemma TlbWriteEffect(m: Vm, p: int, v: int, slot: int)
    requires Consistent(m) && Present(m, p, v) && 0 <= slot < TLB_ENTRY_NUMBER
    ensures var n := TlbWrite(m, p, v, slot);
      && n == m.(tlb := n.tlb) && Consistent(n) && Probe(n.tlb, p, v) != -1
      && n.tlb[Probe(n.tlb, p, v)] == TlbEntry(v, p, Entry(m, p, v).addr, true, Entry(m, p, v).addr + 1, true)
  {
    hide FrameOf, Pfn, SwapIndex, SwapAddress, DirOf, SlotOf, Slist.Valid;
    MappedHasTable(m, p, v);
    hide Entry;
    var n := TlbWrite(m, p, v, slot);
    SameTables(m, n);
    var i := Probe(m.tlb, p, v);
    var at := if i == -1 then slot else i;
    forall k | 0 <= k < |n.tlb| ensures TlbEntryOk(n, n.tlb[k]) { assert TlbEntryOk(m, m.tlb[k]); }
    assert Matches(n.tlb[at], p, v);
    assert TlbUnique(n.tlb);
    SameEntriesKeepMap(m, n);
  }

  lemma SameEntriesKeepMap(m: Vm, n: Vm)
    requires MapOk(m) && SameEntries(m, n) && n.framePid == m.framePid && n.frameVpn == m.frameVpn
    requires n.swapList == m.swapList && n.frameList == m.frameList
    ensures MapOk(n)
  {
    hide Entry, FrameOf, Pfn, SwapIndex, SwapAddress;
    forall p, v
      ensures PresentOk(n, p, v) && (Present(n, p, v) ==> Entry(n, p, v).addr != Pfn(-1)) && SwappedOk(n, p, v)
    {
      assert PresentOk(m, p, v) && SwappedOk(m, p, v);
    }
    forall g ensures g != -1 ==> FrameOk(n, g) { assert FrameOk(m, g); }
    forall p, v, q, w ensures SameSlot(n, p, v, q, w) { assert SameSlot(m, p, v, q, w); }
  }

  // ---------------------------------------------------------------- the whole fault

  predicate UserAccess(p: int, va: int, slot: int) {
    0 <= p < MAX_TASK_NUM && 0 <= va < USER_TOP && 0 <= slot < TLB_ENTRY_NUMBER
  }

  ghost predicate HasTable(m: Vm, p: int, va: int) {
    DirEntry(m, p, DirNumber(va)).valid || !Full(m.poolList)
  }

  /** The fault finds a page table, and a frame if the page needs one. */
  ghost predicate CanServe(m: Vm, p: int, va: int) {
    HasTable(m, p, va) && (Present(m, p, PageOf(va)) || HasRoom(m))
  }

  /** The TLB translates va to its place in the frame of the page. */
  predicate Reaches(m: Vm, p: int, va: int) {
    var f := FrameOf(Entry(m, p, PageOf(va)).addr);
    && Hits(m, p, va) && Present(m, p, PageOf(va)) && 0 <= f < |m.frames|
    && (PhysicalOf(m, p, va) - PM_BASE) / PM_SCHE_SIZE == f
    && (PhysicalOf(m, p, va) - PM_BASE) % PM_SCHE_SIZE == Offset(va)
  }

  lemma HitEntry(m: Vm, p: int, v: int)
    requires Consistent(m) && UserPage(p, v) && Probe(m.tlb, p, v) != -1
    ensures var e := m.tlb[Probe(m.tlb, p, v)];
      && e.valid0 == e.valid1
      && (e.valid0 ==> Present(m, p, v) && e.pfn0 == Entry(m, p, v).addr && e.pfn1 == e.pfn0 + 1)
  {
    hide Entry, DirsOk, MapBut, Slist.Valid;
    assert TlbEntryOk(m, m.tlb[Probe(m.tlb, p, v)]);
  }

  lemma PresentFrame(m: Vm, p: int, v: int)
    requires Consistent(m) && Present(m, p, v)
    ensures var f := FrameOf(Entry(m, p, v).addr); Entry(m, p, v).addr == Pfn(f) && 0 <= f < |m.frames|
  {
    hide Entry, DirsOk, Slist.Valid, FrameOf, Pfn;
    assert PresentOk(m, p, v);
  }

  /** A hit is never stale. */
  lemma HitReaches(m: Vm, p: int, va: int)
    requires Consistent(m) && UserAccess(p, va, 0) && Hits(m, p, va)
    ensures Reaches(m, p, va)
  {
    hide Entry, FrameOf, Pfn, Physical, PageOf, Offset, ConsistentBut;
    UserAddress(va);
    HitEntry(m, p, PageOf(va));
    PresentFrame(m, p, PageOf(va));
    PhysicalAddress(m.tlb[Probe(m.tlb, p, PageOf(va))], FrameOf(Entry(m, p, PageOf(va)).addr), va);
  }

  lemma SameMappedKeepsViews(m: Vm, n: Vm)
    requires SameMapped(m, n) && SameRest(m, n)
    ensures KeepsViews(m, n)
  {
    hide Entry, FrameOf;
  }

  lemma OnlyMapsMore(l: Vm, m: Vm, n: Vm, p: int, v: int)
    requires SameMapped(l, m) && KeepsViews(l, m) && OnlyMaps(m, n, p, v)
    ensures OnlyMaps(l, n, p, v)
  {
    hide Entry, View;
  }

  lemma OnlyMapsTlb(m: Vm, n: Vm, k: Vm, p: int, v: int)
    requires OnlyMaps(m, n, p, v) && k == n.(tlb := k.tlb)
    ensures OnlyMaps(m, k, p, v)
  {
    SameTables(n, k);
    hide Entry, FrameOf;
    assert forall q, w :: Entry(k, q, w) == Entry(n, q, w);
    assert forall q, w :: View(k, q, w) == View(n, q, w);
  }

  /** A fault that finds what it needs makes its page present, maps no other page, leaves what every process
      finds in every mapped page as it was, and lets the access through when it is tried again. */
  lemma FaultIsTransparent(m: Vm, p: int, va: int, timer: nat, slot: int)
    requires Consistent(m) && UserAccess(p, va, slot) && CanServe(m, p, va)
    ensures var (n, ok) := Fault(m, p, va, timer, slot);
      ok && Consistent(n) && OnlyMaps(m, n, p, PageOf(va)) && Reaches(n, p, va)
  {
    UserAddress(va);
    hide Entry, View, EnsureTable, MakePresent, TlbWrite, FrameOf, PageOf, DirNumber, ConsistentBut, Reaches,
      SameMapped, OnlyMaps;
    EnsureTableEffect(m, p, DirNumber(va));
    var m1 := EnsureTable(m, p, DirNumber(va)).0;
    SameMappedKeepsViews(m, m1);
    StillServed(m, m1, p, va);
    MakePresentEffect(m1, p, va, timer);
    var m2 := MakePresent(m1, p, va, timer);
    IsPresent(m1, m2, p, PageOf(va));
    TlbWriteEffect(m2, p, PageOf(va), slot);
    var n := TlbWrite(m2, p, PageOf(va), slot);
    OnlyMapsMore(m, m1, m2, p, PageOf(va));
    OnlyMapsTlb(m, m2, n, p, PageOf(va));
    HitReaches(n, p, va);
  }

  lemma IsPresent(m: Vm, n: Vm, p: int, v: int)
    requires OnlyMaps(m, n, p, v)
    ensures Present(n, p, v)
  {}

  lemma StillServed(m: Vm, n: Vm, p: int, va: int)
    requires SameMapped(m, n) && SameRest(m, n) && CanServe(m, p, va)
    ensures Present(n, p, PageOf(va)) || HasRoom(n)
  {
    hide Entry, PageOf;
    assert Mapped(n, p, PageOf(va)) == Mapped(m, p, PageOf(va));
  }

  /** The kernel panics exactly when a page table is needed and the pool is empty. */
  lemma PanicsIff(m: Vm, p: int, va: int, timer: nat, slot: int)
    requires Consistent(m) && UserAccess(p, va, slot)
    ensures !Fault(m, p, va, timer, slot).1 <==> !HasTable(m, p, va)
  {
    hide Entry, Slist.Valid, MakePresent, TlbWrite;
    AllocEffect(m.poolList);
  }

  // ---------------------------------------------------------------- the swap area is full

  /** The page was sent to the 8 KB before the swap area, which is not a slot. */
  predicate Stray(m: Vm, p: int, v: int) {
    Entry(m, p, v) == Pte(SwapAddress(0), true, false)
  }

  lemma StrayIsInconsistent(m: Vm, p: int, v: int)
    requires Stray(m, p, v)
    ensures !SwappedOk(m, p, v) && !Consistent(m)
  {
    hide Entry;
    assert !SwappedOk(m, p, v);
  }

  /** Nothing but the entry of (p, v) changes: a stray page stays stray. */
  ghost predicate Walkable(m: Vm, p: int, v: int) {
    Shaped(m) && DirsOk(m) && Stray(m, p, v)
  }

  lemma StraySwapOut(m: Vm, timer: nat)
    requires Consistent(m) && Full(m.frameList) && Full(m.swapList)
    ensures var (n, f) := (SwapOut(m, timer), Victim(timer));
      && Present(m, OwnerPid(m, f), OwnerPage(m, f)) && Walkable(n, OwnerPid(m, f), OwnerPage(m, f))
      && n.dirs == m.dirs && Slist.Valid(n.frameList) && FreeCells(n.frameList) == [f + 1]
      && EntryChanged(m, n, OwnerPid(m, f), OwnerPage(m, f), Pte(SwapAddress(0), true, false))
  {
    hide Entry, FrameOf, Pfn, SwapIndex, SwapAddress, DirOf, SlotOf, TlbOk, DirsOk, MapBut, Slist.Valid;
    AllocEffect(m.swapList);
    FullIsLive(m.frameList);
    var f := Victim(timer);
    var p, v := OwnerPid(m, f), OwnerPage(m, f);
    FreeEffect(m.frameList, f + 1);
    OwnerIsMapped(m, f);
    var (slots, t) := AllocNode(m.swapList);
    var m1 := m.(frameList := FreeNode(m.frameList, f + 1).0, swapList := slots,
      swap := m.swap[SwapAddress(t) := FrameAt(m, f)]);
    SameTables(m, m1);
    MappedHasTable(m, p, v);
    assert DirEntry(m1, p, DirOf(v)).valid;
    SetEntryEffect(m1, p, v, Pte(SwapAddress(t), true, false));
    var m2 := SetEntry(m1, p, v, Pte(SwapAddress(t), true, false));
    SameTables(m2, TlbInvalidate(m2, p, v));
  }

  lemma StrayInstall(m: Vm, n: Vm, f: int, p: int, va: int, q: int, w: int)
    requires Walkable(m, q, w) && n.dirs == m.dirs && n.pool == m.pool && n.poolList == m.poolList && Shaped(n)
    requires UserAccess(p, va, 0) && 0 <= f < PM_SLIST_SIZE - 1
    requires DirEntry(m, p, DirNumber(va)).valid && (q != p || w != PageOf(va))
    ensures Stray(Install(n, p, va, f), q, w)
  {
    UserAddress(va);
    hide Entry, Pfn, SwapAddress, DirOf, SlotOf, DirNumber, PageOf, VpnOf, DirsOk;
    SameTables(m, n);
    RegisterEffect(n, f, p, va);
    var n1 := Register(n, f, p, VpnOf(va));
    SameTables(n, n1);
    assert DirEntry(n1, p, DirOf(PageOf(va))).valid;
    SetEntryEffect(n1, p, PageOf(va), Pte(Pfn(f), true, true));
  }

  lemma StrayMakePresent(m: Vm, p: int, va: int, timer: nat)
    requires Consistent(m) && Full(m.frameList) && Full(m.swapList) && UserAccess(p, va, 0)
    requires DirEntry(m, p, DirNumber(va)).valid && !Present(m, p, PageOf(va))
    ensures Stray(MakePresent(m, p, va, timer), OwnerPid(m, Victim(timer)), OwnerPage(m, Victim(timer)))
  {
    hide Entry, DirNumber, PageOf, DirsOk, SwapOut, MapBut, TlbOk, Install, Stray, Slist.Valid, SwapIndex, BlankPage,
      OwnerPid, OwnerPage;
    var f := Victim(timer);
    var q, w := OwnerPid(m, f), OwnerPage(m, f);
    AllocEffect(m.frameList);
    StraySwapOut(m, timer);
    var m1 := SwapOut(m, timer);
    AllocEffect(m1.frameList);
    var m2 := TakeFrame(m, timer).0;
    assert TakeFrame(m, timer).1 == f;
    assert DirEntry(m1, p, DirNumber(va)).valid;
    StrayInstall(m1, m2, f, p, va, q, w);
    FetchShaped(m2, f, Entry(m, p, PageOf(va)).addr);
    StrayInstall(m1, FetchSlot(m2, f, Entry(m, p, PageOf(va)).addr), f, p, va, q, w);
  }

  lemma FetchShaped(m: Vm, f: int, address: int)
    requires Shaped(m)
    ensures var n := FetchSlot(m, f, address);
      Shaped(n) && n.dirs == m.dirs && n.pool == m.pool && n.poolList == m.poolList
  {
    hide SwapIndex, BlankPage;
  }

  /** The mapping survives a fault exactly when the page is present, a frame is free or a swap slot is. Otherwise
      the evicted page is sent to an address outside the swap area. */
  lemma FaultKeepsMappingIff(m: Vm, p: int, va: int, timer: nat, slot: int)
    requires Consistent(m) && UserAccess(p, va, slot) && HasTable(m, p, va)
    ensures Consistent(Fault(m, p, va, timer, slot).0) <==> (Present(m, p, PageOf(va)) || HasRoom(m))
  {
    UserAddress(va);
    hide Entry, View, EnsureTable, MakePresent, FrameOf, PageOf, DirNumber, ConsistentBut, Reaches, SameMapped,
      OnlyMaps, Stray, OwnerPid, OwnerPage;
    if Present(m, p, PageOf(va)) || HasRoom(m) {
      FaultIsTransparent(m, p, va, timer, slot);
    } else {
      EnsureTableEffect(m, p, DirNumber(va));
      var m1 := EnsureTable(m, p, DirNumber(va)).0;
      StillAbsent(m, m1, p, PageOf(va));
      StrayMakePresent(m1, p, va, timer);
      var m2 := MakePresent(m1, p, va, timer);
      var n := TlbWrite(m2, p, PageOf(va), slot);
      StrayTlb(m2, n, OwnerPid(m1, Victim(timer)), OwnerPage(m1, Victim(timer)));
      StrayIsInconsistent(n, OwnerPid(m1, Victim(timer)), OwnerPage(m1, Victim(timer)));
    }
  }

  lemma StillAbsent(m: Vm, n: Vm, p: int, v: int)
    requires SameMapped(m, n) && !Present(m, p, v)
    ensures !Present(n, p, v)
  {
    hide Entry;
    assert Mapped(n, p, v) == Mapped(m, p, v);
  }

  lemma StrayTlb(m: Vm, n: Vm, p: int, v: int)
    requires Stray(m, p, v) && n.dirs == m.dirs && n.pool == m.pool
    ensures Stray(n, p, v)
  {
    SameTables(m, n);
    hide Entry;
  }

  // ---------------------------------------------------------------- start

  lemma FreshList(n: nat)
    requires 0 < n
    ensures Slist.Valid(InitNodes(n)) && |InitNodes(n)| == n && forall i :: !LiveIn(InitNodes(n), i)
  {
    InitThreads(n);
    assert forall i :: 0 < i < n ==> !InitNodes(n)[i].valid;
  }

  lemma BootIsConsistent(dirs: seq<seq<Pde>>, pool: seq<seq<Pte>>, frames: seq<Page>,
                         framePid: seq<int>, frameVpn: seq<int>, swap: map<int, Page>)
    requires |dirs| == MAX_TASK_NUM && (forall p :: 0 <= p < |dirs| ==> |dirs[p]| == PDE_NUMBER)
    requires |pool| == PAGE_TABLE_POOL_SIZE && (forall n :: 0 <= n < |pool| ==> |pool[n]| == PTE_NUMBER)
    requires |frames| == PM_SLIST_SIZE - 1 && |framePid| == PM_SLIST_SIZE && |frameVpn| == PM_SLIST_SIZE
    ensures Consistent(BootVm(dirs, pool, frames, framePid, frameVpn, swap))
    ensures forall p, v :: !Mapped(BootVm(dirs, pool, frames, framePid, frameVpn, swap), p, v)
  {
    hide DirOf, SlotOf, Slist.Valid, FrameOf, Pfn, SwapIndex, SwapAddress, InitNodes, LiveIn;
    var m := BootVm(dirs, pool, frames, framePid, frameVpn, swap);
    FreshList(PAGE_TABLE_POOL_SIZE + 1);
    FreshList(PM_SLIST_SIZE);
    FreshList(SWAP_AREA_SIZE);
    assert forall p, d :: !DirEntry(m, p, d).valid;
    assert forall p, v :: !Mapped(m, p, v);
  }

  // ---------------------------------------------------------------- runs of accesses

  /** What an access makes of the page w of process q, whatever faults and evictions it causes. */
  function Written(page: Page, q: int, w: int, a: Access): Page {
    if a.Store? && a.p == q && PageOf(a.va) == w then Poke(page, Offset(a.va), a.b) else page
  }

  function AllWritten(page: Page, q: int, w: int, es: seq<Access>): Page
    decreases |es|
  {
    if es == [] then page else AllWritten(Written(page, q, w, es[0]), q, w, es[1..])
  }

  function RunVm(m: Vm, es: seq<Access>): Vm
    decreases |es|
  {
    if es == [] then m else RunVm(Perform(m, es[0]), es[1..])
  }

  ghost predicate Served(m: Vm, a: Access) {
    UserAccess(a.p, a.va, a.slot) && (Hits(m, a.p, a.va) || CanServe(m, a.p, a.va))
  }

  ghost predicate AllServed(m: Vm, es: seq<Access>)
    decreases |es|
  {
    es == [] || (Served(m, es[0]) && AllServed(Perform(m, es[0]), es[1..]))
  }

  lemma TranslateEffect(m: Vm, a: Access)
    requires Consistent(m) && Served(m, a)
    ensures var n := Translate(m, a.p, a.va, a.timer, a.slot);
      Consistent(n) && OnlyMaps(m, n, a.p, PageOf(a.va)) && Reaches(n, a.p, a.va)
  {
    hide Entry, View, Fault, FrameOf, PageOf, DirNumber, ConsistentBut;
    if Hits(m, a.p, a.va) {
      HitReaches(m, a.p, a.va);
    } else {
      FaultIsTransparent(m, a.p, a.va, a.timer, a.slot);
    }
  }

  /** A store changes the page it names and no other page of any process. */
  lemma WriteEffect(m: Vm, p: int, va: int, b: bv8)
    requires Consistent(m) && Reaches(m, p, va)
    ensures var n := WritePhysical(m, PhysicalOf(m, p, va), b);
      && Consistent(n)
      && (forall q, w :: Mapped(n, q, w) == Mapped(m, q, w))
      && forall q, w :: Mapped(m, q, w) ==>
           View(n, q, w) == if q == p && w == PageOf(va) then Poke(View(m, q, w), Offset(va), b) else View(m, q, w)
  {
    hide Entry, FrameOf, Pfn, SwapIndex, SwapAddress, PageOf, Offset, DirsOk, Slist.Valid, PhysicalOf, Hits, Poke;
    var f := FrameOf(Entry(m, p, PageOf(va)).addr);
    var n := WritePhysical(m, PhysicalOf(m, p, va), b);
    SameTables(m, n);
    assert SameEntries(m, n);
    SameEntriesKeepTlb(m, n);
    SameEntriesKeepMap(m, n);
    assert PresentOk(m, p, PageOf(va));
    forall q, w | Mapped(m, q, w)
      ensures View(n, q, w) == if q == p && w == PageOf(va) then Poke(View(m, q, w), Offset(va), b) else View(m, q, w)
    {
      assert PresentOk(m, q, w);
    }
  }

  /** One access: what is read is what the page holds, and exactly what is stored is added to it. */
  lemma AccessIsTransparent(m: Vm, a: Access)
    requires Consistent(m) && Served(m, a)
    ensures Consistent(Perform(m, a))
    ensures forall q, w :: Mapped(m, q, w) ==>
      Mapped(Perform(m, a), q, w) && View(Perform(m, a), q, w) == Written(View(m, q, w), q, w, a)
    ensures Mapped(m, a.p, PageOf(a.va)) ==> Loaded(m, a) == View(m, a.p, PageOf(a.va))[Offset(a.va)]
  {
    hide Entry, FrameOf, PageOf, Offset, ConsistentBut, PhysicalOf, Hits, Poke, Translate, BlankPage;
    var n := Translate(m, a.p, a.va, a.timer, a.slot);
    TranslateEffect(m, a);
    if a.Store? {
      WriteEffect(n, a.p, a.va, a.b);
    }
  }

  /** Virtual memory refines plain memory: over every run of loads and stores of all processes, with all the
      faults, evictions and swap-ins they cause, a page holds what its own stores put there. */
  lemma {:induction false} SwappingIsInvisible(m: Vm, es: seq<Access>, q: int, w: int)
    requires Consistent(m) && AllServed(m, es) && Mapped(m, q, w)
    ensures Consistent(RunVm(m, es)) && Mapped(RunVm(m, es), q, w)
    ensures View(RunVm(m, es), q, w) == AllWritten(View(m, q, w), q, w, es)
    decreases |es|
  {
    hide Entry, View, Perform, Written, ConsistentBut, Served;
    if es != [] {
      AccessIsTransparent(m, es[0]);
      SwappingIsInvisible(Perform(m, es[0]), es[1..], q, w);
    }
  }

  /** A load after any run returns the byte that plain memory would return. */
  lemma LoadsWhatWasStored(m: Vm, es: seq<Access>, a: Access)
    requires Consistent(m) && AllServed(m, es) && Mapped(m, a.p, PageOf(a.va)) && a.Load?
    requires Served(RunVm(m, es), a)
    ensures Loaded(RunVm(m, es), a) == AllWritten(View(m, a.p, PageOf(a.va)), a.p, PageOf(a.va), es)[Offset(a.va)]
  {
    hide Entry, View, Perform, Written, ConsistentBut, Served, PageOf;
    SwappingIsInvisible(m, es, a.p, PageOf(a.va));
    AccessIsTransparent(RunVm(m, es), a);
  }

  lemma {:induction false} RunKeepsConsistent(m: Vm, es: seq<Access>)
    requires Consistent(m) && AllServed(m, es)
    ensures Consistent(RunVm(m, es))
    decreases |es|
  {
    hide Perform, ConsistentBut, Served;
    if es != [] {
      AccessIsTransparent(m, es[0]);
      RunKeepsConsistent(Perform(m, es[0]), es[1..]);
    }
  }

  /** In every run: no two pages share a frame, a swap slot or a page table; a live frame is registered for the page
      that is in it; and a page has at most one TLB entry, which translates only as its page table does. */
  lemma MappingInEveryRun(m: Vm, es: seq<Access>, p: int, v: int, q: int, w: int)
    requires Consistent(m) && AllServed(m, es) && UserPage(p, v)
    ensures var n := RunVm(m, es);
      && ((Mapped(n, p, v) && Mapped(n, q, w) && Present(n, p, v) == Present(n, q, w)
           && Entry(n, p, v).addr == Entry(n, q, w).addr) ==> (p == q && v == w))
      && ((Mapped(n, p, v) && Mapped(n, q, w)
           && DirEntry(n, p, DirOf(v)).poolNum == DirEntry(n, q, DirOf(w)).poolNum) ==>
            (p == q && DirOf(v) == DirOf(w)))
      && (forall f :: 0 <= f < PM_SLIST_SIZE - 1 && LiveIn(n.frameList, f + 1) ==>
            Present(n, OwnerPid(n, f), OwnerPage(n, f)) && FrameOf(Entry(n, OwnerPid(n, f), OwnerPage(n, f)).addr) == f)
      && (forall i, j :: 0 <= i < |n.tlb| && 0 <= j < |n.tlb| && Matches(n.tlb[i], p, v) && Matches(n.tlb[j], p, v) ==>
           i == j)
      && (forall i :: 0 <= i < |n.tlb| && Matches(n.tlb[i], p, v) && n.tlb[i].valid0 ==>
            Present(n, p, v) && n.tlb[i].pfn0 == Entry(n, p, v).addr && n.tlb[i].pfn1 == n.tlb[i].pfn0 + 1)
  {
    hide Perform, AllServed;
    RunKeepsConsistent(m, es);
    MappingIs(RunVm(m, es), p, v, q, w);
    FramesAre(RunVm(m, es));
  }

  lemma MappingIs(n: Vm, p: int, v: int, q: int, w: int)
    requires Consistent(n) && UserPage(p, v)
    ensures (Mapped(n, p, v) && Mapped(n, q, w) && Present(n, p, v) == Present(n, q, w)
             && Entry(n, p, v).addr == Entry(n, q, w).addr) ==> (p == q && v == w)
    ensures (Mapped(n, p, v) && Mapped(n, q, w)
      && DirEntry(n, p, DirOf(v)).poolNum == DirEntry(n, q, DirOf(w)).poolNum) ==>
      (p == q && DirOf(v) == DirOf(w))
    ensures forall i, j :: (0 <= i < |n.tlb| && 0 <= j < |n.tlb| && Matches(n.tlb[i], p, v)
      && Matches(n.tlb[j], p, v)) ==> i == j
    ensures forall i :: (0 <= i < |n.tlb| && Matches(n.tlb[i], p, v) && n.tlb[i].valid0) ==>
      (Present(n, p, v) && n.tlb[i].pfn0 == Entry(n, p, v).addr && n.tlb[i].pfn1 == n.tlb[i].pfn0 + 1)
  {
    if Mapped(n, p, v) { MappedHasTable(n, p, v); }
    if Mapped(n, q, w) { MappedHasTable(n, q, w); }
    hide Entry, FrameOf, Pfn, SwapIndex, SwapAddress, DirOf, Slist.Valid;
    assert PresentOk(n, p, v) && PresentOk(n, q, w) && SameSlot(n, p, v, q, w) && SameDir(n, p, DirOf(v), q, DirOf(w));
  }

  lemma FramesAre(n: Vm)
    requires Consistent(n)
    ensures forall f :: (0 <= f < PM_SLIST_SIZE - 1 && LiveIn(n.frameList, f + 1)) ==>
      (Present(n, OwnerPid(n, f), OwnerPage(n, f)) && FrameOf(Entry(n, OwnerPid(n, f), OwnerPage(n, f)).addr) == f)
  {
    hide Entry, FrameOf, Pfn, Slist.Valid, DirsOk, TlbOk;
    forall f | 0 <= f < PM_SLIST_SIZE - 1 && LiveIn(n.frameList, f + 1)
      ensures Present(n, OwnerPid(n, f), OwnerPage(n, f))
      ensures FrameOf(Entry(n, OwnerPid(n, f), OwnerPage(n, f)).addr) == f
    {
      OwnerIsMapped(n, f);
      FrameInverse(f);
    }
  }
}
