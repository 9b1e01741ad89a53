/** When every frame and every swap slot is taken: a run that gets there, what processes see after an eviction to the
    address before the swap area, and what the next one does. */
module PagingStrays {
  import opened Slist
  import opened Paging
  import opened PagingRuns

  // ---------------------------------------------------------------- the first eviction

  /** No slot has the address before the swap area. */
  lemma SlotIsNoStray(m: Vm, p: int, v: int)
    requires SwappedOk(m, p, v) && Swapped(m, p, v) && |m.swapList| == SWAP_AREA_SIZE
    ensures Entry(m, p, v).addr != SwapAddress(0)
  {
    hide Entry;
    var t := SwapIndex(Entry(m, p, v).addr);
    SwapUnits(t, t);
  }

  /** What swap_out changes when there is no slot. */
  lemma StraySteps(m: Vm, timer: nat)
    requires Consistent(m) && Full(m.frameList) && Full(m.swapList)
    ensures var (n, f) := (SwapOut(m, timer), Victim(timer));
      && n.frames == m.frames && n.swap == m.swap[SwapAddress(0) := FrameAt(m, f)] && n.swapList == m.swapList
      && Shaped(n) && DirsOk(n) && n.dirs == m.dirs && n.poolList == m.poolList
      && n.framePid == m.framePid && n.frameVpn == m.frameVpn
  {
    hide Entry, SwapAddress, DirOf, SlotOf, TlbOk, MapBut, Slist.Valid, FrameAt, TlbInvalidate;
    AllocEffect(m.swapList);
    AllocPops(m.swapList);
    StraySwapOut(m, timer);
    StrayParts(m, timer);
  }

  lemma StrayParts(m: Vm, timer: nat)
    requires CanAlloc(m.swapList) && AllocNode(m.swapList) == (m.swapList, 0) && |m.frameList| > 0
    ensures var (n, f) := (SwapOut(m, timer), Victim(timer));
      && n.frames == m.frames && n.swap == m.swap[SwapAddress(0) := FrameAt(m, f)] && n.swapList == m.swapList
      && n.dirs == m.dirs && n.poolList == m.poolList && n.framePid == m.framePid && n.frameVpn == m.frameVpn
  {
    hide Entry, SwapAddress, FrameAt, FreeNode;
  }

  /** Everything that was mapped is found after an eviction to the stray address; frame f is nobody's then. */
  lemma StrayKeepsViews(m: Vm, timer: nat)
    requires Consistent(m) && Full(m.frameList) && Full(m.swapList)
    ensures var (n, f) := (SwapOut(m, timer), Victim(timer));
      && KeepsViews(m, n)
      && (forall q, w :: Present(n, q, w) ==> Present(m, q, w) && FrameOf(Entry(n, q, w).addr) != f)
      && (forall q, w :: Swapped(m, q, w) ==> Entry(n, q, w) == Entry(m, q, w) && Entry(m, q, w).addr != SwapAddress(0))
      && (forall q, w :: Mapped(n, q, w) == Mapped(m, q, w))
  {
    StraySwapOut(m, timer);
    StraySteps(m, timer);
    FullIsLive(m.frameList);
    hide Entry, FrameOf, Pfn, SwapIndex, SwapAddress, SwapOut, DirsOk, TlbOk, Slist.Valid;
    var n, f := SwapOut(m, timer), Victim(timer);
    OwnerIsMapped(m, f);
    FrameInverse(f);
    forall q, w
      ensures Mapped(m, q, w) ==> Mapped(n, q, w) && View(n, q, w) == View(m, q, w)
      ensures Present(n, q, w) ==> Present(m, q, w) && FrameOf(Entry(n, q, w).addr) != f
      ensures Swapped(m, q, w) ==> Entry(n, q, w) == Entry(m, q, w) && Entry(m, q, w).addr != SwapAddress(0)
      ensures Mapped(n, q, w) == Mapped(m, q, w)
    {
      assert PresentOk(m, q, w) && SwappedOk(m, q, w);
      if Swapped(m, q, w) { SlotIsNoStray(m, q, w); }
    }
  }

  // ---------------------------------------------------------------- the faulting page gets the frame

  lemma TakenAfterStray(m: Vm, timer: nat)
    requires Consistent(m) && Full(m.frameList) && Full(m.swapList)
    ensures var (n, f) := TakeFrame(m, timer);
      f == Victim(timer) && n == SwapOut(m, timer).(frameList := n.frameList) && Shaped(n)
  {
    hide Entry, DirsOk, MapBut, TlbOk, Slist.Valid, SwapOut, OwnerPid, OwnerPage, Stray;
    AllocEffect(m.frameList);
    StraySwapOut(m, timer);
    AllocEffect(SwapOut(m, timer).frameList);
  }

  /** The page in hand has a slot, and frame f gets what is in it. */
  lemma FetchedAfterStray(m: Vm, n: Vm, f: int, p: int, v: int)
    requires Shaped(n) && Slist.Valid(n.swapList) && 0 <= f < PM_SLIST_SIZE - 1 && Swapped(n, p, v)
    requires LiveIn(n.swapList, SwapIndex(Entry(n, p, v).addr))
    ensures Fetched(n, FetchSlot(n, f, Entry(n, p, v).addr), f, p, v)
  {
    hide Entry, SwapIndex, Slist.Valid, FrameAt, SwapAt, BlankPage;
    FreeEffect(n.swapList, SwapIndex(Entry(n, p, v).addr));
    FetchSlotFrames(n, f, Entry(n, p, v).addr);
  }

  /** A frame that is nobody's is given to a page that was not present: everybody finds what they found. */
  lemma InstalledUnseen(m: Vm, n: Vm, f: int, p: int, v: int)
    requires Installed(m, n, f, p, v) && forall q, w :: Present(m, q, w) ==> FrameOf(Entry(m, q, w).addr) != f
    ensures KeepsViews(m, n)
  {
    hide Entry, FrameOf, Pfn, SwapIndex, SwapAddress;
    FrameInverse(f);
  }

  lemma SameButLists(m: Vm, n: Vm)
    requires n == m.(frameList := n.frameList, tlb := n.tlb)
    ensures forall q, w :: Entry(n, q, w) == Entry(m, q, w)
    ensures forall q, w :: View(n, q, w) == View(m, q, w)
    ensures DirsOk(m) ==> DirsOk(n)
  {
    SameTables(m, n);
    hide Entry, FrameOf;
  }

  lemma ViewsTwice(l: Vm, m: Vm, n: Vm)
    requires KeepsViews(l, m) && KeepsViews(m, n)
    ensures KeepsViews(l, n)
  {
    hide Entry, View;
  }

  /** The state in which the frame is taken, after the eviction to the stray address. */
  lemma BeforeInstall(m: Vm, p: int, v: int, timer: nat)
    requires Consistent(m) && Full(m.frameList) && Full(m.swapList) && !Present(m, p, v)
    ensures var (n, f) := TakeFrame(m, timer);
      && f == Victim(timer) && KeepsViews(m, n) && Shaped(n) && DirsOk(n) && n.dirs == m.dirs
      && n.swapList == m.swapList
      && (forall q, w :: Present(n, q, w) ==> FrameOf(Entry(n, q, w).addr) != f)
      && !Present(n, p, v) && Mapped(n, p, v) == Mapped(m, p, v)
      && (Swapped(m, p, v) ==> Entry(n, p, v) == Entry(m, p, v))
  {
    hide Entry, View, FrameOf, SwapAddress, SwapOut, DirsOk, TlbOk, MapBut, Slist.Valid, Victim, TakeFrame;
    TakenAfterStray(m, timer);
    StraySteps(m, timer);
    StrayKeepsViews(m, timer);
    SameButLists(SwapOut(m, timer), TakeFrame(m, timer).0);
  }

  lemma StrayServes(m: Vm, p: int, va: int, timer: nat)
    requires Consistent(m) && Full(m.frameList) && Full(m.swapList) && UserAccess(p, va, 0)
    requires DirEntry(m, p, DirNumber(va)).valid && !Present(m, p, PageOf(va))
    ensures KeepsViews(m, MakePresent(m, p, va, timer))
    ensures !Swapped(m, p, PageOf(va)) ==> MakePresent(m, p, va, timer).swapList == m.swapList
  {
    hide Entry, View, FrameOf, SwapAddress, SwapIndex, DirNumber, PageOf, DirsOk, TlbOk, Slist.Valid, TakeFrame,
      Install, FetchSlot, Installed, Fetched, LiveIn, KeepsViews, Pfn;
    var v := PageOf(va);
    var (n, f) := TakeFrame(m, timer);
    BeforeInstall(m, p, v, timer);
    var x := if Mapped(m, p, v) then FetchSlot(n, f, Entry(m, p, v).addr) else n;
    if Mapped(m, p, v) {
      assert SwappedOk(m, p, v);
      FetchedAfterStray(m, n, f, p, v);
    } else {
      NothingToFetch(n, f, p, v);
    }
    InstallInstalls(n, x, f, p, va);
    InstalledUnseen(n, Install(x, p, va, f), f, p, v);
    ViewsTwice(m, n, Install(x, p, va, f));
  }

  /** A fault with every frame and every slot taken is seen by no process: the page that is evicted to the address
      before the swap area, though it is in no slot, is found there. */
  lemma StrayFaultIsUnseen(m: Vm, p: int, va: int, timer: nat, slot: int)
    requires Consistent(m) && UserAccess(p, va, slot) && HasTable(m, p, va)
    requires Full(m.frameList) && Full(m.swapList) && !Present(m, p, PageOf(va))
    ensures var n := Fault(m, p, va, timer, slot).0;
      && KeepsViews(m, n) && !Consistent(n) && (!Mapped(m, p, PageOf(va)) ==> n.swapList == m.swapList)
  {
    UserAddress(va);
    hide Entry, View, EnsureTable, MakePresent, DirNumber, PageOf, ConsistentBut, SameMapped, KeepsViews;
    FaultKeepsMappingIff(m, p, va, timer, slot);
    EnsureTableEffect(m, p, DirNumber(va));
    var m1 := EnsureTable(m, p, DirNumber(va)).0;
    SameMappedKeepsViews(m, m1);
    StillAbsent(m, m1, p, PageOf(va));
    StillUnmapped(m, m1, p, PageOf(va));
    StrayServes(m1, p, va, timer);
    var m2 := MakePresent(m1, p, va, timer);
    ViewsTwice(m, m1, m2);
    var n := TlbWrite(m2, p, PageOf(va), slot);
    SameButLists(m2, n);
    SameViews(m2, n);
    ViewsTwice(m, m2, n);
  }

  lemma StillUnmapped(m: Vm, n: Vm, p: int, v: int)
    requires SameMapped(m, n)
    ensures Mapped(n, p, v) == Mapped(m, p, v)
  {}

  lemma SameViews(m: Vm, n: Vm)
    requires forall q, w :: Entry(n, q, w) == Entry(m, q, w)
    requires forall q, w :: View(n, q, w) == View(m, q, w)
    ensures KeepsViews(m, n)
  {}

  // ---------------------------------------------------------------- the next eviction

  /** With a stray page already, the next eviction without a slot overwrites it: it keeps its contents exactly when the
      evicted page happens to have the same. */
  lemma SecondStrayOverwrites(m: Vm, q: int, w: int, timer: nat)
    requires Shaped(m) && DirsOk(m) && Stray(m, q, w) && Slist.Valid(m.swapList) && Full(m.swapList)
    requires var f := Victim(timer);
      DirEntry(m, OwnerPid(m, f), DirOf(OwnerPage(m, f))).valid && (OwnerPid(m, f) != q || OwnerPage(m, f) != w)
    ensures var (n, f) := (SwapOut(m, timer), Victim(timer));
      && Stray(n, q, w) && View(n, q, w) == FrameAt(m, f)
      && (View(n, q, w) == View(m, q, w) <==> View(m, q, w) == FrameAt(m, f))
  {
    hide Entry, SwapAddress, DirOf, SlotOf, DirsOk, Slist.Valid, FrameAt, FreeNode, FrameOf;
    AllocEffect(m.swapList);
    AllocPops(m.swapList);
    var f := Victim(timer);
    var p, v := OwnerPid(m, f), OwnerPage(m, f);
    var m1 := m.(frameList := FreeNode(m.frameList, f + 1).0, swap := m.swap[SwapAddress(0) := FrameAt(m, f)]);
    var e := Pte(SwapAddress(0), Entry(m, p, v).valid, false);
    SameTables(m, m1);
    FreeKeepsLength(m.frameList, f + 1);
    assert DirEntry(m1, p, DirOf(v)).valid;
    SetEntryEffect(m1, p, v, e);
    SameTables(SetEntry(m1, p, v, e), TlbInvalidate(SetEntry(m1, p, v, e), p, v));
  }

  /** After a first touch with no room left the evicted page is a stray, frame f has the new page, and every other frame
      is registered as before. */
  ghost predicate AfterStray(m: Vm, n: Vm, f: int, p: int, v: int) {
    && Shaped(n) && DirsOk(n) && n.swapList == m.swapList && Stray(n, OwnerPid(m, f), OwnerPage(m, f))
    && (forall g :: OwnerPid(n, g) == if g == f then p else OwnerPid(m, g))
    && (forall g :: OwnerPage(n, g) == if g == f then v else OwnerPage(m, g))
    && n.dirs == m.dirs
  }

  lemma StrayDemandPage(m: Vm, p: int, va: int, timer: nat)
    requires Consistent(m) && Full(m.frameList) && Full(m.swapList) && UserAccess(p, va, 0)
    requires DirEntry(m, p, DirNumber(va)).valid && !Mapped(m, p, PageOf(va))
    ensures AfterStray(m, DemandPage(m, p, va, timer), Victim(timer), p, PageOf(va))
  {
    hide Entry, DirNumber, PageOf, DirsOk, TlbOk, MapBut, Install, Stray, Slist.Valid, SwapOut, TakeFrame, OwnerPid,
      OwnerPage, Fetched, FrameAt, SwapAt, FrameOf, Pfn;
    var f, v := Victim(timer), PageOf(va);
    StraySwapOut(m, timer);
    StraySteps(m, timer);
    TakenAfterStray(m, timer);
    var m1, m2 := SwapOut(m, timer), TakeFrame(m, timer).0;
    BeforeInstall(m, p, v, timer);
    NothingToFetch(m2, f, p, v);
    InstallInstalls(m2, m2, f, p, va);
    StrayInstall(m1, m2, f, p, va, OwnerPid(m, f), OwnerPage(m, f));
    SameOwners(m, m2);
  }

  lemma AfterTlbWrite(m: Vm, n: Vm, f: int, p: int, v: int, slot: int)
    requires AfterStray(m, n, f, p, v)
    ensures AfterStray(m, TlbWrite(n, p, v, slot), f, p, v)
  {
    hide Entry, DirsOk, Matches;
    SameTables(n, TlbWrite(n, p, v, slot));
    SameOwners(n, TlbWrite(n, p, v, slot));
  }

  /** The page registered for another frame, or the page that has just got its frame, is not the stray. */
  lemma NextVictimIsAnother(m: Vm, n: Vm, f: int, p: int, v: int, g: int)
    requires Consistent(m) && Full(m.frameList) && AfterStray(m, n, f, p, v) && !Mapped(m, p, v)
    requires DirEntry(m, p, DirOf(v)).valid && 0 <= f < PM_SLIST_SIZE - 1 && 0 <= g < PM_SLIST_SIZE - 1
    ensures DirEntry(n, OwnerPid(n, g), DirOf(OwnerPage(n, g))).valid
    ensures OwnerPid(n, g) != OwnerPid(m, f) || OwnerPage(n, g) != OwnerPage(m, f)
  {
    FullIsLive(m.frameList);
    OwnerIsMapped(m, f);
    OwnerIsMapped(m, g);
    MappedHasTable(m, OwnerPid(m, g), OwnerPage(m, g));
    FrameInverse(f);
    FrameInverse(g);
    hide Entry, DirsOk, TlbOk, MapBut, Slist.Valid, Pfn, FrameOf, DirOf, OwnerPid, OwnerPage;
  }

  /** Process p touches a new page when there is no room, and then another frame is needed: the page that was evicted
      first, which was still found after the first fault, now has what the page evicted second had. */
  lemma StrayIsLost(m: Vm, p: int, va: int, timer: nat, slot: int, timer': nat)
    requires Consistent(m) && UserAccess(p, va, slot) && HasTable(m, p, va)
    requires Full(m.frameList) && Full(m.swapList) && !Mapped(m, p, PageOf(va))
    ensures var (n, f) := (Fault(m, p, va, timer, slot).0, Victim(timer));
      var (q, w) := (OwnerPid(m, f), OwnerPage(m, f));
      && Mapped(m, q, w) && View(n, q, w) == View(m, q, w)
      && View(SwapOut(n, timer'), q, w) == FrameAt(n, Victim(timer'))
  {
    UserAddress(va);
    hide Entry, View, EnsureTable, DemandPage, SwapOut, TlbWrite, DirNumber, PageOf, ConsistentBut, SameMapped,
      KeepsViews, Victim, OwnerPid, OwnerPage, FrameAt, AfterStray, Stray;
    StrayFaultIsUnseen(m, p, va, timer, slot);
    EnsureTableEffect(m, p, DirNumber(va));
    var m1 := EnsureTable(m, p, DirNumber(va)).0;
    var v, f, g := PageOf(va), Victim(timer), Victim(timer');
    StillUnmapped(m, m1, p, v);
    StrayDemandPage(m1, p, va, timer);
    var n := Fault(m, p, va, timer, slot).0;
    AfterTlbWrite(m1, DemandPage(m1, p, va, timer), f, p, v, slot);
    assert AfterStray(m1, n, f, p, v);
    VictimInRange(timer);
    VictimInRange(timer');
    NextVictimIsAnother(m1, n, f, p, v, g);
    SameOwners(m, m1);
    EvictsOver(m1, n, f, p, v, timer');
    VictimWasMapped(m, f);
    ViewIsKept(m, n, OwnerPid(m, f), OwnerPage(m, f));
  }

  lemma VictimInRange(timer: nat)
    ensures 0 <= Victim(timer) < PM_SLIST_SIZE - 1
  {}

  lemma VictimWasMapped(m: Vm, f: int)
    requires Consistent(m) && Full(m.frameList) && 0 <= f < PM_SLIST_SIZE - 1
    ensures Mapped(m, OwnerPid(m, f), OwnerPage(m, f))
  {
    FullIsLive(m.frameList);
    OwnerIsMapped(m, f);
  }

  lemma ViewIsKept(m: Vm, n: Vm, q: int, w: int)
    requires KeepsViews(m, n) && Mapped(m, q, w)
    ensures View(n, q, w) == View(m, q, w)
  {}

  lemma EvictsOver(m: Vm, n: Vm, f: int, p: int, v: int, timer: nat)
    requires Consistent(m) && Full(m.swapList) && AfterStray(m, n, f, p, v)
    requires var g := Victim(timer);
      && DirEntry(n, OwnerPid(n, g), DirOf(OwnerPage(n, g))).valid
      && (OwnerPid(n, g) != OwnerPid(m, f) || OwnerPage(n, g) != OwnerPage(m, f))
    ensures View(SwapOut(n, timer), OwnerPid(m, f), OwnerPage(m, f)) == FrameAt(n, Victim(timer))
  {
    hide Entry, View, SwapOut, DirsOk, TlbOk, MapBut, Slist.Valid, Stray, Victim, OwnerPid, OwnerPage, DirOf, FrameAt;
    SecondStrayOverwrites(n, OwnerPid(m, f), OwnerPage(m, f), timer);
  }

  lemma FreeKeepsLength(l: seq<Node>, i: int)
    requires |l| > 0
    ensures |FreeNode(l, i).0| == |l|
  {}
}
