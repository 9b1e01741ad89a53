/** Everything one page fault changes: at most one page moves out, to make room for the one that was wanted. */
module PagingMoves {
  import opened Slist
  import opened Paging
  import opened PagingRuns

  // ---------------------------------------------------------------- the TLB

  /** Entry k is as it was, except that if page w of process q has gone it no longer translates that. */
  predicate ShotDown(tlb: seq<TlbEntry>, k: int, e: TlbEntry, gone: bool, q: int, w: int)
    requires 0 <= k < |tlb|
  {
    e == if gone && Matches(tlb[k], q, w) then TlbEntry(w, q, 0, false, 0, false) else tlb[k]
  }

  lemma InvalidatesOne(m: Vm, p: int, v: int)
    requires TlbUnique(m.tlb) && UserPage(p, v)
    ensures |TlbInvalidate(m, p, v).tlb| == |m.tlb|
    ensures forall k :: 0 <= k < |m.tlb| ==> ShotDown(m.tlb, k, TlbInvalidate(m, p, v).tlb[k], true, p, v)
  {
    var i := Probe(m.tlb, p, v);
    forall k | 0 <= k < |m.tlb| && Matches(m.tlb[k], p, v) ensures k == i {}
  }

  /** The entry is written over the one that matches, and at the given index if there is none. */
  lemma WritesOne(m: Vm, p: int, v: int, slot: int)
    requires Consistent(m) && Present(m, p, v) && 0 <= slot < TLB_ENTRY_NUMBER
    ensures var n := TlbWrite(m, p, v, slot);
      var pfn := Entry(m, p, v).addr;
      && |n.tlb| == |m.tlb| && n.frames == m.frames && n.framePid == m.framePid && n.frameVpn == m.frameVpn
      && n.dirs == m.dirs && n.pool == m.pool
      && forall k :: 0 <= k < |m.tlb| ==>
           n.tlb[k] == if Matches(m.tlb[k], p, v) || (k == slot && Unmatched(m.tlb, p, v))
                       then TlbEntry(v, p, pfn, true, pfn + 1, true) else m.tlb[k]
  {
    MappedHasTable(m, p, v);
    hide Entry, MapBut, DirsOk, ListsOk;
    var i := Probe(m.tlb, p, v);
    if i != -1 {
      forall k | 0 <= k < |m.tlb| && Matches(m.tlb[k], p, v) ensures k == i {}
      assert !Unmatched(m.tlb, p, v);
    }
  }

  predicate Unmatched(tlb: seq<TlbEntry>, p: int, v: int) {
    forall k :: 0 <= k < |tlb| ==> !Matches(tlb[k], p, v)
  }

  // ---------------------------------------------------------------- eviction

  /** Nothing but the entry and the translation of page w of process q has changed, and those only if it has gone. */
  ghost predicate OnlyGone(m: Vm, n: Vm, gone: bool, q: int, w: int) {
    && n.frames == m.frames && n.framePid == m.framePid && n.frameVpn == m.frameVpn && n.dirs == m.dirs
    && n.poolList == m.poolList && |n.tlb| == |m.tlb|
    && (forall r, x :: !(gone && r == q && x == w) ==> Entry(n, r, x) == Entry(m, r, x))
    && (gone ==> Swapped(n, q, w))
    && (forall k :: 0 <= k < |m.tlb| ==> ShotDown(m.tlb, k, n.tlb[k], gone, q, w))
  }

  lemma MoveOutTlb(m: Vm, f: int, base: int, slots: seq<Node>)
    requires |m.frameList| > 0
    ensures MoveOut(m, f, base, slots).tlb == TlbInvalidate(m, OwnerPid(m, f), OwnerPage(m, f)).tlb
    ensures MoveOut(m, f, base, slots).framePid == m.framePid && MoveOut(m, f, base, slots).frameVpn == m.frameVpn
  {
    hide Entry, OwnerPid, OwnerPage, FrameAt, DirOf, SlotOf;
  }

  lemma SwapOutMoves(m: Vm, timer: nat)
    requires Consistent(m) && Full(m.frameList) && !Full(m.swapList)
    ensures var (n, f) := (SwapOut(m, timer), 2 + timer % 2046);
      && Present(m, OwnerPid(m, f), OwnerPage(m, f)) && FreeCells(n.frameList) == [f + 1] && Consistent(n)
      && OnlyGone(m, n, true, OwnerPid(m, f), OwnerPage(m, f))
  {
    hide Entry, FrameOf, Pfn, SwapIndex, SwapAddress, TlbOk, DirsOk, MapBut, Slist.Valid, MoveOut, FrameAt,
      TlbInvalidate, Matches, ShotDown, OwnerPid, OwnerPage, DirOf, SlotOf, BlankPage;
    var f := Victim(timer);
    FullIsLive(m.frameList);
    OwnerIsMapped(m, f);
    MappedHasTable(m, OwnerPid(m, f), OwnerPage(m, f));
    MoveOutMoves(m, f);
    MoveOutEffect(m, f);
    var (slots, t) := AllocNode(m.swapList);
    MoveOutTlb(m, f, SwapAddress(t), slots);
    TlbIsUnique(m);
    InvalidatesOne(m, OwnerPid(m, f), OwnerPage(m, f));
  }

  lemma TlbIsUnique(m: Vm)
    requires Consistent(m)
    ensures TlbUnique(m.tlb)
  {
    hide DirsOk, MapBut, ListsOk;
  }

  /** The frame that a fault takes is the head of the free list, or one of those from 2 on, by the timer. */
  ghost function FrameFor(m: Vm, timer: nat): int {
    if Full(m.frameList) then 2 + timer % 2046 else FreeCells(m.frameList)[0] - 1
  }

  lemma TakeFrameMoves(m: Vm, timer: nat)
    requires Consistent(m) && HasRoom(m)
    ensures var (n, f) := TakeFrame(m, timer);
      f == FrameFor(m, timer) && OnlyGone(m, n, Full(m.frameList), OwnerPid(m, f), OwnerPage(m, f))
  {
    hide Entry, FrameOf, Pfn, SwapIndex, SwapAddress, DirOf, SlotOf, TlbOk, DirsOk, MapBut, Slist.Valid, OwnerPid,
      OwnerPage, Matches, SwapOut, Consistent;
    ListsAreValid(m);
    AllocEffect(m.frameList);
    if Full(m.frameList) {
      SwapOutMoves(m, timer);
      var m1 := SwapOut(m, timer);
      ListsAreValid(m1);
      AllocEffect(m1.frameList);
      SameTables(m1, TakeFrame(m, timer).0);
    } else {
      SameTables(m, TakeFrame(m, timer).0);
    }
  }

  lemma ListsAreValid(m: Vm)
    requires Consistent(m)
    ensures Slist.Valid(m.frameList) && Slist.Valid(m.poolList) && Slist.Valid(m.swapList)
  {
    hide DirsOk, MapBut, TlbOk, Slist.Valid;
  }

  // ---------------------------------------------------------------- the page comes in

  /** Page v of process p is now in frame f, with what it had in its swap slot or else whatever the frame held; no other
      mapped page has moved, except that if `gone` page w of process q has left the frame. */
  ghost predicate OnlyMoves(m: Vm, n: Vm, p: int, v: int, f: int, gone: bool, q: int, w: int) {
    && Entry(n, p, v) == Pte(Pfn(f), true, true) && (gone ==> Swapped(n, q, w))
    && (forall r, x :: Mapped(m, r, x) && !(r == p && x == v) && !(gone && r == q && x == w) ==>
          Entry(n, r, x) == Entry(m, r, x))
    && (forall g :: FrameAt(n, g) ==
          if g == f && Swapped(m, p, v) then SwapAt(m, Entry(m, p, v).addr) else FrameAt(m, g))
    && (forall g :: OwnerPid(n, g) == if g == f then p else OwnerPid(m, g))
    && (forall g :: OwnerPage(n, g) == if g == f then v else OwnerPage(m, g))
  }

  lemma MovesAre(m: Vm, m1: Vm, n: Vm, p: int, v: int, f: int, gone: bool, q: int, w: int)
    requires OnlyGone(m, m1, gone, q, w) && KeepsViews(m, m1) && Installed(m1, n, f, p, v)
    requires !Present(m, p, v) && (gone ==> Present(m, q, w))
    ensures OnlyMoves(m, n, p, v, f, gone, q, w)
  {
    hide Entry, Pfn, SwapIndex, Matches, ShotDown;
    SameOwners(m, m1);
    assert !(gone && p == q && v == w);
    assert Entry(m1, p, v) == Entry(m, p, v);
    assert Swapped(m, p, v) ==> View(m1, p, v) == View(m, p, v);
    hide BlankPage;
    forall g ensures FrameAt(m1, g) == FrameAt(m, g) {}
  }

  lemma MakePresentMoves(m: Vm, p: int, va: int, timer: nat)
    requires Consistent(m) && HasRoom(m) && !Present(m, p, PageOf(va))
    requires 0 <= p < MAX_TASK_NUM && 0 <= va < USER_TOP && DirEntry(m, p, DirNumber(va)).valid
    ensures var (n, f) := (MakePresent(m, p, va, timer), FrameFor(m, timer));
      && OnlyMoves(m, n, p, PageOf(va), f, Full(m.frameList), OwnerPid(m, f), OwnerPage(m, f))
      && |n.tlb| == |m.tlb|
      && forall k :: 0 <= k < |m.tlb| ==>
           ShotDown(m.tlb, k, n.tlb[k], Full(m.frameList), OwnerPid(m, f), OwnerPage(m, f))
  {
    hide Entry, View, FrameOf, Pfn, SwapIndex, PageOf, DirNumber, TlbOk, DirsOk, MapBut, Slist.Valid, OwnerPid,
      OwnerPage, Matches, ShotDown, TakeFrame, FetchSlot, Install, Installed, Fetched, OnlyMoves, FrameFor, Consistent;
    var v := PageOf(va);
    TakeFrameMoves(m, timer);
    TakeFrameEffect(m, timer);
    var (m1, f) := TakeFrame(m, timer);
    FrameIsPresent(m, timer);
    assert Entry(m1, p, v) == Entry(m, p, v);
    var m2 := m1;
    if Mapped(m, p, v) {
      m2 := FetchSlot(m1, f, Entry(m, p, v).addr);
      FetchSlotFetches(m1, f, p, v);
    } else {
      NothingToFetch(m1, f, p, v);
    }
    InstallInstalls(m1, m2, f, p, va);
    MovesAre(m, m1, Install(m2, p, va, f), p, v, f, Full(m.frameList), OwnerPid(m, f), OwnerPage(m, f));
  }

  lemma FrameIsPresent(m: Vm, timer: nat)
    requires Consistent(m) && HasRoom(m)
    ensures var f := FrameFor(m, timer); Full(m.frameList) ==> Present(m, OwnerPid(m, f), OwnerPage(m, f))
  {
    hide SwapOut, OnlyGone, Consistent;
    if Full(m.frameList) { SwapOutMoves(m, timer); }
  }

  // ---------------------------------------------------------------- the whole fault

  /** Entry k of the TLB: it translates the wanted page if it was that page's or, if none was, if it is the one at the
      given index; otherwise it is as it was, or shot down. */
  predicate Refilled(tlb: seq<TlbEntry>, k: int, e: TlbEntry, p: int, v: int, pfn: int, slot: int, gone: bool, q: int,
                     w: int)
    requires 0 <= k < |tlb|
  {
    if Matches(tlb[k], p, v) || (k == slot && Unmatched(tlb, p, v)) then e == TlbEntry(v, p, pfn, true, pfn + 1, true)
    else ShotDown(tlb, k, e, gone, q, w)
  }

  lemma RefilledIs(t0: seq<TlbEntry>, t1: seq<TlbEntry>, t2: seq<TlbEntry>, p: int, v: int, pfn: int, slot: int,
                   gone: bool, q: int, w: int)
    requires |t1| == |t0| && |t2| == |t0| && forall k :: 0 <= k < |t0| ==> ShotDown(t0, k, t1[k], gone, q, w)
    requires forall k :: 0 <= k < |t1| ==>
      t2[k] == if Matches(t1[k], p, v) || (k == slot && Unmatched(t1, p, v))
               then TlbEntry(v, p, pfn, true, pfn + 1, true) else t1[k]
    ensures forall k :: 0 <= k < |t0| ==> Refilled(t0, k, t2[k], p, v, pfn, slot, gone, q, w)
  {
    assert forall k :: 0 <= k < |t0| ==> Matches(t1[k], p, v) == Matches(t0[k], p, v);
  }

  lemma NothingToMake(m: Vm, p: int, va: int, timer: nat)
    requires Present(m, p, PageOf(va))
    ensures MakePresent(m, p, va, timer) == m
  {
    hide Entry, PageOf;
  }

  lemma NothingGone(tlb: seq<TlbEntry>, q: int, w: int)
    ensures forall k :: 0 <= k < |tlb| ==> ShotDown(tlb, k, tlb[k], false, q, w)
  {}

  /** Adding a page table moves no page. */
  lemma TableMovesNothing(m: Vm, m1: Vm, p: int, v: int, timer: nat)
    requires SameMapped(m, m1) && SameRest(m, m1)
    ensures Present(m1, p, v) == Present(m, p, v) && FrameFor(m1, timer) == FrameFor(m, timer)
    ensures OwnerPid(m1, FrameFor(m, timer)) == OwnerPid(m, FrameFor(m, timer))
    ensures OwnerPage(m1, FrameFor(m, timer)) == OwnerPage(m, FrameFor(m, timer))
    ensures forall r, x :: Mapped(m, r, x) ==> Entry(m1, r, x) == Entry(m, r, x)
  {
    hide Entry;
    SameOwners(m, m1);
    assert Mapped(m1, p, v) == Mapped(m, p, v);
  }

  lemma MovesFrom(m: Vm, m1: Vm, m2: Vm, n: Vm, p: int, v: int, f: int, gone: bool, q: int, w: int)
    requires SameMapped(m, m1) && SameRest(m, m1) && OnlyMoves(m1, m2, p, v, f, gone, q, w) && SameEntries(m2, n)
    requires n.frames == m2.frames && n.framePid == m2.framePid && n.frameVpn == m2.frameVpn
    ensures OnlyMoves(m, n, p, v, f, gone, q, w)
  {
    hide Entry, Pfn, BlankPage;
    SameOwners(m, m1);
    SameOwners(m2, n);
    assert Mapped(m1, p, v) == Mapped(m, p, v);
    forall g ensures FrameAt(m1, g) == FrameAt(m, g) && FrameAt(n, g) == FrameAt(m2, g) {}
  }

  /** All that a fault changes. If the page is present, that is one TLB entry. If it is not, it gets the frame at the
      head of the free list, or if none is free the frame 2 + timer % 2046, out of which the page that was there goes to
      the swap area; every other page of every process stays where it is. */
  lemma FaultMovesOne(m: Vm, p: int, va: int, timer: nat, slot: int)
    requires Consistent(m) && UserAccess(p, va, slot) && CanServe(m, p, va)
    ensures var n := Fault(m, p, va, timer, slot).0;
      var v, f := PageOf(va), FrameFor(m, timer);
      var q, w := OwnerPid(m, f), OwnerPage(m, f);
      var gone := Full(m.frameList) && !Present(m, p, v);
      && (Present(m, p, v) ==>
            && (forall r, x :: Mapped(m, r, x) ==> Entry(n, r, x) == Entry(m, r, x))
            && n.frames == m.frames && n.framePid == m.framePid && n.frameVpn == m.frameVpn)
      && (!Present(m, p, v) ==> OnlyMoves(m, n, p, v, f, gone, q, w))
      && |n.tlb| == |m.tlb|
      && forall k :: 0 <= k < |m.tlb| ==>
           Refilled(m.tlb, k, n.tlb[k], p, v, Entry(n, p, v).addr, slot, gone, q, w)
  {
    hide Entry, View, EnsureTable, MakePresent, TlbWrite, FrameOf, Pfn, PageOf, DirNumber, ConsistentBut, OnlyMoves,
      OnlyMaps, SameMapped, OwnerPid, OwnerPage, Matches, FrameFor, Refilled, ShotDown, Unmatched, HasRoom, FrameAt,
      KeepsViews, TlbUnique;
    UserAddress(va);
    var v := PageOf(va);
    EnsureTableEffect(m, p, DirNumber(va));
    var m1 := EnsureTable(m, p, DirNumber(va)).0;
    StillServed(m, m1, p, va);
    MakePresentEffect(m1, p, va, timer);
    var m2 := MakePresent(m1, p, va, timer);
    IsPresent(m1, m2, p, v);
    WritesOne(m2, p, v, slot);
    var n := TlbWrite(m2, p, v, slot);
    SameTables(m2, n);
    TableMovesNothing(m, m1, p, v, timer);
    var f := FrameFor(m, timer);
    var q, w := OwnerPid(m, f), OwnerPage(m, f);
    var gone := Full(m.frameList) && !Present(m, p, v);
    if Present(m, p, v) {
      NothingToMake(m1, p, va, timer);
      NothingGone(m.tlb, q, w);
    } else {
      MakePresentMoves(m1, p, va, timer);
      MovesFrom(m, m1, m2, n, p, v, f, gone, q, w);
    }
    RefilledIs(m.tlb, m2.tlb, n.tlb, p, v, Entry(n, p, v).addr, slot, gone, q, w);
  }

  // ---------------------------------------------------------------- frames that are never emptied

  lemma LiveFrameIs(m: Vm, f: int)
    requires Consistent(m) && 0 <= f < PM_SLIST_SIZE - 1 && LiveIn(m.frameList, f + 1)
    ensures Present(m, OwnerPid(m, f), OwnerPage(m, f)) && Entry(m, OwnerPid(m, f), OwnerPage(m, f)).addr == Pfn(f)
  {
    hide Entry, Pfn, MapBut, Slist.Valid, DirsOk, TlbOk, OwnerPid, OwnerPage;
    OwnerIsMapped(m, f);
  }

  /** The page in one of the first two frames stays there in a fault. */
  lemma FirstTwoStay(m: Vm, p: int, va: int, timer: nat, slot: int, g: int)
    requires Consistent(m) && UserAccess(p, va, slot) && CanServe(m, p, va)
    requires 0 <= g < 2 && LiveIn(m.frameList, g + 1)
    ensures var (q, w) := (OwnerPid(m, g), OwnerPage(m, g));
      Present(m, q, w) && Entry(Fault(m, p, va, timer, slot).0, q, w) == Entry(m, q, w)
  {
    hide Entry, Fault, PageOf, DirNumber, Pfn, TlbOk, DirsOk, Slist.Valid, OwnerPid, OwnerPage, FrameOf, Matches,
      Refilled, FrameAt;
    FaultMovesOne(m, p, va, timer, slot);
    var f := FrameFor(m, timer);
    LiveFrameIs(m, g);
    if Full(m.frameList) {
      FullIsLive(m.frameList);
      LiveFrameIs(m, f);
      FrameInverse(f);
      FrameInverse(g);
    }
  }

  /** Every other frame is the one that is emptied when none is free, at some reading of the timer. */
  lemma OthersAreEmptied(m: Vm, p: int, va: int, slot: int, g: int) returns (timer: nat)
    requires Consistent(m) && UserAccess(p, va, slot) && CanServe(m, p, va) && !Present(m, p, PageOf(va))
    requires 2 <= g < PM_SLIST_SIZE - 1 && Full(m.frameList)
    ensures var (q, w) := (OwnerPid(m, g), OwnerPage(m, g));
      Present(m, q, w) && Swapped(Fault(m, p, va, timer, slot).0, q, w)
  {
    hide Entry, Fault, PageOf, DirNumber, Pfn, ConsistentBut, OwnerPid, OwnerPage, Matches, Refilled, FrameFor,
      CanServe, FrameAt, SwapAt;
    timer := g - 2;
    ListsAreValid(m);
    FullIsLive(m.frameList);
    FrameListSize(m);
    LiveFrameIs(m, g);
    FaultMovesOne(m, p, va, timer, slot);
    EmptiedAt(m, g);
  }

  lemma FrameListSize(m: Vm)
    requires Consistent(m)
    ensures |m.frameList| == PM_SLIST_SIZE
  {
    hide DirsOk, MapBut, TlbOk, ListsOk;
  }

  lemma EmptiedAt(m: Vm, g: int)
    requires 2 <= g < PM_SLIST_SIZE - 1 && Full(m.frameList)
    ensures FrameFor(m, g - 2) == g
  {}

  lemma FrameOfPresent(m: Vm, q: int, w: int, g: int)
    requires Consistent(m) && Present(m, q, w) && Entry(m, q, w).addr == Pfn(g)
    ensures LiveIn(m.frameList, g + 1) && OwnerPid(m, g) == q && OwnerPage(m, g) == w
  {
    hide Entry, FrameOf, Pfn, TlbOk, DirsOk, Slist.Valid;
    FrameInverse(g);
    assert PresentOk(m, q, w);
  }

  lemma TablesAfterWrite(m: Vm, address: int, b: bv8)
    ensures var n := WritePhysical(m, address, b);
      n == m.(frames := n.frames) && forall q, w :: Entry(n, q, w) == Entry(m, q, w)
  {
    hide Poke;
    SameTables(m, WritePhysical(m, address, b));
  }

  lemma AccessKeepsFirst(m: Vm, a: Access, g: int)
    requires Consistent(m) && Served(m, a) && 0 <= g < 2 && LiveIn(m.frameList, g + 1)
    ensures var n := Perform(m, a);
      && Entry(n, OwnerPid(m, g), OwnerPage(m, g)) == Entry(m, OwnerPid(m, g), OwnerPage(m, g))
      && LiveIn(n.frameList, g + 1) && OwnerPid(n, g) == OwnerPid(m, g) && OwnerPage(n, g) == OwnerPage(m, g)
  {
    hide Entry, Fault, PageOf, DirNumber, Pfn, ConsistentBut, OwnerPid, OwnerPage, Hits, CanServe, WritePhysical,
      PhysicalOf, LiveIn;
    var n := Perform(m, a);
    AccessIsTransparent(m, a);
    LiveFrameIs(m, g);
    if !Hits(m, a.p, a.va) { FirstTwoStay(m, a.p, a.va, a.timer, a.slot, g); }
    var t := Translate(m, a.p, a.va, a.timer, a.slot);
    if a.Store? { TablesAfterWrite(t, PhysicalOf(t, a.p, a.va), a.b); }
    FrameOfPresent(n, OwnerPid(m, g), OwnerPage(m, g), g);
  }

  /** In every run of accesses a page that is in one of the first two frames is never swapped out. */
  lemma {:induction false} FirstTwoAreNeverEmptied(m: Vm, es: seq<Access>, g: int)
    requires Consistent(m) && AllServed(m, es) && 0 <= g < 2 && LiveIn(m.frameList, g + 1)
    ensures var (q, w) := (OwnerPid(m, g), OwnerPage(m, g));
      Present(m, q, w) && Entry(RunVm(m, es), q, w) == Entry(m, q, w)
    decreases |es|
  {
    hide Entry, Perform, ConsistentBut, Served, OwnerPid, OwnerPage, LiveIn;
    LiveFrameIs(m, g);
    if es != [] {
      AccessIsTransparent(m, es[0]);
      AccessKeepsFirst(m, es[0], g);
      FirstTwoAreNeverEmptied(Perform(m, es[0]), es[1..], g);
    }
  }
}
