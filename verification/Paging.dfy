/** Virtual memory with swapping: page directories, the pool of page tables, physical frames, the swap area and the
    TLB as one value, and the page fault as a function on it. */
module Paging {
  import opened Slist

  const MAX_TASK_NUM := 16
  const PDE_NUMBER := 512
  const PTE_NUMBER := 512
  const PAGE_TABLE_POOL_SIZE := 20
  const PM_SLIST_SIZE := 2049
  const PM_BASE := 0x01000000
  const PM_SCHE_SIZE := 0x2000
  const SWAP_AREA_SIZE := 1025
  const SWAP_AREA_BASE := 0x700200
  const SWAP_AREA_UNIT_SIZE := 0x2000
  const TLB_ENTRY_NUMBER := 32
  const USER_TOP := 0x80000000
  const USER_PAGES := 0x40000
  const TWO32 := 0x1_0000_0000

  /** The 8 KB that one page table entry stands for: two neighbouring pages of 4 KB. */
  type Page = s: seq<bv8> | |s| == 0x2000 witness seq(0x2000, i => 0)

  function BlankPage(): Page { seq(0x2000, i => 0) }

  datatype Pde = Pde(poolNum: int, valid: bool)

  /** `addr` is a physical frame number while the page is present and a swap area address while it is not. */
  datatype Pte = Pte(addr: int, valid: bool, present: bool)

  datatype TlbEntry = TlbEntry(vpn2: int, asid: int, pfn0: int, valid0: bool, pfn1: int, valid1: bool)

  datatype Vm = Vm(
    dirs: seq<seq<Pde>>,
    pool: seq<seq<Pte>>,
    poolList: seq<Node>,
    frames: seq<Page>,
    frameList: seq<Node>,
    framePid: seq<int>,
    frameVpn: seq<int>,
    swap: map<int, Page>,
    swapList: seq<Node>,
    tlb: seq<TlbEntry>)

  // ---------------------------------------------------------------- addresses

  /** badvaddr >> 22 */
  function DirNumber(va: int): int { va / 0x400000 }

  /** (badvaddr >> 13) & 0x1ff */
  function TableNumber(va: int): int { va / 0x2000 % 0x200 }

  /** The page pair of an address. */
  function PageOf(va: int): int { va / 0x2000 }

  /** badvaddr & 0xfffff000 */
  function VpnOf(va: int): int { va - va % 0x1000 }

  /** The page directory entry and the page table entry of a page pair. */
  function DirOf(v: int): int { v / PTE_NUMBER }

  function SlotOf(v: int): int { v % PTE_NUMBER }

  function Pfn(frame: int): int { (PM_BASE + frame * PM_SCHE_SIZE) / 0x1000 }

  function FrameOf(pfn: int): int { (pfn * 0x1000 - PM_BASE) / PM_SCHE_SIZE }

  function SwapAddress(t: int): int { SWAP_AREA_BASE + (t - 1) * SWAP_AREA_UNIT_SIZE }

  /** (address - SWAP_AREA_BASE)/SWAP_AREA_UINT_SIZE + 1, the difference in 32-bit unsigned arithmetic. */
  function SwapIndex(address: int): int { (address - SWAP_AREA_BASE) % TWO32 / SWAP_AREA_UNIT_SIZE + 1 }

  // ---------------------------------------------------------------- reading the tables

  const NoPte := Pte(0, false, false)
  const NoPde := Pde(0, false)

  function DirEntry(m: Vm, p: int, d: int): Pde {
    if 0 <= p < |m.dirs| && 0 <= d < |m.dirs[p]| then m.dirs[p][d] else NoPde
  }

  function PoolEntry(m: Vm, n: int, k: int): Pte {
    if 0 <= n < |m.pool| && 0 <= k < |m.pool[n]| then m.pool[n][k] else NoPte
  }

  /** The table walk: the entry of page pair v of process p, an invalid one if it has no page table. */
  function Entry(m: Vm, p: int, v: int): Pte {
    var e := DirEntry(m, p, DirOf(v));
    if e.valid then PoolEntry(m, e.poolNum, SlotOf(v)) else NoPte
  }

  predicate Mapped(m: Vm, p: int, v: int) {
    Entry(m, p, v).valid
  }

  predicate Present(m: Vm, p: int, v: int) {
    Entry(m, p, v).valid && Entry(m, p, v).present
  }

  predicate Swapped(m: Vm, p: int, v: int) {
    Entry(m, p, v).valid && !Entry(m, p, v).present
  }

  function FrameAt(m: Vm, f: int): Page {
    if 0 <= f < |m.frames| then m.frames[f] else BlankPage()
  }

  function SwapAt(m: Vm, address: int): Page {
    if address in m.swap then m.swap[address] else BlankPage()
  }

  /** The process and the page pair a frame is registered for. */
  function OwnerPid(m: Vm, f: int): int {
    if 0 <= f < |m.framePid| then m.framePid[f] % 0x100 else -1
  }

  function OwnerPage(m: Vm, f: int): int {
    if 0 <= f < |m.frameVpn| then PageOf(m.frameVpn[f]) else -1
  }

  /** What process p finds in page pair v: the frame while it is present, the swap area otherwise. */
  function View(m: Vm, p: int, v: int): Page {
    var e := Entry(m, p, v);
    if e.present then FrameAt(m, FrameOf(e.addr)) else SwapAt(m, e.addr)
  }

  predicate Matches(e: TlbEntry, p: int, v: int) {
    e.vpn2 == v && e.asid == p
  }

  /** tlbp: the index of the entry that matches, -1 if there is none. */
  function Probe(tlb: seq<TlbEntry>, p: int, v: int): (i: int)
    ensures -1 <= i < |tlb|
    ensures i != -1 ==> Matches(tlb[i], p, v)
    ensures i == -1 ==> forall k :: 0 <= k < |tlb| ==> !Matches(tlb[k], p, v)
  {
    if tlb == [] then -1
    else if Matches(tlb[|tlb| - 1], p, v) then |tlb| - 1
    else Probe(tlb[..|tlb| - 1], p, v)
  }

  // ---------------------------------------------------------------- the parts of a fault

  function SetEntry(m: Vm, p: int, v: int, e: Pte): Vm {
    var n, k := DirEntry(m, p, DirOf(v)).poolNum, SlotOf(v);
    if 0 <= n < |m.pool| && 0 <= k < |m.pool[n]| then m.(pool := m.pool[n := m.pool[n][k := e]]) else m
  }

  /** page_table_init: addresses and present bits stay. */
  function InitTable(t: seq<Pte>): (r: seq<Pte>)
    ensures |r| == |t| && forall k :: 0 <= k < |t| ==> r[k] == t[k].(valid := false)
  {
    seq(|t|, k requires 0 <= k < |t| => t[k].(valid := false))
  }

  predicate CanAlloc(l: seq<Node>) {
    |l| > 0 && 0 <= l[0].cursor < |l|
  }

  function NewTable(m: Vm, p: int, d: int, list: seq<Node>, n: int): Vm {
    if 0 <= p < |m.dirs| && 0 <= d < |m.dirs[p]| && 0 <= n < |m.pool|
    then m.(poolList := list, dirs := m.dirs[p := m.dirs[p][d := Pde(n, true)]],
      pool := m.pool[n := InitTable(m.pool[n])])
    else m
  }

  /** The directory entry gets a page table if it has none; false means the pool is empty (a panic). */
  function EnsureTable(m: Vm, p: int, d: int): (Vm, bool) {
    if DirEntry(m, p, d).valid || !CanAlloc(m.poolList) then (m, true) else
    var (list, t) := AllocNode(m.poolList);
    if t - 1 == -1 then (m, false) else (NewTable(m, p, d, list, t - 1), true)
  }

  /** set_TLB_invalid: a matching entry stays but no longer translates. */
  function TlbInvalidate(m: Vm, p: int, v: int): Vm {
    var i := Probe(m.tlb, p, v);
    if i == -1 then m else m.(tlb := m.tlb[i := TlbEntry(v, p, 0, false, 0, false)])
  }

  /** swap_scheduler, from the timer value. */
  function Victim(timer: nat): int {
    2 + timer % (PM_SLIST_SIZE - 3)
  }

  /** The page registered for frame f goes to the swap area at `base` and the frame becomes free. */
  function MoveOut(m: Vm, f: int, base: int, slots: seq<Node>): Vm {
    var p, v := OwnerPid(m, f), OwnerPage(m, f);
    if |m.frameList| == 0 then m else
    var m1 := m.(frameList := FreeNode(m.frameList, f + 1).0, swapList := slots, swap := m.swap[base := FrameAt(m, f)]);
    TlbInvalidate(SetEntry(m1, p, v, Pte(base, Entry(m, p, v).valid, false)), p, v)
  }

  /** swap_out, the transfer included. */
  function SwapOut(m: Vm, timer: nat): Vm {
    if !CanAlloc(m.swapList) then m else
    var (slots, t) := AllocNode(m.swapList);
    MoveOut(m, Victim(timer), SwapAddress(t), slots)
  }

  /** A free frame, after an eviction if there is none: the state in which it is taken, and the frame. */
  function TakeFrame(m: Vm, timer: nat): (Vm, int) {
    if !CanAlloc(m.frameList) then (m, -1) else
    var m1 := if AllocNode(m.frameList).1 - 1 == -1 then SwapOut(m, timer) else m;
    if !CanAlloc(m1.frameList) then (m1, -1) else
    var (list, t) := AllocNode(m1.frameList);
    (m1.(frameList := list), t - 1)
  }

  function Register(m: Vm, f: int, p: int, vpn: int): Vm {
    if 0 <= f < |m.framePid| && f < |m.frameVpn|
    then m.(framePid := m.framePid[f := p], frameVpn := m.frameVpn[f := vpn]) else m
  }

  /** Frame f now belongs to the page of `va`, which is present in it. */
  function Install(m: Vm, p: int, va: int, f: int): Vm {
    SetEntry(Register(m, f, p, VpnOf(va)), p, PageOf(va), Pte(Pfn(f), true, true))
  }

  /** A page that was never touched gets a frame, with whatever is in it. */
  function DemandPage(m: Vm, p: int, va: int, timer: nat): Vm {
    var (m1, f) := TakeFrame(m, timer);
    Install(m1, p, va, f)
  }

  /** The contents of the slot at `address` go to frame f and the slot becomes free. */
  function FetchSlot(m: Vm, f: int, address: int): Vm {
    if 0 <= f < |m.frames| && |m.swapList| > 0
    then m.(frames := m.frames[f := SwapAt(m, address)], swapList := FreeNode(m.swapList, SwapIndex(address)).0) else m
  }

  /** swap_in, the transfer included. */
  function SwapIn(m: Vm, p: int, va: int, timer: nat): Vm {
    var (m1, f) := TakeFrame(m, timer);
    Install(FetchSlot(m1, f, Entry(m, p, PageOf(va)).addr), p, va, f)
  }

  function MakePresent(m: Vm, p: int, va: int, timer: nat): Vm {
    var e := Entry(m, p, PageOf(va));
    if !e.valid then DemandPage(m, p, va, timer)
    else if !e.present then SwapIn(m, p, va, timer)
    else m
  }

  /** The entry pair is written at a random index after a refill exception and over the matching entry otherwise. */
  function TlbWrite(m: Vm, p: int, v: int, slot: int): Vm {
    var pfn := Entry(m, p, v).addr;
    var i := Probe(m.tlb, p, v);
    var at := if i == -1 then slot else i;
    if 0 <= at < |m.tlb| then m.(tlb := m.tlb[at := TlbEntry(v, p, pfn, true, pfn + 1, true)]) else m
  }

  /** TLB_exception_helper for process p at address va; false means panic. */
  function Fault(m: Vm, p: int, va: int, timer: nat, slot: int): (Vm, bool) {
    var (m1, ok) := EnsureTable(m, p, DirNumber(va));
    if !ok then (m1, false) else
    (TlbWrite(MakePresent(m1, p, va, timer), p, PageOf(va), slot), true)
  }

  // ---------------------------------------------------------------- the processor's accesses

  /** The physical address the entry pair e gives to va. */
  function Physical(e: TlbEntry, va: int): int {
    (if va / 0x1000 % 2 == 0 then e.pfn0 else e.pfn1) * 0x1000 + va % 0x1000
  }

  /** The address translates without an exception. */
  predicate Hits(m: Vm, p: int, va: int) {
    var i := Probe(m.tlb, p, PageOf(va));
    i != -1 && (if va / 0x1000 % 2 == 0 then m.tlb[i].valid0 else m.tlb[i].valid1)
  }

  /** An access that does not hit raises the exception and is tried again. */
  function Translate(m: Vm, p: int, va: int, timer: nat, slot: int): Vm {
    if Hits(m, p, va) then m else Fault(m, p, va, timer, slot).0
  }

  function Offset(va: int): int { va % 0x2000 }

  function PhysicalOf(m: Vm, p: int, va: int): int {
    var i := Probe(m.tlb, p, PageOf(va));
    if i == -1 then 0 else Physical(m.tlb[i], va)
  }

  function ReadPhysical(m: Vm, address: int): bv8 {
    FrameAt(m, (address - PM_BASE) / PM_SCHE_SIZE)[(address - PM_BASE) % PM_SCHE_SIZE]
  }

  function WritePhysical(m: Vm, address: int, b: bv8): Vm {
    var f := (address - PM_BASE) / PM_SCHE_SIZE;
    if 0 <= f < |m.frames| then m.(frames := m.frames[f := Poke(m.frames[f], (address - PM_BASE) % PM_SCHE_SIZE, b)])
    else m
  }

  function Poke(s: Page, k: int, b: bv8): Page {
    if 0 <= k < 0x2000 then s[k := b] else s
  }

  datatype Access =
    | Load(p: int, va: int, timer: nat, slot: int)
    | Store(p: int, va: int, timer: nat, slot: int, b: bv8)

  function Perform(m: Vm, a: Access): Vm {
    var m1 := Translate(m, a.p, a.va, a.timer, a.slot);
    match a
    case Load(_, _, _, _) => m1
    case Store(_, _, _, _, b) => WritePhysical(m1, PhysicalOf(m1, a.p, a.va), b)
  }

  /** The byte a load returns. */
  function Loaded(m: Vm, a: Access): bv8 {
    var m1 := Translate(m, a.p, a.va, a.timer, a.slot);
    ReadPhysical(m1, PhysicalOf(m1, a.p, a.va))
  }

  // ---------------------------------------------------------------- start

  /** page_dir_init */
  function InitDir(t: seq<Pde>): (r: seq<Pde>)
    ensures |r| == |t| && forall d :: 0 <= d < |t| ==> r[d] == t[d].(valid := false)
  {
    seq(|t|, d requires 0 <= d < |t| => t[d].(valid := false))
  }

  /** init_memory, and page_dir_init for every process; everything else holds whatever it held. */
  function BootVm(dirs: seq<seq<Pde>>, pool: seq<seq<Pte>>, frames: seq<Page>,
                  framePid: seq<int>, frameVpn: seq<int>, swap: map<int, Page>): Vm {
    Vm(seq(|dirs|, p requires 0 <= p < |dirs| => InitDir(dirs[p])), pool, InitNodes(PAGE_TABLE_POOL_SIZE + 1),
       frames, InitNodes(PM_SLIST_SIZE), framePid, frameVpn, swap, InitNodes(SWAP_AREA_SIZE),
       seq(TLB_ENTRY_NUMBER, i => TlbEntry(USER_PAGES, 0, 0, false, 0, false)))
  }

  // ---------------------------------------------------------------- the invariant

  ghost predicate Shaped(m: Vm) {
    && |m.dirs| == MAX_TASK_NUM && (forall p :: 0 <= p < |m.dirs| ==> |m.dirs[p]| == PDE_NUMBER)
    && |m.pool| == PAGE_TABLE_POOL_SIZE && (forall n :: 0 <= n < |m.pool| ==> |m.pool[n]| == PTE_NUMBER)
    && |m.poolList| == PAGE_TABLE_POOL_SIZE + 1
    && |m.frames| == PM_SLIST_SIZE - 1 && |m.frameList| == PM_SLIST_SIZE
    && |m.framePid| == PM_SLIST_SIZE && |m.frameVpn| == PM_SLIST_SIZE
    && |m.swapList| == SWAP_AREA_SIZE && |m.tlb| == TLB_ENTRY_NUMBER
  }

  ghost predicate ListsOk(m: Vm) {
    Slist.Valid(m.poolList) && Slist.Valid(m.frameList) && Slist.Valid(m.swapList)
  }

  predicate LiveIn(l: seq<Node>, i: int) {
    0 < i < |l| && l[i].valid
  }

  predicate UserPage(p: int, v: int) {
    0 <= p < MAX_TASK_NUM && 0 <= v < USER_PAGES
  }

  /** A valid directory entry owns a live page table. */
  ghost predicate DirOk(m: Vm, p: int, d: int) {
    DirEntry(m, p, d).valid ==>
      0 <= DirEntry(m, p, d).poolNum < PAGE_TABLE_POOL_SIZE && LiveIn(m.poolList, DirEntry(m, p, d).poolNum + 1)
  }

  ghost predicate SameDir(m: Vm, p: int, d: int, q: int, e: int) {
    (DirEntry(m, p, d).valid && DirEntry(m, q, e).valid && DirEntry(m, p, d).poolNum == DirEntry(m, q, e).poolNum) ==>
      (p == q && d == e)
  }

  /** Valid directory entries own distinct live page tables. */
  ghost predicate DirsOk(m: Vm) {
    (forall p, d :: DirOk(m, p, d)) && (forall p, d, q, e :: SameDir(m, p, d, q, e))
  }

  /** A present page is in a live frame that is registered as its own. */
  ghost predicate PresentOk(m: Vm, p: int, v: int) {
    Present(m, p, v) ==>
      var f := FrameOf(Entry(m, p, v).addr);
      && Entry(m, p, v).addr == Pfn(f) && 0 <= f < PM_SLIST_SIZE - 1 && LiveIn(m.frameList, f + 1)
      && OwnerPid(m, f) == p && OwnerPage(m, f) == v
  }

  /** A live frame is registered as that of a page which is present in it. */
  ghost predicate FrameOk(m: Vm, f: int) {
    (0 <= f < PM_SLIST_SIZE - 1 && LiveIn(m.frameList, f + 1)) ==>
      (Present(m, OwnerPid(m, f), OwnerPage(m, f)) && Entry(m, OwnerPid(m, f), OwnerPage(m, f)).addr == Pfn(f))
  }

  /** A swapped page owns a live swap slot. */
  ghost predicate SwappedOk(m: Vm, p: int, v: int) {
    Swapped(m, p, v) ==>
      var t := SwapIndex(Entry(m, p, v).addr);
      Entry(m, p, v).addr == SwapAddress(t) && LiveIn(m.swapList, t)
  }

  ghost predicate SameSlot(m: Vm, p: int, v: int, q: int, w: int) {
    (Swapped(m, p, v) && Swapped(m, q, w) && Entry(m, p, v).addr == Entry(m, q, w).addr) ==> (p == q && v == w)
  }

  /** All live frames but f, if it is one: f is in nobody's page table. */
  ghost predicate MapBut(m: Vm, f: int) {
    && (forall p, v :: PresentOk(m, p, v) && (Present(m, p, v) ==> Entry(m, p, v).addr != Pfn(f)))
    && (forall g :: g != f ==> FrameOk(m, g))
    && (forall p, v :: SwappedOk(m, p, v))
    && (forall p, v, q, w :: SameSlot(m, p, v, q, w))
  }

  ghost predicate MapOk(m: Vm) {
    MapBut(m, -1)
  }

  /** A TLB entry of a user page translates only if the page is present, and then as its page table does. */
  ghost predicate TlbEntryOk(m: Vm, e: TlbEntry) {
    && e.valid0 == e.valid1
    && ((0 <= e.vpn2 < USER_PAGES && e.valid0) ==>
          (Present(m, e.asid, e.vpn2) && e.pfn0 == Entry(m, e.asid, e.vpn2).addr && e.pfn1 == e.pfn0 + 1))
  }

  ghost predicate TlbUnique(tlb: seq<TlbEntry>) {
    forall i, j :: (0 <= i < |tlb| && 0 <= j < |tlb| && 0 <= tlb[i].vpn2 < USER_PAGES
                    && Matches(tlb[j], tlb[i].asid, tlb[i].vpn2)) ==> i == j
  }

  ghost predicate TlbOk(m: Vm) {
    TlbUnique(m.tlb) && forall i :: 0 <= i < |m.tlb| ==> TlbEntryOk(m, m.tlb[i])
  }

  ghost predicate ConsistentBut(m: Vm, f: int) {
    Shaped(m) && ListsOk(m) && DirsOk(m) && MapBut(m, f) && TlbOk(m)
  }

  ghost predicate Consistent(m: Vm) {
    ConsistentBut(m, -1)
  }
}
