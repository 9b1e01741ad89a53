/** Two runs from a freshly made file system that go past the tenth block of a file: one loses
    a byte, one the root directory. */
module FsLosses {
  import opened Sets
  import Slist
  import opened Bitmap
  import opened Fs
  import opened FsRuns
  import opened FsTree
  import opened FsCalls
  import opened FsReads
  import opened FsWrites
  import opened FsStores
  import opened FsBeyond
  import opened FsFiles
  import opened FsAtomic
  import opened FsHistory
  import opened FsEpisodes

  // ---------------------------------------------------------------- ten full blocks

  /** Blocks 0 to m are used, and the window shows nothing beyond block m + 1. */
  ghost predicate UsedTo(s: Fs, m: nat) {
    MapsCached(s) && (forall b :: Used(s.disk, b) <==> 0 <= b <= m) && s.smapIndex * WINDOW_BITS <= m + 1
  }

  lemma TakesNext(s: Fs, m: nat)
    requires UsedTo(s, m) && m + 1 < DATA_ITEM_NUM
    ensures AllocBlock(s).1 == m + 1 && UsedTo(AllocBlock(s).0, m + 1)
  {
    hide Used, AllocBlock, MapsCached;
    AllocBlockEffect(s);
    AllocWindow(s);
    assert m + 1 in FreeAbove(s);
  }

  /** A reservation of whole blocks takes the next ones in order. */
  lemma {:induction false} ReserveTakes(s: Fs, x: Inode, need: nat, m: nat)
    requires UsedTo(s, m) && x.capacity % 512 == 0 && need % 512 == 0 && x.capacity <= need <= SLOT_NUM * SECTOR_SIZE
    requires m + 14 - x.capacity / 512 < DATA_ITEM_NUM
    ensures var (t, y, ok) := Reserve(s, x, need);
      && ok && y == x.(pointers := y.pointers, capacity := need) && UsedTo(t, m + need / 512 - x.capacity / 512)
      && (forall k :: x.capacity / 512 <= k < need / 512 ==> y.pointers[k] == PtrOf(m + 1 + k - x.capacity / 512))
      && (forall k :: 0 <= k < x.capacity / 512 ==> y.pointers[k] == x.pointers[k])
      && t.disk.blocks == s.disk.blocks && t.fds == s.fds
    decreases need - x.capacity
  {
    hide AllocBlock, UsedTo, PtrOf;
    if x.capacity < need {
      SlotCount(x.capacity);
      TakesNext(s, m);
      AllocKeepsSectors(s);
      ReserveTakes(AllocBlock(s).0, AddBlock(x, PtrOf(m + 1)), need, m + 1);
    }
  }

  function Zeros(): seq<bv8> { seq(5120, i => 0) }

  /** Descriptor 0 is at the end of the file in inode 1, which has k full blocks. */
  ghost predicate AtEnd(s: Fs, k: nat) {
    && 0 < |s.fds| && s.fds[0] == Fd(1, O_RDWR, 512 * k, 512 * k) && FileInode(s.disk, 1)
    && InodeAt(s.disk, 1).capacity == 512 * k
  }

  /** After the first ten blocks, which are the ten blocks after the root's: the others are as they were. */
  ghost predicate TenFull(d: Disk, t: Fs) {
    && Taken(t, 1, 10) && AtEnd(t, 10)
    && t.here == DARRAY_ADDR && t.dir == RootDir().(items := RootDir().items[0 := Item(true, "f", 1)])
    && forall b :: 10 < b < DATA_ITEM_NUM ==> BlockAt(t.disk, PtrOf(b)) == BlockAt(d, PtrOf(b))
  }

  lemma TenBlocks(d: Card, g: Group, fds: seq<Fd>) returns (t: Fs)
    requires |fds| > 0
    ensures LeadsTo(Begun(d, g, fds), [Touch("f"), OpenFile("f", O_RDWR), WriteTo(0, Zeros())], t)
    ensures TenFull(d, t)
  {
    hide LeadsTo, Enabled, Apply, Begun, Holding, Taken, InodeAt, Write, Sound, Live, CanWrite, BlockAt, PtrOf, Zeros,
      AtEnd;
    var u := FileOpen(d, g, fds);
    HoldingFd(u, 0, 1, O_RDWR, []);
    CanWriteTen(u);
    TakenIsSound(u, 1, 0);
    WriteEnabled(u, 0, Zeros());
    t := Write(u, 0, Zeros()).s;
    Then(Begun(d, g, fds), [Touch("f"), OpenFile("f", O_RDWR)], u, WriteTo(0, Zeros()));
    assert [Touch("f"), OpenFile("f", O_RDWR)] + [WriteTo(0, Zeros())]
        == [Touch("f"), OpenFile("f", O_RDWR), WriteTo(0, Zeros())];
    TenWritten(u);
  }

  lemma CanWriteTen(u: Fs)
    requires 0 < |u.fds| && u.fds[0] == Fd(1, O_RDWR, 0, 0) && FileInode(u.disk, 1)
    ensures CanWrite(u, 0, Zeros()) && |Zeros()| == 5120
  {
    hide Live, InodeAt;
  }

  lemma ZerosAre()
    ensures |Zeros()| == 5120
  {}

  lemma TenWritten(u: Fs)
    requires Taken(u, 1, 0) && 0 < |u.fds| && u.fds[0] == Fd(1, O_RDWR, 0, 0) && FileInode(u.disk, 1)
    requires InodeAt(u.disk, 1).capacity == 0 && CanWrite(u, 0, Zeros())
    requires Write(u, 0, Zeros()).Wrote? && Kept(Write(u, 0, Zeros()).s)
    ensures var t := Write(u, 0, Zeros()).s;
      && Taken(t, 1, 10) && AtEnd(t, 10) && t.here == u.here && t.dir == u.dir
      && forall b :: 10 < b < DATA_ITEM_NUM ==> BlockAt(t.disk, PtrOf(b)) == BlockAt(u.disk, PtrOf(b))
  {
    hide InodeAt, Write, Sound, Live, Used, BlockAt, PtrOf, Zeros, Reserve, Copy, Laid, With, Filled, Followed, Kept,
      MapsCached, PutInode;
    ZerosAre();
    var x, data := InodeAt(u.disk, 1), Laid(0, Zeros(), 5120);
    TakenIsSound(u, 1, 0);
    SoundIsCached(u);
    ReserveTakes(u, x, 5120, 0);
    var (s1, y, ok) := Reserve(u, x, 5120);
    WriteSteps(u, 0, x, Zeros());
    KeepsTheRest(u, x);
    CopyFills(s1, 0, 1, y, data);
    CopyMoves(s1, 0, y, data);
    var (s2, z) := Copy(s1, 0, y, data);
    var e := With(s2, 1, z).disk;
    FilledSame(With(s1, 1, y).disk, e, 1, Followed(s1, 0, y, data));
    FilledReads(With(s1, 1, y).disk, e, 1, Followed(s1, 0, y, data));
    WithEffect(s1, 1, y);
    WithEffect(s2, 1, z);
    SameBlocks(u.disk, s1.disk);
    SameBits(u.disk, s1.disk);
    forall b | 10 < b < DATA_ITEM_NUM ensures PtrOf(b) !in Followed(s1, 0, y, data) {
      FollowsPointers(s1, 0, y, data, PtrOf(b));
      TouchesTen();
      PointersApart(y, b);
    }
    WithFields(s2, 1, z);
  }

  lemma TouchesTen()
    ensures forall k :: Touches(0, 5120, k) ==> 0 <= k < 10
  {}

  lemma PointersApart(y: Inode, b: int)
    requires b > 10 && forall k :: 0 <= k < 10 ==> y.pointers[k] == PtrOf(1 + k)
    ensures forall k :: 0 <= k < 10 ==> y.pointers[k] != PtrOf(b)
  {
    forall k | 0 <= k < 10 ensures y.pointers[k] != PtrOf(b) {
      BlockInverse(b);
      BlockInverse(1 + k);
    }
  }

  lemma WithFields(s: Fs, ino: int, x: Inode)
    ensures With(s, ino, x) == s.(disk := With(s, ino, x).disk)
  {}

  lemma {:induction false} KeepsTheRest(s: Fs, x: Inode)
    requires x.capacity <= 5120
    ensures var t := Reserve(s, x, 5120).0;
      && t == s.(disk := t.disk, super := t.super, dbits := t.dbits, smapIndex := t.smapIndex)
      && t.disk == s.disk.(super := t.disk.super, dbits := t.disk.dbits)
    decreases 5120 - x.capacity
  {
    hide AllocBlock, PtrOf;
    if x.capacity < 5120 {
      AllocKeepsTheRest(s);
      var (t, b) := AllocBlock(s);
      if b != -1 && x.capacity + 512 <= 5120 { KeepsTheRest(t, AddBlock(x, PtrOf(b))); }
    }
  }

  lemma AllocKeepsTheRest(s: Fs)
    ensures var t := AllocBlock(s).0;
      && t == s.(disk := t.disk, super := t.super, dbits := t.dbits, smapIndex := t.smapIndex)
      && t.disk == s.disk.(super := t.disk.super, dbits := t.disk.dbits)
  {
    SlideKeeps(s);
  }

  lemma {:induction false} CopyMoves(s: Fs, fd: int, x: Inode, data: seq<bv8>)
    requires 0 <= fd < |s.fds|
    ensures var (t, y) := Copy(s, fd, x, data);
      && |t.fds| == |s.fds|
      && t.fds[fd] == s.fds[fd].(offset := s.fds[fd].offset + |data|, size := s.fds[fd].size + |data|)
    decreases |data|
  {
    hide PutBlock, Splice, BytesAt, Target;
    if data != [] {
      var (t, y, rest) := WriteChunk(s, fd, x, data);
      CopyMoves(t, fd, y, rest);
    }
  }

  // ---------------------------------------------------------------- a byte is lost

  function Filler(c: bv8): (buf: seq<bv8>)
    ensures |buf| == 512
  {
    seq(512, i => c)
  }

  /** An append to a file of k full blocks, ten or more, whose table leads to address 0. */
  lemma AppendsAtZero(s: Fs, k: nat, c: bv8)
    requires Kept(s) && AtEnd(s, k) && DIRECT_NUM <= k < SLOT_NUM && AllocBlock(s).1 != -1
    requires TableAt(s.disk, NextBlock(InodeAt(s.disk, 1), k, PtrOf(AllocBlock(s).1)).pointers[10])[k - 10] == 0
    ensures var r := Write(s, 0, Filler(c));
      && r.Wrote? && Enabled(s, WriteTo(0, Filler(c))) && Apply(s, WriteTo(0, Filler(c))) == r.s && Kept(r.s)
      && AtEnd(r.s, k + 1)
      && InodeAt(r.s.disk, 1).pointers == NextBlock(InodeAt(s.disk, 1), k, PtrOf(AllocBlock(s).1)).pointers
      && BytesAt(r.s.disk, 0) == Filler(c) && (forall p :: p != 0 ==> BlockAt(r.s.disk, p) == BlockAt(s.disk, p))
      && r.s.disk.dbits == AllocBlock(s).0.disk.dbits && r.s.smapIndex == AllocBlock(s).0.smapIndex
  {
    hide InodeAt, BlockAt, BytesAt, Write, Live, AllocBlock, TableAt, PtrOf, PutInode, PutData, Prepare, Copy, Followed,
      Laid, Kept, FileInode, Filler, Sound, LeavesSound, WriteSpares;
    var x, buf := InodeAt(s.disk, 1), Filler(c);
    var (t, b) := AllocBlock(s);
    var y := NextBlock(x, k, PtrOf(b));
    KeptSound(s);
    WritePrepares(s, 0, buf);
    NextBlockCopies(s, 0, x, buf, k);
    NextBlockKeepsSoundIff(s, 0, buf, k);
    DirsNotAtZero(s);
    WriteKeepsSoundIff(s, 0, buf);
    HarmlessWrite(s, 0, buf);
    var z := y.(size := y.size + 512);
    var u := PutData(t, 0, 0, buf);
    AllocKeepsTheRest(s);
    FileKind(s.disk, 1);
    ZeroFilled(s, t, buf, k);
    WithEffect(u, 1, z);
    StillFile(s, u, z);
    SameBytesIn(u.disk, With(u, 1, z).disk);
  }

  lemma FileKind(d: Disk, i: int)
    requires FileInode(d, i)
    ensures InodeAt(d, i).kind == FILE_NORMAL && Live(d, i)
  {}

  lemma DirsNotAtZero(s: Fs)
    requires Sound(s)
    ensures forall i :: DirInode(s.disk, i) ==> DirPtr(s.disk, i) != 0
  {
    forall i | DirInode(s.disk, i) ensures DirPtr(s.disk, i) != 0 { DirsAreBlocks(s.disk, i); }
  }

  lemma HarmlessWrite(s: Fs, fd: int, buf: seq<bv8>)
    requires Kept(s) && MayWrite(s, fd) && WriteSpares(s, fd, buf)
    ensures Write(s, fd, buf).Wrote? && Enabled(s, WriteTo(fd, buf))
    ensures Apply(s, WriteTo(fd, buf)) == Write(s, fd, buf).s
    ensures Kept(Write(s, fd, buf).s)
  {
    hide Sound, Acyclic, WriteSpares, Write;
    WriteKeepsSoundIff(s, fd, buf);
    EnabledKeeps(s, WriteTo(fd, buf));
  }

  lemma ZeroFilled(s: Fs, t: Fs, buf: seq<bv8>, k: nat)
    requires t.disk.blocks == s.disk.blocks && 0 < |t.fds| && t.fds[0] == Fd(1, O_RDWR, 512 * k, 512 * k)
    requires |buf| == 512
    ensures var u := PutData(t, 0, 0, buf);
      && BytesAt(u.disk, 0) == buf && (forall p :: p != 0 ==> BlockAt(u.disk, p) == BlockAt(s.disk, p))
      && |u.fds| == |t.fds| && u.fds[0] == Fd(1, O_RDWR, 512 * k + 512, 512 * k + 512)
      && u.disk == t.disk.(blocks := u.disk.blocks) && u.smapIndex == t.smapIndex
  {
    hide PutBlock, BlockAt, Splice;
    assert 512 * k % 512 == 0;
    SameBlocks(s.disk, t.disk);
    SpliceWhole(BytesAt(t.disk, 0), buf);
    PutBlockEffect(t.disk, 0, Bytes(Splice(BytesAt(t.disk, 0), 0, buf)));
  }

  lemma SpliceWhole(s: SectorBytes, buf: seq<bv8>)
    requires |buf| == 512
    ensures Splice(s, 0, buf) == buf
  {
    assert s[512..] == [];
  }

  lemma StillFile(s: Fs, u: Fs, z: Inode)
    requires FileInode(s.disk, 1) && u.disk.ibits == s.disk.ibits && z.kind == FILE_NORMAL
    ensures FileInode(With(u, 1, z).disk, 1)
  {
    hide InodeAt, PutInode, BitAt;
    WithEffect(u, 1, z);
    SameBits(s.disk, u.disk);
  }

  lemma SameBytesIn(d: Disk, e: Disk)
    requires forall q :: BlockAt(e, q) == BlockAt(d, q)
    ensures forall q :: BytesAt(e, q) == BytesAt(d, q)
  {
    hide BlockAt;
  }

  lemma BlankTable(d: Disk, p: int)
    requires BlockAt(d, p) == Bytes(BlankBytes())
    ensures forall k :: 0 <= k < 128 ==> TableAt(d, p)[k] == 0
  {
    hide BlockAt;
    forall k | 0 <= k < 128 ensures WordAt(BlankBytes(), k) == 0 {}
  }

  /** Block m + 1 is the next to be taken, in the window or above it. */
  lemma TakenIsUsedTo(s: Fs, n: nat, m: nat)
    requires Taken(s, n, m)
    ensures UsedTo(s, m) && Kept(s)
  {
    hide Live, Used, Ownership, Tree, Counted, Acyclic;
  }

  lemma StillUsedTo(s: Fs, t: Fs, m: nat)
    requires UsedTo(s, m) && Kept(t) && t.disk.dbits == s.disk.dbits && t.smapIndex == s.smapIndex
    ensures UsedTo(t, m)
  {
    hide Used, Ownership, Tree, Counted, Acyclic;
    SameBits(s.disk, t.disk);
  }

  /** On a card whose eleventh block after the root's is blank: the eleventh and the twelfth block of a file both go to
      address 0, so that what was written as byte 5121 is gone after the next append. */
  lemma LosesByte(d: Card, g: Group, fds: seq<Fd>) returns (t: Fs)
    requires |fds| > 0 && BlockAt(d, PtrOf(11)) == Bytes(BlankBytes())
    ensures LeadsTo(Begun(d, g, fds),
      [Touch("f"), OpenFile("f", O_RDWR), WriteTo(0, Zeros()), WriteTo(0, Filler(1)), WriteTo(0, Filler(2))], t)
    ensures Kept(t) && AtEnd(t, 12) && FlatByte(t.disk, InodeAt(t.disk, 1), 5120) == 2
  {
    hide LeadsTo, Enabled, Apply, Begun, InodeAt, Write, BlockAt, PtrOf, Zeros, AtEnd, Filler, Kept, Taken, UsedTo,
      AllocBlock, TableAt, BytesAt;
    var s := Begun(d, g, fds);
    var u := TenBlocks(d, g, fds);
    TakenIsUsedTo(u, 1, 10);
    TakesNext(u, 10);
    var own, x := PtrOf(11), InodeAt(u.disk, 1);
    BlankTable(u.disk, own);
    AppendsAtZero(u, 10, 1);
    Then(s, [Touch("f"), OpenFile("f", O_RDWR), WriteTo(0, Zeros())], u, WriteTo(0, Filler(1)));
    var v := Write(u, 0, Filler(1)).s;
    StillUsedTo(AllocBlock(u).0, v, 11);
    TakesNext(v, 11);
    NotZero(11);
    BlankTable(v.disk, own);
    AppendsAtZero(v, 11, 2);
    Then(s, [Touch("f"), OpenFile("f", O_RDWR), WriteTo(0, Zeros())] + [WriteTo(0, Filler(1))], v,
      WriteTo(0, Filler(2)));
    t := Write(v, 0, Filler(2)).s;
    BlankTable(t.disk, own);
    ReadsEleventh(t, own, 2);
    assert [Touch("f"), OpenFile("f", O_RDWR), WriteTo(0, Zeros())] + [WriteTo(0, Filler(1))] + [WriteTo(0, Filler(2))]
        == [Touch("f"), OpenFile("f", O_RDWR), WriteTo(0, Zeros()), WriteTo(0, Filler(1)), WriteTo(0, Filler(2))];
  }

  lemma NotZero(b: nat)
    ensures PtrOf(b) != 0
  {}

  lemma ReadsEleventh(t: Fs, own: int, c: bv8)
    requires InodeAt(t.disk, 1).pointers[10] == own && TableAt(t.disk, own)[0] == 0 && BytesAt(t.disk, 0) == Filler(c)
    ensures FlatByte(t.disk, InodeAt(t.disk, 1), 5120) == c
  {
    hide InodeAt, TableAt, BytesAt;
    assert OffsetToPointer(t.disk, InodeAt(t.disk, 1), 5120) == Sector(0);
  }

  // ---------------------------------------------------------------- the root directory is lost

  lemma OneEntry()
    ensures var items := RootDir().items[0 := Item(true, "f", 1)];
      && FreeSlot(items) == 1 && FindItem(items, "a") == -1
      && FindItem(items[1 := Item(true, "a", 2)], "a") == 1
  {
    var items := RootDir().items[0 := Item(true, "f", 1)];
    RootItems();
    assert items[0].valid && !items[1].valid;
    SlotIs(items, 1);
    forall k | 0 <= k < |items| && items[k].valid ensures items[k].name != "a" {}
    NotThere(items, "a");
    FindsUnique(items[1 := Item(true, "a", 2)], 1, "a");
  }

  /** rmdir of the directory made last gives inode and block back; the sector keeps what it had. */
  lemma RemovesLast(s: Fs, n: nat, m: nat, name: string, k: nat)
    requires Taken(s, n + 1, m + 1) && k < MAX_DIR_ITEM_NUM && FindItem(s.dir.items, name) == k
    requires s.dir.items[k].ino == n + 1
    requires InodeAt(s.disk, n + 1).kind == FILE_DIR && InodeAt(s.disk, n + 1).pointers[0] == PtrOf(m + 1)
    requires IsEmpty(DirAt(s.disk, PtrOf(m + 1)))
    ensures Enabled(s, RmDir(name)) && Apply(s, RmDir(name)) == RemoveDir(s, name).0
    ensures var t := RemoveDir(s, name).0;
      && Taken(t, n, m) && (forall i :: InodeAt(t.disk, i) == InodeAt(s.disk, i)) && t.fds == s.fds && t.here == s.here
      && forall q :: q != s.here ==> BlockAt(t.disk, q) == BlockAt(s.disk, q)
  {
    hide Live, Used, InodeAt, BlockAt, PtrOf, BlockOf, Kept, Sound, FindItem, IsEmpty, Drop, DirAt;
    TakenIsSound(s, n + 1, m + 1);
    EnabledKeeps(s, RmDir(name));
    RemoveDirShrinks(s, name);
    BlockInverse(m + 1);
  }

  /** A directory is made and removed after ten full blocks: the block that it
      leaves begins with its parent's address. */
  lemma LeavesRootAddress(d: Disk, u: Fs) returns (t: Fs)
    requires TenFull(d, u)
    ensures Enabled(u, MkDir("a")) && Enabled(Apply(u, MkDir("a")), RmDir("a"))
    ensures t == Apply(Apply(u, MkDir("a")), RmDir("a"))
    ensures Taken(t, 1, 10) && AtEnd(t, 10) && TableAt(t.disk, PtrOf(11))[0] == DARRAY_ADDR
  {
    hide Enabled, Apply, InodeAt, BlockAt, PtrOf, Kept, Taken, FindItem, FreeSlot, MakeDir, RemoveDir, Live, TableAt;
    OneEntry();
    Makes(u, 1, 10, "a");
    var v := MakeDir(u, "a").0;
    NewSector(u, 1, 10, "a");
    RemovesLast(v, 1, 10, "a", 1);
    t := RemoveDir(v, "a").0;
    PtrApart(11, 0);
    DirTable(t.disk, PtrOf(11), Dir(DARRAY_ADDR, "a", BlankItems()));
    TakenLive(t, 1, 10);
  }

  lemma PtrApart(b: int, c: int)
    requires b != c
    ensures PtrOf(b) != PtrOf(c) && PtrOf(0) == DARRAY_ADDR
  {
    BlockInverse(b);
    BlockInverse(c);
  }

  lemma DirTable(d: Disk, p: int, dir: Dir)
    requires BlockAt(d, p) == DirBlock(dir)
    ensures TableAt(d, p)[0] == dir.parent
  {
    hide BlockAt;
  }

  /** The sector of a new directory. */
  lemma NewSector(s: Fs, n: nat, m: nat, name: string)
    requires Taken(s, n, m) && MakeDir(s, name).1 == Done && Made(s, MakeDir(s, name).0, n + 1, m + 1, name)
    requires m + 1 > 0
    requires s.here == DARRAY_ADDR
    ensures BlockAt(MakeDir(s, name).0.disk, PtrOf(m + 1)) == DirBlock(Dir(DARRAY_ADDR, name, BlankItems()))
  {
    hide Live, Used, InodeAt, BlockAt, Kept, Sound, MakeDir, FreeSlot, PtrOf, BlockOf, BlankItems, FreeAbove, IsEmpty;
    TakenIsSound(s, n, m);
    MakeDirGrows(s, name);
    BlockInverse(m + 1);
    PtrApart(m + 1, 0);
  }

  /** After ten full blocks a directory is made and removed; the next byte appended overwrites the root directory. */
  lemma LosesRoot(d: Card, g: Group, fds: seq<Fd>) returns (t: Fs)
    requires |fds| > 0
    ensures LeadsTo(Begun(d, g, fds),
      [Touch("f"), OpenFile("f", O_RDWR), WriteTo(0, Zeros()), MkDir("a"), RmDir("a")], t)
    ensures Sound(t) && AtEnd(t, 10) && Write(t, 0, [7]).Wrote?
    ensures BlockAt(Write(t, 0, [7]).s.disk, DARRAY_ADDR).Bytes? && !Sound(Write(t, 0, [7]).s)
  {
    hide LeadsTo, Enabled, Apply, Begun, InodeAt, Write, BlockAt, PtrOf, Zeros, AtEnd, Kept, Taken, UsedTo, AllocBlock,
      TableAt, Sound;
    var s := Begun(d, g, fds);
    var u := TenBlocks(d, g, fds);
    t := LeavesRootAddress(d, u);
    Then(s, [Touch("f"), OpenFile("f", O_RDWR), WriteTo(0, Zeros())], u, MkDir("a"));
    Then(s, [Touch("f"), OpenFile("f", O_RDWR), WriteTo(0, Zeros())] + [MkDir("a")], Apply(u, MkDir("a")), RmDir("a"));
    assert [Touch("f"), OpenFile("f", O_RDWR), WriteTo(0, Zeros())] + [MkDir("a")] + [RmDir("a")]
        == [Touch("f"), OpenFile("f", O_RDWR), WriteTo(0, Zeros()), MkDir("a"), RmDir("a")];
    TakenIsSound(t, 1, 10);
    TakenIsUsedTo(t, 1, 10);
    TakesNext(t, 10);
    OverwritesRoot(t);
  }

  lemma OverwritesRoot(t: Fs)
    requires Sound(t) && AtEnd(t, 10) && AllocBlock(t).1 == 11 && TableAt(t.disk, PtrOf(11))[0] == DARRAY_ADDR
    ensures Write(t, 0, [7]).Wrote?
    ensures BlockAt(Write(t, 0, [7]).s.disk, DARRAY_ADDR).Bytes? && !Sound(Write(t, 0, [7]).s)
  {
    hide InodeAt, Write, BlockAt, PtrOf, AllocBlock, TableAt, Sound, Live, Prepare, Copy, Followed, Laid, FileInode,
      PutInode, PutData;
    var x := InodeAt(t.disk, 1);
    RootIsDir(t);
    RootSector(t);
    NextBlockKeepsSoundIff(t, 0, [7], 10);
    WritePrepares(t, 0, [7]);
    NextBlockCopies(t, 0, x, [7], 10);
    var (t1, b) := AllocBlock(t);
    var y := NextBlock(x, 10, PtrOf(11));
    CopyFills(t1, 0, 1, y, [7]);
    var (u, z) := Copy(t1, 0, y, [7]);
    FilledReads(With(t1, 1, y).disk, With(u, 1, z).disk, 1, Followed(t1, 0, y, [7]));
  }
}
