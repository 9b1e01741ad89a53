/** fwrite where it leaves the blocks of its file: past the tenth block, at an offset beyond the allocated size, and
    through the inode of a directory or of nobody. What the caller can look at beforehand, and what it tells. */
module FsBeyond {
  import opened Bitmap
  import opened Fs
  import opened FsRuns
  import opened FsTree
  import opened FsCalls
  import opened FsReads
  import opened FsWrites
  import opened FsStores

  // ---------------------------------------------------------------- from within the allocated size

  /** From within the allocated size the blocks are reserved one after the other, as far as there are pointers. */
  lemma {:induction false} PrepareReserves(s: Fs, x: Inode, o: nat, n: nat)
    requires o <= x.capacity <= SLOT_NUM * SECTOR_SIZE && x.capacity % 512 == 0 && o + n <= SLOT_NUM * SECTOR_SIZE
    ensures var (t, y, ok) := Reserve(s, x, o + n); Prepare(s, x, o, n) == if ok then Ready(t, y) else Short(t, y)
    decreases SLOT_NUM * SECTOR_SIZE - x.capacity
  {
    hide AllocBlock, PtrOf;
    assert (x.capacity - o) % TWO32 == x.capacity - o;
    if n > 0 && x.capacity < o + n {
      SlotCount(x.capacity);
      var (t, b) := AllocBlock(s);
      if b != -1 { PrepareReserves(t, AddBlock(x, PtrOf(b)), o, n); }
    }
  }

  /** With more to write than the pointers take, the kernel crashes unless the blocks run out. */
  lemma {:induction false} PrepareOverflows(s: Fs, x: Inode, o: nat, n: nat)
    requires o <= x.capacity <= SLOT_NUM * SECTOR_SIZE && x.capacity % 512 == 0 && o + n > SLOT_NUM * SECTOR_SIZE
    ensures var (t, y, ok) := Reserve(s, x, SLOT_NUM * SECTOR_SIZE);
      Prepare(s, x, o, n) ==
      if !ok then Short(t, y) else if AllocBlock(t).1 == -1 then Short(AllocBlock(t).0, y) else Full
    decreases SLOT_NUM * SECTOR_SIZE - x.capacity
  {
    hide AllocBlock, PtrOf;
    assert (x.capacity - o) % TWO32 == x.capacity - o;
    if x.capacity < SLOT_NUM * SECTOR_SIZE {
      SlotCount(x.capacity);
      var (t, b) := AllocBlock(s);
      if b != -1 { PrepareOverflows(t, AddBlock(x, PtrOf(b)), o, n); }
    }
  }

  /** Blocks run out before the inode can take `need` bytes, or before it runs out of pointers. */
  ghost predicate RunsOut(s: Fs, x: Inode, need: nat) {
    |FreeAbove(s)| < Missing(x, if need <= SLOT_NUM * SECTOR_SIZE then need else SLOT_NUM * SECTOR_SIZE + 1)
  }

  /** The sectors that a write from within the allocated size fills once it has its blocks. */
  function FollowedWithin(s: Fs, fd: int, x: Inode, buf: seq<bv8>): set<int>
    requires FdAt(s, fd).offset + |buf| <= SLOT_NUM * SECTOR_SIZE
  {
    var o := FdAt(s, fd).offset;
    var (t, y, ok) := Reserve(s, x, o + |buf|);
    Followed(t, fd, y, Laid(o, buf, |buf|))
  }

  lemma RunsOutIff(s: Fs, ino: int, x: Inode, o: nat, n: nat)
    requires Pending(s, ino, x) && o <= x.capacity
    ensures Prepare(s, x, o, n).Short? <==> RunsOut(s, x, o + n)
    ensures Prepare(s, x, o, n).Full? ==> o + n > SLOT_NUM * SECTOR_SIZE
    ensures Prepare(s, x, o, n).Ready? ==> o + n <= SLOT_NUM * SECTOR_SIZE
  {
    hide Pending, FreeAbove, Reserve, Prepare, AllocBlock;
    PendingCapacity(s, ino, x);
    if o + n <= SLOT_NUM * SECTOR_SIZE {
      PrepareReserves(s, x, o, n);
      ReserveEffect(s, ino, x, o + n);
    } else {
      var all := SLOT_NUM * SECTOR_SIZE;
      PrepareOverflows(s, x, o, n);
      ReserveEffect(s, ino, x, all);
      var (t, y, ok) := Reserve(s, x, all);
      assert Missing(x, all + 1) == Missing(x, all) + 1;
      if ok { ReserveStep(t, ino, y); }
    }
  }

  /** fwrite to a file from within its allocated size keeps the file system sound exactly when the blocks run out, or
      there are pointers for what is missing and no sector that it fills is a live directory's or wild. */
  lemma WithinKeepsSoundIff(s: Fs, fd: int, buf: seq<bv8>)
    requires Sound(s) && MayWrite(s, fd) && FileInode(s.disk, s.fds[fd].ino)
    requires s.fds[fd].offset <= InodeAt(s.disk, s.fds[fd].ino).capacity
    ensures var (x, o) := (InodeAt(s.disk, s.fds[fd].ino), s.fds[fd].offset);
      LeavesSound(s, fd, buf) <==>
        RunsOut(s, x, o + |buf|)
        || (o + |buf| <= SLOT_NUM * SECTOR_SIZE && Spares(s.disk, FollowedWithin(s, fd, x, buf)))
  {
    hide Live, InodeAt, Sound, Write, Prepare, Followed, Laid, Spares, Pending, RunsOut, LeavesSound, Reserve;
    var ino, o := s.fds[fd].ino, s.fds[fd].offset;
    var x := InodeAt(s.disk, ino);
    FilePending(s, ino);
    PendingCapacity(s, ino, x);
    RunsOutIff(s, ino, x, o, |buf|);
    WriteKeepsSoundIff(s, fd, buf);
    if o + |buf| <= SLOT_NUM * SECTOR_SIZE {
      PrepareReserves(s, x, o, |buf|);
      ReserveKeepsFds(s, x, o + |buf|);
    }
  }

  // ---------------------------------------------------------------- past the tenth block

  /** The inode with one block more, the k-th. */
  function NextBlock(x: Inode, k: nat, p: int): Inode
    requires k < SLOT_NUM
  {
    x.(pointers := x.pointers[k := p], capacity := 512 * k + 512)
  }

  /** An append of one sector's worth to a file of k full blocks, ten or more: the new sector becomes
      pointer k, pointer 10 is where the block map expects a table, and the bytes go to the sector that
      entry k - 10 of that table names. */
  lemma NextBlockCopies(s: Fs, fd: int, x: Inode, buf: seq<bv8>, k: nat)
    requires DIRECT_NUM <= k < SLOT_NUM && 0 <= fd < |s.fds| && s.fds[fd].offset == x.capacity == 512 * k
    requires 0 < |buf| <= 512
    requires AllocBlock(s).1 != -1
    ensures var (t, b) := AllocBlock(s);
      var y := NextBlock(x, k, PtrOf(b));
      var q := TableAt(s.disk, y.pointers[10])[k - 10];
      && t.fds == s.fds && Prepare(s, x, 512 * k, |buf|) == Ready(t, y) && Laid(512 * k, buf, |buf|) == buf
      && Followed(t, fd, y, buf) == {q}
      && Copy(t, fd, y, buf) == (PutData(t, fd, q, buf), y.(size := y.size + |buf|))
  {
    hide AllocBlock, PutData, TableAt, PtrOf, Prepare, Copy, Followed, Laid;
    var (t, b) := AllocBlock(s);
    var y := NextBlock(x, k, PtrOf(b));
    AllocKeepsSectors(s);
    SameSectorIn(s.disk, t.disk, y.pointers[10]);
    assert 512 * k % 512 == 0;
    FitsOneSector(512 * k, buf);
    PreparesNext(s, x, |buf|, k);
    CopiesOne(t, fd, y, buf, k);
  }

  lemma AllocKeepsSectors(s: Fs)
    ensures AllocBlock(s).0.disk.blocks == s.disk.blocks && AllocBlock(s).0.fds == s.fds
    ensures AllocBlock(s).0.disk.inodes == s.disk.inodes
  {
    SlideKeeps(s);
  }

  lemma SameTable(d: Disk, e: Disk, p: int)
    requires BlockAt(e, p) == BlockAt(d, p)
    ensures TableAt(e, p) == TableAt(d, p) && BytesAt(e, p) == BytesAt(d, p)
  {
    hide BlockAt;
  }

  lemma SameSectorIn(d: Disk, e: Disk, p: int)
    requires e.blocks == d.blocks
    ensures TableAt(e, p) == TableAt(d, p)
  {
    SameBlocks(d, e);
    SameTable(d, e, p);
  }

  lemma PreparesNext(s: Fs, x: Inode, n: nat, k: nat)
    requires x.capacity == 512 * k && k < SLOT_NUM && 0 < n <= 512 && AllocBlock(s).1 != -1
    ensures var (t, b) := AllocBlock(s); Prepare(s, x, 512 * k, n) == Ready(t, NextBlock(x, k, PtrOf(b)))
  {
    hide AllocBlock, PtrOf;
    var (t, b) := AllocBlock(s);
    var y := NextBlock(x, k, PtrOf(b));
    assert AddBlock(x, PtrOf(b)) == y;
    assert (x.capacity - 512 * k) % TWO32 == 0 && (y.capacity - 512 * k) % TWO32 == 512;
    assert Prepare(t, y, 512 * k, n) == Ready(t, y);
  }

  lemma CopiesOne(t: Fs, fd: int, y: Inode, buf: seq<bv8>, k: nat)
    requires DIRECT_NUM <= k < SLOT_NUM && 0 <= fd < |t.fds| && t.fds[fd].offset == 512 * k && 0 < |buf| <= 512
    ensures var q := TableAt(t.disk, y.pointers[10])[k - 10];
      && Followed(t, fd, y, buf) == {q}
      && Copy(t, fd, y, buf) == (PutData(t, fd, q, buf), y.(size := y.size + |buf|))
  {
    hide PutData, TableAt;
    var q := TableAt(t.disk, y.pointers[10])[k - 10];
    assert 512 * k / 512 == k && Target(t.disk, y, 512 * k) == q;
    assert Chunk(512 * k, |buf|) == |buf| && buf[..|buf|] == buf && buf[|buf|..] == [];
    assert WriteChunk(t, fd, y, buf) == (PutData(t, fd, q, buf), y.(size := y.size + |buf|), []);
    assert Followed(PutData(t, fd, q, buf), fd, y.(size := y.size + |buf|), []) == {};
  }

  /** An append after ten or more full blocks keeps the file system sound exactly when there is no block for it, or
      the entry that it follows is not the address of a live directory's sector and does not lie across what is not the
      data area's. For the eleventh block that entry is the first word of what was in the new block. */
  lemma NextBlockKeepsSoundIff(s: Fs, fd: int, buf: seq<bv8>, k: nat)
    requires Sound(s) && MayWrite(s, fd) && FileInode(s.disk, s.fds[fd].ino) && 0 < |buf| <= 512
    requires DIRECT_NUM <= k < SLOT_NUM && s.fds[fd].offset == InodeAt(s.disk, s.fds[fd].ino).capacity == 512 * k
    ensures var x, b := InodeAt(s.disk, s.fds[fd].ino), AllocBlock(s).1;
      var q := TableAt(s.disk, if k == 10 then PtrOf(b) else x.pointers[10])[k - 10];
      LeavesSound(s, fd, buf) <==>
        b == -1 || (!Wild(q) && forall i :: DirInode(s.disk, i) ==> DirPtr(s.disk, i) != q)
  {
    hide Live, InodeAt, Sound, Write, Followed, Laid, LeavesSound, AllocBlock, TableAt, PtrOf, DirInode, Wild;
    var x := InodeAt(s.disk, s.fds[fd].ino);
    WriteKeepsSoundIff(s, fd, buf);
    if AllocBlock(s).1 != -1 {
      NextBlockCopies(s, fd, x, buf, k);
    } else {
      NoNext(s, x, |buf|, k);
    }
  }

  lemma NoNext(s: Fs, x: Inode, n: nat, k: nat)
    requires x.capacity == 512 * k && 0 < n <= 512 && AllocBlock(s).1 == -1
    ensures Prepare(s, x, 512 * k, n).Short?
  {
    hide AllocBlock;
    assert (x.capacity - 512 * k) % TWO32 == 0;
  }

  /** What fread finds from offset o on is the buffer. */
  ghost predicate FindsBack(d: Disk, x: Inode, o: nat, buf: seq<bv8>) {
    forall i :: 0 <= i < |buf| ==> FlatByte(d, x, o + i) == buf[i]
  }

  /** What the bytes of the eleventh block become the first word of, if the table leads to itself. */
  function SelfWord(d: Disk, own: int, buf: seq<bv8>): int
    requires |buf| <= 512
  {
    WordAt(Splice(BytesAt(d, own), 0, buf), 0)
  }

  /** The append after ten full blocks goes to a data sector and is read back exactly when the first word of what was in
      the new block is not wild and is not the block's own address, or, if it is, the buffer, which then becomes the
      table itself, leads to a sector with the same bytes. */
  lemma EleventhReadsBackIff(s: Fs, fd: int, buf: seq<bv8>)
    requires MayWrite(s, fd) && 0 < |buf| <= 512 && AllocBlock(s).1 != -1 && 0 <= s.fds[fd].ino < INODE_ITEM_NUM
    requires s.fds[fd].offset == InodeAt(s.disk, s.fds[fd].ino).capacity == DIRECT_NUM * SECTOR_SIZE
    requires Intact(s.disk)
    ensures Write(s, fd, buf).Wrote? && Write(s, fd, buf).count == |buf|
    ensures var (d, own) := (Write(s, fd, buf).s.disk, PtrOf(AllocBlock(s).1));
      Intact(d) && FindsBack(d, InodeAt(d, s.fds[fd].ino), 5120, buf) <==>
        && !Wild(TableAt(s.disk, own)[0])
        && (|| TableAt(s.disk, own)[0] != own
            || SelfWord(s.disk, own, buf) == own || BytesAt(s.disk, SelfWord(s.disk, own, buf))[..|buf|] == buf)
  {
    hide InodeAt, Write, Followed, Laid, AllocBlock, TableAt, PtrOf, PutData, PutInode, Prepare, Copy, FindsBack,
      SelfWord, BytesAt, Wild, Intact;
    var ino := s.fds[fd].ino;
    var x := InodeAt(s.disk, ino);
    var (t, b) := AllocBlock(s);
    var own, q := PtrOf(b), TableAt(s.disk, PtrOf(b))[0];
    WritePrepares(s, fd, buf);
    NextBlockCopies(s, fd, x, buf, 10);
    var y := x.(pointers := x.pointers[10 := own], capacity := 5632, size := x.size + |buf|);
    var u := PutData(t, fd, q, buf);
    WithIs(u, ino, y);
    AllocKeepsSectors(s);
    PutDataSector(s, t, fd, q, buf);
    FindsTable(With(u, ino, y).disk, y, own, buf);
    SectorsAfter(s.disk, u.disk, With(u, ino, y).disk, q, own, buf);
    StoreIntactIff(s.disk, With(u, ino, y).disk, q);
  }

  /** One data sector has been stored. */
  lemma StoreIntactIff(d: Disk, e: Disk, q: int)
    requires Intact(d) && forall p :: p in e.blocks.rest <==> p in d.blocks.rest || (p == q && !IsBlock(q))
    ensures Intact(e) <==> !Wild(q)
  {
    hide IsBlock, Wild;
    NoneWild();
    if Wild(q) { assert q in e.blocks.rest; }
  }

  lemma PutDataSector(s: Fs, t: Fs, fd: int, q: int, buf: seq<bv8>)
    requires t.disk.blocks == s.disk.blocks && 0 <= fd < |t.fds| && t.fds[fd].offset == 5120 && |buf| <= 512
    ensures var e := PutData(t, fd, q, buf).disk;
      && (forall p :: BlockAt(e, p) == if p == q then Bytes(Splice(BytesAt(s.disk, q), 0, buf)) else BlockAt(s.disk, p))
      && (forall p :: p in e.blocks.rest <==> p in s.disk.blocks.rest || (p == q && !IsBlock(q)))
  {
    hide PutBlock, BlockAt, Splice, IsBlock;
    SameBlocks(s.disk, t.disk);
    PutBlockEffect(t.disk, q, Bytes(Splice(BytesAt(t.disk, q), 0, buf)));
  }

  /** The eleventh block is read through entry 0 of its table. */
  lemma FindsTable(d: Disk, y: Inode, own: int, buf: seq<bv8>)
    requires y.pointers[10] == own && |buf| <= 512
    ensures FindsBack(d, y, 5120, buf) <==> BytesAt(d, TableAt(d, own)[0])[..|buf|] == buf
  {
    hide TableAt, BytesAt;
    forall i | 0 <= i < |buf| ensures FlatByte(d, y, 5120 + i) == BytesAt(d, TableAt(d, own)[0])[i] {
      assert (5120 + i) / 512 == 10 && (5120 + i) % 512 == i;
    }
    if FindsBack(d, y, 5120, buf) {
      forall i | 0 <= i < |buf| ensures BytesAt(d, TableAt(d, own)[0])[i] == buf[i] {
        assert FlatByte(d, y, 5120 + i) == buf[i];
      }
      assert BytesAt(d, TableAt(d, own)[0])[..|buf|] == buf;
    } else {
      var i :| 0 <= i < |buf| && FlatByte(d, y, 5120 + i) != buf[i];
      assert BytesAt(d, TableAt(d, own)[0])[..|buf|][i] != buf[i];
    }
  }

  lemma SectorsAfter(d: Disk, e: Disk, f: Disk, q: int, own: int, buf: seq<bv8>)
    requires |buf| <= 512 && q == TableAt(d, own)[0] && forall p :: BlockAt(f, p) == BlockAt(e, p)
    requires forall p :: BlockAt(e, p) == if p == q then Bytes(Splice(BytesAt(d, q), 0, buf)) else BlockAt(d, p)
    ensures BytesAt(f, TableAt(f, own)[0])[..|buf|] == buf <==>
      || q != own || SelfWord(d, own, buf) == own || BytesAt(d, SelfWord(d, own, buf))[..|buf|] == buf
  {
    hide BlockAt, Splice, WordAt;
    SpliceStart(BytesAt(d, q), buf);
    if q != own {
      SameTable(d, f, own);
    } else {
      assert TableAt(f, own)[0] == SelfWord(d, own, buf);
      if SelfWord(d, own, buf) != own { SameTable(d, f, SelfWord(d, own, buf)); }
    }
  }

  lemma SpliceStart(s: SectorBytes, buf: seq<bv8>)
    requires |buf| <= 512
    ensures Splice(s, 0, buf)[..|buf|] == buf
  {}

  // ---------------------------------------------------------------- beyond the allocated size

  /** A write of n bytes at offset o touches the k-th block of the file. */
  predicate Touches(o: nat, n: nat, k: int) {
    n > 0 && o / 512 <= k <= (o + n - 1) / 512
  }

  lemma TouchesLater(o: nat, n: nat, k: int)
    requires n > 0
    ensures var t := Chunk(o, n);
      Touches(o, n, k) <==> k == o / 512 || Touches(o + t, n - t, k)
  {}

  lemma TouchesNothing(o: nat)
    ensures forall k :: !Touches(o, 0, k)
  {}

  /** In the direct blocks the copy follows the inode's own pointers. */
  lemma {:induction false} FollowsPointers(s: Fs, fd: int, x: Inode, data: seq<bv8>, p: int)
    requires 0 <= fd < |s.fds| && s.fds[fd].offset + |data| <= DIRECT_NUM * SECTOR_SIZE
    ensures p in Followed(s, fd, x, data)
      <==> exists k :: 0 <= k < SLOT_NUM && Touches(s.fds[fd].offset, |data|, k) && x.pointers[k] == p
    decreases |data|
  {
    hide PutBlock, Splice, BytesAt, Target, Touches;
    var o := s.fds[fd].offset;
    if data == [] {
      TouchesNothing(o);
    } else {
      var (t, y, rest) := WriteChunk(s, fd, x, data);
      DirectTarget(s.disk, x, o);
      forall k ensures Touches(o, |data|, k) <==> k == o / 512 || Touches(t.fds[fd].offset, |rest|, k) {
        TouchesLater(o, |data|, k);
      }
      FollowsPointers(t, fd, y, rest, p);
      assert Touches(o, |data|, o / 512);
    }
  }

  lemma FollowsAll(s: Fs, fd: int, x: Inode, data: seq<bv8>)
    requires 0 <= fd < |s.fds| && s.fds[fd].offset + |data| <= DIRECT_NUM * SECTOR_SIZE
    ensures forall p :: p in Followed(s, fd, x, data) <==>
      exists k :: 0 <= k < SLOT_NUM && Touches(s.fds[fd].offset, |data|, k) && x.pointers[k] == p
  {
    forall p ensures p in Followed(s, fd, x, data) <==>
      exists k :: 0 <= k < SLOT_NUM && Touches(s.fds[fd].offset, |data|, k) && x.pointers[k] == p
    {
      FollowsPointers(s, fd, x, data, p);
    }
  }

  /** No block pointer that the write follows is the sector of a live directory, or wild. */
  ghost predicate SparesDirs(d: Disk, x: Inode, o: nat, n: nat) {
    && (forall i, k :: DirInode(d, i) && Touches(o, n, k) && 0 <= k < SLOT_NUM ==> DirPtr(d, i) != x.pointers[k])
    && (forall k :: Touches(o, n, k) && 0 <= k < SLOT_NUM ==> !Wild(x.pointers[k]))
  }

  lemma SparesDirsIff(s: Fs, fd: int, x: Inode, data: seq<bv8>)
    requires 0 <= fd < |s.fds| && s.fds[fd].offset + |data| <= DIRECT_NUM * SECTOR_SIZE
    ensures Spares(s.disk, Followed(s, fd, x, data)) <==> SparesDirs(s.disk, x, s.fds[fd].offset, |data|)
  {
    hide DirInode, DirPtr, Followed, Touches, Wild;
    FollowsAll(s, fd, x, data);
  }

  /** When fwrite may copy at once, in the direct blocks, it fills the sectors of the pointers that it touches. */
  lemma AtOnceFills(s: Fs, fd: int, buf: seq<bv8>)
    requires MayWrite(s, fd) && s.fds[fd].offset + |buf| <= DIRECT_NUM * SECTOR_SIZE
    requires (InodeAt(s.disk, s.fds[fd].ino).capacity - s.fds[fd].offset) % TWO32 >= |buf|
    ensures Write(s, fd, buf).Wrote? && Write(s, fd, buf).count == |buf|
    ensures var (x, o) := (InodeAt(s.disk, s.fds[fd].ino), s.fds[fd].offset);
      var ps := Followed(s, fd, x, Laid(o, buf, |buf|));
      && Filled(s.disk, Write(s, fd, buf).s.disk, s.fds[fd].ino, ps)
      && forall p :: p in ps <==> exists k :: 0 <= k < SLOT_NUM && Touches(o, |buf|, k) && x.pointers[k] == p
  {
    hide Live, InodeAt, BlockAt, Write, Copy, Followed, Laid, With, FileInode, Touches, Filled, AllocBlock, WriteChunk;
    var ino, o := s.fds[fd].ino, s.fds[fd].offset;
    var x, data := InodeAt(s.disk, ino), Laid(o, buf, |buf|);
    WritePrepares(s, fd, buf);
    assert Prepare(s, x, o, |buf|) == Ready(s, x);
    WithOwn(s, ino);
    CopyFills(s, fd, ino, x, data);
    FollowsAll(s, fd, x, data);
  }

  /** What that does to the file system, to the card, and to the sectors. */
  lemma AtOnceIff(s: Fs, fd: int, buf: seq<bv8>)
    requires Sound(s) && MayWrite(s, fd) && s.fds[fd].offset + |buf| <= DIRECT_NUM * SECTOR_SIZE
    requires (InodeAt(s.disk, s.fds[fd].ino).capacity - s.fds[fd].offset) % TWO32 >= |buf|
    ensures Write(s, fd, buf).Wrote? && Write(s, fd, buf).count == |buf|
    ensures LeavesSound(s, fd, buf) <==> SparesDirs(s.disk, InodeAt(s.disk, s.fds[fd].ino), s.fds[fd].offset, |buf|)
    ensures forall p :: BlockAt(Write(s, fd, buf).s.disk, p) != BlockAt(s.disk, p) ==>
      exists k :: 0 <= k < SLOT_NUM && Touches(s.fds[fd].offset, |buf|, k)
        && InodeAt(s.disk, s.fds[fd].ino).pointers[k] == p
    ensures forall k :: Touches(s.fds[fd].offset, |buf|, k) && 0 <= k < SLOT_NUM ==>
      BlockAt(Write(s, fd, buf).s.disk, InodeAt(s.disk, s.fds[fd].ino).pointers[k]).Bytes?
    ensures forall i :: Live(Write(s, fd, buf).s.disk, i) == Live(s.disk, i)
    ensures forall i :: i != s.fds[fd].ino ==> InodeAt(Write(s, fd, buf).s.disk, i) == InodeAt(s.disk, i)
  {
    hide Live, InodeAt, BlockAt, Sound, Write, Copy, Followed, Laid, Spares, SparesDirs, FileInode, Touches, Filled;
    var ino, o := s.fds[fd].ino, s.fds[fd].offset;
    var x, data := InodeAt(s.disk, ino), Laid(o, buf, |buf|);
    AtOnceFills(s, fd, buf);
    WriteKeepsSoundIff(s, fd, buf);
    SparesDirsIff(s, fd, x, data);
    FilledSame(s.disk, Write(s, fd, buf).s.disk, ino, Followed(s, fd, x, data));
    FilledReads(s.disk, Write(s, fd, buf).s.disk, ino, Followed(s, fd, x, data));
  }

  lemma AtOnceIntactIff(s: Fs, fd: int, buf: seq<bv8>)
    requires Sound(s) && MayWrite(s, fd) && s.fds[fd].offset + |buf| <= DIRECT_NUM * SECTOR_SIZE
    requires (InodeAt(s.disk, s.fds[fd].ino).capacity - s.fds[fd].offset) % TWO32 >= |buf|
    ensures Write(s, fd, buf).Wrote?
    ensures Intact(Write(s, fd, buf).s.disk) <==>
      forall k :: Touches(s.fds[fd].offset, |buf|, k) && 0 <= k < SLOT_NUM ==>
        !Wild(InodeAt(s.disk, s.fds[fd].ino).pointers[k])
  {
    hide InodeAt, Sound, Write, Followed, Laid, Touches, Filled, Wild, Intact;
    var x, data := InodeAt(s.disk, s.fds[fd].ino), Laid(s.fds[fd].offset, buf, |buf|);
    AtOnceFills(s, fd, buf);
    SoundIsIntact(s);
    FilledIntactIff(s.disk, Write(s, fd, buf).s.disk, s.fds[fd].ino, Followed(s, fd, x, data));
  }

  lemma FilledReads(d: Disk, e: Disk, ino: int, ps: set<int>)
    requires Filled(d, e, ino, ps)
    ensures forall q :: BlockAt(e, q) != BlockAt(d, q) ==> q in ps
    ensures forall q :: q in ps ==> BlockAt(e, q).Bytes?
    ensures forall i :: i != ino ==> InodeAt(e, i) == InodeAt(d, i)
  {
    hide BlockAt, InodeAt;
  }

  lemma FarBeyond(x: Inode, o: nat, n: nat)
    requires x.capacity < o && o + n <= DIRECT_NUM * SECTOR_SIZE
    ensures (x.capacity - o) % TWO32 >= n
  {
    assert (x.capacity - o) % TWO32 == x.capacity - o + TWO32;
  }

  /** fwrite at an offset beyond the allocated size of a file allocates nothing, because what remains is computed in
      unsigned arithmetic; it follows pointers that the file does not own. The file system stays sound exactly when none
      of them leads to a live directory. */
  lemma StaleWriteKeepsSoundIff(s: Fs, fd: int, buf: seq<bv8>)
    requires Sound(s) && MayWrite(s, fd) && FileInode(s.disk, s.fds[fd].ino)
    requires s.fds[fd].offset > InodeAt(s.disk, s.fds[fd].ino).capacity
    requires s.fds[fd].offset + |buf| <= DIRECT_NUM * SECTOR_SIZE
    ensures Write(s, fd, buf).Wrote? && Write(s, fd, buf).count == |buf|
    ensures forall k :: Touches(s.fds[fd].offset, |buf|, k) && 0 <= k < SLOT_NUM ==>
      BlockAt(Write(s, fd, buf).s.disk, InodeAt(s.disk, s.fds[fd].ino).pointers[k]).Bytes?
    ensures LeavesSound(s, fd, buf) <==> SparesDirs(s.disk, InodeAt(s.disk, s.fds[fd].ino), s.fds[fd].offset, |buf|)
  {
    hide Live, InodeAt, BlockAt, Sound, Write, SparesDirs, Touches, LeavesSound;
    FarBeyond(InodeAt(s.disk, s.fds[fd].ino), s.fds[fd].offset, |buf|);
    AtOnceIff(s, fd, buf);
  }

  /** The sector is a block of another live inode. */
  ghost predicate Foreign(d: Disk, ino: int, p: int) {
    exists i, k :: i != ino && Holds(d, i, k) && PtrAt(d, i, k) == p
  }

  /** A copy of one byte over and over leaves it in every sector that it fills, where it began there or at the start. */
  lemma {:induction false} ConstantCopy(s: Fs, fd: int, x: Inode, data: seq<bv8>, c: bv8, p: int)
    requires 0 <= fd < |s.fds| && p in Followed(s, fd, x, data) && forall i :: 0 <= i < |data| ==> data[i] == c
    ensures var d := Copy(s, fd, x, data).0.disk;
      BytesAt(d, p)[s.fds[fd].offset % 512] == c || BytesAt(d, p)[0] == c
    decreases |data|
  {
    hide PutBlock, Splice, BytesAt, Target, OffsetToPointer;
    var o, q := s.fds[fd].offset, Target(s.disk, x, s.fds[fd].offset);
    var n := Chunk(o, |data|);
    var (t, y, rest) := WriteChunk(s, fd, x, data);
    assert t.fds[fd].offset == o + n;
    assert rest != [] ==> (o + n) % 512 == 0;
    if p in Followed(t, fd, y, rest) {
      ConstantCopy(t, fd, y, rest, c, p);
    } else {
      CopyKeepsOthers(t, fd, y, rest, p);
      PutBytes(s.disk, q, Splice(BytesAt(s.disk, q), o % 512, data[..n]));
      SpliceAt(BytesAt(s.disk, q), o % 512, data[..n], o % 512);
    }
  }

  lemma CopyKeepsOthers(s: Fs, fd: int, x: Inode, data: seq<bv8>, p: int)
    requires p !in Followed(s, fd, x, data)
    ensures BytesAt(Copy(s, fd, x, data).0.disk, p) == BytesAt(s.disk, p)
  {
    hide Copy, Followed, BlockAt, InodeAt, PutInode;
    CopyFills(s, fd, 0, x, data);
    WithIs(s, 0, x);
    WithIs(Copy(s, fd, x, data).0, 0, Copy(s, fd, x, data).1);
    SameTable(s.disk, Copy(s, fd, x, data).0.disk, p);
  }

  /** Some byte that two given ones are not. */
  function Third(a: bv8, b: bv8): (c: bv8)
    ensures c != a && c != b
  {
    if a != 0 && b != 0 then 0 else if a != 1 && b != 1 then 1 else 2
  }

  /** Writing one byte over and over changes every sector that is followed. */
  lemma SomeBufferShows(s: Fs, fd: int, n: nat, k: int) returns (buf: seq<bv8>)
    requires Sound(s) && MayWrite(s, fd) && s.fds[fd].offset + n <= DIRECT_NUM * SECTOR_SIZE
    requires (InodeAt(s.disk, s.fds[fd].ino).capacity - s.fds[fd].offset) % TWO32 >= n
    requires Touches(s.fds[fd].offset, n, k) && 0 <= k < SLOT_NUM
    ensures |buf| == n && Write(s, fd, buf).Wrote?
    ensures var p := InodeAt(s.disk, s.fds[fd].ino).pointers[k];
      BlockAt(Write(s, fd, buf).s.disk, p) != BlockAt(s.disk, p)
  {
    hide InodeAt, BlockAt, Sound, Write, Copy, Followed, Laid, With, Touches, BytesAt, LeavesSound, SparesDirs;
    var ino, o := s.fds[fd].ino, s.fds[fd].offset;
    var x := InodeAt(s.disk, ino);
    var p := x.pointers[k];
    var c := Third(BytesAt(s.disk, p)[o % 512], BytesAt(s.disk, p)[0]);
    buf := seq(n, i => c);
    var data := Laid(o, buf, n);
    forall i | 0 <= i < n ensures data[i] == c { LaidAt(o, buf, n, i); }
    AtOnceIff(s, fd, buf);
    WritePrepares(s, fd, buf);
    assert Prepare(s, x, o, n) == Ready(s, x);
    FollowsPointers(s, fd, x, data, p);
    ConstantCopy(s, fd, x, data, c, p);
    var (t, y) := Copy(s, fd, x, data);
    WithIs(t, ino, y);
    SameTable(t.disk, With(t, ino, y).disk, p);
    assert BytesAt(With(t, ino, y).disk, p) != BytesAt(s.disk, p);
    BytesTell(s.disk, With(t, ino, y).disk, p);
  }

  lemma BytesTell(d: Disk, e: Disk, p: int)
    ensures BytesAt(e, p) != BytesAt(d, p) ==> BlockAt(e, p) != BlockAt(d, p)
  {
    hide BlockAt;
  }

  /** Whatever n bytes are written at an offset beyond the allocated size of a file, every other inode keeps its
      blocks and the card stays intact, exactly when no pointer that is followed is that of a block of another live
      inode or wild. */
  lemma StaleWriteSparesOthersIff(s: Fs, fd: int, n: nat)
    requires Sound(s) && MayWrite(s, fd) && FileInode(s.disk, s.fds[fd].ino)
    requires s.fds[fd].offset > InodeAt(s.disk, s.fds[fd].ino).capacity
    requires s.fds[fd].offset + n <= DIRECT_NUM * SECTOR_SIZE
    ensures (forall buf: seq<bv8> :: |buf| == n ==>
               && Write(s, fd, buf).Wrote? && Intact(Write(s, fd, buf).s.disk)
               && OthersUntouched(s.disk, Write(s, fd, buf).s.disk, s.fds[fd].ino))
      <==> (forall k :: Touches(s.fds[fd].offset, n, k) && 0 <= k < SLOT_NUM ==>
              var p := InodeAt(s.disk, s.fds[fd].ino).pointers[k];
              !Foreign(s.disk, s.fds[fd].ino, p) && !Wild(p))
  {
    hide Live, InodeAt, BlockAt, Sound, Write, LeavesSound, SparesDirs, Touches, Holds, PtrAt, Wild, Intact;
    var ino, o := s.fds[fd].ino, s.fds[fd].offset;
    var x := InodeAt(s.disk, ino);
    FarBeyond(x, o, n);
    if k :| Touches(o, n, k) && 0 <= k < SLOT_NUM && Foreign(s.disk, ino, x.pointers[k]) {
      var buf := SomeBufferShows(s, fd, n, k);
      assert !OthersUntouched(s.disk, Write(s, fd, buf).s.disk, ino);
    } else if k :| Touches(o, n, k) && 0 <= k < SLOT_NUM && Wild(x.pointers[k]) {
      AtOnceIntactIff(s, fd, seq(n, _ => 0));
    } else {
      forall buf: seq<bv8> | |buf| == n
        ensures Write(s, fd, buf).Wrote? && OthersUntouched(s.disk, Write(s, fd, buf).s.disk, ino)
        ensures Intact(Write(s, fd, buf).s.disk)
      {
        AtOnceIff(s, fd, buf);
        AtOnceIntactIff(s, fd, buf);
      }
    }
  }

  // ---------------------------------------------------------------- through the inode of a directory or of nobody

  /** fwrite to a directory from an offset within its sector keeps the file system sound exactly when it needs a block
      and there is none: otherwise it turns the directory's sector into bytes or takes a block that nobody owns. */
  lemma DirWriteKeepsSoundIff(s: Fs, fd: int, buf: seq<bv8>)
    requires Sound(s) && MayWrite(s, fd) && DirInode(s.disk, s.fds[fd].ino) && s.fds[fd].offset <= 512 && buf != []
    ensures LeavesSound(s, fd, buf) <==> s.fds[fd].offset + |buf| > 512 && FreeAbove(s) == {}
    ensures s.fds[fd].offset + |buf| <= 512 ==>
      Write(s, fd, buf).Wrote? && BlockAt(Write(s, fd, buf).s.disk, DirPtr(s.disk, s.fds[fd].ino)).Bytes?
  {
    hide Live, InodeAt, BlockAt, Sound, Write, FreeAbove, CopySpares;
    var ino, o := s.fds[fd].ino, s.fds[fd].offset;
    var x := InodeAt(s.disk, ino);
    DirCapacity(s, ino);
    WriteKeepsSoundIff(s, fd, buf);
    assert (x.capacity - o) % TWO32 == x.capacity - o;
    if o + |buf| <= 512 {
      AtOnceIff(s, fd, buf);
      assert Touches(o, |buf|, 0);
      assert DirPtr(s.disk, ino) == x.pointers[0];
    }
  }

  lemma DirCapacity(s: Fs, i: int)
    requires Sound(s) && DirInode(s.disk, i)
    ensures InodeAt(s.disk, i).capacity == 512 && 0 <= i < INODE_ITEM_NUM && IsBlock(DirPtr(s.disk, i))
  {
    hide InodeAt, IsBlock, Tree, Counted;
    assert InodeOk(s.disk, i);
    DirPtrIsBlock(s.disk, i);
  }

  /** fwrite through a descriptor of an inode that is not live keeps the file system sound exactly when it copies at
      once and follows no pointer of the old record to a live directory, or needs a block and there is none. */
  lemma DeadWriteKeepsSoundIff(s: Fs, fd: int, buf: seq<bv8>)
    requires Sound(s) && MayWrite(s, fd) && !Live(s.disk, s.fds[fd].ino) && buf != []
    requires s.fds[fd].offset + |buf| <= DIRECT_NUM * SECTOR_SIZE
    ensures var (x, o) := (InodeAt(s.disk, s.fds[fd].ino), s.fds[fd].offset);
      LeavesSound(s, fd, buf) <==>
        if (x.capacity - o) % TWO32 >= |buf| then SparesDirs(s.disk, x, o, |buf|) else FreeAbove(s) == {}
  {
    hide Live, InodeAt, BlockAt, Sound, Write, FreeAbove, CopySpares, SparesDirs, LeavesSound;
    WriteKeepsSoundIff(s, fd, buf);
    if (InodeAt(s.disk, s.fds[fd].ino).capacity - s.fds[fd].offset) % TWO32 >= |buf| {
      AtOnceIff(s, fd, buf);
    }
  }
}
