/** fwrite within the direct blocks of a file: it reserves everything before it copies anything, so that it writes all
    or nothing, and it touches nothing but the file. Every sector is filled from the start of the buffer. */
module FsWrites {
  import opened Bitmap
  import opened Fs
  import opened FsRuns
  import opened FsTree
  import opened FsCalls
  import opened FsReads

  // ---------------------------------------------------------------- what is laid down

  /** The n bytes that fwrite lays down from offset o on: each sector gets the start of the buffer. */
  function Laid(o: nat, buf: seq<bv8>, n: nat): (data: seq<bv8>)
    requires n <= |buf|
    ensures |data| == n
    decreases n
  {
    if n == 0 then [] else var t := Chunk(o, n); buf[..t] + Laid(o + t, buf, n - t)
  }

  /** Byte i is the buffer's in the sector of o, and behind that sector the buffer starts again in every sector. */
  lemma {:induction false} LaidAt(o: nat, buf: seq<bv8>, n: nat, i: nat)
    requires i < n <= |buf|
    ensures var first := 512 - o % 512;
      Laid(o, buf, n)[i] == if i < first then buf[i] else buf[(i - first) % 512]
    decreases n
  {
    var t := Chunk(o, n);
    if i >= t {
      LaidAt(o + t, buf, n - t, i - t);
      NextSector(o, i);
    }
  }

  lemma NextSector(o: nat, i: nat)
    requires i >= 512 - o % 512
    ensures var first := 512 - o % 512;
      (o + first) % 512 == 0 && (i - first >= 512 ==> (i - first) % 512 == (i - first - 512) % 512)
  {}

  /** For whatever buffer of n bytes, it is the buffer that is laid down exactly when it
      fits the sector of the offset. */
  lemma LaysBufferIff(o: nat, n: nat)
    ensures (forall buf: seq<bv8> :: |buf| == n ==> Laid(o, buf, n) == buf) <==> o % 512 + n <= 512
  {
    if o % 512 + n <= 512 {
      forall buf: seq<bv8> | |buf| == n ensures Laid(o, buf, n) == buf { FitsOneSector(o, buf); }
    } else {
      var first := 512 - o % 512;
      var buf: seq<bv8> := seq(n, i => if i == first then 1 else 0);
      LaidAt(o, buf, n, first);
      assert Laid(o, buf, n)[first] != buf[first];
    }
  }

  lemma FitsOneSector(o: nat, buf: seq<bv8>)
    requires o % 512 + |buf| <= 512
    ensures Laid(o, buf, |buf|) == buf
  {
    if buf != [] {
      assert Chunk(o, |buf|) == |buf|;
      assert buf[..|buf|] + [] == buf;
    }
  }

  // ---------------------------------------------------------------- reserve, then copy

  /** What the direct blocks can take without a jump past the allocated size. */
  predicate InDirect(f: Fd, x: Inode, n: nat) {
    f.offset <= x.capacity && f.offset + n <= DIRECT_NUM * SECTOR_SIZE
  }

  /** Blocks are added until the inode can take `need` bytes; false if one was not to be had. */
  function Reserve(s: Fs, x: Inode, need: nat): (Fs, Inode, bool)
    requires need <= SLOT_NUM * SECTOR_SIZE
    decreases need - x.capacity
  {
    if x.capacity >= need then (s, x, true) else
    var (t, b) := AllocBlock(s);
    if b == -1 then (t, x, false) else Reserve(t, AddBlock(x, PtrOf(b)), need)
  }

  /** The sector that the block map gives for an offset; 0 beyond its last block. */
  function Target(d: Disk, x: Inode, offset: nat): int {
    match OffsetToPointer(d, x, offset)
    case Sector(p) => p
    case WrongSeg => 0
  }

  lemma DirectTarget(d: Disk, x: Inode, offset: nat)
    requires offset < DIRECT_NUM * SECTOR_SIZE
    ensures Target(d, x, offset) == x.pointers[offset / 512]
  {}

  /** As much of `data` as the sector of the offset takes, and what is left. */
  function WriteChunk(s: Fs, fd: int, x: Inode, data: seq<bv8>): (Fs, Inode, seq<bv8>) {
    var t := Chunk(FdAt(s, fd).offset, |data|);
    (PutData(s, fd, Target(s.disk, x, FdAt(s, fd).offset), data[..t]), x.(size := x.size + t), data[t..])
  }

  function Copy(s: Fs, fd: int, x: Inode, data: seq<bv8>): (Fs, Inode)
    decreases |data|
  {
    if data == [] then (s, x) else
    var (t, y, rest) := WriteChunk(s, fd, x, data);
    Copy(t, fd, y, rest)
  }

  /** Once nothing is missing, in unsigned arithmetic, the loop copies, as far as the block map goes. */
  lemma {:induction false} FittingLoopCopies(s: Fs, fd: int, x: Inode, buf: seq<bv8>, n: nat, count: nat)
    requires 0 <= fd < |s.fds| && n <= |buf| && (x.capacity - s.fds[fd].offset) % TWO32 >= n
    ensures var (t, y) := Copy(s, fd, x, Laid(s.fds[fd].offset, buf, n));
      WriteLoop(s, fd, x, buf, n, count) ==
      if n > 0 && s.fds[fd].offset + n > BLOCK_LIMIT * 512 then Crash else Stopped(t, y, count + n)
    decreases n
  {
    hide AllocBlock, PutData, WriteLoop, Laid, OffsetToPointer;
    var o := s.fds[fd].offset;
    if n > 0 {
      var t := Chunk(o, n);
      var p := Target(s.disk, x, o);
      SegOf(s.disk, x, o);
      LoopCopies(s, fd, x, buf, n, count);
      LessLeft(x.capacity - o, t);
      LaidFirst(o, buf, n);
      PutDataFd(s, fd, p, buf[..t]);
      if o / 512 < BLOCK_LIMIT {
        FittingLoopCopies(PutData(s, fd, p, buf[..t]), fd, x.(size := x.size + t), buf, n - t, count + t);
      }
    } else {
      LoopDone(s, fd, x, buf, count);
      LaidNothing(o, buf);
    }
  }

  lemma PutDataFd(s: Fs, fd: int, p: int, data: seq<bv8>)
    requires 0 <= fd < |s.fds| && s.fds[fd].offset % 512 + |data| <= 512
    ensures var t := PutData(s, fd, p, data);
      t.fds == s.fds[fd := FdAt(t, fd)] && FdAt(t, fd).offset == s.fds[fd].offset + |data|
  {
    hide PutBlock, Splice, BytesAt;
  }

  lemma LaidFirst(o: nat, buf: seq<bv8>, n: nat)
    requires 0 < n <= |buf|
    ensures var t := Chunk(o, n);
      Laid(o, buf, n)[..t] == buf[..t] && Laid(o, buf, n)[t..] == Laid(o + t, buf, n - t)
  {
    var t := Chunk(o, n);
    var rest := Laid(o + t, buf, n - t);
    assert Laid(o, buf, n) == buf[..t] + rest;
    assert (buf[..t] + rest)[..t] == buf[..t] && (buf[..t] + rest)[t..] == rest;
  }

  lemma LaidNothing(o: nat, buf: seq<bv8>)
    ensures Laid(o, buf, 0) == []
  {}

  lemma LoopDone(s: Fs, fd: int, x: Inode, buf: seq<bv8>, count: nat)
    requires 0 <= fd < |s.fds|
    ensures WriteLoop(s, fd, x, buf, 0, count) == Stopped(s, x, count)
  {}

  /** One round of the loop that copies. */
  lemma LoopCopies(s: Fs, fd: int, x: Inode, buf: seq<bv8>, n: nat, count: nat)
    requires 0 <= fd < |s.fds| && 0 < n <= |buf| && (x.capacity - s.fds[fd].offset) % TWO32 >= n
    ensures var t := Chunk(s.fds[fd].offset, n);
      WriteLoop(s, fd, x, buf, n, count) ==
      if OffsetToPointer(s.disk, x, s.fds[fd].offset) == WrongSeg then Crash
      else
        var next := PutData(s, fd, Target(s.disk, x, s.fds[fd].offset), buf[..t]);
        WriteLoop(next, fd, x.(size := x.size + t), buf, n - t, count + t)
  {
    hide AllocBlock, OffsetToPointer, PutBlock, Splice, BytesAt;
  }

  /** One round of the loop that allocates. */
  lemma LoopAllocates(s: Fs, fd: int, x: Inode, buf: seq<bv8>, n: nat, count: nat)
    requires 0 <= fd < |s.fds| && 0 < n <= |buf| && (x.capacity - s.fds[fd].offset) % TWO32 < n
    ensures AllocBlock(s).0.fds == s.fds
    ensures var (t, b) := AllocBlock(s);
      WriteLoop(s, fd, x, buf, n, count) ==
      if b == -1 then Stopped(t, x, count)
      else if x.capacity / 512 >= SLOT_NUM then Crash
      else WriteLoop(t, fd, AddBlock(x, PtrOf(b)), buf, n, count)
  {
    hide AllocBlock, PutData, OffsetToPointer;
    AllocKeepsFds(s);
  }

  lemma LessLeft(a: int, t: nat)
    requires a % TWO32 >= t
    ensures (a - t) % TWO32 == a % TWO32 - t
  {
    assert a == a / TWO32 * TWO32 + a % TWO32;
    assert a - t == a / TWO32 * TWO32 + (a % TWO32 - t);
  }

  lemma AllocKeepsFds(s: Fs)
    ensures AllocBlock(s).0.fds == s.fds
  {
    SlideKeeps(s);
  }

  lemma {:induction false} ReserveKeepsFds(s: Fs, x: Inode, need: nat)
    requires need <= SLOT_NUM * SECTOR_SIZE
    ensures Reserve(s, x, need).0.fds == s.fds && x.capacity <= Reserve(s, x, need).1.capacity
    ensures Reserve(s, x, need).2 ==> need <= Reserve(s, x, need).1.capacity
    decreases need - x.capacity
  {
    hide AllocBlock;
    if x.capacity < need {
      AllocKeepsFds(s);
      var (t, b) := AllocBlock(s);
      if b != -1 { ReserveKeepsFds(t, AddBlock(x, PtrOf(b)), need); }
    }
  }

  /** The loop of fwrite, from within the allocated size and within the thirteen pointers, is a reservation of all it
      needs followed, if that succeeds, by a copy of everything. */
  lemma {:induction false} LoopReservesThenCopies(s: Fs, fd: int, x: Inode, buf: seq<bv8>, count: nat)
    requires 0 <= fd < |s.fds| && s.fds[fd].offset <= x.capacity <= SLOT_NUM * SECTOR_SIZE
    requires x.capacity % 512 == 0 && s.fds[fd].offset + |buf| <= SLOT_NUM * SECTOR_SIZE
    ensures var o := s.fds[fd].offset;
      var (t, y, ok) := Reserve(s, x, o + |buf|);
      && t.fds == s.fds && x.capacity <= y.capacity && (ok ==> o + |buf| <= y.capacity)
      && WriteLoop(s, fd, x, buf, |buf|, count) ==
         if ok then Stopped(Copy(t, fd, y, Laid(o, buf, |buf|)).0, Copy(t, fd, y, Laid(o, buf, |buf|)).1, count + |buf|)
         else Stopped(t, y, count)
    decreases SLOT_NUM * SECTOR_SIZE - x.capacity
  {
    hide AllocBlock, WriteChunk, OffsetToPointer, PutData;
    var o := s.fds[fd].offset;
    ReserveKeepsFds(s, x, o + |buf|);
    assert (x.capacity - o) % TWO32 == x.capacity - o;
    if x.capacity >= o + |buf| {
      FittingLoopCopies(s, fd, x, buf, |buf|, count);
    } else {
      LoopAllocates(s, fd, x, buf, |buf|, count);
      var (t, b) := AllocBlock(s);
      if b != -1 {
        SlotCount(x.capacity);
        LoopReservesThenCopies(t, fd, AddBlock(x, PtrOf(b)), buf, count);
      }
    }
  }

  // ---------------------------------------------------------------- the invariant while the inode is not yet written

  function With(s: Fs, ino: int, x: Inode): Fs {
    s.(disk := PutInode(s.disk, ino, x))
  }

  /** The file system is sound if the inode in hand is taken for the one on disk. */
  ghost predicate Pending(s: Fs, ino: int, x: Inode) {
    Sound(With(s, ino, x)) && FileInode(With(s, ino, x).disk, ino) && 0 <= ino < INODE_ITEM_NUM
  }

  lemma WithEffect(s: Fs, ino: int, x: Inode)
    requires 0 <= ino < INODE_ITEM_NUM
    ensures var d := With(s, ino, x).disk;
      && (forall i :: InodeAt(d, i) == if i == ino then x else InodeAt(s.disk, i))
      && (forall q :: BlockAt(d, q) == BlockAt(s.disk, q))
      && (forall i :: Live(d, i) == Live(s.disk, i)) && (forall b :: Used(d, b) == Used(s.disk, b))
      && d.super == s.disk.super && d.ibits == s.disk.ibits && d.dbits == s.disk.dbits && d.blocks == s.disk.blocks
  {
    hide PutInode;
    PutInodeEffect(s.disk, ino, x);
    SameBlocks(s.disk, With(s, ino, x).disk);
    SameBits(s.disk, With(s, ino, x).disk);
  }

  lemma PendingMaps(s: Fs, ino: int, x: Inode)
    requires Pending(s, ino, x)
    ensures MapsCached(s)
  {
    hide InodeAt, BlockAt, Live, Used, PutInode, Tree, Ownership, Counted;
    WithEffect(s, ino, x);
  }

  /** The state after a change of the file is sound again. */
  lemma RewrittenKeepsSound(s: Fs, t: Fs, ino: int, x: Inode, grows: bool, b: int, p: int)
    requires Sound(s) && Rewritten(s.disk, t.disk, ino, x, grows, b, p)
    requires forall i :: DirInode(s.disk, i) ==> DirPtr(s.disk, i) != p
    requires MapsCached(t) && t.here == s.here && t.dir == s.dir && t.disk.blocks.rest == s.disk.blocks.rest
    requires t.super == s.super.(dataUsed := s.super.dataUsed + if grows then 1 else 0)
    ensures Sound(t)
  {
    hide InodeAt, BlockAt, Live, Used, Tree, Ownership, IsBlock, PtrOf, BlockOf;
    var h :| IsHere(s, h);
    RewrittenKeepsOwnership(s.disk, t.disk, ino, x, grows, b, p);
    RewrittenKeepsTree(s.disk, t.disk, ino, x, grows, b, p);
    SameCount(s.disk, t.disk);
    if grows { CountBlocks(s.disk, t.disk, b, true); } else { SameBlockCount(s.disk, t.disk); }
    assert IsHere(t, h);
  }

  lemma PendingCapacity(s: Fs, ino: int, x: Inode)
    requires Pending(s, ino, x)
    ensures x.kind == FILE_NORMAL && x.capacity % 512 == 0 && x.capacity <= SLOT_NUM * SECTOR_SIZE
  {
    hide BlockAt, Live, Used, Tree, InodeAt, PutInode;
    WithEffect(s, ino, x);
    assert InodeOk(With(s, ino, x).disk, ino);
  }

  lemma DirsAreBlocks(d: Disk, i: int)
    requires Ownership(d) && DirInode(d, i)
    ensures DirPtr(d, i) != 0
  {
    DirPtrIsBlock(d, i);
  }

  /** One block more. */
  lemma ReserveStep(s: Fs, ino: int, x: Inode)
    requires Pending(s, ino, x)
    ensures var (t, b) := AllocBlock(s);
      && (b == -1 ==> Pending(t, ino, x) && t.disk == s.disk && FreeAbove(s) == {} && FreeAbove(t) == {})
      && (b != -1 && 0 <= x.capacity < SLOT_NUM * SECTOR_SIZE ==> Pending(t, ino, AddBlock(x, PtrOf(b))))
      && (b != -1 ==> b in FreeAbove(s) && FreeAbove(t) == FreeAbove(s) - {b} && !Used(s.disk, b))
      && t.here == s.here && t.dir == s.dir && t.fds == s.fds && t.fdList == s.fdList
      && t.disk.inodes == s.disk.inodes && t.disk.blocks == s.disk.blocks && t.disk.ibits == s.disk.ibits
  {
    hide InodeAt, BlockAt, Live, Used, Tree, Ownership, Counted, IsBlock, PtrOf, BlockOf, PutInode, AllocBlock, BitAt;
    PendingMaps(s, ino, x);
    AllocBlockEffect(s);
    PendingCapacity(s, ino, x);
    var (t, b) := AllocBlock(s);
    var s0 := With(s, ino, x);
    WithEffect(s, ino, x);
    SameBlocks(s.disk, t.disk);
    SameBits(s.disk, t.disk);
    SameInodes(s.disk, t.disk);
    forall i | DirInode(s0.disk, i) ensures DirPtr(s0.disk, i) != 0 { DirsAreBlocks(s0.disk, i); }
    if b == -1 {
      var t0 := With(t, ino, x);
      WithEffect(t, ino, x);
      assert Rewritten(s0.disk, t0.disk, ino, x, false, 0, 0);
      RewrittenKeepsSound(s0, t0, ino, x, false, 0, 0);
    } else if x.capacity < SLOT_NUM * SECTOR_SIZE {
      var y := AddBlock(x, PtrOf(b));
      var t0 := With(t, ino, y);
      WithEffect(t, ino, y);
      assert Rewritten(s0.disk, t0.disk, ino, y, true, b, 0);
      RewrittenKeepsSound(s0, t0, ino, y, true, b, 0);
    }
  }

  /** How many blocks are missing for `need` bytes. */
  function Missing(x: Inode, need: int): int {
    if need <= x.capacity then 0 else (need - x.capacity + 511) / 512
  }

  /** A reservation succeeds exactly when at least as many blocks are clear at or above the window as are missing;
      whether it does or not, the file keeps its bytes and nothing else changes. */
  lemma {:induction false} ReserveEffect(s: Fs, ino: int, x: Inode, need: nat)
    requires Pending(s, ino, x) && need <= SLOT_NUM * SECTOR_SIZE
    ensures var (t, y, ok) := Reserve(s, x, need);
      && Pending(t, ino, y) && (ok <==> Missing(x, need) <= |FreeAbove(s)|)
      && (ok ==> |FreeAbove(t)| == |FreeAbove(s)| - Missing(x, need))
      && (!ok ==> FreeAbove(t) == {})
      && y == x.(pointers := y.pointers, capacity := y.capacity)
      && y.capacity == x.capacity + 512 * (if ok then Missing(x, need) else |FreeAbove(s)|)
      && (forall k :: 0 <= k < x.capacity / 512 && k < SLOT_NUM ==> y.pointers[k] == x.pointers[k])
      && t.here == s.here && t.dir == s.dir && t.fds == s.fds && t.fdList == s.fdList
      && t.disk.inodes == s.disk.inodes && t.disk.blocks == s.disk.blocks && t.disk.ibits == s.disk.ibits
    decreases need - x.capacity
  {
    hide Pending, AllocBlock, FreeAbove, PtrOf;
    PendingCapacity(s, ino, x);
    if x.capacity < need {
      ReserveStep(s, ino, x);
      var (t, b) := AllocBlock(s);
      if b != -1 {
        var y := AddBlock(x, PtrOf(b));
        SlotCount(x.capacity);
        MissingLess(x, y, need);
        assert |FreeAbove(t)| == |FreeAbove(s)| - 1;
        ReserveEffect(t, ino, y, need);
      }
    }
  }

  lemma MissingLess(x: Inode, y: Inode, need: int)
    requires x.capacity < need && y.capacity == x.capacity + 512
    ensures Missing(y, need) == Missing(x, need) - 1
  {}

  // ---------------------------------------------------------------- the bytes of a file

  /** Byte i of a file, in its direct blocks. */
  function ByteAt(d: Disk, x: Inode, i: int): bv8 {
    if 0 <= i < DIRECT_NUM * SECTOR_SIZE then BytesAt(d, x.pointers[i / 512])[i % 512] else 0
  }

  lemma SpliceAt(s: SectorBytes, at: nat, buf: seq<bv8>, i: nat)
    requires at + |buf| <= 512 && i < 512
    ensures Splice(s, at, buf)[i] == if at <= i < at + |buf| then buf[i - at] else s[i]
  {}

  /** One block is spliced and the descriptor and the size move on. */
  ghost predicate Chunked(s: Fs, t: Fs, fd: int, x: Inode, y: Inode, n: nat) {
    && y == x.(size := x.size + n)
    && 0 <= fd < |s.fds|
    && t == s.(disk := s.disk.(blocks := t.disk.blocks),
               fds := s.fds[fd := s.fds[fd].(offset := s.fds[fd].offset + n, size := s.fds[fd].size + n)])
  }

  lemma SameSlot(i: int, j: int)
    requires 0 <= i <= j && i % 512 + (j - i) < 512
    ensures i / 512 == j / 512 && j % 512 == i % 512 + (j - i)
  {}

  lemma SlotBelow(o: int, c: int)
    requires 0 <= o < c && c % 512 == 0
    ensures 0 <= o / 512 < c / 512
  {}

  lemma ChunkBytes(s: Fs, fd: int, ino: int, x: Inode, buf: seq<bv8>, i: int)
    requires Pending(s, ino, x) && 0 <= fd < |s.fds| && 0 <= s.fds[fd].offset && buf != []
    requires s.fds[fd].offset + |buf| <= x.capacity && s.fds[fd].offset + |buf| <= DIRECT_NUM * SECTOR_SIZE
    requires 0 <= i < x.capacity
    ensures var (o, n) := (s.fds[fd].offset, Chunk(s.fds[fd].offset, |buf|));
      ByteAt(WriteChunk(s, fd, x, buf).0.disk, x, i) == if o <= i < o + n then buf[i - o] else ByteAt(s.disk, x, i)
  {
    hide InodeAt, Live, Used, Tree, Counted, PutInode, PutBlock, Splice, IsBlock, PtrOf, BlockOf, BytesAt, BitAt;
    var o := s.fds[fd].offset;
    var n := Chunk(o, |buf|);
    var p := x.pointers[o / 512];
    var d := With(s, ino, x).disk;
    DirectTarget(s.disk, x, o);
    WithEffect(s, ino, x);
    PendingCapacity(s, ino, x);
    SlotBelow(o, x.capacity);
    SlotBelow(i, x.capacity);
    assert OwnerOk(d, ino, o / 512) && OnlyOwner(d, ino, o / 512, ino, i / 512);
    assert Holds(d, ino, o / 512) && Holds(d, ino, i / 512);
    PutBytes(s.disk, p, Splice(BytesAt(s.disk, p), o % 512, buf[..n]));
    SpliceAt(BytesAt(s.disk, p), o % 512, buf[..n], i % 512);
    if o <= i < o + n { SameSlot(o, i); }
    if i / 512 == o / 512 { assert i - o == i % 512 - o % 512; }
  }

  lemma PutBytes(d: Disk, p: int, bytes: SectorBytes)
    ensures forall q :: BytesAt(PutBlock(d, p, Bytes(bytes)), q) == if q == p then bytes else BytesAt(d, q)
  {
    hide BlockAt, PutBlock;
    PutBlockEffect(d, p, Bytes(bytes));
  }

  lemma ChunkStep(s: Fs, fd: int, ino: int, x: Inode, buf: seq<bv8>)
    requires Pending(s, ino, x) && 0 <= fd < |s.fds| && 0 <= s.fds[fd].offset && buf != []
    requires s.fds[fd].offset + |buf| <= x.capacity && s.fds[fd].offset + |buf| <= DIRECT_NUM * SECTOR_SIZE
    ensures var (t, y, rest) := WriteChunk(s, fd, x, buf);
      var n := Chunk(s.fds[fd].offset, |buf|);
      && Pending(t, ino, y) && Chunked(s, t, fd, x, y, n) && rest == buf[n..]
      && forall q :: q != x.pointers[s.fds[fd].offset / 512] ==> BlockAt(t.disk, q) == BlockAt(s.disk, q)
  {
    hide InodeAt, BlockAt, Live, Used, Tree, Counted, PutInode, PutBlock, Splice, IsBlock, PtrOf, BlockOf, BytesAt,
      BitAt;
    var o := s.fds[fd].offset;
    var p := x.pointers[o / 512];
    DirectTarget(s.disk, x, o);
    var (t, y, rest) := WriteChunk(s, fd, x, buf);
    var s0, t0 := With(s, ino, x), With(t, ino, y);
    WithEffect(s, ino, x);
    WithEffect(t, ino, y);
    PendingCapacity(s, ino, x);
    SlotBelow(o, x.capacity);
    assert OwnerOk(s0.disk, ino, o / 512);
    assert Holds(s0.disk, ino, o / 512);
    PutBlockEffect(s.disk, p, Bytes(Splice(BytesAt(s.disk, p), o % 512, buf[..Chunk(o, |buf|)])));
    SameInodes(s.disk, t.disk);
    SameBits(s.disk, t.disk);
    FileBlockIsNoDir(s0.disk, ino, o / 512);
    HereIsNoFile(s0, p);
    RewrittenKeepsSound(s0, t0, ino, y, false, 0, p);
  }

  lemma HereIsNoFile(s: Fs, p: int)
    requires Sound(s) && forall i :: DirInode(s.disk, i) ==> DirPtr(s.disk, i) != p
    ensures s.here != p
  {
    var h :| IsHere(s, h);
  }

  /** The copy puts the buffer at the offset, leaves every other byte the file has, and writes no
      block that is not the file's. */
  lemma {:induction false} CopyEffect(s: Fs, fd: int, ino: int, x: Inode, buf: seq<bv8>)
    requires Pending(s, ino, x) && 0 <= fd < |s.fds|
    requires s.fds[fd].offset + |buf| <= x.capacity && s.fds[fd].offset + |buf| <= DIRECT_NUM * SECTOR_SIZE
    ensures var (t, y) := Copy(s, fd, x, buf);
      && Pending(t, ino, y) && Chunked(s, t, fd, x, y, |buf|)
      && (forall i :: 0 <= i < x.capacity ==>
            ByteAt(t.disk, y, i) == if s.fds[fd].offset <= i < s.fds[fd].offset + |buf| then buf[i - s.fds[fd].offset]
                                    else ByteAt(s.disk, x, i))
      && forall q :: (forall k :: 0 <= k < x.capacity / 512 && k < DIRECT_NUM ==> x.pointers[k] != q) ==>
           BlockAt(t.disk, q) == BlockAt(s.disk, q)
    decreases |buf|
  {
    hide Pending, WriteChunk, BlockAt, BytesAt;
    if buf != [] {
      var (t, y, rest) := WriteChunk(s, fd, x, buf);
      var o, n := s.fds[fd].offset, Chunk(s.fds[fd].offset, |buf|);
      ChunkStep(s, fd, ino, x, buf);
      CopyEffect(t, fd, ino, y, rest);
      SameBytes(t.disk, x, y);
      PendingCapacity(s, ino, x);
      SlotBelow(o, x.capacity);
      var (u, z) := Copy(t, fd, y, rest);
      SameBytes(u.disk, y, z);
      forall i | 0 <= i < x.capacity ensures
          ByteAt(u.disk, z, i) == if o <= i < o + |buf| then buf[i - o] else ByteAt(s.disk, x, i) {
        ChunkBytes(s, fd, ino, x, buf, i);
      }
    }
  }

  lemma SameBytes(d: Disk, x: Inode, y: Inode)
    requires x.pointers == y.pointers
    ensures forall i :: ByteAt(d, x, i) == ByteAt(d, y, i)
  {}

  // ---------------------------------------------------------------- fwrite

  lemma WithItself(s: Fs, ino: int)
    requires 0 <= ino < INODE_ITEM_NUM
    ensures With(s, ino, InodeAt(s.disk, ino)) == s
  {
    var g, r := ino / INODES_PER_SECTOR, ino % INODES_PER_SECTOR;
    assert s.disk.inodes[g][r := s.disk.inodes[g][r]] == s.disk.inodes[g];
    assert s.disk.inodes[g := s.disk.inodes[g]] == s.disk.inodes;
  }

  /** Every other inode and every block it owns is as it was. */
  ghost predicate OthersUntouched(d: Disk, e: Disk, ino: int) {
    && (forall i :: Live(e, i) == Live(d, i))
    && (forall i :: i != ino ==> InodeAt(e, i) == InodeAt(d, i))
    && forall i, k :: i != ino && Holds(d, i, k) ==> BlockAt(e, PtrAt(d, i, k)) == BlockAt(d, PtrAt(d, i, k))
  }

  lemma OthersKeepBlocks(d: Disk, e: Disk, ino: int, y: Inode)
    requires Ownership(e) && FileInode(e, ino) && InodeAt(e, ino) == y
    requires forall i :: Live(e, i) == Live(d, i)
    requires forall i :: i != ino ==> InodeAt(e, i) == InodeAt(d, i)
    requires forall q :: (forall k :: 0 <= k < y.capacity / 512 && k < DIRECT_NUM ==> y.pointers[k] != q) ==>
      BlockAt(e, q) == BlockAt(d, q)
    ensures OthersUntouched(d, e, ino)
  {
    hide Live, Used, InodeAt, BlockAt, IsBlock, PtrOf, BlockOf;
    forall i, k | i != ino && Holds(d, i, k) ensures BlockAt(e, PtrAt(d, i, k)) == BlockAt(d, PtrAt(d, i, k)) {
      assert Holds(e, i, k);
      forall l | 0 <= l < y.capacity / 512 && l < DIRECT_NUM ensures y.pointers[l] != PtrAt(d, i, k) {
        assert Holds(e, ino, l) && OnlyOwner(e, i, k, ino, l);
      }
    }
  }

  /** What fwrite leaves: the file with inode x before and y after. */
  ghost predicate WroteAll(s: Fs, t: Fs, fd: int, x: Inode, y: Inode, buf: seq<bv8>) {
    var o := FdAt(s, fd).offset;
    && y == x.(size := x.size + |buf|, capacity := y.capacity, pointers := y.pointers)
    && o + |buf| <= y.capacity && x.capacity <= y.capacity
    && t.fds == SetFd(s, fd, FdAt(s, fd).(offset := o + |buf|, size := FdAt(s, fd).size + |buf|)).fds
    && (forall i :: o <= i < o + |buf| ==> ByteAt(t.disk, y, i) == buf[i - o])
    && (forall i :: 0 <= i < x.capacity && !(o <= i < o + |buf|) ==> ByteAt(t.disk, y, i) == ByteAt(s.disk, x, i))
  }

  ghost predicate WroteNothing(s: Fs, t: Fs, x: Inode, y: Inode) {
    && y == x.(capacity := y.capacity, pointers := y.pointers) && x.capacity <= y.capacity && t.fds == s.fds
    && (forall i :: 0 <= i < x.capacity ==> ByteAt(t.disk, y, i) == ByteAt(s.disk, x, i))
  }

  /** A write that stays within the direct blocks of a file. */
  predicate CanWrite(s: Fs, fd: int, buf: seq<bv8>) {
    MayWrite(s, fd) && FileInode(s.disk, s.fds[fd].ino) && InDirect(s.fds[fd], InodeAt(s.disk, s.fds[fd].ino), |buf|)
  }

  lemma ReservedBytes(d: Disk, x: Inode, y: Inode)
    requires forall k :: 0 <= k < x.capacity / 512 && k < SLOT_NUM ==> y.pointers[k] == x.pointers[k]
    requires x.capacity % 512 == 0 && 0 <= x.capacity <= SLOT_NUM * SECTOR_SIZE
    ensures forall i :: 0 <= i < x.capacity ==> ByteAt(d, y, i) == ByteAt(d, x, i)
  {
    hide BytesAt;
    forall i | 0 <= i < x.capacity ensures ByteAt(d, y, i) == ByteAt(d, x, i) { SlotBelow(i, x.capacity); }
  }

  /** fwrite writes as many bytes as asked or nothing: all exactly when enough blocks are clear at or above the window.
      The bytes outside the range written, every other inode and every block of every other file stay. */
  lemma WriteIsAllOrNothing(s: Fs, fd: int, buf: seq<bv8>)
    requires Sound(s) && CanWrite(s, fd, buf)
    ensures Write(s, fd, buf).Wrote?
    ensures var (t, n) := (Write(s, fd, buf).s, Write(s, fd, buf).count);
      var (ino, o) := (s.fds[fd].ino, s.fds[fd].offset);
      var (x, y) := (InodeAt(s.disk, ino), InodeAt(t.disk, ino));
      && Sound(t) && FileInode(t.disk, ino) && OthersUntouched(s.disk, t.disk, ino) && t.here == s.here
      && NoEntryAdded(s.disk, t.disk)
      && t.fdList == s.fdList
      && (if Missing(x, o + |buf|) <= |FreeAbove(s)|
          then n == |buf| && WroteAll(s, t, fd, x, y, Laid(o, buf, |buf|)) else n == 0 && WroteNothing(s, t, x, y))
  {
    hide Live, InodeAt, Sound, Reserve, Copy, Write, FreeAbove, Laid, Missing, With, Pending, OthersUntouched, WroteAll,
      WroteNothing, Reserved, NoEntryAdded, InDirect;
    var ino, o := s.fds[fd].ino, s.fds[fd].offset;
    var x := InodeAt(s.disk, ino);
    DirectOffset(s, fd, buf);
    FilePending(s, ino);
    PendingCapacity(s, ino, x);
    WriteSteps(s, fd, x, buf);
    ReserveKeepsFds(s, x, o + |buf|);
    ReserveEffect(s, ino, x, o + |buf|);
    var (s1, x1, ok) := Reserve(s, x, o + |buf|);
    ReservedIs(s, s1, ino, x, x1);
    if ok {
      ReservedThenCopied(s, s1, fd, ino, x, x1, Laid(o, buf, |buf|));
    } else {
      ReservedThenStopped(s, s1, ino, x, x1);
    }
  }

  lemma {:induction false} CopyKeepsCapacity(s: Fs, fd: int, x: Inode, data: seq<bv8>)
    ensures Copy(s, fd, x, data).1.capacity == x.capacity
    decreases |data|
  {
    hide PutData, Target;
    if data != [] {
      var (t, y, rest) := WriteChunk(s, fd, x, data);
      CopyKeepsCapacity(t, fd, y, rest);
    }
  }

  /** The file gets the blocks it misses; if there are too few, it gets those there are all the same. */
  lemma WriteTakesBlocks(s: Fs, fd: int, buf: seq<bv8>)
    requires Sound(s) && CanWrite(s, fd, buf) && Write(s, fd, buf).Wrote?
    ensures var ino := s.fds[fd].ino;
      var x := InodeAt(s.disk, ino);
      InodeAt(Write(s, fd, buf).s.disk, ino).capacity ==
      x.capacity + 512 * Min(Missing(x, s.fds[fd].offset + |buf|), |FreeAbove(s)|)
  {
    hide Live, InodeAt, Sound, Reserve, Copy, Write, FreeAbove, Laid, Missing, With, Pending, OthersUntouched, WroteAll,
      WroteNothing, Reserved, NoEntryAdded, InDirect;
    var ino, o := s.fds[fd].ino, s.fds[fd].offset;
    var x := InodeAt(s.disk, ino);
    DirectOffset(s, fd, buf);
    FilePending(s, ino);
    PendingCapacity(s, ino, x);
    WriteSteps(s, fd, x, buf);
    ReserveKeepsFds(s, x, o + |buf|);
    ReserveEffect(s, ino, x, o + |buf|);
    var (s1, x1, ok) := Reserve(s, x, o + |buf|);
    ReservedIs(s, s1, ino, x, x1);
    if ok {
      ReservedThenCopied(s, s1, fd, ino, x, x1, Laid(o, buf, |buf|));
      CopyKeepsCapacity(s1, fd, x1, Laid(o, buf, |buf|));
    } else {
      ReservedThenStopped(s, s1, ino, x, x1);
    }
  }

  lemma DirectOffset(s: Fs, fd: int, buf: seq<bv8>)
    requires CanWrite(s, fd, buf)
    ensures 0 <= fd < |s.fds| && FileInode(s.disk, s.fds[fd].ino)
    ensures s.fds[fd].offset + |buf| <= DIRECT_NUM * SECTOR_SIZE
    ensures s.fds[fd].offset <= InodeAt(s.disk, s.fds[fd].ino).capacity
  {
    hide InodeAt, Live;
  }

  /** What a reservation leaves: x1 may have more blocks than x, and nothing else has changed. */
  ghost predicate Reserved(s: Fs, t: Fs, ino: int, x: Inode, y: Inode) {
    && Pending(t, ino, y) && y == x.(pointers := y.pointers, capacity := y.capacity) && x.capacity <= y.capacity
    && (forall k :: 0 <= k < x.capacity / 512 && k < SLOT_NUM ==> y.pointers[k] == x.pointers[k])
    && x.capacity % 512 == 0 && x.capacity <= SLOT_NUM * SECTOR_SIZE
    && t.here == s.here && t.dir == s.dir && t.fds == s.fds && t.fdList == s.fdList
    && t.disk.inodes == s.disk.inodes && t.disk.blocks == s.disk.blocks && t.disk.ibits == s.disk.ibits
    && FileInode(s.disk, ino)
  }

  lemma ReservedIs(s: Fs, t: Fs, ino: int, x: Inode, y: Inode)
    requires Pending(t, ino, y) && y == x.(pointers := y.pointers, capacity := y.capacity) && x.capacity <= y.capacity
    requires forall k :: 0 <= k < x.capacity / 512 && k < SLOT_NUM ==> y.pointers[k] == x.pointers[k]
    requires x.capacity % 512 == 0 && x.capacity <= SLOT_NUM * SECTOR_SIZE && FileInode(s.disk, ino)
    requires t.here == s.here && t.dir == s.dir && t.fds == s.fds && t.fdList == s.fdList
    requires t.disk.inodes == s.disk.inodes && t.disk.blocks == s.disk.blocks && t.disk.ibits == s.disk.ibits
    ensures Reserved(s, t, ino, x, y)
  {}

  lemma CopiedFrame(s: Fs, s1: Fs, fd: int, ino: int, x: Inode, x1: Inode, data: seq<bv8>)
    requires Reserved(s, s1, ino, x, x1) && 0 <= fd < |s.fds| && s.fds[fd].offset + |data| <= DIRECT_NUM * SECTOR_SIZE
    requires s.fds[fd].offset + |data| <= x1.capacity
    ensures var (s2, x2) := Copy(s1, fd, x1, data);
      var t := With(s2, ino, x2);
      && Sound(t) && FileInode(t.disk, ino) && OthersUntouched(s.disk, t.disk, ino) && t.here == s.here
      && NoEntryAdded(s.disk, t.disk) && t.fdList == s.fdList && InodeAt(t.disk, ino) == x2
  {
    hide Live, Used, InodeAt, BlockAt, Sound, Copy, ByteAt, PutInode, Pending, NoEntryAdded, OthersUntouched;
    SameBlocks(s.disk, s1.disk);
    CopyEffect(s1, fd, ino, x1, data);
    var (s2, x2) := Copy(s1, fd, x1, data);
    Finish(s, s2, ino, x1, x2);
    FilesHoldNoEntries(s.disk, With(s2, ino, x2).disk, ino);
  }

  lemma CopiedBytes(s: Fs, s1: Fs, fd: int, ino: int, x: Inode, x1: Inode, data: seq<bv8>)
    requires Reserved(s, s1, ino, x, x1) && 0 <= fd < |s.fds| && s.fds[fd].offset + |data| <= DIRECT_NUM * SECTOR_SIZE
    requires s.fds[fd].offset + |data| <= x1.capacity
    ensures var (s2, x2) := Copy(s1, fd, x1, data); WroteAll(s, With(s2, ino, x2), fd, x, x2, data)
  {
    hide Live, Used, InodeAt, BlockAt, Sound, Copy, ByteAt, PutInode, Pending;
    PendingCapacity(s1, ino, x1);
    ReservedBytes(s.disk, x, x1);
    SameBlockBytes(s.disk, s1.disk);
    CopyEffect(s1, fd, ino, x1, data);
    var (s2, x2) := Copy(s1, fd, x1, data);
    WithBlocks(s2, ino, x2);
    SameBlockBytes(s2.disk, With(s2, ino, x2).disk);
  }

  lemma ReservedThenCopied(s: Fs, s1: Fs, fd: int, ino: int, x: Inode, x1: Inode, data: seq<bv8>)
    requires Reserved(s, s1, ino, x, x1) && 0 <= fd < |s.fds| && s.fds[fd].offset + |data| <= DIRECT_NUM * SECTOR_SIZE
    requires s.fds[fd].offset + |data| <= x1.capacity
    ensures var (s2, x2) := Copy(s1, fd, x1, data);
      var t := With(s2, ino, x2);
      && Sound(t) && FileInode(t.disk, ino) && OthersUntouched(s.disk, t.disk, ino) && t.here == s.here
      && NoEntryAdded(s.disk, t.disk) && t.fdList == s.fdList && InodeAt(t.disk, ino) == x2
      && WroteAll(s, t, fd, x, x2, data)
  {
    hide InodeAt, Live, Sound, Copy, Reserved, NoEntryAdded, OthersUntouched, WroteAll, With;
    CopiedFrame(s, s1, fd, ino, x, x1, data);
    CopiedBytes(s, s1, fd, ino, x, x1, data);
  }

  lemma WithBlocks(s: Fs, ino: int, x: Inode)
    ensures With(s, ino, x).disk.blocks == s.disk.blocks
  {}

  lemma ReservedThenStopped(s: Fs, s1: Fs, ino: int, x: Inode, x1: Inode)
    requires Reserved(s, s1, ino, x, x1)
    ensures var t := With(s1, ino, x1);
      && Sound(t) && FileInode(t.disk, ino) && OthersUntouched(s.disk, t.disk, ino) && t.here == s.here
      && NoEntryAdded(s.disk, t.disk) && t.fdList == s.fdList && InodeAt(t.disk, ino) == x1
      && WroteNothing(s, t, x, x1)
  {
    hide Live, Used, InodeAt, BlockAt, BytesAt, Sound, ByteAt, PutInode, Pending;
    PendingCapacity(s1, ino, x1);
    SameInodes(s.disk, s1.disk);
    SameBlocks(s.disk, s1.disk);
    SameBits(s.disk, s1.disk);
    ReservedBytes(s.disk, x, x1);
    SameBlockBytes(s.disk, s1.disk);
    Finish(s, s1, ino, x1, x1);
    WithBlocks(s1, ino, x1);
    SameBlockBytes(s1.disk, With(s1, ino, x1).disk);
    FilesHoldNoEntries(s.disk, With(s1, ino, x1).disk, ino);
  }

  lemma FilePending(s: Fs, ino: int)
    requires Sound(s) && FileInode(s.disk, ino)
    ensures Pending(s, ino, InodeAt(s.disk, ino)) && 0 <= ino < INODE_ITEM_NUM
  {
    hide Live, InodeAt, Sound;
    FileRange(s, ino);
    WithItself(s, ino);
  }

  /** fwrite as a reservation, a copy and the inode's return to the card. */
  lemma WriteSteps(s: Fs, fd: int, x: Inode, buf: seq<bv8>)
    requires MayWrite(s, fd) && x == InodeAt(s.disk, s.fds[fd].ino) && x.capacity <= SLOT_NUM * SECTOR_SIZE
    requires x.capacity % 512 == 0 && s.fds[fd].offset <= x.capacity
    requires s.fds[fd].offset + |buf| <= DIRECT_NUM * SECTOR_SIZE
    ensures var (ino, o) := (s.fds[fd].ino, s.fds[fd].offset);
      var (t, y, ok) := Reserve(s, x, o + |buf|);
      && t.fds == s.fds && (ok ==> o + |buf| <= y.capacity)
      && Write(s, fd, buf) ==
         if ok
         then Wrote(With(Copy(t, fd, y, Laid(o, buf, |buf|)).0, ino, Copy(t, fd, y, Laid(o, buf, |buf|)).1), |buf|)
         else Wrote(With(t, ino, y), 0)
  {
    hide Reserve, Copy, Laid, WriteLoop, InodeAt, PutInode;
    LoopReservesThenCopies(s, fd, x, buf, 0);
  }

  /** Directories are among what a write leaves alone. */
  lemma FilesHoldNoEntries(d: Disk, e: Disk, ino: int)
    ensures OthersUntouched(d, e, ino) && FileInode(d, ino) && FileInode(e, ino) ==> NoEntryAdded(d, e)
  {
    hide Live, InodeAt, BlockAt;
    if OthersUntouched(d, e, ino) && FileInode(d, ino) && FileInode(e, ino) {
      forall i, m, c | Entry(e, i, m, c) ensures Entry(d, i, m, c) { assert Holds(d, i, 0); }
    }
  }

  lemma SameBlockBytes(d: Disk, e: Disk)
    requires d.blocks == e.blocks
    ensures forall x, i :: ByteAt(e, x, i) == ByteAt(d, x, i)
  {
    SameBlocks(d, e);
    hide BlockAt;
  }

  lemma FileRange(s: Fs, ino: int)
    requires Sound(s) && FileInode(s.disk, ino)
    ensures 0 <= ino < INODE_ITEM_NUM
  {
    assert InodeOk(s.disk, ino);
  }

  /** The inode in hand is written. */
  lemma Finish(s: Fs, t: Fs, ino: int, x: Inode, y: Inode)
    requires Pending(t, ino, y) && x.pointers == y.pointers && x.capacity == y.capacity
    requires t.disk.inodes == s.disk.inodes && t.disk.ibits == s.disk.ibits
    requires forall q :: (forall k :: 0 <= k < x.capacity / 512 && k < DIRECT_NUM ==> x.pointers[k] != q) ==>
      BlockAt(t.disk, q) == BlockAt(s.disk, q)
    ensures var u := With(t, ino, y);
      Sound(u) && FileInode(u.disk, ino) && InodeAt(u.disk, ino) == y && OthersUntouched(s.disk, u.disk, ino)
  {
    hide Live, Used, InodeAt, BlockAt, Tree, Counted, PutInode, BitAt;
    WithEffect(t, ino, y);
    SameInodes(s.disk, t.disk);
    SameBits(s.disk, t.disk);
    OthersKeepBlocks(s.disk, With(t, ino, y).disk, ino, y);
  }
}
