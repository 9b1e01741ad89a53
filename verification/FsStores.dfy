/** fwrite through any descriptor, at any offset and of any length: what it takes, which sectors it fills, and exactly
    when the file system stays sound, the bytes read back, and the other files keep theirs. */
module FsStores {
  import opened Bitmap
  import opened Fs
  import opened FsRuns
  import opened FsTree
  import opened FsCalls
  import opened FsReads
  import opened FsWrites

  // ---------------------------------------------------------------- blocks first, then bytes

  /** What fwrite has before its first copy: all the blocks it needs, or not all because there are no more, or more than
      the inode has pointers for. */
  datatype Prepared = Ready(s: Fs, x: Inode) | Short(s: Fs, x: Inode) | Full

  /** Blocks are added until n bytes at offset o fit, in unsigned arithmetic. */
  function Prepare(s: Fs, x: Inode, o: nat, n: nat): Prepared
    decreases Headroom(x)
  {
    if n == 0 || (x.capacity - o) % TWO32 >= n then Ready(s, x) else
    var (t, b) := AllocBlock(s);
    if b == -1 then Short(t, x)
    else if x.capacity / 512 >= SLOT_NUM then Full
    else Prepare(t, AddBlock(x, PtrOf(b)), o, n)
  }

  lemma {:induction false} LoopPrepares(s: Fs, fd: int, x: Inode, buf: seq<bv8>)
    requires 0 <= fd < |s.fds|
    ensures var o := s.fds[fd].offset;
      match Prepare(s, x, o, |buf|)
      case Full => WriteLoop(s, fd, x, buf, |buf|, 0) == Crash
      case Short(t, y) => t.fds == s.fds && WriteLoop(s, fd, x, buf, |buf|, 0) == Stopped(t, y, 0)
      case Ready(t, y) =>
        && t.fds == s.fds
        && WriteLoop(s, fd, x, buf, |buf|, 0) ==
           if buf != [] && o + |buf| > BLOCK_LIMIT * 512 then Crash
           else Stopped(Copy(t, fd, y, Laid(o, buf, |buf|)).0, Copy(t, fd, y, Laid(o, buf, |buf|)).1, |buf|)
    decreases Headroom(x)
  {
    hide AllocBlock, WriteLoop, Copy, Laid;
    var o := s.fds[fd].offset;
    if buf == [] {
      NothingToCopy(s, fd, x);
    } else if (x.capacity - o) % TWO32 >= |buf| {
      FittingLoopCopies(s, fd, x, buf, |buf|, 0);
    } else {
      LoopAllocates(s, fd, x, buf, |buf|, 0);
      var (t, b) := AllocBlock(s);
      if b != -1 && x.capacity / 512 < SLOT_NUM {
        LoopPrepares(t, fd, AddBlock(x, PtrOf(b)), buf);
      }
    }
  }

  lemma NothingToCopy(s: Fs, fd: int, x: Inode)
    requires 0 <= fd < |s.fds|
    ensures WriteLoop(s, fd, x, [], 0, 0) == Stopped(Copy(s, fd, x, Laid(s.fds[fd].offset, [], 0)).0,
                                                     Copy(s, fd, x, Laid(s.fds[fd].offset, [], 0)).1, 0)
  {}

  /** fwrite is the allocation of what is missing, a copy, and the inode's return to the card. */
  lemma WritePrepares(s: Fs, fd: int, buf: seq<bv8>)
    requires MayWrite(s, fd)
    ensures var (ino, o) := (s.fds[fd].ino, s.fds[fd].offset);
      match Prepare(s, InodeAt(s.disk, ino), o, |buf|)
      case Full => Write(s, fd, buf).WriteCrash?
      case Short(t, y) => t.fds == s.fds && Write(s, fd, buf) == Wrote(With(t, ino, y), 0)
      case Ready(t, y) =>
        && t.fds == s.fds
        && Write(s, fd, buf) ==
           if buf != [] && o + |buf| > BLOCK_LIMIT * 512 then WriteCrash
           else Wrote(With(Copy(t, fd, y, Laid(o, buf, |buf|)).0, ino, Copy(t, fd, y, Laid(o, buf, |buf|)).1), |buf|)
  {
    hide Prepare, WriteLoop, Copy, Laid, InodeAt, PutInode;
    LoopPrepares(s, fd, InodeAt(s.disk, s.fds[fd].ino), buf);
  }

  // ---------------------------------------------------------------- what the allocation leaves

  /** Nothing but blocks has been taken, for the pointers behind the ones that x has. */
  ghost predicate Allocated(s: Fs, t: Fs, x: Inode, y: Inode) {
    && MapsCached(t) && t == s.(disk := t.disk, super := t.super, dbits := t.dbits, smapIndex := t.smapIndex)
    && t.disk == s.disk.(super := t.super, dbits := t.disk.dbits)
    && y == x.(pointers := y.pointers, capacity := y.capacity) && x.capacity <= y.capacity
    && (forall k :: 0 <= k < x.capacity / 512 && k < SLOT_NUM ==> y.pointers[k] == x.pointers[k])
    && (forall b :: Used(s.disk, b) ==> Used(t.disk, b))
    && (y.capacity == x.capacity ==> y == x && t.disk == s.disk)
    && (y.capacity > x.capacity ==> exists b :: b in FreeAbove(s) && Used(t.disk, b))
  }

  lemma NothingAllocated(s: Fs, t: Fs, x: Inode)
    requires MapsCached(t) && t == s.(dbits := t.dbits, smapIndex := t.smapIndex)
    ensures Allocated(s, t, x, x)
  {
    hide Used;
  }

  lemma OneMoreAllocated(s: Fs, t: Fs, u: Fs, x: Inode, y: Inode, b: int)
    requires x.capacity < SLOT_NUM * SECTOR_SIZE && Allocated(t, u, AddBlock(x, PtrOf(b)), y)
    requires t == s.(disk := t.disk, super := t.super, dbits := t.dbits, smapIndex := t.smapIndex)
    requires t.disk == s.disk.(super := t.super, dbits := t.disk.dbits)
    requires (forall c :: Used(t.disk, c) <==> (Used(s.disk, c) || c == b)) && b in FreeAbove(s)
    ensures Allocated(s, u, x, y)
  {
    hide Used, PtrOf, FreeAbove;
    assert b in FreeAbove(s) && Used(u.disk, b);
  }

  lemma {:induction false} PrepareAllocates(s: Fs, x: Inode, o: nat, n: nat)
    requires MapsCached(s)
    ensures match Prepare(s, x, o, n)
      case Full => FreeAbove(s) != {} && n > 0 && (x.capacity - o) % TWO32 < n
      case Ready(t, y) =>
        && Allocated(s, t, x, y) && (n == 0 || (y.capacity - o) % TWO32 >= n)
        && (n == 0 || (x.capacity - o) % TWO32 >= n ==> t == s && y == x)
        && (n > 0 && (x.capacity - o) % TWO32 < n ==> y.capacity > x.capacity)
      case Short(t, y) =>
        Allocated(s, t, x, y) && n > 0 && (x.capacity - o) % TWO32 < n && (y == x <==> FreeAbove(s) == {})
    decreases Headroom(x)
  {
    hide AllocBlock, Allocated, FreeAbove, MapsCached, PtrOf, Used;
    if n == 0 || (x.capacity - o) % TWO32 >= n {
      NothingAllocated(s, s, x);
    } else {
      AllocBlockEffect(s);
      var (t, b) := AllocBlock(s);
      if b == -1 {
        NothingTaken(s, t, x);
      } else if x.capacity / 512 < SLOT_NUM {
        PrepareAllocates(t, AddBlock(x, PtrOf(b)), o, n);
        match Prepare(t, AddBlock(x, PtrOf(b)), o, n)
        case Full =>
        case Ready(u, y) => OneMoreAllocated(s, t, u, x, y, b); MoreCapacity(t, u, AddBlock(x, PtrOf(b)), y);
        case Short(u, y) => OneMoreAllocated(s, t, u, x, y, b); MoreCapacity(t, u, AddBlock(x, PtrOf(b)), y);
      }
    }
  }

  lemma MoreCapacity(s: Fs, t: Fs, x: Inode, y: Inode)
    requires Allocated(s, t, x, y)
    ensures x.capacity <= y.capacity
  {}

  lemma NothingTaken(s: Fs, t: Fs, x: Inode)
    requires MapsCached(t) && t == s.(disk := t.disk, super := t.super, dbits := t.dbits, smapIndex := t.smapIndex)
    requires t.disk == s.disk && MapsCached(s)
    ensures Allocated(s, t, x, x)
  {
    hide Used;
  }

  // ---------------------------------------------------------------- what the copy leaves

  /** The sectors that a copy fills: each as the block map gives it at that point of the copy. */
  function Followed(s: Fs, fd: int, x: Inode, data: seq<bv8>): set<int>
    decreases |data|
  {
    if data == [] then {} else
    var (t, y, rest) := WriteChunk(s, fd, x, data);
    {Target(s.disk, x, FdAt(s, fd).offset)} + Followed(t, fd, y, rest)
  }

  /** The sectors in ps hold bytes now, and otherwise only the size of inode ino has changed. */
  ghost predicate Filled(d: Disk, e: Disk, ino: int, ps: set<int>) {
    && e == d.(inodes := e.inodes, blocks := e.blocks)
    && (forall i :: InodeAt(e, i) == if i == ino then InodeAt(d, i).(size := InodeAt(e, i).size) else InodeAt(d, i))
    && (forall q :: q !in ps ==> BlockAt(e, q) == BlockAt(d, q))
    && (forall q :: q in ps ==> BlockAt(e, q).Bytes?)
    && (forall q :: q in e.blocks.rest <==> q in d.blocks.rest || (q in ps && !IsBlock(q)))
  }

  lemma FilledTwice(d: Disk, e: Disk, f: Disk, ino: int, ps: set<int>, qs: set<int>)
    requires Filled(d, e, ino, ps) && Filled(e, f, ino, qs)
    ensures Filled(d, f, ino, ps + qs)
  {
    hide InodeAt, BlockAt;
  }

  lemma WithIs(s: Fs, ino: int, x: Inode)
    ensures var d := With(s, ino, x).disk;
      && d == s.disk.(inodes := d.inodes)
      && (forall i :: InodeAt(d, i) == if i == ino && 0 <= ino < INODE_ITEM_NUM then x else InodeAt(s.disk, i))
      && (forall q :: BlockAt(d, q) == BlockAt(s.disk, q))
  {
    if 0 <= ino < INODE_ITEM_NUM {
      PutInodeEffect(s.disk, ino, x);
    }
    SameBlocks(s.disk, With(s, ino, x).disk);
  }

  lemma ChunkFills(s: Fs, fd: int, ino: int, x: Inode, data: seq<bv8>)
    ensures var (t, y, rest) := WriteChunk(s, fd, x, data);
      && Filled(With(s, ino, x).disk, With(t, ino, y).disk, ino, {Target(s.disk, x, FdAt(s, fd).offset)})
      && t == s.(disk := s.disk.(blocks := t.disk.blocks), fds := t.fds) && |t.fds| == |s.fds|
      && y == x.(size := y.size)
  {
    hide InodeAt, BlockAt, PutInode, PutBlock, Splice, BytesAt, Target, IsBlock;
    var o, p := FdAt(s, fd).offset, Target(s.disk, x, FdAt(s, fd).offset);
    var n := Chunk(o, |data|);
    var (t, y, rest) := WriteChunk(s, fd, x, data);
    PutBlockEffect(s.disk, p, Bytes(Splice(BytesAt(s.disk, p), o % 512, data[..n])));
    WithIs(s, ino, x);
    WithIs(t, ino, y);
    SameInodes(s.disk, t.disk);
    BlankSize();
  }

  lemma BlankSize()
    ensures forall d: Disk, i: int :: InodeAt(d, i) == InodeAt(d, i).(size := InodeAt(d, i).size)
  {}

  lemma {:induction false} CopyFills(s: Fs, fd: int, ino: int, x: Inode, data: seq<bv8>)
    ensures var (t, y) := Copy(s, fd, x, data);
      && Filled(With(s, ino, x).disk, With(t, ino, y).disk, ino, Followed(s, fd, x, data))
      && t == s.(disk := s.disk.(blocks := t.disk.blocks), fds := t.fds) && |t.fds| == |s.fds|
      && y == x.(size := y.size)
    decreases |data|
  {
    hide WriteChunk, Filled, With, Target;
    if data == [] {
      FilledNone(With(s, ino, x).disk, ino);
    } else {
      ChunkFills(s, fd, ino, x, data);
      ChunkShrinks(s, fd, x, data);
      var (t, y, rest) := WriteChunk(s, fd, x, data);
      CopyFills(t, fd, ino, y, rest);
      var (u, z) := Copy(t, fd, y, rest);
      FilledTwice(With(s, ino, x).disk, With(t, ino, y).disk, With(u, ino, z).disk, ino,
                  {Target(s.disk, x, FdAt(s, fd).offset)}, Followed(t, fd, y, rest));
    }
  }

  lemma FilledNone(d: Disk, ino: int)
    ensures Filled(d, d, ino, {})
  {
    hide BlockAt;
    BlankSize();
  }

  lemma ChunkShrinks(s: Fs, fd: int, x: Inode, data: seq<bv8>)
    requires data != []
    ensures |WriteChunk(s, fd, x, data).2| < |data|
  {
    hide PutData, Target;
  }

  /** None of the sectors is that of a live directory, and none lies across what is not the data area's. */
  ghost predicate Spares(d: Disk, ps: set<int>) {
    (forall i :: DirInode(d, i) ==> DirPtr(d, i) !in ps) && forall p :: p in ps ==> !Wild(p)
  }

  lemma FilledSame(d: Disk, e: Disk, ino: int, ps: set<int>)
    requires Filled(d, e, ino, ps)
    ensures forall i :: Live(e, i) == Live(d, i)
    ensures forall b :: Used(e, b) == Used(d, b)
    ensures forall i, k :: Holds(e, i, k) == Holds(d, i, k) && PtrAt(e, i, k) == PtrAt(d, i, k)
    ensures forall i :: DirInode(e, i) == DirInode(d, i) && DirPtr(e, i) == DirPtr(d, i)
    ensures forall i :: InodeOk(e, i) == InodeOk(d, i)
  {
    hide Used, BlockAt, Live, InodeAt;
    SameBits(d, e);
  }

  lemma FilledKeepsOwnership(d: Disk, e: Disk, ino: int, ps: set<int>)
    requires Filled(d, e, ino, ps) && Ownership(d)
    ensures Ownership(e)
  {
    hide Live, Used, InodeAt, BlockAt, PtrOf, BlockOf, PtrAt, Holds;
    FilledSame(d, e, ino, ps);
    forall i ensures InodeOk(e, i) { assert InodeOk(d, i); }
    forall i, k ensures OwnerOk(e, i, k) { assert OwnerOk(d, i, k); }
    forall i, k, j, l ensures OnlyOwner(e, i, k, j, l) { assert OnlyOwner(d, i, k, j, l); }
    forall b ensures IsOwned(e, b) {
      assert IsOwned(d, b);
      if Used(d, b) {
        var i, k :| Owns(d, i, k, b);
        assert Owns(e, i, k, b);
      }
    }
  }

  lemma FilledKeepsTree(d: Disk, e: Disk, ino: int, ps: set<int>)
    requires Filled(d, e, ino, ps) && Tree(d) && Spares(d, ps)
    ensures Tree(e) && NoEntryAdded(d, e)
  {
    hide Live, Used, InodeAt, BlockAt, PtrOf, BlockOf, PtrAt, Holds, InodeOk;
    FilledSame(d, e, ino, ps);
    assert RootOk(d);
    forall i ensures SectorOk(e, i) { assert SectorOk(d, i); }
    forall i | DirInode(d, i) ensures DirAt(e, DirPtr(e, i)) == DirAt(d, DirPtr(d, i)) {}
    forall i, m, c ensures Entry(e, i, m, c) <==> Entry(d, i, m, c) {}
    forall i, m, c ensures EntryOk(e, i, m, c) { assert EntryOk(d, i, m, c); }
    forall i, m, j, l, c ensures OnlyEntry(e, i, m, j, l, c) { assert OnlyEntry(d, i, m, j, l, c); }
    forall i, m, l ensures OnlyName(e, i, m, l) { assert OnlyName(d, i, m, l); }
    forall i, m ensures NameOk(e, i, m) { assert NameOk(d, i, m); }
    forall c ensures HasEntry(e, c) {
      assert HasEntry(d, c);
      if Live(e, c) && c != 0 {
        var i, m :| Entry(d, i, m, c);
        assert Entry(e, i, m, c);
      }
    }
  }

  lemma FilledBreaksTree(d: Disk, e: Disk, ino: int, ps: set<int>)
    requires Filled(d, e, ino, ps) && exists i :: DirInode(d, i) && DirPtr(d, i) in ps
    ensures !Tree(e)
  {
    hide Live, InodeAt, BlockAt;
    FilledSame(d, e, ino, ps);
    var i :| DirInode(d, i) && DirPtr(d, i) in ps;
    assert !SectorOk(e, i);
  }

  lemma NoneWild()
    ensures forall p :: Wild(p) ==> !IsBlock(p)
  {
    forall p | IsBlock(p) ensures !Wild(p) {}
  }

  /** The card stays intact exactly when no wild address is filled. */
  lemma FilledIntactIff(d: Disk, e: Disk, ino: int, ps: set<int>)
    requires Filled(d, e, ino, ps) && Intact(d)
    ensures Intact(e) <==> forall p :: p in ps ==> !Wild(p)
  {
    hide InodeAt, BlockAt, IsBlock, Wild;
    NoneWild();
    if Intact(e) {
      forall p | p in ps ensures !Wild(p) { assert Wild(p) ==> p in e.blocks.rest; }
    }
  }

  /** Filling sectors with bytes keeps the file system sound exactly when none of them is a live directory's or lies
      across what is not the data area's. */
  lemma FillingKeepsSoundIff(s: Fs, t: Fs, ino: int, ps: set<int>)
    requires Sound(s) && Filled(s.disk, t.disk, ino, ps) && t == s.(disk := t.disk, fds := t.fds)
    ensures Sound(t) <==> Spares(s.disk, ps)
    ensures Sound(t) ==> NoEntryAdded(s.disk, t.disk)
  {
    hide Live, Used, InodeAt, BlockAt, IsBlock, PtrAt, Holds, InodeOk, Ownership, Tree, NoEntryAdded, Wild, Intact;
    FilledSame(s.disk, t.disk, ino, ps);
    FilledIntactIff(s.disk, t.disk, ino, ps);
    if Spares(s.disk, ps) {
      FilledKeepsOwnership(s.disk, t.disk, ino, ps);
      FilledKeepsTree(s.disk, t.disk, ino, ps);
      SameCount(s.disk, t.disk);
      SameBlockCount(s.disk, t.disk);
      var h :| IsHere(s, h);
      assert IsHere(t, h);
    } else if !(forall i :: DirInode(s.disk, i) ==> DirPtr(s.disk, i) !in ps) {
      FilledBreaksTree(s.disk, t.disk, ino, ps);
    }
  }

  // ---------------------------------------------------------------- through the inode of a file

  /** The state after fwrite, if it returns. */
  ghost predicate LeavesSound(s: Fs, fd: int, buf: seq<bv8>) {
    Write(s, fd, buf).Wrote? && Sound(Write(s, fd, buf).s)
  }

  /** A copy that stays within the block map and fills neither a live directory's sector nor a wild one. */
  ghost predicate CopySpares(d: Disk, t: Fs, fd: int, y: Inode, buf: seq<bv8>) {
    var o := FdAt(t, fd).offset;
    (buf == [] || o + |buf| <= BLOCK_LIMIT * 512) && Spares(d, Followed(t, fd, y, Laid(o, buf, |buf|)))
  }

  /** What makes a write harmless: a file either does not get the blocks it needs, or gets them and the copy spares the
      directories; for any other inode the copy needs no block, or there is none. */
  ghost predicate WriteSpares(s: Fs, fd: int, buf: seq<bv8>)
    requires MayWrite(s, fd)
  {
    var (ino, o) := (s.fds[fd].ino, s.fds[fd].offset);
    var x := InodeAt(s.disk, ino);
    if FileInode(s.disk, ino) then
      match Prepare(s, x, o, |buf|)
      case Full => false
      case Short(_, _) => true
      case Ready(t, y) => CopySpares(s.disk, t, fd, y, buf)
    else if buf == [] || (x.capacity - o) % TWO32 >= |buf| then CopySpares(s.disk, s, fd, x, buf)
    else FreeAbove(s) == {}
  }

  lemma {:induction false} PreparePending(s: Fs, ino: int, x: Inode, o: nat, n: nat)
    requires Pending(s, ino, x)
    ensures match Prepare(s, x, o, n)
      case Full => true
      case Ready(t, y) => Pending(t, ino, y)
      case Short(t, y) => Pending(t, ino, y)
    decreases Headroom(x)
  {
    hide AllocBlock, Pending, FreeAbove, PtrOf;
    if !(n == 0 || (x.capacity - o) % TWO32 >= n) {
      ReserveStep(s, ino, x);
      PendingCapacity(s, ino, x);
      var (t, b) := AllocBlock(s);
      if b != -1 && x.capacity / 512 < SLOT_NUM {
        PreparePending(t, ino, AddBlock(x, PtrOf(b)), o, n);
      }
    }
  }

  /** Taking blocks for a file changes no directory. */
  lemma SameDirectories(s: Fs, t: Fs, ino: int, x: Inode, y: Inode)
    requires FileInode(s.disk, ino) && x == InodeAt(s.disk, ino) && 0 <= ino < INODE_ITEM_NUM && Allocated(s, t, x, y)
    ensures var d := With(t, ino, y).disk;
      && (forall i :: DirInode(d, i) == DirInode(s.disk, i))
      && (forall i :: DirInode(s.disk, i) ==> DirPtr(d, i) == DirPtr(s.disk, i))
      && (forall ps :: Spares(d, ps) == Spares(s.disk, ps)) && NoEntryAdded(s.disk, d)
  {
    hide Live, InodeAt, BlockAt, PutInode, Used, FreeAbove;
    WithEffect(t, ino, y);
    SameInodes(s.disk, t.disk);
    SameBits(s.disk, t.disk);
    SameBlocks(s.disk, t.disk);
    var d := With(t, ino, y).disk;
    forall i
      ensures DirInode(d, i) == DirInode(s.disk, i) && (DirInode(s.disk, i) ==> DirPtr(d, i) == DirPtr(s.disk, i)) {}
    forall ps ensures Spares(d, ps) == Spares(s.disk, ps) {
      if Spares(s.disk, ps) { assert forall i :: DirInode(d, i) ==> DirInode(s.disk, i) && DirPtr(s.disk, i) !in ps; }
      if Spares(d, ps) { assert forall i :: DirInode(s.disk, i) ==> DirInode(d, i) && DirPtr(d, i) !in ps; }
    }
    forall i, m, c | Entry(d, i, m, c) ensures Entry(s.disk, i, m, c) {}
  }

  lemma NoEntryTwice(d: Disk, e: Disk, f: Disk)
    requires NoEntryAdded(d, e) && NoEntryAdded(e, f)
    ensures NoEntryAdded(d, f)
  {
    hide Entry;
  }

  lemma CopyKeepsSoundIff(t: Fs, fd: int, ino: int, y: Inode, data: seq<bv8>)
    requires Sound(With(t, ino, y))
    ensures var (u, z) := Copy(t, fd, y, data);
      && (Sound(With(u, ino, z)) <==> Spares(With(t, ino, y).disk, Followed(t, fd, y, data)))
      && (Sound(With(u, ino, z)) ==> NoEntryAdded(With(t, ino, y).disk, With(u, ino, z).disk))
  {
    hide Sound, Copy, Spares, Followed, NoEntryAdded, Filled, PutInode;
    CopyFills(t, fd, ino, y, data);
    var (u, z) := Copy(t, fd, y, data);
    FillingKeepsSoundIff(With(t, ino, y), With(u, ino, z), ino, Followed(t, fd, y, data));
  }

  /** fwrite through the inode of a file, at whatever offset: it keeps the file system sound exactly when
      the blocks run out first, or there are pointers for all that are missing and no sector that the
      copy fills is a live directory's or wild. */
  lemma FileWriteKeepsSoundIff(s: Fs, fd: int, buf: seq<bv8>)
    requires Sound(s) && MayWrite(s, fd) && FileInode(s.disk, s.fds[fd].ino)
    ensures LeavesSound(s, fd, buf) <==> WriteSpares(s, fd, buf)
    ensures LeavesSound(s, fd, buf) ==> NoEntryAdded(s.disk, Write(s, fd, buf).s.disk)
  {
    hide Live, InodeAt, Sound, Write, Prepare, Copy, Followed, Laid, Spares, NoEntryAdded, Pending, With, Allocated,
      FreeAbove, MapsCached;
    var ino, o := s.fds[fd].ino, s.fds[fd].offset;
    var x := InodeAt(s.disk, ino);
    WritePrepares(s, fd, buf);
    FilePending(s, ino);
    SoundIsCached(s);
    PreparePending(s, ino, x, o, |buf|);
    PrepareAllocates(s, x, o, |buf|);
    match Prepare(s, x, o, |buf|)
    case Full =>
    case Short(t, y) =>
      PendingIsSound(t, ino, y);
      SameDirectories(s, t, ino, x, y);
    case Ready(t, y) =>
      PendingIsSound(t, ino, y);
      SameDirectories(s, t, ino, x, y);
      var data := Laid(o, buf, |buf|);
      CopyKeepsSoundIff(t, fd, ino, y, data);
      var (u, z) := Copy(t, fd, y, data);
      if Sound(With(u, ino, z)) {
        NoEntryTwice(s.disk, With(t, ino, y).disk, With(u, ino, z).disk);
      }
  }

  lemma SoundIsCached(s: Fs)
    requires Sound(s)
    ensures MapsCached(s)
  {}

  lemma PendingIsSound(t: Fs, ino: int, y: Inode)
    requires Pending(t, ino, y)
    ensures Sound(With(t, ino, y))
  {}

  // ---------------------------------------------------------------- through any other inode

  /** Only the window has moved. */
  lemma SlidKeepsSound(s: Fs, t: Fs)
    requires Sound(s) && MapsCached(t) && t == s.(super := t.super, dbits := t.dbits, smapIndex := t.smapIndex)
    ensures Sound(t)
  {
    hide Ownership, Tree, Counted, DirInode, BlockAt, IsBlock;
    var h :| IsHere(s, h);
    assert IsHere(t, h);
  }

  lemma NoneAdded(d: Disk)
    ensures NoEntryAdded(d, d)
  {}

  lemma WithOwn(s: Fs, ino: int)
    ensures With(s, ino, InodeAt(s.disk, ino)) == s
  {
    if 0 <= ino < INODE_ITEM_NUM { WithItself(s, ino); }
  }

  /** A live inode that is no file is a directory, with one sector. */
  lemma NoFileIsDir(s: Fs, ino: int)
    requires Sound(s) && Live(s.disk, ino) && !FileInode(s.disk, ino)
    ensures DirInode(s.disk, ino) && InodeAt(s.disk, ino).capacity == 512 && 0 <= ino < INODE_ITEM_NUM
  {
    hide Live, InodeAt, Tree, Counted;
    assert InodeOk(s.disk, ino);
  }

  /** A block that has been taken for an inode that is no file's is marked used and owned by nobody. */
  lemma StrandedBlock(d: Disk, e: Disk, ino: int, b: int)
    requires Ownership(d) && Used(e, b) && !Used(d, b) && !FileInode(d, ino)
    requires forall i :: Live(e, i) == Live(d, i)
    requires forall i :: i != ino ==> InodeAt(e, i) == InodeAt(d, i)
    requires DirInode(d, ino) ==>
      InodeAt(e, ino).kind == FILE_DIR && InodeAt(e, ino).pointers[0] == InodeAt(d, ino).pointers[0]
    ensures !Ownership(e)
  {
    hide Live, InodeAt, PtrOf, BlockOf, Used;
    BlockInverse(b);
    assert InodeOk(d, ino);
    forall i, k ensures Holds(e, i, k) ==> Holds(d, i, k) && PtrAt(e, i, k) == PtrAt(d, i, k) {}
    forall i, k ensures !Owns(e, i, k, b) { assert OwnerOk(d, i, k); }
    assert !IsOwned(e, b);
  }

  lemma AllocatedStrands(s: Fs, t: Fs, u: Fs, ino: int, x: Inode, y: Inode, z: Inode)
    requires Sound(s) && !FileInode(s.disk, ino) && x == InodeAt(s.disk, ino) && Allocated(s, t, x, y)
    requires y.capacity > x.capacity
    requires u == t.(disk := t.disk.(blocks := u.disk.blocks), fds := u.fds) && z == y.(size := z.size)
    ensures !Sound(With(u, ino, z))
  {
    hide Live, InodeAt, BlockAt, PutInode, Used, Tree, Counted, Ownership;
    var b :| b in FreeAbove(s) && Used(t.disk, b);
    var e := With(u, ino, z).disk;
    WithIs(u, ino, z);
    SameInodes(s.disk, u.disk);
    SameBits(s.disk, e);
    SameBits(t.disk, e);
    if Live(s.disk, ino) { NoFileIsDir(s, ino); }
    StrandedBlock(s.disk, e, ino, b);
  }

  /** fwrite through an inode that is no live file's, be it a directory's or a dead one: it keeps the file system sound
      exactly when it copies at once and spares the directories, or needs a block and there is none. */
  lemma OtherWriteKeepsSoundIff(s: Fs, fd: int, buf: seq<bv8>)
    requires Sound(s) && MayWrite(s, fd) && !FileInode(s.disk, s.fds[fd].ino)
    ensures LeavesSound(s, fd, buf) <==> WriteSpares(s, fd, buf)
    ensures LeavesSound(s, fd, buf) ==> NoEntryAdded(s.disk, Write(s, fd, buf).s.disk)
  {
    hide Live, InodeAt, Sound, Write, Prepare, Copy, Followed, Laid, Spares, NoEntryAdded, With, Allocated, FreeAbove,
      MapsCached, FileInode;
    var ino, o := s.fds[fd].ino, s.fds[fd].offset;
    var x := InodeAt(s.disk, ino);
    WritePrepares(s, fd, buf);
    SoundIsCached(s);
    PrepareAllocates(s, x, o, |buf|);
    WithOwn(s, ino);
    match Prepare(s, x, o, |buf|)
    case Full =>
    case Short(t, y) => ShortOther(s, t, ino, x, y);
    case Ready(t, y) =>
      var data := Laid(o, buf, |buf|);
      if y.capacity == x.capacity {
        CopyKeepsSoundIff(s, fd, ino, x, data);
      } else {
        CopyFills(t, fd, ino, y, data);
        var (u, z) := Copy(t, fd, y, data);
        MoreCapacity(s, t, x, y);
        GrewHadRoom(s, t, x, y);
        AllocatedStrands(s, t, u, ino, x, y, z);
      }
  }

  lemma ShortOther(s: Fs, t: Fs, ino: int, x: Inode, y: Inode)
    requires Sound(s) && !FileInode(s.disk, ino) && x == InodeAt(s.disk, ino) && Allocated(s, t, x, y)
    ensures Sound(With(t, ino, y)) <==> y == x
    ensures y == x ==> NoEntryAdded(s.disk, With(t, ino, y).disk)
  {
    hide Live, InodeAt, Sound, PutInode, FreeAbove, MapsCached, Used, FileInode, NoEntryAdded;
    if y.capacity == x.capacity {
      MapsOf(s, t, x, y);
      WithOwn(t, ino);
      SlidKeepsSound(s, t);
      NoneAdded(s.disk);
    } else {
      AllocatedStrands(s, t, t, ino, x, y, y);
    }
  }

  lemma GrewHadRoom(s: Fs, t: Fs, x: Inode, y: Inode)
    requires Allocated(s, t, x, y) && y.capacity > x.capacity
    ensures FreeAbove(s) != {}
  {}

  lemma MapsOf(s: Fs, t: Fs, x: Inode, y: Inode)
    requires Allocated(s, t, x, y) && y.capacity == x.capacity
    ensures y == x && t.disk == s.disk && MapsCached(t)
    ensures t == s.(super := t.super, dbits := t.dbits, smapIndex := t.smapIndex)
  {}

  /** fwrite through any descriptor, at any offset, of any length: exactly the harmless
      writes keep the file system sound. */
  lemma WriteKeepsSoundIff(s: Fs, fd: int, buf: seq<bv8>)
    requires Sound(s) && MayWrite(s, fd)
    ensures LeavesSound(s, fd, buf) <==> WriteSpares(s, fd, buf)
    ensures LeavesSound(s, fd, buf) ==> NoEntryAdded(s.disk, Write(s, fd, buf).s.disk)
  {
    hide Sound, Write, WriteSpares, NoEntryAdded, FileInode;
    if FileInode(s.disk, s.fds[fd].ino) {
      FileWriteKeepsSoundIff(s, fd, buf);
    } else {
      OtherWriteKeepsSoundIff(s, fd, buf);
    }
  }
}
