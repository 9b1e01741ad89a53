/** What one call of mkdir, touch or rmdir does to the whole file system, and that it keeps the invariant. */
module FsCalls {
  import Slist
  import opened Bitmap
  import opened Fs
  import opened FsRuns
  import opened FsTree

  predicate IsHere(s: Fs, h: int) {
    DirInode(s.disk, h) && DirPtr(s.disk, h) == s.here
  }

  /** The current directory is a live one. */
  ghost predicate HereOk(s: Fs) {
    exists h :: IsHere(s, h)
  }

  ghost predicate DiskSound(d: Disk) {
    Counted(d) && Ownership(d) && Tree(d) && Intact(d)
  }

  ghost predicate Sound(s: Fs) {
    MapsCached(s) && DirCached(s) && DiskSound(s.disk) && HereOk(s)
  }

  // ---------------------------------------------------------------- counting

  lemma CountInodes(d: Disk, e: Disk, ino: int, more: bool)
    requires Counted(d) && 0 <= ino < INODE_ITEM_NUM && Live(d, ino) != more
    requires forall i :: Live(e, i) <==> (if i == ino then more else Live(d, i))
    ensures |InodeBits(e)| == d.super.inodeUsed + if more then 1 else -1
  {
    hide Live, Used;
    if more {
      assert InodeBits(e) == InodeBits(d) + {ino};
    } else {
      assert InodeBits(d) == InodeBits(e) + {ino};
    }
  }

  lemma CountBlocks(d: Disk, e: Disk, b: int, more: bool)
    requires Counted(d) && 0 <= b < DATA_ITEM_NUM && Used(d, b) != more
    requires forall c :: Used(e, c) <==> (if c == b then more else Used(d, c))
    ensures |DataBits(e)| == d.super.dataUsed + if more then 1 else -1
  {
    hide Live, Used;
    if more {
      assert DataBits(e) == DataBits(d) + {b};
    } else {
      assert DataBits(d) == DataBits(e) + {b};
    }
  }

  lemma SameCount(d: Disk, e: Disk)
    requires forall i :: Live(e, i) <==> Live(d, i)
    ensures |InodeBits(e)| == |InodeBits(d)|
  {
    hide Live;
    assert InodeBits(e) == InodeBits(d);
  }

  lemma SameBlockCount(d: Disk, e: Disk)
    requires forall c :: Used(e, c) <==> Used(d, c)
    ensures |DataBits(e)| == |DataBits(d)|
  {
    hide Used;
    assert DataBits(e) == DataBits(d);
  }

  // ---------------------------------------------------------------- mkdir and touch

  /** The name is free in the current directory, exactly when the existence test says so. */
  lemma ExistsIff(s: Fs, name: string)
    requires Sound(s)
    ensures FileExists(s, name) == 0 <==> FindItem(s.dir.items, name) == -1
  {
    hide Live, Used, InodeAt, BlockAt, PtrOf, BlockOf, Ownership, Counted;
    var h :| IsHere(s, h);
    var i := FindItem(s.dir.items, name);
    if i != -1 {
      assert Entry(s.disk, h, i, s.dir.items[i].ino);
      assert EntryOk(s.disk, h, i, s.dir.items[i].ino);
    }
  }

  /** The entry is written and names the least clear inode, which is now live; nothing else has changed. */
  lemma EnterEffect(s: Fs, name: string, i: int)
    requires MapsCached(s) && IsBlock(s.here) && 0 <= i < MAX_DIR_ITEM_NUM
    ensures var (t, ino) := Enter(s, name, i);
      && (ino == -1 ==> t == SetItem(s, i, s.dir.items[i].(valid := true)))
      && (ino == -1 ==> forall k :: 0 <= k < INODE_ITEM_NUM ==> Live(s.disk, k))
      && (ino != -1 ==>
            && MapsCached(t) && 0 <= ino < INODE_ITEM_NUM && !Live(s.disk, ino)
            && t == s.(disk := t.disk, ibits := t.ibits, super := t.super, dir := t.dir)
            && t.dir == s.dir.(items := s.dir.items[i := Item(true, name, ino)])
            && t.disk == s.disk.(ibits := t.disk.ibits, super := t.super, blocks := t.disk.blocks)
            && t.super == s.super.(inodeUsed := s.super.inodeUsed + 1)
            && (forall k :: Live(t.disk, k) <==> (Live(s.disk, k) || k == ino))
            && (forall k :: 0 <= k < ino ==> Live(s.disk, k)) && t.disk.blocks.rest == s.disk.blocks.rest
            && (forall q :: BlockAt(t.disk, q) == if q == s.here then DirBlock(t.dir) else BlockAt(s.disk, q)))
  {
    hide BlockAt, IsBlock, PutBlock, BitAt;
    var s1 := SetItem(s, i, s.dir.items[i].(valid := true));
    AllocInodeEffect(s1);
    var (s2, ino) := AllocInode(s1);
    if ino != -1 {
      var s3 := SetItem(s2, i, Item(true, name, ino));
      PutBlockEffect(s3.disk, s3.here, DirBlock(s3.dir));
      SameBlocks(s.disk, s3.disk);
    }
  }

  lemma SameBlocks(d: Disk, e: Disk)
    requires d.blocks == e.blocks
    ensures forall q :: BlockAt(e, q) == BlockAt(d, q)
  {}

  lemma SameInodes(d: Disk, e: Disk)
    requires d.inodes == e.inodes
    ensures forall i :: InodeAt(e, i) == InodeAt(d, i)
  {}

  lemma SameBits(d: Disk, e: Disk)
    ensures d.ibits == e.ibits ==> forall i :: Live(e, i) == Live(d, i)
    ensures d.dbits == e.dbits ==> forall b :: Used(e, b) == Used(d, b)
  {}

  lemma PtrIsBlock(b: int)
    requires 0 <= b < DATA_ITEM_NUM
    ensures IsBlock(PtrOf(b))
  {
    BlockInverse(b);
  }

  lemma PutNewDirEffect(s: Fs, ino: int, b: int, name: string)
    requires 0 <= ino < INODE_ITEM_NUM && 0 <= b < DATA_ITEM_NUM
    ensures var t := PutNewDir(s, ino, PtrOf(b), name);
      && t == s.(disk := s.disk.(inodes := t.disk.inodes, blocks := t.disk.blocks))
      && t.disk.blocks.rest == s.disk.blocks.rest
      && (forall i :: InodeAt(t.disk, i)
           == if i == ino then NewDirInode(InodeAt(s.disk, ino), PtrOf(b)) else InodeAt(s.disk, i))
      && (forall q :: BlockAt(t.disk, q) ==
            if q == PtrOf(b) then DirBlock(Dir(s.here, name, BlankItems())) else BlockAt(s.disk, q))
  {
    hide BlockAt, InodeAt, IsBlock, PutBlock, PutInode, PtrOf, BlankItems, NewDirInode;
    PtrIsBlock(b);
    var d1 := PutInode(s.disk, ino, NewDirInode(InodeAt(s.disk, ino), PtrOf(b)));
    PutInodeEffect(s.disk, ino, NewDirInode(InodeAt(s.disk, ino), PtrOf(b)));
    SameBlocks(s.disk, d1);
    PutBlockEffect(d1, PtrOf(b), DirBlock(Dir(s.here, name, BlankItems())));
    SameInodes(d1, PutNewDir(s, ino, PtrOf(b), name).disk);
  }

  /** A successful mkdir grows the tree by one directory: the least clear inode and the least clear block at or
      above the window, entered in the first free slot of the current directory. */
  lemma MakeDirGrows(s: Fs, name: string)
    requires Sound(s) && MakeDir(s, name).1 == Done
    ensures var (t, n) := (MakeDir(s, name).0, FreeSlot(s.dir.items));
      var (ino, b) := (t.dir.items[n].ino, BlockOf(InodeAt(t.disk, t.dir.items[n].ino).pointers[0]));
      && Grown(s.disk, t.disk, s.here, n, name, ino, InodeAt(t.disk, ino), b)
      && InodeAt(t.disk, ino) == Inode(FILE_DIR, 1, 512, 512, InodeAt(s.disk, ino).pointers[0 := PtrOf(b)])
      && b in FreeAbove(s)
      && (forall k :: 0 <= k < ino ==> Live(s.disk, k)) && (forall c :: c in FreeAbove(s) ==> b <= c)
      && MapsCached(t) && DirCached(t) && t.here == s.here && t.fds == s.fds && t.fdList == s.fdList
      && t.super == Super(s.super.inodeUsed + 1, s.super.dataUsed + 1)
  {
    hide Live, Used, InodeAt, BlockAt, IsBlock, PtrOf, BlockOf, Ownership, Tree, Counted, BitAt, PutNewDir, AllocBlock,
      Enter;
    var n := FreeSlot(s.dir.items);
    EnterEffect(s, name, n);
    var (s1, ino) := Enter(s, name, n);
    SameInodes(s.disk, s1.disk);
    SameBits(s.disk, s1.disk);
    AllocBlockEffect(s1);
    assert FreeAbove(s1) == FreeAbove(s);
    var (s2, b) := AllocBlock(s1);
    SameInodes(s1.disk, s2.disk);
    SameBlocks(s1.disk, s2.disk);
    SameBits(s1.disk, s2.disk);
    PutNewDirEffect(s2, ino, b, name);
    var t := PutNewDir(s2, ino, PtrOf(b), name);
    SameBits(s2.disk, t.disk);
    BlockInverse(b);
    HereIsUsed(s);
    assert b != BlockOf(s.here);
  }

  lemma HereIsUsed(s: Fs)
    requires Sound(s)
    ensures Used(s.disk, BlockOf(s.here)) && IsBlock(s.here)
  {
    hide Live, Used, InodeAt, BlockAt, PtrOf, BlockOf, Tree, Counted, BitAt;
    var h :| IsHere(s, h);
    assert OwnerOk(s.disk, h, 0);
  }

  /** The new entry is the only new one, and it names an inode that was not live. */
  ghost predicate EntryAdded(d: Disk, e: Disk, h: int, n: int, ino: int) {
    && DirInode(d, h) && !Live(d, ino)
    && forall i, m, c :: Entry(e, i, m, c) <==> (Entry(d, i, m, c) || (i == h && m == n && c == ino))
  }

  ghost predicate NoEntryAdded(d: Disk, e: Disk) {
    forall i, m, c :: Entry(e, i, m, c) ==> Entry(d, i, m, c)
  }

  lemma GrownCounts(d: Disk, e: Disk, here: int, n: int, name: string, ino: int, x: Inode, b: int)
    requires Counted(d) && Grown(d, e, here, n, name, ino, x, b)
    requires e.super == Super(d.super.inodeUsed + 1, d.super.dataUsed + if x.kind == FILE_DIR then 1 else 0)
    ensures Counted(e)
  {
    hide Live, Used, InodeAt, BlockAt, PtrOf;
    CountInodes(d, e, ino, true);
    if x.kind == FILE_DIR { CountBlocks(d, e, b, true); } else { SameBlockCount(d, e); }
  }

  /** The directory stays where it is, and has one entry more. */
  lemma GrownHere(d: Disk, e: Disk, here: int, n: int, name: string, ino: int, x: Inode, b: int, h: int)
    requires Grown(d, e, here, n, name, ino, x, b) && DirInode(d, h)
    ensures DirInode(e, h) && DirPtr(e, h) == DirPtr(d, h) && !Live(d, ino)
  {
    hide Used, BlockAt, PtrOf, BitAt;
  }

  /** A new inode entered in the current directory keeps everything. */
  lemma GrownKeepsSound(s: Fs, t: Fs, n: int, name: string, ino: int, x: Inode, b: int)
    requires Sound(s) && Grown(s.disk, t.disk, s.here, n, name, ino, x, b)
    requires MapsCached(t) && DirCached(t) && t.here == s.here && t.disk.blocks.rest == s.disk.blocks.rest
    requires n == FreeSlot(s.dir.items) && FindItem(s.dir.items, name) == -1 && |name| <= 26
    requires t.super == Super(s.super.inodeUsed + 1, s.super.dataUsed + if x.kind == FILE_DIR then 1 else 0)
    ensures Sound(t) && exists h :: EntryAdded(s.disk, t.disk, h, n, ino)
  {
    hide Live, Used, InodeAt, BlockAt, IsBlock, PtrOf, BlockOf, Ownership, Tree, BitAt, FindItem, FreeSlot, Grown,
      Counted, DirInode, Entry;
    var h :| IsHere(s, h);
    GrownKeepsOwnership(s.disk, t.disk, s.here, n, name, ino, x, b);
    assert n < MAX_DIR_ITEM_NUM by { GrownSlot(s.disk, t.disk, s.here, n, name, ino, x, b); }
    GrownKeepsTree(s.disk, t.disk, s.here, n, name, ino, x, b, h);
    GrownCounts(s.disk, t.disk, s.here, n, name, ino, x, b);
    GrownHere(s.disk, t.disk, s.here, n, name, ino, x, b, h);
    assert IsHere(t, h);
    assert EntryAdded(s.disk, t.disk, h, n, ino);
  }

  lemma GrownSlot(d: Disk, e: Disk, here: int, n: int, name: string, ino: int, x: Inode, b: int)
    requires Grown(d, e, here, n, name, ino, x, b)
    ensures 0 <= n < MAX_DIR_ITEM_NUM
  {}

  /** mkdir and touch write nothing outside the data area. */
  lemma MakesInArea(s: Fs, name: string)
    requires MapsCached(s) && DirCached(s)
    ensures MakeDir(s, name).0.disk.blocks.rest == s.disk.blocks.rest
    ensures TouchFile(s, name).0.disk.blocks.rest == s.disk.blocks.rest
  {
    hide IsBlock, BlockAt, FindItem, Enter, AllocBlock, PutInode, PutNewDir, Live, Used, PtrOf;
    var n := FreeSlot(s.dir.items);
    if n < MAX_DIR_ITEM_NUM {
      EnterEffect(s, name, n);
      var (s1, ino) := Enter(s, name, n);
      if ino != -1 {
        PutInodeEffect(s1.disk, ino, NewFileInode(InodeAt(s1.disk, ino)));
        AllocBlockEffect(s1);
        var (s2, b) := AllocBlock(s1);
        if b != -1 { PutNewDirEffect(s2, ino, b, name); }
      }
    }
  }

  lemma SoundIsIntact(s: Fs)
    requires Sound(s)
    ensures Intact(s.disk)
  {}

  lemma MapsAndHere(s: Fs)
    requires Sound(s)
    ensures MapsCached(s) && DirCached(s)
  {}

  lemma MakeDirKeepsSound(s: Fs, name: string)
    requires Sound(s) && MakeDir(s, name).1 != NoInode && MakeDir(s, name).1 != NoBlock
    ensures Sound(MakeDir(s, name).0)
    ensures MakeDir(s, name).1 == Done ==>
      exists h, n, ino :: EntryAdded(s.disk, MakeDir(s, name).0.disk, h, n, ino)
    ensures MakeDir(s, name).1 != Done ==> MakeDir(s, name).0 == s
  {
    hide Sound, Enter, AllocBlock, PutNewDir, Grown;
    if MakeDir(s, name).1 == Done {
      ExistsIff(s, name);
      MakeDirGrows(s, name);
      MapsAndHere(s);
      MakesInArea(s, name);
      var t, n := MakeDir(s, name).0, FreeSlot(s.dir.items);
      var ino := t.dir.items[n].ino;
      GrownKeepsSound(s, t, n, name, ino, InodeAt(t.disk, ino), BlockOf(InodeAt(t.disk, ino).pointers[0]));
    }
  }

  /** A successful touch grows the tree by one empty file. */
  lemma TouchGrows(s: Fs, name: string)
    requires Sound(s) && TouchFile(s, name).1 == Done
    ensures var (t, n) := (TouchFile(s, name).0, FreeSlot(s.dir.items));
      var ino := t.dir.items[n].ino;
      && Grown(s.disk, t.disk, s.here, n, name, ino, InodeAt(t.disk, ino), 0)
      && InodeAt(t.disk, ino) == Inode(FILE_NORMAL, 1, 0, 0, InodeAt(s.disk, ino).pointers)
      && (forall k :: 0 <= k < ino ==> Live(s.disk, k))
      && MapsCached(t) && DirCached(t) && t.here == s.here && t.fds == s.fds && t.fdList == s.fdList
      && t.super == Super(s.super.inodeUsed + 1, s.super.dataUsed) && t.smapIndex == s.smapIndex
  {
    hide Live, Used, InodeAt, BlockAt, IsBlock, PtrOf, BlockOf, Ownership, Tree, Counted, BitAt, Enter, PutInode;
    var n := FreeSlot(s.dir.items);
    HereIsUsed(s);
    EnterEffect(s, name, n);
    var (s1, ino) := Enter(s, name, n);
    SameInodes(s.disk, s1.disk);
    SameBits(s.disk, s1.disk);
    PutInodeEffect(s1.disk, ino, NewFileInode(InodeAt(s1.disk, ino)));
    var t := TouchFile(s, name).0;
    SameBits(s1.disk, t.disk);
    SameBlocks(s1.disk, t.disk);
  }

  lemma TouchKeepsSound(s: Fs, name: string)
    requires Sound(s) && TouchFile(s, name).1 != NoInode
    ensures Sound(TouchFile(s, name).0)
    ensures TouchFile(s, name).1 == Done ==>
      exists h, n, ino :: EntryAdded(s.disk, TouchFile(s, name).0.disk, h, n, ino)
    ensures TouchFile(s, name).1 != Done ==> TouchFile(s, name).0 == s
  {
    hide Sound, Enter, Grown;
    if TouchFile(s, name).1 == Done {
      ExistsIff(s, name);
      TouchGrows(s, name);
      MapsAndHere(s);
      MakesInArea(s, name);
      var t, n := TouchFile(s, name).0, FreeSlot(s.dir.items);
      GrownKeepsSound(s, t, n, name, t.dir.items[n].ino, InodeAt(t.disk, t.dir.items[n].ino), 0);
    }
  }

  // ---------------------------------------------------------------- rmdir

  /** What the search for an entry of the current directory means in the tree. */
  lemma FoundEntry(s: Fs, i: int, h: int)
    requires Sound(s) && 0 <= i < MAX_DIR_ITEM_NUM && s.dir.items[i].valid && IsHere(s, h)
    ensures var c := s.dir.items[i].ino;
      Entry(s.disk, h, i, c) && c != 0 && Live(s.disk, c) && 0 <= c < INODE_ITEM_NUM
      && (DirInode(s.disk, c) ==>
            && IsBlock(DirPtr(s.disk, c)) && BlockAt(s.disk, DirPtr(s.disk, c)).DirBlock?
            && DirPtr(s.disk, c) == PtrOf(BlockOf(DirPtr(s.disk, c))) && Used(s.disk, BlockOf(DirPtr(s.disk, c)))
            && DirAt(s.disk, DirPtr(s.disk, c)).parent == s.here && DirPtr(s.disk, c) != DARRAY_ADDR)
  {
    hide Live, Used, InodeAt, BlockAt, PtrOf, BlockOf, Counted, BitAt;
    var c := s.dir.items[i].ino;
    assert EntryOk(s.disk, h, i, c) && InodeOk(s.disk, c) && OwnerOk(s.disk, c, 0) && SectorOk(s.disk, c)
        && RootOk(s.disk);
    assert OnlyOwner(s.disk, c, 0, 0, 0);
  }

  lemma RemoveDirShrinks(s: Fs, name: string)
    requires Sound(s) && RemoveDir(s, name).1 == Done
    ensures var (t, n) := (RemoveDir(s, name).0, FindItem(s.dir.items, name));
      && n != -1
      && var ino := s.dir.items[n].ino;
      && DirInode(s.disk, ino) && IsEmpty(DirAt(s.disk, DirPtr(s.disk, ino)))
      && Shrunk(s.disk, t.disk, s.here, n, ino, BlockOf(DirPtr(s.disk, ino)))
      && MapsCached(t) && DirCached(t) && t.here == s.here && t.fds == s.fds && t.fdList == s.fdList
      && t.super == Super(s.super.inodeUsed - 1, s.super.dataUsed - 1)
      && t.smapIndex == BlockOf(DirPtr(s.disk, ino)) / WINDOW_BITS && t.disk.blocks.rest == s.disk.blocks.rest
  {
    hide Live, Used, InodeAt, BlockAt, IsBlock, PtrOf, BlockOf, Ownership, Tree, Counted, BitAt, FreeInode, FreeBlock,
      PutBlock;
    var n := FindItem(s.dir.items, name);
    var ino := s.dir.items[n].ino;
    HereIsUsed(s);
    var h :| IsHere(s, h);
    FoundEntry(s, n, h);
    var b := BlockOf(DirPtr(s.disk, ino));
    BlockRange(s.disk, b);
    FreeInodeEffect(s, ino);
    var s1 := FreeInode(s, ino);
    SameBits(s.disk, s1.disk);
    FreeBlockEffect(s1, b);
    var s2 := FreeBlock(s1, b);
    SameBits(s1.disk, s2.disk);
    SameBlocks(s.disk, s2.disk);
    var s3 := SetItem(s2, n, s2.dir.items[n].(valid := false));
    PutBlockEffect(s3.disk, s3.here, DirBlock(s3.dir));
    var t := WriteDir(s3);
    SameBits(s3.disk, t.disk);
    SameInodes(s.disk, t.disk);
  }

  lemma BlockRange(d: Disk, b: int)
    requires Used(d, b)
    ensures 0 <= b < DATA_ITEM_NUM
  {}

  lemma RemoveDirKeepsSound(s: Fs, name: string)
    requires Sound(s)
    ensures Sound(RemoveDir(s, name).0) && NoEntryAdded(s.disk, RemoveDir(s, name).0.disk)
  {
    hide Live, Used, InodeAt, BlockAt, IsBlock, PtrOf, BlockOf, Ownership, Tree, BitAt, Drop, FindItem, IsEmpty;
    if RemoveDir(s, name).1 == Done {
      RemoveDirShrinks(s, name);
      var t, n := RemoveDir(s, name).0, FindItem(s.dir.items, name);
      var ino := s.dir.items[n].ino;
      var b := BlockOf(DirPtr(s.disk, ino));
      var h :| IsHere(s, h);
      FindItemRange(s.dir.items, name);
      FoundEntry(s, n, h);
      BlockRange(s.disk, b);
      ShrunkKeepsOwnership(s.disk, t.disk, s.here, n, ino, b);
      ShrunkKeepsTree(s.disk, t.disk, s.here, n, ino, b, h);
      CountInodes(s.disk, t.disk, ino, false);
      CountBlocks(s.disk, t.disk, b, false);
      assert IsHere(t, h);
    }
  }

  /** A directory that rmdir would remove has a number and a block that exist. */
  predicate RemovesLive(s: Fs, name: string) {
    RemoveDir(s, name).1 == Done ==>
      var ino := s.dir.items[FindItem(s.dir.items, name)].ino;
      0 <= ino < INODE_ITEM_NUM && 0 <= BlockOf(InodeAt(s.disk, ino).pointers[0]) < DATA_ITEM_NUM
  }

  lemma SoundRemovesLive(s: Fs, name: string)
    requires Sound(s)
    ensures RemovesLive(s, name)
  {
    hide InodeAt, BlockAt, DirAt, BitAt, Used, Live, Ownership, Tree, FindItem, RemoveDir;
    FindItemRange(s.dir.items, name);
    var n := FindItem(s.dir.items, name);
    if RemoveDir(s, name).1 == Done {
      var h :| IsHere(s, h);
      RemoveDirShrinks(s, name);
      FoundEntry(s, n, h);
      BlockRange(s.disk, BlockOf(DirPtr(s.disk, s.dir.items[n].ino)));
    }
  }

  lemma FindItemRange(items: seq<Item>, name: string)
    ensures var i := FindItem(items, name);
      -1 <= i < |items| && (i != -1 ==> items[i].valid && items[i].name == name)
  {}

  // ---------------------------------------------------------------- cd and mount

  lemma GoToKeepsSound(s: Fs, h: int)
    requires Sound(s) && DirInode(s.disk, h)
    ensures Sound(GoTo(s, DirPtr(s.disk, h)))
  {
    hide Live, Used, InodeAt, BlockAt, IsBlock, PtrOf, BlockOf, Counted, BitAt;
    assert SectorOk(s.disk, h) && OwnerOk(s.disk, h, 0);
    DirPtrIsBlock(s.disk, h);
    assert IsHere(GoTo(s, DirPtr(s.disk, h)), h);
  }

  lemma DirPtrIsBlock(d: Disk, h: int)
    requires Ownership(d) && DirInode(d, h)
    ensures IsBlock(DirPtr(d, h))
  {
    assert OwnerOk(d, h, 0);
  }

  lemma MountKeepsSound(s: Fs)
    requires DiskSound(s.disk)
    ensures Sound(Mount(s)) && Mount(s).here == DARRAY_ADDR
  {
    hide Live, Used, InodeAt, BlockAt, IsBlock, PtrOf, BlockOf, Counted, BitAt;
    assert RootOk(s.disk) && SectorOk(s.disk, 0);
    DirPtrIsBlock(s.disk, 0);
    assert IsHere(Mount(s), 0);
  }
}
