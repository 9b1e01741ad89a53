/** mkdir and touch when they cannot go through: what they leave half done, and exactly when that does harm. */
module FsAtomic {
  import opened Bitmap
  import opened Fs
  import opened FsRuns
  import opened FsTree
  import opened FsCalls

  // ---------------------------------------------------------------- mkdir undone, mkdir half done

  /** mkdir of a new name and rmdir of it give back both bitmaps, both counters and the entries of the directory. */
  lemma MakeThenRemove(s: Fs, name: string)
    requires Sound(s) && MakeDir(s, name).1 == Done
    ensures var (u, o) := RemoveDir(MakeDir(s, name).0, name);
      && o == Done && u.here == s.here && u.super == s.super
      && (forall i :: Live(u.disk, i) <==> Live(s.disk, i)) && (forall b :: Used(u.disk, b) <==> Used(s.disk, b))
      && forall k :: 0 <= k < MAX_DIR_ITEM_NUM ==>
           u.dir.items[k].valid == s.dir.items[k].valid && (s.dir.items[k].valid ==> u.dir.items[k] == s.dir.items[k])
  {
    hide Live, Used, InodeAt, BlockAt, PtrOf, BlockOf, BitAt, IsBlock, Ownership, Tree, Counted, Enter, AllocBlock,
      PutNewDir, Drop;
    var t := MakeDir(s, name).0;
    ExistsIff(s, name);
    MakeDirGrows(s, name);
    MakeDirKeepsSound(s, name);
    var n := FreeSlot(s.dir.items);
    NewDirIs(s, name);
    FsFindsNew(s, t, n, name);
    RemoveDirShrinks(t, name);
  }

  /** The new directory is where its inode says, and empty. */
  lemma NewDirIs(s: Fs, name: string)
    requires Sound(s) && MakeDir(s, name).1 == Done
    ensures var (t, n) := (MakeDir(s, name).0, FreeSlot(s.dir.items));
      var ino := t.dir.items[n].ino;
      && n < MAX_DIR_ITEM_NUM && t.dir == s.dir.(items := s.dir.items[n := Item(true, name, ino)])
      && IsEmpty(DirAt(t.disk, InodeAt(t.disk, ino).pointers[0]))
      && InodeAt(t.disk, ino).pointers[0] == PtrOf(BlockOf(InodeAt(t.disk, ino).pointers[0]))
  {
    hide Live, Used, InodeAt, PtrOf, BlockOf, BitAt, Ownership, Tree, Counted, Enter, AllocBlock, PutNewDir, BlockAt,
      IsBlock;
    MakeDirGrows(s, name);
    var t, n := MakeDir(s, name).0, FreeSlot(s.dir.items);
    var ino := t.dir.items[n].ino;
    HereIsUsed(s);
    var b := BlockOf(InodeAt(t.disk, ino).pointers[0]);
    BlockInverse(b);
    assert b != BlockOf(s.here);
  }

  lemma FsFindsNew(s: Fs, t: Fs, n: nat, name: string)
    requires FindItem(s.dir.items, name) == -1 && n < MAX_DIR_ITEM_NUM && t.dir.items[n].valid
    requires t.dir.items[n].name == name
    requires forall k :: 0 <= k < MAX_DIR_ITEM_NUM && k != n ==> t.dir.items[k] == s.dir.items[k]
    ensures FindItem(t.dir.items, name) == n
  {}

  ghost predicate HasInode(s: Fs) {
    exists i :: 0 <= i < INODE_ITEM_NUM && !Live(s.disk, i)
  }

  /** What mkdir leaves when no inode is clear: an entry in memory that is not on disk. */
  ghost predicate HalfEntered(s: Fs, t: Fs) {
    var n := FreeSlot(s.dir.items);
    n < MAX_DIR_ITEM_NUM && t == SetItem(s, n, s.dir.items[n].(valid := true)) && !DirCached(t)
  }

  /** What mkdir leaves when no block is clear: an entry on disk for an inode that was never written. */
  ghost predicate HalfMade(s: Fs, t: Fs, name: string, ino: int) {
    && !Live(s.disk, ino) && Live(t.disk, ino) && InodeAt(t.disk, ino) == InodeAt(s.disk, ino)
    && FreeSlot(s.dir.items) < MAX_DIR_ITEM_NUM
    && DirAt(t.disk, s.here).items[FreeSlot(s.dir.items)] == Item(true, name, ino)
    && (forall b :: Used(t.disk, b) <==> Used(s.disk, b))
  }

  /** mkdir makes the whole directory or changes nothing exactly when, for a name it admits, an inode is clear and a
      block is clear at or above the window; otherwise it stops half way. */
  lemma MakeDirIsAtomicIff(s: Fs, name: string)
    requires Sound(s)
    ensures var (t, o) := MakeDir(s, name);
      && ((o == Done || t == s) <==> (Admit(s, name).0 != Done || (HasInode(s) && FreeAbove(s) != {})))
      && (o == NoInode ==> HalfEntered(s, t))
      && (o == NoBlock ==> exists ino :: HalfMade(s, t, name, ino))
  {
    hide Live, Used, InodeAt, PtrOf, BlockOf, BitAt, Ownership, Tree, Counted, Enter, AllocBlock, PutNewDir, BlockAt,
      IsBlock;
    SoundMapsHere(s);
    var n := FreeSlot(s.dir.items);
    if Admit(s, name).0 == Done {
      EnterEffect(s, name, n);
      var (s1, ino) := Enter(s, name, n);
      if ino != -1 {
        SameBits(s.disk, s1.disk);
        assert FreeAbove(s1) == FreeAbove(s);
        AllocBlockEffect(s1);
        var (s2, b) := AllocBlock(s1);
        SameBits(s1.disk, s2.disk);
        SameInodes(s.disk, s2.disk);
        SameBlocks(s1.disk, s2.disk);
        if b == -1 { assert HalfMade(s, s2, name, ino); }
      }
    }
  }

  lemma SoundMapsHere(s: Fs)
    requires Sound(s)
    ensures MapsCached(s) && DirCached(s)
  {}

  /** touch needs an inode only. */
  lemma TouchIsAtomicIff(s: Fs, name: string)
    requires Sound(s)
    ensures var (t, o) := TouchFile(s, name);
      && ((o == Done || t == s) <==> (Admit(s, name).0 != Done || HasInode(s)))
      && (o == NoInode ==> HalfEntered(s, t))
  {
    hide Live, Used, InodeAt, PtrOf, BlockOf, BitAt, Ownership, Tree, Counted, Enter, BlockAt, IsBlock, PutInode;
    SoundMapsHere(s);
    if Admit(s, name).0 == Done {
      EnterEffect(s, name, FreeSlot(s.dir.items));
    }
  }

  // ---------------------------------------------------------------- when that does harm

  /** The inode that mkdir would take was last an empty file. */
  predicate StaleIsEmptyFile(s: Fs) {
    var x := InodeAt(s.disk, AllocInode(s).1);
    x.kind == FILE_NORMAL && x.capacity == 0
  }

  lemma HasInodeIff(s: Fs)
    requires MapsCached(s)
    ensures AllocInode(s).1 != -1 <==> HasInode(s)
    ensures AllocInode(s).1 != -1 ==> 0 <= AllocInode(s).1 < INODE_ITEM_NUM && !Live(s.disk, AllocInode(s).1)
  {
    hide Live, AllocInode;
    AllocInodeEffect(s);
  }

  /** A stale record that is brought to life without being written, unless it is an empty
      file, claims a block of another. */
  lemma StaleClaims(d: Disk, e: Disk, ino: int)
    requires Ownership(d) && !Live(d, ino) && Live(e, ino)
    requires forall i :: Live(d, i) ==> Live(e, i)
    requires forall i :: InodeAt(e, i) == InodeAt(d, i)
    requires forall b :: Used(e, b) <==> Used(d, b)
    requires !(InodeAt(d, ino).kind == FILE_NORMAL && InodeAt(d, ino).capacity == 0)
    ensures !Ownership(e)
  {
    hide Live, Used, InodeAt, BlockAt, PtrOf, BlockOf;
    if InodeOk(e, ino) && OwnerOk(e, ino, 0) {
      assert Holds(e, ino, 0);
      var b := BlockOf(PtrAt(e, ino, 0));
      assert IsOwned(d, b);
      var j, l :| Owns(d, j, l, b);
      assert Holds(e, j, l) && PtrAt(e, j, l) == PtrAt(e, ino, 0);
      assert !OnlyOwner(e, ino, 0, j, l);
    }
  }

  /** mkdir keeps the file system sound exactly when, for a name it admits, an inode is clear and either a block is
      clear at or above the window or the inode's old record is that of an empty file. */
  lemma MakeDirKeepsSoundIff(s: Fs, name: string)
    requires Sound(s)
    ensures Sound(MakeDir(s, name).0) <==>
      (Admit(s, name).0 == Done ==> HasInode(s) && (FreeAbove(s) != {} || StaleIsEmptyFile(s)))
  {
    hide Live, Used, InodeAt, PtrOf, BlockOf, BitAt, Ownership, Tree, Counted, Enter, AllocBlock, AllocInode, PutNewDir,
      BlockAt, IsBlock, Sound, FreeAbove, Grown, Admit;
    MakeDirIsAtomicIff(s, name);
    SoundMapsHere(s);
    HasInodeIff(s);
    var (t, o) := MakeDir(s, name);
    if Admit(s, name).0 == Done {
      if o == NoInode {
        NoInodeMeans(s, name);
        NotCached(t);
      } else if o == NoBlock {
        NoBlockIff(s, name);
      } else {
        MakeDirKeepsSound(s, name);
      }
    } else {
      MakeDirRefuses(s, name);
    }
  }

  lemma NoInodeMeans(s: Fs, name: string)
    requires MakeDir(s, name).1 == NoInode
    ensures AllocInode(s).1 == -1
  {
    hide FindItem, AllocInode, AllocBlock;
    EnterTakes(s, name, FreeSlot(s.dir.items));
    hide Enter;
  }

  lemma MakeDirRefuses(s: Fs, name: string)
    requires Admit(s, name).0 != Done
    ensures MakeDir(s, name).0 == s
  {
    hide Admit, Enter, AllocBlock;
  }

  lemma NotCached(t: Fs)
    requires !DirCached(t)
    ensures !Sound(t)
  {}

  lemma NoBlockIff(s: Fs, name: string)
    requires Sound(s) && MakeDir(s, name).1 == NoBlock
    ensures FreeAbove(s) == {} && HasInode(s) && (Sound(MakeDir(s, name).0) <==> StaleIsEmptyFile(s))
    ensures Sound(MakeDir(s, name).0) ==> exists h, n, ino :: EntryAdded(s.disk, MakeDir(s, name).0.disk, h, n, ino)
  {
    hide Live, Used, InodeAt, BlockAt, PtrOf, BlockOf, BitAt, Ownership, Tree, Counted, IsBlock, Grown, Sound,
      DirCached, MapsCached, FindItem, FreeSlot;
    var t, n, ino := MakeDir(s, name).0, FreeSlot(s.dir.items), AllocInode(s).1;
    ExistsIff(s, name);
    HalfMadeIs(s, name);
    var x := InodeAt(s.disk, ino);
    if x.kind == FILE_NORMAL && x.capacity == 0 {
      HalfMadeGrows(s, t, n, name, ino, x);
      MapsAndHere(s);
      MakesInArea(s, name);
      GrownKeepsSound(s, t, n, name, ino, x, 0);
    } else {
      SoundOwns(s);
      StaleClaims(s.disk, t.disk, ino);
      if Sound(t) { SoundOwns(t); }
    }
  }

  lemma SoundOwns(s: Fs)
    requires Sound(s)
    ensures Ownership(s.disk)
  {}

  /** `t` is `s` with an entry n for inode ino, which is live now but was not written. */
  ghost predicate EntryOnly(s: Fs, t: Fs, n: int, name: string, ino: int) {
    && 0 <= n < MAX_DIR_ITEM_NUM && !Live(s.disk, ino) && 0 <= ino < INODE_ITEM_NUM
    && (forall i :: Live(t.disk, i) <==> (Live(s.disk, i) || i == ino))
    && (forall i :: InodeAt(t.disk, i) == InodeAt(s.disk, i)) && (forall b :: Used(t.disk, b) <==> Used(s.disk, b))
    && t.dir == s.dir.(items := s.dir.items[n := Item(true, name, ino)]) && s.dir == DirAt(s.disk, s.here)
    && (forall q :: BlockAt(t.disk, q) == if q == s.here then DirBlock(t.dir) else BlockAt(s.disk, q))
    && t.here == s.here && t.super == Super(s.super.inodeUsed + 1, s.super.dataUsed)
  }

  /** All that mkdir has done when no block is clear. */
  lemma HalfMadeIs(s: Fs, name: string)
    requires Sound(s) && MakeDir(s, name).1 == NoBlock
    ensures EntryOnly(s, MakeDir(s, name).0, FreeSlot(s.dir.items), name, AllocInode(s).1)
    ensures MapsCached(MakeDir(s, name).0) && DirCached(MakeDir(s, name).0)
    ensures FileExists(s, name) == 0 && FreeAbove(s) == {} && HasInode(s)
  {
    hide Live, Used, InodeAt, PtrOf, BlockOf, BitAt, Ownership, Tree, Counted, AllocBlock, BlockAt, IsBlock, Enter;
    SoundMapsHere(s);
    var n := FreeSlot(s.dir.items);
    EnterEffect(s, name, n);
    EnterTakes(s, name, n);
    var (s1, ino) := Enter(s, name, n);
    SameInodes(s.disk, s1.disk);
    SameBits(s.disk, s1.disk);
    assert FreeAbove(s1) == FreeAbove(s);
    AllocBlockEffect(s1);
    var (s2, b) := AllocBlock(s1);
    SameInodes(s1.disk, s2.disk);
    SameBlocks(s1.disk, s2.disk);
    SameBits(s1.disk, s2.disk);
  }

  lemma EnterTakes(s: Fs, name: string, i: int)
    requires 0 <= i < MAX_DIR_ITEM_NUM
    ensures Enter(s, name, i).1 == AllocInode(s).1
  {}

  lemma HalfMadeGrows(s: Fs, t: Fs, n: nat, name: string, ino: int, x: Inode)
    requires EntryOnly(s, t, n, name, ino) && x == InodeAt(s.disk, ino) && x.kind == FILE_NORMAL && x.capacity == 0
    ensures Grown(s.disk, t.disk, s.here, n, name, ino, x, 0)
  {
    hide Live, Used, InodeAt, BlockAt;
  }

  /** touch keeps the file system sound exactly when, for a name it admits, an inode is clear. */
  lemma TouchKeepsSoundIff(s: Fs, name: string)
    requires Sound(s)
    ensures Sound(TouchFile(s, name).0) <==> (Admit(s, name).0 == Done ==> HasInode(s))
  {
    hide Live, Used, InodeAt, BitAt, Enter, Sound, PutInode, Admit;
    TouchIsAtomicIff(s, name);
    var (t, o) := TouchFile(s, name);
    if Admit(s, name).0 == Done {
      if o == NoInode { NotCached(t); } else { TouchKeepsSound(s, name); }
    } else {
      TouchRefuses(s, name);
    }
  }

  lemma TouchRefuses(s: Fs, name: string)
    requires Admit(s, name).0 != Done
    ensures TouchFile(s, name).0 == s
  {
    hide Admit, Enter;
  }
}
