/** mkfs: what it makes of any card, what it does to a file system in use, and the first boot. */
module FsFormat {
  import Slist
  import opened Bitmap
  import opened Fs
  import opened FsRuns
  import opened FsTree
  import opened FsCalls

  // ---------------------------------------------------------------- any card

  lemma {:induction false} SmallWord(j: nat)
    ensures !Bit(0, j) && (Bit(1, j) <==> j == 0)
    decreases j
  {
    if j > 0 { SmallWord(j - 1); }
  }

  lemma FirstWindowBits(k: int)
    ensures !BitAt(BlankWindow(), k) && (BitAt(FirstWindow(), k) <==> k == 0)
  {
    if 0 <= k < WINDOW_BITS { SmallWord(k % WORD_BITS); }
  }

  lemma FormatEffect(d: Disk, g: Group)
    ensures var e := Format(d, g);
      && (forall i :: Live(e, i) <==> i == 0) && (forall b :: Used(e, b) <==> b == 0)
      && InodeAt(e, 0) == RootInode(g[0]) && (forall i :: 0 < i < INODES_PER_SECTOR ==> InodeAt(e, i) == g[i])
      && BlockAt(e, DARRAY_ADDR) == DirBlock(RootDir()) && e.super == Super(1, 1) && e.blocks.rest == d.blocks.rest
  {
    hide BitAt, BlockAt, PutBlock, BlankItems, RootInode;
    var e := Format(d, g);
    var d1 := d.(super := Super(1, 1), ibits := FirstWindow(), dbits := FreshWindows(),
                 inodes := d.inodes[0 := g[0 := RootInode(g[0])]]);
    RootBlock();
    PtrIsBlock(0);
    PutBlockEffect(d1, DARRAY_ADDR, DirBlock(RootDir()));
    SameInodes(d1, e);
    forall i ensures Live(e, i) <==> i == 0 { FirstWindowBits(i); }
    forall b ensures Used(e, b) <==> b == 0 { FirstWindowBits(b % WINDOW_BITS); }
  }

  /** Everything mkfs leaves: one directory, the root, whose parent is itself and which has no entries, one inode and
      one block in use; the records of the next seven inodes are what the buffer held, and the rest of the card stays.
      */
  lemma FormatMakes(d: Disk, g: Group)
    ensures var e := Format(d, g);
      && e.super == Super(1, 1) && (forall i :: Live(e, i) <==> i == 0) && (forall b :: Used(e, b) <==> b == 0)
      && InodeAt(e, 0) == Inode(2, 1, 512, 512, g[0].pointers[0 := 0x01080000])
      && (forall i :: 0 < i < 8 ==> InodeAt(e, i) == g[i])
      && (forall i :: 8 <= i ==> InodeAt(e, i) == InodeAt(d, i))
      && BlockAt(e, 0x01080000).DirBlock?
      && BlockAt(e, 0x01080000).dir.parent == 0x01080000 && BlockAt(e, 0x01080000).dir.name == "/"
      && (forall k :: 0 <= k < 15 ==> !BlockAt(e, 0x01080000).dir.items[k].valid)
      && forall q :: q != 0x01080000 ==> BlockAt(e, q) == BlockAt(d, q)
  {
    hide BitAt, BlockAt, PutBlock, Live, Used;
    FormatEffect(d, g);
    var d1 := d.(super := Super(1, 1), ibits := FirstWindow(), dbits := FreshWindows(),
                 inodes := d.inodes[0 := g[0 := RootInode(g[0])]]);
    PutBlockEffect(d1, DARRAY_ADDR, DirBlock(RootDir()));
    SameBlocks(d, d1);
    SameInodes(d1, Format(d, g));
  }

  /** mkfs makes a sound file system of every intact card, whatever is on it. */
  lemma FormatIsSound(d: Disk, x: Group)
    ensures DiskSound(Format(d, x)) <==> Intact(d)
    ensures Acyclic(Format(d, x))
  {
    hide Live, Used, InodeAt, BlockAt, Format, PtrOf, BlockOf;
    var e := Format(d, x);
    FormatEffect(d, x);
    assert InodeBits(e) == {0};
    assert DataBits(e) == {0};
    assert PtrOf(0) == DARRAY_ADDR by { RootBlock(); }
    PtrIsBlock(0);
    BlockInverse(0);
    assert Owns(e, 0, 0, 0);
    assert forall i, m, c :: !Entry(e, i, m, c);
    assert Ranks(e, map[]);
  }

  lemma RootBlock()
    ensures PtrOf(0) == DARRAY_ADDR
  {}

  // ---------------------------------------------------------------- mkfs while in use

  /** The caches are what mount would read after mkfs. */
  predicate Fresh(s: Fs) {
    && s.super == Super(1, 1) && s.ibits == FirstWindow()
    && s.smapIndex <= WINDOW_NUM && (s.smapIndex < WINDOW_NUM ==> s.dbits == FreshWindow(s.smapIndex))
    && s.here == DARRAY_ADDR && s.dir == RootDir()
  }

  /** mkfs on a mounted file system leaves it sound exactly when the caches already are what mount would read
      afterwards, and the card is intact. */
  lemma FormatInUseIff(s: Fs, g: Group)
    ensures Sound(s.(disk := Format(s.disk, g))) <==> Fresh(s) && Intact(s.disk)
  {
    hide Live, Used, InodeAt, BlockAt, IsBlock, PtrOf, BlockOf, Ownership, Tree, Counted, Format, BlankItems, BitAt;
    var t := s.(disk := Format(s.disk, g));
    FormatIsSound(s.disk, g);
    FormatEffect(s.disk, g);
    FormatMaps(s.disk, g);
    RootBlock();
    PtrIsBlock(0);
    assert DirAt(t.disk, DARRAY_ADDR) == RootDir();
    assert IsHere(t, 0) <==> s.here == DARRAY_ADDR;
  }

  lemma FormatMaps(d: Disk, g: Group)
    ensures var e := Format(d, g);
      e.super == Super(1, 1) && e.ibits == FirstWindow() && forall w :: 0 <= w < WINDOW_NUM ==>
        e.dbits[w] == FreshWindow(w)
  {}

  /** The file system as the kernel finds it at the first boot on a card without one: nothing in memory has been set. */
  function Unmounted(d: Disk, fds: seq<Fd>, fdList: seq<Slist.Node>): Fs {
    Fs(d, Super(0, 0), BlankWindow(), BlankWindow(), 0, BlankDir(), 0, fds, fdList)
  }

  /** The first boot makes a file system without mounting it: it is not sound, and the first mkdir takes inode 0 and
      block 0, overwrites the root directory, and enters the new directory nowhere on the card. */
  lemma FirstBoot(d: Card, g: Group, fds: seq<Fd>, fdList: seq<Slist.Node>, name: string)
    requires |name| <= MAX_NAME_LENGTH
    ensures var s := Unmounted(Format(d, g), fds, fdList);
      var (t, o) := MakeDir(s, name);
      && !Sound(s) && o == Done
      && t.dir.items[0] == Item(true, name, 0) && FileExists(t, name) == 0
      && BlockAt(t.disk, DARRAY_ADDR) == DirBlock(Dir(0, name, BlankItems()))
      && InodeAt(t.disk, 0).pointers[0] == DARRAY_ADDR
  {
    hide Format, Enter, AllocBlock, PutNewDir, InodeAt, BlockAt, Sound, BlankItems, FindItem;
    var s := Unmounted(Format(d, g), fds, fdList);
    NotMounted(d, g, fds, fdList);
    BlankEntries(name);
    FirstEnter(s, name);
    var s1 := Enter(s, name, 0).0;
    FirstBlock(s1);
    RootBlock();
    PutNewDirEffect(AllocBlock(s1).0, 0, 0, name);
    FirstIsFound(s.dir.items, name);
  }

  lemma ZeroWindow()
    ensures FirstClear(BlankWindow()) == 0
  {
    assert Ones(BlankWindow()[0], WORD_BITS) == 0;
  }

  lemma BlankEntries(name: string)
    ensures FindItem(BlankItems(), name) == -1 && FreeSlot(BlankItems()) == 0
  {}

  lemma FirstIsFound(items: seq<Item>, name: string)
    requires items != []
    ensures FindItem(items[0 := Item(true, name, 0)], name) == 0
  {}

  lemma FirstEnter(s: Fs, name: string)
    requires s.ibits == BlankWindow() && s.here == 0
    ensures var (t, ino) := Enter(s, name, 0);
      ino == 0 && t.dbits == s.dbits && t.smapIndex == s.smapIndex && t.here == 0
      && t.dir == s.dir.(items := s.dir.items[0 := Item(true, name, 0)])
  {
    hide BlankWindow, FirstClear, Mark, IsBlock;
    ZeroWindow();
    NoBlockAtZero();
  }

  lemma FirstBlock(s: Fs)
    requires s.dbits == BlankWindow() && s.smapIndex == 0
    ensures var (t, b) := AllocBlock(s); b == 0 && t.here == s.here && t.dir == s.dir
  {
    hide BlankWindow, FirstClear, Mark;
    ZeroWindow();
  }

  lemma NotMounted(d: Card, g: Group, fds: seq<Fd>, fdList: seq<Slist.Node>)
    ensures !Sound(Unmounted(Format(d, g), fds, fdList))
  {
    hide Format, BlankItems, BlankWindow, BitAt, InodeAt, BlockAt, Ownership, Tree, Counted, MapsCached, IsHere,
      IsBlock;
    NoBlockAtZero();
  }

  lemma NoBlockAtZero()
    ensures !IsBlock(0)
  {}
}
