/** The invariant of the file system and how each kind of change of the disk keeps it. */
module FsTree {
  import opened Bitmap
  import opened Fs
  import opened FsRuns

  // ---------------------------------------------------------------- who owns a block

  predicate DirInode(d: Disk, i: int) {
    Live(d, i) && InodeAt(d, i).kind == FILE_DIR
  }

  predicate FileInode(d: Disk, i: int) {
    Live(d, i) && InodeAt(d, i).kind == FILE_NORMAL
  }

  /** A directory owns one block; a file owns the blocks up to its allocated size. */
  function SlotsOf(x: Inode): int {
    if x.kind == FILE_DIR then 1 else if x.kind == FILE_NORMAL then x.capacity / 512 else 0
  }

  function PtrAt(d: Disk, i: int, k: int): int {
    if 0 <= k < SLOT_NUM then InodeAt(d, i).pointers[k] else 0
  }

  predicate Holds(d: Disk, i: int, k: int) {
    Live(d, i) && 0 <= k < SlotsOf(InodeAt(d, i))
  }

  predicate Owns(d: Disk, i: int, k: int, b: int) {
    Holds(d, i, k) && PtrAt(d, i, k) == PtrOf(b)
  }

  predicate InodeOk(d: Disk, i: int) {
    Live(d, i) ==>
      && 0 <= i < INODE_ITEM_NUM
      && ((InodeAt(d, i).kind == FILE_DIR && InodeAt(d, i).capacity == 512) ||
          (InodeAt(d, i).kind == FILE_NORMAL && InodeAt(d, i).capacity % 512 == 0
           && InodeAt(d, i).capacity <= SLOT_NUM * SECTOR_SIZE))
  }

  predicate OwnerOk(d: Disk, i: int, k: int) {
    Holds(d, i, k) ==> IsBlock(PtrAt(d, i, k)) && Used(d, BlockOf(PtrAt(d, i, k)))
  }

  predicate OnlyOwner(d: Disk, i: int, k: int, j: int, l: int) {
    (Holds(d, i, k) && Holds(d, j, l) && PtrAt(d, i, k) == PtrAt(d, j, l)) ==> (i == j && k == l)
  }

  ghost predicate IsOwned(d: Disk, b: int) {
    Used(d, b) ==> exists i, k :: Owns(d, i, k, b)
  }

  /** Each used block is owned exactly once and each owned block is used. */
  ghost predicate Ownership(d: Disk) {
    && (forall i :: InodeOk(d, i))
    && (forall i, k :: OwnerOk(d, i, k))
    && (forall i, k, j, l :: OnlyOwner(d, i, k, j, l))
    && (forall b :: IsOwned(d, b))
  }

  // ---------------------------------------------------------------- the tree

  function DirPtr(d: Disk, i: int): int { PtrAt(d, i, 0) }

  function ItemOf(d: Disk, i: int, n: int): Item {
    if 0 <= n < MAX_DIR_ITEM_NUM then DirAt(d, DirPtr(d, i)).items[n] else Item(false, "", 0)
  }

  /** Item n of directory i is valid and names inode c. */
  predicate Entry(d: Disk, i: int, n: int, c: int) {
    DirInode(d, i) && ItemOf(d, i, n).valid && ItemOf(d, i, n).ino == c
  }

  predicate SectorOk(d: Disk, i: int) {
    DirInode(d, i) ==> BlockAt(d, DirPtr(d, i)).DirBlock?
  }

  /** An entry names a live inode other than the root, and a directory it names points back to where it is entered and
      carries the same name. */
  predicate EntryOk(d: Disk, i: int, n: int, c: int) {
    Entry(d, i, n, c) ==>
      && c != 0 && Live(d, c)
      && (DirInode(d, c) ==>
            DirAt(d, DirPtr(d, c)).parent == DirPtr(d, i) && DirAt(d, DirPtr(d, c)).name == ItemOf(d, i, n).name)
  }

  predicate OnlyEntry(d: Disk, i: int, n: int, j: int, m: int, c: int) {
    (Entry(d, i, n, c) && Entry(d, j, m, c)) ==> (i == j && n == m)
  }

  predicate OnlyName(d: Disk, i: int, n: int, m: int) {
    (DirInode(d, i) && ItemOf(d, i, n).valid && ItemOf(d, i, m).valid
      && ItemOf(d, i, n).name == ItemOf(d, i, m).name) ==>
      n == m
  }

  /** The field for the name holds 26 characters. */
  predicate NameOk(d: Disk, i: int, n: int) {
    (DirInode(d, i) && ItemOf(d, i, n).valid) ==> |ItemOf(d, i, n).name| <= 26
  }

  ghost predicate HasEntry(d: Disk, c: int) {
    (Live(d, c) && c != 0) ==> exists i, n :: Entry(d, i, n, c)
  }

  predicate RootOk(d: Disk) {
    DirInode(d, 0) && DirPtr(d, 0) == DARRAY_ADDR
  }

  /** Every live inode but the root is entered exactly once, under a name that is unique in its directory and not too
      long for it. */
  ghost predicate Tree(d: Disk) {
    && RootOk(d)
    && (forall i :: SectorOk(d, i))
    && (forall i, n, c :: EntryOk(d, i, n, c))
    && (forall i, n, j, m, c :: OnlyEntry(d, i, n, j, m, c))
    && (forall i, n, m :: OnlyName(d, i, n, m))
    && (forall i, n :: NameOk(d, i, n))
    && (forall c :: HasEntry(d, c))
  }

  // ---------------------------------------------------------------- a new inode

  /** `e` is `d` with inode `ino` made live as `x` and entered as item n of the directory at `here`; a directory also
      gets block b, an empty directory under `here`. */
  ghost predicate Grown(d: Disk, e: Disk, here: int, n: int, name: string, ino: int, x: Inode, b: int) {
    && !Live(d, ino) && 0 <= ino < INODE_ITEM_NUM && 0 <= n < MAX_DIR_ITEM_NUM
    && (forall i :: Live(e, i) <==> (Live(d, i) || i == ino))
    && (forall i :: InodeAt(e, i) == if i == ino then x else InodeAt(d, i))
    && (forall c :: Used(e, c) <==> (Used(d, c) || (x.kind == FILE_DIR && c == b)))
    && (forall q :: BlockAt(e, q) ==
          if q == here then DirBlock(DirAt(d, here).(items := DirAt(d, here).items[n := Item(true, name, ino)]))
          else if x.kind == FILE_DIR && q == PtrOf(b) then DirBlock(Dir(here, name, BlankItems())) else BlockAt(d, q))
    && ((x.kind == FILE_DIR && x.capacity == 512) || (x.kind == FILE_NORMAL && x.capacity == 0))
    && (x.kind == FILE_DIR ==> x.pointers[0] == PtrOf(b) && 0 <= b < DATA_ITEM_NUM && !Used(d, b))
  }

  lemma GrownKeepsOwnership(d: Disk, e: Disk, here: int, n: int, name: string, ino: int, x: Inode, b: int)
    requires Ownership(d) && Grown(d, e, here, n, name, ino, x, b)
    ensures Ownership(e)
  {
    hide Live, Used, InodeAt, BlockAt, PtrOf, BlockOf;
    BlockInverse(b);
    forall i ensures InodeOk(e, i) { assert InodeOk(d, i); }
    forall i, k
      ensures OwnerOk(e, i, k) && (i != ino ==> Holds(e, i, k) == Holds(d, i, k) && PtrAt(e, i, k) == PtrAt(d, i, k))
    {
      assert OwnerOk(d, i, k);
    }
    forall i, k, j, l ensures OnlyOwner(e, i, k, j, l) {
      assert OnlyOwner(d, i, k, j, l) && OwnerOk(d, i, k) && OwnerOk(d, j, l);
    }
    forall c ensures IsOwned(e, c) {
      assert IsOwned(d, c);
      if x.kind == FILE_DIR && c == b {
        assert Owns(e, ino, 0, c);
      } else if Used(e, c) {
        var i, k :| Owns(d, i, k, c);
        assert Owns(e, i, k, c);
      }
    }
  }

  lemma GrownKeepsTree(d: Disk, e: Disk, here: int, n: int, name: string, ino: int, x: Inode, b: int, h: int)
    requires Ownership(d) && Tree(d) && Grown(d, e, here, n, name, ino, x, b)
    requires DirInode(d, h) && DirPtr(d, h) == here && !DirAt(d, here).items[n].valid && |name| <= 26
    requires forall m :: 0 <= m < MAX_DIR_ITEM_NUM && DirAt(d, here).items[m].valid ==>
      DirAt(d, here).items[m].name != name
    ensures Tree(e)
    ensures forall i, m, c :: Entry(e, i, m, c) <==> (Entry(d, i, m, c) || (i == h && m == n && c == ino))
  {
    hide Live, Used, InodeAt, BlockAt, PtrOf, BlockOf;
    BlockInverse(b);
    assert SectorOk(d, h);
    assert RootOk(d) && ino != 0;
    assert OwnerOk(d, h, 0);
    forall i ensures SectorOk(e, i) && (DirInode(d, i) ==> DirInode(e, i) && DirPtr(e, i) == DirPtr(d, i)) {
      assert SectorOk(d, i);
    }
    forall i | DirInode(d, i) && i != h ensures DirAt(e, DirPtr(e, i)) == DirAt(d, DirPtr(d, i)) {
      assert OnlyOwner(d, i, 0, h, 0) && OwnerOk(d, i, 0);
    }
    forall i, m, c ensures Entry(e, i, m, c) <==> (Entry(d, i, m, c) || (i == h && m == n && c == ino)) {
    }
    forall i, m, c ensures EntryOk(e, i, m, c) { assert EntryOk(d, i, m, c); }
    forall i, m, j, l, c ensures OnlyEntry(e, i, m, j, l, c) {
      assert OnlyEntry(d, i, m, j, l, c) && EntryOk(d, i, m, c) && EntryOk(d, j, l, c);
    }
    forall i, m, l ensures OnlyName(e, i, m, l) { assert OnlyName(d, i, m, l); }
    forall i, m ensures NameOk(e, i, m) { assert NameOk(d, i, m); }
    forall c ensures HasEntry(e, c) {
      assert HasEntry(d, c);
      if c == ino {
        assert Entry(e, h, n, c);
      } else if Live(e, c) && c != 0 {
        var i, m :| Entry(d, i, m, c);
        assert Entry(e, i, m, c);
      }
    }
  }

  // ---------------------------------------------------------------- an empty directory goes

  ghost predicate Shrunk(d: Disk, e: Disk, here: int, n: int, ino: int, b: int) {
    && 0 <= n < MAX_DIR_ITEM_NUM
    && (forall i :: Live(e, i) <==> (Live(d, i) && i != ino))
    && (forall i :: InodeAt(e, i) == InodeAt(d, i))
    && (forall c :: Used(e, c) <==> (Used(d, c) && c != b))
    && (forall q :: BlockAt(e, q) ==
          if q == here then DirBlock(DirAt(d, here).(items :=
            DirAt(d, here).items[n := DirAt(d, here).items[n].(valid := false)])) else BlockAt(d, q))
  }

  lemma ShrunkKeepsOwnership(d: Disk, e: Disk, here: int, n: int, ino: int, b: int)
    requires Ownership(d) && Shrunk(d, e, here, n, ino, b) && DirInode(d, ino) && DirPtr(d, ino) == PtrOf(b)
    ensures Ownership(e)
  {
    hide Live, Used, InodeAt, BlockAt, PtrOf, BlockOf;
    BlockInverse(b);
    forall i ensures InodeOk(e, i) { assert InodeOk(d, i); }
    forall i, k ensures OwnerOk(e, i, k) && (Holds(e, i, k) <==> Holds(d, i, k) && i != ino) {
      assert OwnerOk(d, i, k) && OnlyOwner(d, i, k, ino, 0);
    }
    forall i, k, j, l ensures OnlyOwner(e, i, k, j, l) { assert OnlyOwner(d, i, k, j, l); }
    forall c ensures IsOwned(e, c) {
      assert IsOwned(d, c);
      BlockInverse(c);
      if Used(e, c) {
        var i, k :| Owns(d, i, k, c);
        assert Owns(e, i, k, c);
      }
    }
  }

  lemma ShrunkKeepsTree(d: Disk, e: Disk, here: int, n: int, ino: int, b: int, h: int)
    requires Ownership(d) && Tree(d) && Shrunk(d, e, here, n, ino, b)
    requires Entry(d, h, n, ino) && DirPtr(d, h) == here && DirInode(d, ino) && IsEmpty(DirAt(d, DirPtr(d, ino)))
    ensures Tree(e) && DirInode(e, h)
    ensures forall i, m, c :: Entry(e, i, m, c) <==> (Entry(d, i, m, c) && !(i == h && m == n))
  {
    hide Live, Used, InodeAt, BlockAt, PtrOf, BlockOf;
    assert RootOk(d) && EntryOk(d, h, n, ino);
    forall i ensures SectorOk(e, i) && (i != ino ==> DirInode(e, i) == DirInode(d, i) && DirPtr(e, i) == DirPtr(d, i)) {
      assert SectorOk(d, i);
    }
    forall i | DirInode(d, i) && i != h ensures DirAt(e, DirPtr(e, i)) == DirAt(d, DirPtr(d, i)) {
      assert OnlyOwner(d, i, 0, h, 0) && OwnerOk(d, i, 0);
    }
    forall m, c ensures !Entry(d, ino, m, c) {}
    forall i, m, c ensures Entry(e, i, m, c) <==> (Entry(d, i, m, c) && !(i == h && m == n)) {}
    forall i, m, c ensures EntryOk(e, i, m, c) { assert EntryOk(d, i, m, c) && OnlyEntry(d, i, m, h, n, c); }
    forall i, m, j, l, c ensures OnlyEntry(e, i, m, j, l, c) { assert OnlyEntry(d, i, m, j, l, c); }
    forall i, m, l ensures OnlyName(e, i, m, l) { assert OnlyName(d, i, m, l); }
    forall i, m ensures NameOk(e, i, m) { assert NameOk(d, i, m); }
    forall c ensures HasEntry(e, c) {
      assert HasEntry(d, c);
      if Live(e, c) && c != 0 {
        var i, m :| Entry(d, i, m, c);
        assert Entry(e, i, m, c);
      }
    }
  }

  // ---------------------------------------------------------------- a file changes

  /** A file's inode becomes `x`, which may own one more block b, and one of its own blocks may be rewritten. */
  ghost predicate Rewritten(d: Disk, e: Disk, ino: int, x: Inode, grows: bool, b: int, p: int) {
    && FileInode(d, ino)
    && (forall i :: Live(e, i) <==> Live(d, i))
    && (forall i :: InodeAt(e, i) == if i == ino then x else InodeAt(d, i))
    && (forall c :: Used(e, c) <==> (Used(d, c) || (grows && c == b)))
    && (forall q :: q != p ==> BlockAt(e, q) == BlockAt(d, q))
    && var y := InodeAt(d, ino);
       && x.kind == FILE_NORMAL
       && (!grows ==> x.pointers == y.pointers && x.capacity == y.capacity)
       && (grows ==> 0 <= y.capacity < SLOT_NUM * SECTOR_SIZE && x == AddBlock(y, PtrOf(b)))
       && (grows ==> 0 <= b < DATA_ITEM_NUM && !Used(d, b))
  }

  lemma SlotCount(c: int)
    requires c % 512 == 0
    ensures (c + 512) / 512 == c / 512 + 1 && (c + 512) % 512 == 0
  {}

  lemma RewrittenKeepsOwnership(d: Disk, e: Disk, ino: int, x: Inode, grows: bool, b: int, p: int)
    requires Ownership(d) && Rewritten(d, e, ino, x, grows, b, p)
    ensures Ownership(e)
  {
    hide Live, Used, InodeAt, BlockAt, PtrOf, BlockOf;
    BlockInverse(b);
    var y := InodeAt(d, ino);
    var s := y.capacity / 512;
    assert InodeOk(d, ino);
    SlotCount(y.capacity);
    forall i ensures InodeOk(e, i) { assert InodeOk(d, i); }
    forall i, k ensures OwnerOk(e, i, k) && (Holds(e, i, k) <==> (Holds(d, i, k) || (grows && i == ino && k == s)))
      && (Holds(d, i, k) ==> PtrAt(e, i, k) == PtrAt(d, i, k))
    {
      assert OwnerOk(d, i, k);
    }
    assert grows ==> Owns(e, ino, s, b);
    forall i, k, j, l ensures OnlyOwner(e, i, k, j, l) {
      assert OnlyOwner(d, i, k, j, l) && OwnerOk(d, i, k) && OwnerOk(d, j, l);
    }
    forall c ensures IsOwned(e, c) {
      assert IsOwned(d, c);
      if Used(d, c) {
        var i, k :| Owns(d, i, k, c);
        assert Owns(e, i, k, c);
      }
    }
  }

  /** No directory is in a block that is not a directory's. */
  lemma RewrittenKeepsTree(d: Disk, e: Disk, ino: int, x: Inode, grows: bool, b: int, p: int)
    requires Ownership(d) && Tree(d) && Rewritten(d, e, ino, x, grows, b, p)
    requires forall i :: DirInode(d, i) ==> DirPtr(d, i) != p
    ensures Tree(e)
    ensures forall i :: DirInode(e, i) == DirInode(d, i) && (DirInode(d, i) ==> DirPtr(e, i) == DirPtr(d, i))
    ensures forall i, m, c :: Entry(e, i, m, c) <==> Entry(d, i, m, c)
  {
    hide Live, Used, InodeAt, BlockAt, PtrOf, BlockOf;
    assert RootOk(d);
    forall i
      ensures SectorOk(e, i) && DirInode(e, i) == DirInode(d, i) && (DirInode(d, i) ==> DirPtr(e, i) == DirPtr(d, i))
    {
      assert SectorOk(d, i);
    }
    forall i | DirInode(d, i) ensures DirAt(e, DirPtr(e, i)) == DirAt(d, DirPtr(d, i)) {}
    forall i, m, c ensures Entry(e, i, m, c) <==> Entry(d, i, m, c) {}
    forall i, m, c ensures EntryOk(e, i, m, c) { assert EntryOk(d, i, m, c); }
    forall i, m, j, l, c ensures OnlyEntry(e, i, m, j, l, c) { assert OnlyEntry(d, i, m, j, l, c); }
    forall i, m, l ensures OnlyName(e, i, m, l) { assert OnlyName(d, i, m, l); }
    forall i, m ensures NameOk(e, i, m) { assert NameOk(d, i, m); }
    forall c ensures HasEntry(e, c) {
      assert HasEntry(d, c);
      if Live(e, c) && c != 0 {
        var i, m :| Entry(d, i, m, c);
        assert Entry(e, i, m, c);
      }
    }
  }

  /** A block of a file is no directory's. */
  lemma FileBlockIsNoDir(d: Disk, ino: int, k: int)
    requires Ownership(d) && FileInode(d, ino) && Holds(d, ino, k)
    ensures forall i :: DirInode(d, i) ==> DirPtr(d, i) != PtrAt(d, ino, k)
  {
    hide Live, Used, InodeAt, BlockAt, PtrOf, BlockOf;
    forall i | DirInode(d, i) ensures DirPtr(d, i) != PtrAt(d, ino, k) {
      assert OnlyOwner(d, i, 0, ino, k);
    }
  }

  // ---------------------------------------------------------------- depth

  function RankOf(rank: map<int, nat>, c: int): nat {
    if c in rank then rank[c] else 0
  }

  /** An entry leads one step further from the root. */
  ghost predicate Ranks(d: Disk, rank: map<int, nat>) {
    forall i, m, c :: Entry(d, i, m, c) ==> RankOf(rank, c) == RankOf(rank, i) + 1
  }

  /** The directories have no cycle. */
  ghost predicate Acyclic(d: Disk) {
    exists rank :: Ranks(d, rank)
  }
}
