/** What writing a sector, taking and releasing an inode or a block does to the card, to the bitmaps and their
    populations, and to the caches. */
module FsRuns {
  import opened Bitmap
  import opened Fs

  // ---------------------------------------------------------------- addresses

  lemma BlockInverse(b: int)
    ensures BlockOf(PtrOf(b)) == b
  {
    assert (b * SECTOR_SIZE) / SECTOR_SIZE == b;
  }

  lemma WindowInverse(w: int, k: int)
    requires 0 <= k < WINDOW_BITS
    ensures (w * WINDOW_BITS + k) / WINDOW_BITS == w && (w * WINDOW_BITS + k) % WINDOW_BITS == k
  {}

  // ---------------------------------------------------------------- one sector changes

  lemma PutBlockEffect(d: Disk, p: int, x: Block)
    ensures var e := PutBlock(d, p, x);
      && e == d.(blocks := e.blocks) && (IsBlock(p) ==> e.blocks.rest == d.blocks.rest)
      && (!IsBlock(p) ==> e.blocks.rest == d.blocks.rest[p := x])
      && forall q :: BlockAt(e, q) == if q == p then x else BlockAt(d, q)
  {
    hide BlankBytes;
    var e := PutBlock(d, p, x);
    forall q ensures BlockAt(e, q) == if q == p then x else BlockAt(d, q) {
      if IsBlock(p) && IsBlock(q) && BlockOf(q) == BlockOf(p) { assert q == p; }
    }
  }

  lemma PutInodeEffect(d: Disk, ino: int, x: Inode)
    requires 0 <= ino < INODE_ITEM_NUM
    ensures var e := PutInode(d, ino, x);
      && e == d.(inodes := e.inodes) && forall i :: InodeAt(e, i) == if i == ino then x else InodeAt(d, i)
  {
    hide BlankInode;
    var e := PutInode(d, ino, x);
    forall i ensures InodeAt(e, i) == if i == ino then x else InodeAt(d, i) {
      if i / 8 == ino / 8 && i % 8 == ino % 8 { assert i == ino; }
    }
  }

  // ---------------------------------------------------------------- sizes of bitmaps

  ghost function InodeBits(d: Disk): set<int> {
    set i | 0 <= i < INODE_ITEM_NUM && Live(d, i)
  }

  ghost function DataBits(d: Disk): set<int> {
    set b | 0 <= b < DATA_ITEM_NUM && Used(d, b)
  }

  /** The clear blocks at or above the window. */
  ghost function FreeAbove(s: Fs): set<int> {
    set b | 0 <= b < DATA_ITEM_NUM && s.smapIndex * WINDOW_BITS <= b && !Used(s.disk, b)
  }

  ghost predicate Counted(d: Disk) {
    d.super.inodeUsed == |InodeBits(d)| && d.super.dataUsed == |DataBits(d)|
  }

  // ---------------------------------------------------------------- the caches

  /** What is in memory is what is on disk. */
  predicate MapsCached(s: Fs) {
    && s.super == s.disk.super && s.ibits == s.disk.ibits
    && s.smapIndex <= WINDOW_NUM && (s.smapIndex < WINDOW_NUM ==> s.dbits == s.disk.dbits[s.smapIndex])
  }

  predicate DirCached(s: Fs) {
    IsBlock(s.here) && BlockAt(s.disk, s.here).DirBlock? && s.dir == DirAt(s.disk, s.here)
  }

  // ---------------------------------------------------------------- allocation

  /** iarray_alloc takes the least clear inode and counts it; it fails exactly when none is clear. */
  lemma AllocInodeEffect(s: Fs)
    requires MapsCached(s)
    ensures var (t, ino) := AllocInode(s);
      && MapsCached(t) && t == SetInodeBits(s, t.ibits, t.super)
      && (ino == -1 ==> t == s && forall i :: 0 <= i < INODE_ITEM_NUM ==> Live(s.disk, i))
      && (ino != -1 ==>
            && 0 <= ino < INODE_ITEM_NUM && !Live(s.disk, ino)
            && (forall i :: 0 <= i < ino ==> Live(s.disk, i))
            && (forall i :: Live(t.disk, i) <==> (Live(s.disk, i) || i == ino))
            && t.super == s.super.(inodeUsed := s.super.inodeUsed + 1))
  {
    hide Bit, BitAt;
    var (t, ino) := AllocInode(s);
    forall i | 0 <= i < INODE_ITEM_NUM ensures
        (ino == -1 || i < ino ==> Live(s.disk, i)) && (i == ino ==> !Live(s.disk, i)) {
      FirstClearIsLeast(s.ibits, i);
    }
    if ino != -1 {
      forall i ensures Live(t.disk, i) <==> (Live(s.disk, i) || i == ino) {
        MarkEffect(s.ibits, ino, i);
      }
    }
  }

  lemma FreeInodeEffect(s: Fs, ino: int)
    requires MapsCached(s) && 0 <= ino < INODE_ITEM_NUM
    ensures var t := FreeInode(s, ino);
      && MapsCached(t) && t == SetInodeBits(s, t.ibits, t.super)
      && (forall i :: Live(t.disk, i) <==> (Live(s.disk, i) && i != ino))
      && t.super == s.super.(inodeUsed := s.super.inodeUsed - 1)
  {
    hide Bit, BitAt;
    var t := FreeInode(s, ino);
    forall i ensures Live(t.disk, i) <==> (Live(s.disk, i) && i != ino) {
      UnmarkEffect(s.ibits, ino, i);
    }
  }

  lemma SetDataBitsEffect(s: Fs, w: nat, words: Window, super: Super, b: int)
    requires w < WINDOW_NUM
    ensures Used(SetDataBits(s, w, words, super).disk, b) <==>
      if b / WINDOW_BITS == w then 0 <= b < DATA_ITEM_NUM && BitAt(words, b % WINDOW_BITS) else Used(s.disk, b)
  {
    hide Bit, BitAt;
  }

  lemma FullWindow(d: Disk, w: int, b: int)
    requires 0 <= w < WINDOW_NUM && FirstClear(d.dbits[w]) == -1 && w * WINDOW_BITS <= b < (w + 1) * WINDOW_BITS
    ensures Used(d, b)
  {
    WindowInverse(w, b - w * WINDOW_BITS);
    FirstClearIsLeast(d.dbits[w], b % WINDOW_BITS);
  }

  /** The window slides over full windows only. */
  lemma {:induction false} SlideEffect(s: Fs)
    requires MapsCached(s)
    ensures var t := Slide(s);
      && MapsCached(t) && s.smapIndex <= t.smapIndex
      && (forall b :: s.smapIndex * WINDOW_BITS <= b < t.smapIndex * WINDOW_BITS && b < DATA_ITEM_NUM ==>
           Used(s.disk, b))
    decreases WINDOW_NUM - s.smapIndex
  {
    hide Bit, BitAt, Used;
    if s.smapIndex < WINDOW_NUM && FirstClear(s.dbits) == -1 {
      var s1 := s.(smapIndex := s.smapIndex + 1, dbits := WindowAt(s.disk, s.smapIndex + 1));
      SlideEffect(s1);
      forall b | s.smapIndex * WINDOW_BITS <= b < s1.smapIndex * WINDOW_BITS ensures Used(s.disk, b) {
        FullWindow(s.disk, s.smapIndex, b);
      }
    }
  }

  /** darray_alloc takes the least clear block at or above the start of the window, which slides to it; it fails exactly
      when there is none there. */
  lemma AllocBlockEffect(s: Fs)
    requires MapsCached(s)
    ensures var (t, b) := AllocBlock(s);
      && MapsCached(t) && t == s.(disk := t.disk, super := t.super, dbits := t.dbits, smapIndex := t.smapIndex)
      && t.disk == s.disk.(super := t.super, dbits := t.disk.dbits)
      && (b == -1 <==> FreeAbove(s) == {})
      && t.smapIndex == (if b == -1 then 256 else b / 4096)
      && (b == -1 ==> t.disk == s.disk && FreeAbove(t) == {})
      && (b != -1 ==>
            && b in FreeAbove(s) && (forall c :: c in FreeAbove(s) ==> b <= c)
            && FreeAbove(t) == FreeAbove(s) - {b}
            && (forall c :: Used(t.disk, c) <==> (Used(s.disk, c) || c == b))
            && t.super == s.super.(dataUsed := s.super.dataUsed + 1))
  {
    hide Bit, BitAt;
    var s1 := Slide(s);
    SlideKeeps(s);
    SlideEffect(s);
    var (t, b) := AllocBlock(s);
    if b == -1 {
      assert FreeAbove(s) == {};
    } else {
      var w, k := s1.smapIndex, FirstClear(s1.dbits);
      WindowInverse(w, k);
      forall c ensures Used(t.disk, c) <==> (Used(s.disk, c) || c == b) {
        SetDataBitsEffect(s1, w, t.dbits, t.super, c);
        MarkEffect(s1.dbits, k, c % WINDOW_BITS);
      }
      forall c | w * WINDOW_BITS <= c < w * WINDOW_BITS + WINDOW_BITS ensures
          (c < b ==> Used(s.disk, c)) && (c == b ==> !Used(s.disk, c)) {
        FirstClearIsLeast(s1.dbits, c % WINDOW_BITS);
      }
      assert b in FreeAbove(s);
      assert FreeAbove(t) == FreeAbove(s) - {b};
    }
  }

  /** darray_free moves the window to the block's and clears its bit there. */
  lemma FreeBlockEffect(s: Fs, b: int)
    requires MapsCached(s) && 0 <= b < DATA_ITEM_NUM
    ensures var t := FreeBlock(s, b);
      && MapsCached(t) && t == s.(disk := t.disk, super := t.super, dbits := t.dbits, smapIndex := b / WINDOW_BITS)
      && t.disk == s.disk.(super := t.super, dbits := t.disk.dbits)
      && (forall c :: Used(t.disk, c) <==> (Used(s.disk, c) && c != b))
      && t.super == s.super.(dataUsed := s.super.dataUsed - 1)
  {
    hide Bit, BitAt;
    var t := FreeBlock(s, b);
    forall c ensures Used(t.disk, c) <==> (Used(s.disk, c) && c != b) {
      SetDataBitsEffect(s, b / WINDOW_BITS, t.dbits, t.super, c);
      UnmarkEffect(s.disk.dbits[b / WINDOW_BITS], b % WINDOW_BITS, c % WINDOW_BITS);
    }
  }
}
