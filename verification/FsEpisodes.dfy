/** Short runs from a freshly made file system in which a call does not do what its name promises. */
module FsEpisodes {
  import opened Sets
  import Slist
  import opened Bitmap
  import opened Fs
  import opened FsRuns
  import opened FsTree
  import opened FsCalls
  import opened FsPaths
  import opened FsWrites
  import opened FsReads
  import opened FsStores
  import opened FsBeyond
  import opened FsFiles
  import opened FsAtomic
  import opened FsFormat
  import opened FsHistory

  // ---------------------------------------------------------------- the start, and steps

  /** Made by mkfs, mounted, and with no open files. */
  function Begun(d: Card, g: Group, fds: seq<Fd>): Fs {
    Mount(Unmounted(Format(d, g), fds, Slist.InitNodes(FD_ARRAY_SIZE + 1)))
  }

  ghost predicate LeadsTo(s: Fs, cs: seq<Call>, t: Fs) {
    AllEnabled(s, cs) && RunCalls(s, cs) == t
  }

  lemma {:induction false} Then(s: Fs, cs: seq<Call>, t: Fs, c: Call)
    requires LeadsTo(s, cs, t) && Enabled(t, c)
    ensures LeadsTo(s, cs + [c], Apply(t, c))
    decreases |cs|
  {
    hide Apply, Enabled;
    if cs == [] {
      assert cs + [c] == [c] && [c][1..] == [];
      assert AllEnabled(Apply(t, c), []) && RunCalls(Apply(t, c), []) == Apply(t, c);
    } else {
      Then(Apply(s, cs[0]), cs[1..], t, c);
      assert (cs + [c])[1..] == cs[1..] + [c];
    }
  }

  /** Inodes 0 to n and blocks 0 to m are taken, and the window shows nothing beyond block m + 1. */
  ghost predicate Taken(s: Fs, n: int, m: int) {
    && Kept(s)
    && (forall i :: Live(s.disk, i) <==> 0 <= i <= n) && (forall b :: Used(s.disk, b) <==> 0 <= b <= m)
    && s.smapIndex * WINDOW_BITS <= m + 1
  }

  lemma Begins(d: Card, g: Group, fds: seq<Fd>)
    ensures var s := Begun(d, g, fds);
      && Taken(s, 0, 0) && s.here == DARRAY_ADDR && s.dir == RootDir() && s.fds == fds
      && Slist.Valid(s.fdList) && Slist.FreeCells(s.fdList) == seq(FD_ARRAY_SIZE, i => i + 1)
      && |s.fdList| == FD_ARRAY_SIZE + 1
      && LeadsTo(s, [], s)
  {
    hide Live, Used, BlockAt, Format, Sound, Acyclic, Slist.Valid, Slist.FreeCells, DiskSound;
    FormatIsSound(d, g);
    FormatEffect(d, g);
    MountKeepsSound(Unmounted(Format(d, g), fds, Slist.InitNodes(FD_ARRAY_SIZE + 1)));
    Slist.InitThreads(FD_ARRAY_SIZE + 1);
  }

  lemma TakenIsSound(s: Fs, n: nat, m: nat)
    requires Taken(s, n, m)
    ensures Kept(s) && Sound(s)
    ensures n + 1 < INODE_ITEM_NUM ==> HasInode(s)
    ensures m + 1 < DATA_ITEM_NUM ==> m + 1 in FreeAbove(s) && (forall b :: b in FreeAbove(s) ==> m + 1 <= b)
  {
    hide Sound, Acyclic, Live, Used;
    if n + 1 < INODE_ITEM_NUM { assert !Live(s.disk, n + 1); }
    if 0 <= m + 1 < DATA_ITEM_NUM { assert !Used(s.disk, m + 1); }
  }

  /** A name that is free in a directory with room. */
  ghost predicate Room(s: Fs, name: string) {
    |name| <= MAX_NAME_LENGTH && FindItem(s.dir.items, name) == -1 && FreeSlot(s.dir.items) < MAX_DIR_ITEM_NUM
  }

  /** `t` is `s` with an empty directory in inode n and block m, entered under `name`. */
  ghost predicate Made(s: Fs, t: Fs, n: nat, m: nat, name: string) {
    var k := FreeSlot(s.dir.items);
    && k < MAX_DIR_ITEM_NUM && t.dir == s.dir.(items := s.dir.items[k := Item(true, name, n)]) && t.here == s.here
    && t.fds == s.fds && t.fdList == s.fdList
    && InodeAt(t.disk, n) == Inode(FILE_DIR, 1, 512, 512, InodeAt(s.disk, n).pointers[0 := PtrOf(m)])
    && (forall i :: i != n ==> InodeAt(t.disk, i) == InodeAt(s.disk, i))
    && IsEmpty(DirAt(t.disk, PtrOf(m)))
  }

  /** mkdir with everything at hand takes the next inode and the next block. */
  lemma Makes(s: Fs, n: nat, m: nat, name: string)
    requires Taken(s, n, m) && n + 1 < INODE_ITEM_NUM && m + 1 < DATA_ITEM_NUM && Room(s, name)
    ensures Enabled(s, MkDir(name)) && MakeDir(s, name).1 == Done
    ensures Apply(s, MkDir(name)) == MakeDir(s, name).0
    ensures Taken(MakeDir(s, name).0, n + 1, m + 1) && Made(s, MakeDir(s, name).0, n + 1, m + 1, name)
  {
    hide Live, Used, InodeAt, BlockAt, PtrOf, BlockOf, Kept, Sound, MakeDir, FindItem, FreeSlot, FreeAbove, Enabled;
    TakenIsSound(s, n, m);
    Admits(s, name);
    MakeDirDone(s, name);
    MakeDirEnabled(s, name);
    EnabledKeeps(s, MkDir(name));
    MakeDirGrows(s, name);
    NewDirIs(s, name);
    MakeDirWindow(s, name);
    NextTaken(s, n, m, name);
  }

  lemma Admits(s: Fs, name: string)
    requires Room(s, name)
    ensures Admit(s, name) == (Done, FreeSlot(s.dir.items) as int)
  {}

  lemma MakeDirDone(s: Fs, name: string)
    requires Sound(s) && Admit(s, name).0 == Done && HasInode(s) && FreeAbove(s) != {}
    ensures MakeDir(s, name).1 == Done
  {
    hide Sound, Live, Admit, HasInode, FreeAbove, BlockAt;
    MakeDirIsAtomicIff(s, name);
    SoundMapsHere(s);
    MakeDirOutcomes(s, name);
  }

  lemma MakeDirOutcomes(s: Fs, name: string)
    requires Admit(s, name).0 == Done
    ensures var o := MakeDir(s, name).1; o == Done || o == NoInode || o == NoBlock
  {
    hide Admit, Enter, AllocBlock, PutNewDir;
  }

  lemma MakeDirEnabled(s: Fs, name: string)
    requires HasInode(s) && FreeAbove(s) != {}
    ensures Enabled(s, MkDir(name)) && Apply(s, MkDir(name)) == MakeDir(s, name).0
  {
    hide HasInode, FreeAbove, MakeDir, StaleIsEmptyFile;
  }

  /** The window is at or before the block that mkdir takes. */
  lemma MakeDirWindow(s: Fs, name: string)
    requires MakeDir(s, name).1 == Done
    ensures var (t, n) := (MakeDir(s, name).0, FreeSlot(s.dir.items));
      n < MAX_DIR_ITEM_NUM && t.smapIndex * WINDOW_BITS <= BlockOf(InodeAt(t.disk, t.dir.items[n].ino).pointers[0])
  {
    hide BlockAt, FindItem, Mark, FirstClear, PutBlock, IsBlock, Slide, BlankItems, AllocBlock, PutNewDir, Enter;
    var n := FreeSlot(s.dir.items);
    EnterNames(s, name, n);
    var (s1, ino) := Enter(s, name, n);
    var (s2, b) := AllocBlock(s1);
    AllocWindow(s1);
    PutNewDirWindow(s2, ino, b, name);
  }

  lemma EnterNames(s: Fs, name: string, n: int)
    requires 0 <= n < MAX_DIR_ITEM_NUM
    ensures var (t, ino) := Enter(s, name, n);
      -1 <= ino < INODE_ITEM_NUM && (ino != -1 ==> t.dir.items[n].ino == ino)
  {
    hide PutBlock, FirstClear, Mark;
  }

  lemma AllocWindow(s: Fs)
    ensures var (t, b) := AllocBlock(s); b != -1 ==> t.smapIndex * WINDOW_BITS <= b && t.dir == s.dir
  {
    hide FirstClear, Mark;
    SlideKeeps(s);
  }

  lemma PutNewDirWindow(s: Fs, ino: int, b: int, name: string)
    requires 0 <= ino < INODE_ITEM_NUM
    ensures var t := PutNewDir(s, ino, PtrOf(b), name);
      t.smapIndex == s.smapIndex && t.dir == s.dir && BlockOf(InodeAt(t.disk, ino).pointers[0]) == b
  {
    hide BlockAt, BlankItems;
    var x := NewDirInode(InodeAt(s.disk, ino), PtrOf(b));
    PutInodeEffect(s.disk, ino, x);
    SameInodes(PutInode(s.disk, ino, x), PutNewDir(s, ino, PtrOf(b), name).disk);
    BlockInverse(b);
    hide InodeAt, PutInode, PutBlock;
  }

  lemma NextTaken(s: Fs, n: nat, m: nat, name: string)
    requires Taken(s, n, m) && n + 1 < INODE_ITEM_NUM && m + 1 < DATA_ITEM_NUM && Sound(s) && MakeDir(s, name).1 == Done
    requires Kept(MakeDir(s, name).0)
    ensures var (t, k) := (MakeDir(s, name).0, FreeSlot(s.dir.items));
      && Taken(t, n + 1, m + 1) && k < MAX_DIR_ITEM_NUM && t.dir.items[k].ino == n + 1
      && InodeAt(t.disk, n + 1).pointers[0] == PtrOf(m + 1)
  {
    hide Live, Used, InodeAt, BlockAt, Kept, Sound, MakeDir, FreeAbove, PtrOf, BlockOf, FreeSlot;
    MakeDirGrows(s, name);
    MakeDirWindow(s, name);
    NewDirIs(s, name);
    TakenIsSound(s, n, m);
    var t, k := MakeDir(s, name).0, FreeSlot(s.dir.items);
    assert Live(s.disk, n) && !Live(s.disk, n + 1);
    BlockInverse(m + 1);
  }

  // ---------------------------------------------------------------- every inode taken

  lemma EmptyHasRoom(s: Fs, name: string)
    requires IsEmpty(s.dir) && |name| <= MAX_NAME_LENGTH
    ensures Room(s, name) && FreeSlot(s.dir.items) == 0
  {}

  /** cd to the directory just made. */
  lemma GoesDown(s: Fs, n: nat, m: nat, name: string)
    requires Taken(s, n, m) && name != "" && name[0] != '\\' && name != "." && name != ".."
    requires FindItem(s.dir.items, name) != -1 && s.dir.items[FindItem(s.dir.items, name)].ino == n
    requires InodeAt(s.disk, n).kind == FILE_DIR && InodeAt(s.disk, n).pointers[0] == PtrOf(m)
    ensures Enabled(s, Cd(name)) && Apply(s, Cd(name)) == GoTo(s, PtrOf(m)) && Taken(GoTo(s, PtrOf(m)), n, m)
  {
    hide Live, Used, InodeAt, BlockAt, PtrOf, Kept, FindItem;
    assert ChangeDir(s, name).0 == GoTo(s, PtrOf(m));
    assert Enabled(s, Cd(name));
    EnabledKeeps(s, Cd(name));
  }

  lemma NewIsFound(items: seq<Item>, name: string, ino: int)
    requires FreeSlot(items) < |items| && FindItem(items, name) == -1
    ensures FindItem(items[FreeSlot(items) := Item(true, name, ino)], name) == FreeSlot(items)
  {
    FindsUnique(items[FreeSlot(items) := Item(true, name, ino)], FreeSlot(items), name);
  }

  /** A directory "d" in a directory "d" in a directory "d": n of them, the last one current. */
  lemma {:induction false} Chain(d: Card, g: Group, fds: seq<Fd>, n: nat) returns (cs: seq<Call>, t: Fs)
    requires n < INODE_ITEM_NUM
    ensures LeadsTo(Begun(d, g, fds), cs, t) && Taken(t, n, n) && IsEmpty(t.dir)
    decreases n
  {
    hide LeadsTo, Taken, Made, Enabled, Apply, MakeDir, InodeAt, Begun, DirAt, PtrOf;
    if n == 0 {
      Begins(d, g, fds);
      cs, t := [], Begun(d, g, fds);
    } else {
      cs, t := Chain(d, g, fds, n - 1);
      EmptyHasRoom(t, "d");
      Makes(t, n - 1, n - 1, "d");
      Then(Begun(d, g, fds), cs, t, MkDir("d"));
      var u := MakeDir(t, "d").0;
      DownInto(t, u, n, "d");
      Then(Begun(d, g, fds), cs + [MkDir("d")], u, Cd("d"));
      cs, t := cs + [MkDir("d")] + [Cd("d")], Apply(u, Cd("d"));
    }
  }

  lemma DownInto(s: Fs, t: Fs, n: nat, name: string)
    requires Made(s, t, n, n, name) && Taken(t, n, n) && Room(s, name)
    requires name != "" && name[0] != '\\' && name != "." && name != ".."
    ensures Enabled(t, Cd(name)) && Taken(Apply(t, Cd(name)), n, n) && IsEmpty(Apply(t, Cd(name)).dir)
  {
    hide Taken, Enabled, Apply, InodeAt, DirAt, PtrOf, FindItem, FreeSlot;
    NewIsFound(s.dir.items, name, n);
    GoesDown(t, n, n, name);
  }

  /** A run after which every inode is taken: mkdir and touch then stop half way, with an entry in memory
      that is not on the card. */
  lemma OutOfInodes(d: Card, g: Group, fds: seq<Fd>, name: string) returns (cs: seq<Call>, t: Fs)
    requires |name| <= MAX_NAME_LENGTH
    ensures LeadsTo(Begun(d, g, fds), cs, t) && Sound(t) && forall i :: 0 <= i < INODE_ITEM_NUM ==> Live(t.disk, i)
    ensures MakeDir(t, name).1 == NoInode && HalfEntered(t, MakeDir(t, name).0) && !Sound(MakeDir(t, name).0)
    ensures TouchFile(t, name).1 == NoInode && HalfEntered(t, TouchFile(t, name).0) && !Sound(TouchFile(t, name).0)
  {
    hide LeadsTo, Live, Sound, MakeDir, TouchFile, Begun, HalfEntered, Admit;
    cs, t := Chain(d, g, fds, INODE_ITEM_NUM - 1);
    TakenIsSound(t, INODE_ITEM_NUM - 1, INODE_ITEM_NUM - 1);
    EmptyHasRoom(t, name);
    Admits(t, name);
    NoneLeft(t, name);
    MakeDirNoInode(t, name);
    MakeDirIsAtomicIff(t, name);
    TouchIsAtomicIff(t, name);
    TouchKeepsSoundIff(t, name);
  }

  lemma NoneLeft(t: Fs, name: string)
    requires Sound(t) && Admit(t, name).0 == Done && forall i :: 0 <= i < INODE_ITEM_NUM ==> Live(t.disk, i)
    ensures MakeDir(t, name).1 == NoInode && TouchFile(t, name).1 == NoInode && !HasInode(t)
  {
    hide Live, Sound, AllocInode, AllocBlock, PutNewDir;
    SoundMapsHere(t);
    HasInodeIff(t);
    EnterTakes(t, name, FreeSlot(t.dir.items));
    hide Enter;
  }

  // ---------------------------------------------------------------- touch and open

  /** `t` is `s` with an empty file in inode n, entered under `name`. */
  ghost predicate Touched(s: Fs, t: Fs, n: nat, name: string) {
    var k := FreeSlot(s.dir.items);
    && k < MAX_DIR_ITEM_NUM && t.dir == s.dir.(items := s.dir.items[k := Item(true, name, n)]) && t.here == s.here
    && t.fds == s.fds && t.fdList == s.fdList
    && InodeAt(t.disk, n) == Inode(FILE_NORMAL, 1, 0, 0, InodeAt(s.disk, n).pointers)
    && (forall i :: i != n ==> InodeAt(t.disk, i) == InodeAt(s.disk, i))
  }

  /** touch with an inode at hand takes the next one. */
  lemma TouchesNext(s: Fs, n: nat, m: nat, name: string)
    requires Taken(s, n, m) && n + 1 < INODE_ITEM_NUM && Room(s, name)
    ensures Enabled(s, Touch(name)) && TouchFile(s, name).1 == Done
    ensures Apply(s, Touch(name)) == TouchFile(s, name).0
    ensures Taken(TouchFile(s, name).0, n + 1, m) && Touched(s, TouchFile(s, name).0, n + 1, name)
  {
    hide Live, Used, InodeAt, BlockAt, PtrOf, BlockOf, Kept, Sound, TouchFile, FindItem, FreeSlot, FreeAbove, Enabled;
    TakenIsSound(s, n, m);
    Admits(s, name);
    TouchDone(s, name);
    TouchEnabled(s, name);
    EnabledKeeps(s, Touch(name));
    TouchGrows(s, name);
    TouchFinds(s, name);
    TouchIs(s, name);
    assert Live(s.disk, n) && !Live(s.disk, n + 1);
  }

  lemma TouchDone(s: Fs, name: string)
    requires Sound(s) && Admit(s, name).0 == Done && HasInode(s)
    ensures TouchFile(s, name).1 == Done
  {
    hide Sound, Live, Admit, HasInode, BlockAt, Enter;
    TouchIsAtomicIff(s, name);
    SoundMapsHere(s);
    HasInodeIff(s);
  }

  lemma TouchEnabled(s: Fs, name: string)
    requires HasInode(s)
    ensures Enabled(s, Touch(name)) && Apply(s, Touch(name)) == TouchFile(s, name).0
  {
    hide HasInode, TouchFile;
  }

  /** touch changes one item of the current directory and does not move the window. */
  lemma TouchIs(s: Fs, name: string)
    requires Sound(s) && TouchFile(s, name).1 == Done
    ensures var (t, k) := (TouchFile(s, name).0, FreeSlot(s.dir.items));
      && k < MAX_DIR_ITEM_NUM && t.dir == s.dir.(items := s.dir.items[k := Item(true, name, t.dir.items[k].ino)])
      && t.smapIndex == s.smapIndex
  {
    hide BlockAt, FindItem, PutInode, IsBlock, InodeAt, Live, Used, Ownership, Tree, Counted, Enter;
    SoundMaps(s);
    EnterEffect(s, name, FreeSlot(s.dir.items));
  }

  /** The first descriptor is handed out. */
  lemma OpensFirst(s: Fs, n: nat, m: nat, name: string, ino: int)
    requires Taken(s, n, m) && Slist.Valid(s.fdList) && Slist.FreeCells(s.fdList) != []
    requires Slist.FreeCells(s.fdList)[0] == 1
    requires |s.fds| > 0 && FindItem(s.dir.items, name) != -1
    requires s.dir.items[FindItem(s.dir.items, name)].ino == ino != 0
    requires InodeAt(s.disk, ino).kind == FILE_NORMAL
    ensures var (t, fd) := Open(s, name, O_RDWR);
      && fd == 0 && Taken(t, n, m) && t == s.(fds := t.fds, fdList := t.fdList)
      && t.fds == s.fds[0 := Fd(ino % INODES_PER_SECTOR, O_RDWR, InodeAt(s.disk, ino).size, 0)]
    ensures Enabled(s, OpenFile(name, O_RDWR)) && Apply(s, OpenFile(name, O_RDWR)) == Open(s, name, O_RDWR).0
  {
    hide Slist.Valid, Slist.FreeCells, Slist.AllocNode, FindItem, InodeAt, Kept, Live, Used;
    Slist.AllocPops(s.fdList);
    CursorRange(s.fdList);
    EnabledKeeps(s, OpenFile(name, O_RDWR));
  }

  lemma CursorRange(l: seq<Slist.Node>)
    requires Slist.Valid(l)
    ensures |l| > 0 && 0 <= l[0].cursor < |l|
  {}

  lemma RootIsEmpty()
    ensures IsEmpty(RootDir())
  {}

  /** A file "f" in inode 1, open for reading and writing on descriptor 0. */
  lemma FileOpen(d: Card, g: Group, fds: seq<Fd>) returns (t: Fs)
    requires |fds| > 0
    ensures LeadsTo(Begun(d, g, fds), [Touch("f"), OpenFile("f", O_RDWR)], t)
    ensures Taken(t, 1, 0) && Holding(t, 0, 1, O_RDWR, []) && InodeAt(t.disk, 1).capacity == 0
    ensures t.here == DARRAY_ADDR && t.dir == RootDir().(items := RootDir().items[0 := Item(true, "f", 1)])
    ensures forall b :: 0 < b < DATA_ITEM_NUM ==> BlockAt(t.disk, PtrOf(b)) == BlockAt(d, PtrOf(b))
  {
    hide LeadsTo, Taken, Enabled, Apply, TouchFile, Open, InodeAt, Begun, Slist.Valid, Slist.FreeCells, FindItem,
      FreeSlot, Holding, BlockAt, PtrOf;
    var s := Begun(d, g, fds);
    Begins(d, g, fds);
    BeginsWith(d, g, fds);
    RootIsEmpty();
    EmptyHasRoom(s, "f");
    TouchesNext(s, 0, 0, "f");
    Then(s, [], s, Touch("f"));
    assert [] + [Touch("f")] == [Touch("f")];
    var u := TouchFile(s, "f").0;
    NewIsFound(s.dir.items, "f", 1);
    OpensFirst(u, 1, 0, "f", 1);
    Then(s, [Touch("f")], u, OpenFile("f", O_RDWR));
    t := Open(u, "f", O_RDWR).0;
    assert [Touch("f")] + [OpenFile("f", O_RDWR)] == [Touch("f"), OpenFile("f", O_RDWR)];
    TakenIsSound(s, 0, 0);
    NowExists(u, "f", 1);
    TouchedIsEmpty(s, "f", O_RDWR);
    TouchKeepsSectors(s, "f");
  }

  lemma BeginsWith(d: Card, g: Group, fds: seq<Fd>)
    ensures forall b :: 0 < b < DATA_ITEM_NUM ==> BlockAt(Begun(d, g, fds).disk, PtrOf(b)) == BlockAt(d, PtrOf(b))
  {
    hide BlockAt, PutBlock;
    var d1 := d.(super := Super(1, 1), ibits := FirstWindow(), dbits := FreshWindows(),
      inodes := d.inodes[0 := g[0 := RootInode(g[0])]]);
    SameBlocks(d, d1);
    PutBlockEffect(d1, DARRAY_ADDR, DirBlock(RootDir()));
    assert Begun(d, g, fds).disk == PutBlock(d1, DARRAY_ADDR, DirBlock(RootDir()));
  }

  lemma TouchKeepsSectors(s: Fs, name: string)
    requires Sound(s) && TouchFile(s, name).1 == Done && s.here == DARRAY_ADDR
    ensures forall b :: 0 < b < DATA_ITEM_NUM ==>
      BlockAt(TouchFile(s, name).0.disk, PtrOf(b)) == BlockAt(s.disk, PtrOf(b))
  {
    hide Live, Used, InodeAt, BlockAt, Sound, TouchFile, FreeSlot;
    TouchGrows(s, name);
  }

  lemma NowExists(s: Fs, name: string, ino: int)
    requires FindItem(s.dir.items, name) != -1 && s.dir.items[FindItem(s.dir.items, name)].ino == ino
    ensures FileExists(s, name) == ino
  {}

  // ---------------------------------------------------------------- what writes leave

  lemma TwoFree(s: Fs, n: nat, m: nat)
    requires Taken(s, n, m) && m + 2 < DATA_ITEM_NUM
    ensures |FreeAbove(s)| >= 2
  {
    hide Used, Live, Kept;
    assert !Used(s.disk, m + 1) && !Used(s.disk, m + 2);
    SubsetSize({m + 1, m + 2}, FreeAbove(s));
  }

  lemma WriteEnabled(s: Fs, fd: int, buf: seq<bv8>)
    requires Kept(s) && CanWrite(s, fd, buf)
    ensures Write(s, fd, buf).Wrote? && Enabled(s, WriteTo(fd, buf))
    ensures Apply(s, WriteTo(fd, buf)) == Write(s, fd, buf).s
    ensures Kept(Apply(s, WriteTo(fd, buf)))
  {
    hide Sound, Live, InodeAt, WriteLoop, PutInode, Acyclic, OthersUntouched, NoEntryAdded, FreeAbove, Missing, Laid,
      WriteSpares;
    WriteIsAllOrNothing(s, fd, buf);
    WriteKeepsSoundIff(s, fd, buf);
    EnabledKeeps(s, WriteTo(fd, buf));
  }

  /** A first write that goes through. */
  lemma FirstWrite(d: Card, g: Group, fds: seq<Fd>, buf: seq<bv8>) returns (t: Fs)
    requires |fds| > 0 && |buf| <= 1024
    ensures LeadsTo(Begun(d, g, fds), [Touch("f"), OpenFile("f", O_RDWR), WriteTo(0, buf)], t)
    ensures Kept(t) && Holding(t, 0, 1, O_RDWR, Laid(0, buf, |buf|))
  {
    hide LeadsTo, Enabled, Apply, Begun, Holding, Taken, InodeAt, Write, Laid, CanWrite, WroteAll, WroteNothing,
      OthersUntouched, NoEntryAdded, Sound, Live;
    var u := FileOpen(d, g, fds);
    TakenIsSound(u, 1, 0);
    TwoFree(u, 1, 0);
    AppendStep(u, 0, 1, O_RDWR, [], buf);
    HoldingOffset(u, 0, 1, O_RDWR, []);
    HoldingFd(u, 0, 1, O_RDWR, []);
    WriteIsAllOrNothing(u, 0, buf);
    WriteEnabled(u, 0, buf);
    Then(Begun(d, g, fds), [Touch("f"), OpenFile("f", O_RDWR)], u, WriteTo(0, buf));
    assert [Touch("f"), OpenFile("f", O_RDWR)] + [WriteTo(0, buf)]
        == [Touch("f"), OpenFile("f", O_RDWR), WriteTo(0, buf)];
    t := Write(u, 0, buf).s;
    assert [] + Laid(0, buf, |buf|) == Laid(0, buf, |buf|);
  }

  lemma HoldingFd(s: Fs, fd: int, ino: int, access: int, data: seq<bv8>)
    requires Holding(s, fd, ino, access, data)
    ensures 0 <= fd < |s.fds| && s.fds[fd] == Fd(ino, access, |data|, |data|) && FileInode(s.disk, ino)
    ensures InodeAt(s.disk, ino).size == |data| <= InodeAt(s.disk, ino).capacity && |data| <= DIRECT_NUM * SECTOR_SIZE
    ensures forall i :: 0 <= i < |data| ==> ByteAt(s.disk, InodeAt(s.disk, ino), i) == data[i]
  {
    hide InodeAt, BytesAt, Used, Tree, Counted, Live;
    assert InodeOk(s.disk, ino);
  }

  /** A write across the end of a sector: the byte behind it is the first of the buffer, not the next one. */
  lemma SecondSectorStartsOver(d: Card, g: Group, fds: seq<Fd>) returns (buf: seq<bv8>, t: Fs)
    requires |fds| > 0
    ensures |buf| == 513 && LeadsTo(Begun(d, g, fds), [Touch("f"), OpenFile("f", O_RDWR), WriteTo(0, buf)], t)
    ensures ByteAt(t.disk, InodeAt(t.disk, 1), 512) == 0 != buf[512]
  {
    hide LeadsTo, Begun, Holding, InodeAt, ByteAt, Laid;
    buf := seq(513, i => if i == 512 then 1 else 0);
    t := FirstWrite(d, g, fds, buf);
    HoldingFd(t, 0, 1, O_RDWR, Laid(0, buf, 513));
    LaidAt(0, buf, 513, 512);
  }

  lemma SeekEnabled(s: Fs, fd: int, offset: nat)
    requires Kept(s)
    ensures Enabled(s, SeekTo(fd, offset)) && Apply(s, SeekTo(fd, offset)) == Seek(s, fd, offset)
    ensures Kept(Seek(s, fd, offset))
  {
    hide Kept;
    EnabledKeeps(s, SeekTo(fd, offset));
  }

  /** Two bytes written over the two bytes of a file: the inode says that it has four. */
  lemma TwoByTwoIsFour(d: Card, g: Group, fds: seq<Fd>) returns (t: Fs)
    requires |fds| > 0
    ensures LeadsTo(Begun(d, g, fds),
      [Touch("f"), OpenFile("f", O_RDWR), WriteTo(0, [1, 2]), SeekTo(0, 0), WriteTo(0, [3, 4])], t)
    ensures InodeAt(t.disk, 1).size == 4 && 0 < |t.fds| && t.fds[0].offset == 2
  {
    hide LeadsTo, Enabled, Apply, Begun, Holding, Kept, InodeAt, Write, Laid, FreeAbove, OthersUntouched, NoEntryAdded,
      ByteAt, Live;
    var s := Begun(d, g, fds);
    var u := FirstWrite(d, g, fds, [1, 2]);
    HoldingFd(u, 0, 1, O_RDWR, Laid(0, [1, 2], 2));
    SeekEnabled(u, 0, 0);
    Then(s, [Touch("f"), OpenFile("f", O_RDWR), WriteTo(0, [1, 2])], u, SeekTo(0, 0));
    var v := Seek(u, 0, 0);
    KeptSound(v);
    assert CanWrite(v, 0, [3, 4]);
    WriteIsAllOrNothing(v, 0, [3, 4]);
    WriteEnabled(v, 0, [3, 4]);
    Then(s, [Touch("f"), OpenFile("f", O_RDWR), WriteTo(0, [1, 2])] + [SeekTo(0, 0)], v, WriteTo(0, [3, 4]));
    t := Write(v, 0, [3, 4]).s;
    assert [Touch("f"), OpenFile("f", O_RDWR), WriteTo(0, [1, 2])] + [SeekTo(0, 0)] + [WriteTo(0, [3, 4])]
        == [Touch("f"), OpenFile("f", O_RDWR), WriteTo(0, [1, 2]), SeekTo(0, 0), WriteTo(0, [3, 4])];
  }

  lemma KeptSound(s: Fs)
    requires Kept(s)
    ensures Sound(s)
  {}

  // ---------------------------------------------------------------- a stale pointer

  /** rmdir of the only entry, the directory made last, gives inode and block back and leaves the inode's record. */
  lemma Removes(s: Fs, n: nat, m: nat, name: string)
    requires Taken(s, n + 1, m + 1) && FindItem(s.dir.items, name) == 0 && s.dir.items[0].ino == n + 1
    requires forall k :: 0 < k < MAX_DIR_ITEM_NUM ==> !s.dir.items[k].valid
    requires InodeAt(s.disk, n + 1).kind == FILE_DIR && InodeAt(s.disk, n + 1).pointers[0] == PtrOf(m + 1)
    requires IsEmpty(DirAt(s.disk, PtrOf(m + 1)))
    ensures Enabled(s, RmDir(name)) && Apply(s, RmDir(name)) == RemoveDir(s, name).0
    ensures var t := RemoveDir(s, name).0;
      && Taken(t, n, m) && IsEmpty(t.dir) && (forall i :: InodeAt(t.disk, i) == InodeAt(s.disk, i))
      && t.fds == s.fds && t.fdList == s.fdList
  {
    hide Live, Used, InodeAt, BlockAt, PtrOf, BlockOf, Kept, Sound, FindItem, IsEmpty, Drop, DirAt;
    TakenIsSound(s, n + 1, m + 1);
    EnabledKeeps(s, RmDir(name));
    RemoveDirShrinks(s, name);
    BlockInverse(m + 1);
    KeptSound(RemoveDir(s, name).0);
    SoundMapsHere(RemoveDir(s, name).0);
    SoundMapsHere(s);
    DirAfter(s, RemoveDir(s, name).0, n + 1, BlockOf(DirPtr(s.disk, n + 1)));
  }

  lemma DirAfter(s: Fs, t: Fs, ino: int, b: int)
    requires Shrunk(s.disk, t.disk, s.here, 0, ino, b) && t.here == s.here && DirCached(s) && DirCached(t)
    requires forall k :: 0 < k < MAX_DIR_ITEM_NUM ==> !s.dir.items[k].valid
    ensures IsEmpty(t.dir)
  {
    hide BlockAt, Live, Used, InodeAt, IsBlock;
  }

  /** The file system after mkdir a, rmdir a, touch f, mkdir b: the first pointer of f,
      which owns nothing, is b's sector. */
  lemma StalePointer(d: Card, g: Group, fds: seq<Fd>) returns (t: Fs)
    requires |fds| > 0
    ensures LeadsTo(Begun(d, g, fds),
      [MkDir("a"), RmDir("a"), Touch("f"), MkDir("b"), OpenFile("f", O_RDWR), SeekTo(0, 1)], t)
    ensures Taken(t, 2, 1) && 0 < |t.fds| && t.fds[0] == Fd(1, O_RDWR, 0, 1)
    ensures InodeAt(t.disk, 1).kind == FILE_NORMAL && InodeAt(t.disk, 1).capacity == 0
    ensures InodeAt(t.disk, 2).kind == FILE_DIR
    ensures InodeAt(t.disk, 1).pointers[0] == InodeAt(t.disk, 2).pointers[0] == PtrOf(1)
  {
    hide LeadsTo, Taken, Enabled, Apply, TouchFile, MakeDir, RemoveDir, Open, InodeAt, Begun, Slist.Valid,
      Slist.FreeCells, FindItem, FreeSlot, PtrOf, DirAt, IsEmpty;
    var s := Begun(d, g, fds);
    Begins(d, g, fds);
    RootIsEmpty();
    EmptyHasRoom(s, "a");
    Makes(s, 0, 0, "a");
    Then(s, [], s, MkDir("a"));
    assert [] + [MkDir("a")] == [MkDir("a")];
    var u := MakeDir(s, "a").0;
    NewIsFound(s.dir.items, "a", 1);
    RootItems();
    Removes(u, 0, 0, "a");
    Then(s, [MkDir("a")], u, RmDir("a"));
    assert [MkDir("a")] + [RmDir("a")] == [MkDir("a"), RmDir("a")];
    var v := RemoveDir(u, "a").0;
    EmptyHasRoom(v, "f");
    TouchesNext(v, 0, 0, "f");
    Then(s, [MkDir("a"), RmDir("a")], v, Touch("f"));
    assert [MkDir("a"), RmDir("a")] + [Touch("f")] == [MkDir("a"), RmDir("a"), Touch("f")];
    var w := TouchFile(v, "f").0;
    t := StaleSecondHalf(s, v, w);
    assert [MkDir("a"), RmDir("a"), Touch("f")] + [MkDir("b")] + [OpenFile("f", O_RDWR)] + [SeekTo(0, 1)]
        == [MkDir("a"), RmDir("a"), Touch("f"), MkDir("b"), OpenFile("f", O_RDWR), SeekTo(0, 1)];
  }

  lemma RootItems()
    ensures forall k :: 0 <= k < MAX_DIR_ITEM_NUM ==> !RootDir().items[k].valid
  {}

  lemma StaleSecondHalf(s: Fs, v: Fs, w: Fs) returns (t: Fs)
    requires LeadsTo(s, [MkDir("a"), RmDir("a"), Touch("f")], w) && Taken(w, 1, 0) && Touched(v, w, 1, "f")
    requires IsEmpty(v.dir)
    requires InodeAt(v.disk, 1).pointers[0] == PtrOf(1) && |w.fds| > 0
    requires Slist.Valid(w.fdList) && Slist.FreeCells(w.fdList) != [] && Slist.FreeCells(w.fdList)[0] == 1
    ensures LeadsTo(s, [MkDir("a"), RmDir("a"), Touch("f")] + [MkDir("b")] + [OpenFile("f", O_RDWR)] + [SeekTo(0, 1)],
      t)
    ensures Taken(t, 2, 1) && 0 < |t.fds| && t.fds[0] == Fd(1, O_RDWR, 0, 1)
    ensures InodeAt(t.disk, 1).kind == FILE_NORMAL && InodeAt(t.disk, 1).capacity == 0
    ensures InodeAt(t.disk, 2).kind == FILE_DIR
    ensures InodeAt(t.disk, 1).pointers[0] == InodeAt(t.disk, 2).pointers[0] == PtrOf(1)
  {
    hide LeadsTo, Taken, Enabled, Apply, MakeDir, Open, InodeAt, Slist.Valid, Slist.FreeCells, FindItem, FreeSlot,
      PtrOf, DirAt, IsEmpty;
    var cs := [MkDir("a"), RmDir("a"), Touch("f")];
    OneItem(v, w, "f", "b");
    Makes(w, 1, 0, "b");
    Then(s, cs, w, MkDir("b"));
    var x := MakeDir(w, "b").0;
    SecondItem(v.dir, w.dir.items, x.dir.items, 2);
    OpensFirst(x, 2, 1, "f", 1);
    Then(s, cs + [MkDir("b")], x, OpenFile("f", O_RDWR));
    var y := Open(x, "f", O_RDWR).0;
    TakenIsSound(y, 2, 1);
    SeekEnabled(y, 0, 1);
    Then(s, cs + [MkDir("b")] + [OpenFile("f", O_RDWR)], y, SeekTo(0, 1));
    t := Seek(y, 0, 1);
    SeekTaken(y, 2, 1, 0, 1);
  }

  lemma SeekTaken(s: Fs, n: int, m: int, fd: int, offset: nat)
    requires Taken(s, n, m) && Kept(Seek(s, fd, offset))
    ensures Taken(Seek(s, fd, offset), n, m)
  {
    hide Kept, Live, Used;
  }

  lemma OneItem(v: Fs, w: Fs, name: string, other: string)
    requires Touched(v, w, 1, name) && IsEmpty(v.dir) && |other| <= MAX_NAME_LENGTH && name != other
    ensures Room(w, other) && FreeSlot(w.dir.items) == 1
    ensures w.dir.items == v.dir.items[0 := Item(true, name, 1)]
  {
    hide InodeAt;
    assert w.dir.items[0] == Item(true, name, 1) && !w.dir.items[1].valid;
  }

  lemma SecondItem(a: Dir, b: Items, c: Items, ino: int)
    requires IsEmpty(a) && b == a.items[0 := Item(true, "f", 1)] && c == b[1 := Item(true, "b", ino)]
    ensures FindItem(c, "f") == 0 && c[0].ino == 1
  {
    FindsUnique(c, 0, "f");
  }

  /** A run in which writing one byte to an empty file at offset 1 overwrites the sector of a live directory. */
  lemma OverwritesDirectory(d: Card, g: Group, fds: seq<Fd>) returns (t: Fs)
    requires |fds| > 0
    ensures LeadsTo(Begun(d, g, fds),
      [MkDir("a"), RmDir("a"), Touch("f"), MkDir("b"), OpenFile("f", O_RDWR), SeekTo(0, 1)], t)
    ensures Sound(t) && DirInode(t.disk, 2) && Write(t, 0, [7]).Wrote?
    ensures var u := Write(t, 0, [7]).s; BlockAt(u.disk, DirPtr(t.disk, 2)).Bytes? && !Sound(u)
  {
    hide LeadsTo, Begun, Sound, InodeAt, BlockAt, Write, PtrOf, IsBlock;
    t := StalePointer(d, g, fds);
    TakenIsSound(t, 2, 1);
    TakenLive(t, 2, 1);
    StaleWriteKeepsSoundIff(t, 0, [7]);
    PtrIsBlock(1);
    assert Touches(1, 1, 0);
  }

  lemma TakenLive(s: Fs, n: nat, m: nat)
    requires Taken(s, n, m)
    ensures forall i :: 0 <= i <= n ==> Live(s.disk, i)
  {
    hide Live, Used;
  }

  // ---------------------------------------------------------------- the eighth file

  function Name(k: nat): string {
    seq(k + 1, i => 'f')
  }

  /** Files in the inodes 1 to n, entered in the root in this order. */
  ghost predicate HasFiles(s: Fs, n: nat) {
    && n < MAX_DIR_ITEM_NUM && Taken(s, n, 0) && s.here == DARRAY_ADDR
    && (forall k :: 0 <= k < n ==> s.dir.items[k] == Item(true, Name(k), k + 1))
    && (forall k :: n <= k < MAX_DIR_ITEM_NUM ==> !s.dir.items[k].valid)
    && (forall i :: 1 <= i <= n ==> InodeAt(s.disk, i).kind == FILE_NORMAL)
  }

  lemma NextName(s: Fs, n: nat)
    requires HasFiles(s, n) && n < 8
    ensures Room(s, Name(n)) && FreeSlot(s.dir.items) == n
  {
    hide Taken, InodeAt;
    forall k | 0 <= k < n ensures s.dir.items[k].name != Name(n) { assert |Name(k)| == k + 1; }
    SlotIs(s.dir.items, n);
    NotThere(s.dir.items, Name(n));
  }

  lemma {:induction false} SlotIs(items: seq<Item>, n: nat)
    requires n < |items| && !items[n].valid && forall k :: 0 <= k < n ==> items[k].valid
    ensures FreeSlot(items) == n
    decreases n
  {
    if n > 0 { SlotIs(items[1..], n - 1); }
  }

  lemma {:induction false} NotThere(items: seq<Item>, name: string)
    requires forall k :: 0 <= k < |items| && items[k].valid ==> items[k].name != name
    ensures FindItem(items, name) == -1
  {
    if items != [] { NotThere(items[1..], name); }
  }

  lemma NextFilled(s: Fs, t: Fs, n: nat)
    requires HasFiles(s, n) && n < 8 && Taken(t, n + 1, 0) && Touched(s, t, n + 1, Name(n))
    requires FreeSlot(s.dir.items) == n
    ensures HasFiles(t, n + 1)
  {
    hide Taken, InodeAt, FreeSlot;
  }

  lemma {:induction false} TouchMany(d: Card, g: Group, fds: seq<Fd>, n: nat) returns (cs: seq<Call>, t: Fs)
    requires n <= 8
    ensures LeadsTo(Begun(d, g, fds), cs, t) && HasFiles(t, n) && t.fds == fds && t.fdList == Begun(d, g, fds).fdList
    decreases n
  {
    hide LeadsTo, Taken, Enabled, Apply, TouchFile, InodeAt, Begun, Room;
    if n == 0 {
      Begins(d, g, fds);
      RootItems();
      cs, t := [], Begun(d, g, fds);
    } else {
      cs, t := TouchMany(d, g, fds, n - 1);
      NextName(t, n - 1);
      TouchesNext(t, n - 1, 0, Name(n - 1));
      Then(Begun(d, g, fds), cs, t, Touch(Name(n - 1)));
      NextFilled(t, TouchFile(t, Name(n - 1)).0, n - 1);
      cs, t := cs + [Touch(Name(n - 1))], TouchFile(t, Name(n - 1)).0;
    }
  }

  lemma EighthFound(s: Fs)
    requires HasFiles(s, 8)
    ensures FindItem(s.dir.items, Name(7)) == 7 && s.dir.items[7].ino == 8
  {
    hide Taken, InodeAt;
    forall k | 0 <= k < 7 ensures s.dir.items[k].name != Name(7) { assert |Name(k)| == k + 1; }
    FindsUnique(s.dir.items, 7, Name(7));
  }

  /** A run in which the eighth file is opened: its descriptor is the root directory's, and one byte written through it
      turns the sector of the root directory into bytes. */
  lemma EighthFileIsRoot(d: Card, g: Group, fds: seq<Fd>) returns (cs: seq<Call>, t: Fs)
    requires |fds| > 0
    ensures LeadsTo(Begun(d, g, fds), cs, t) && Sound(t) && DirInode(t.disk, 0) && DirPtr(t.disk, 0) == DARRAY_ADDR
    ensures 0 < |t.fds| && t.fds[0] == Fd(0, O_RDWR, InodeAt(t.disk, 8).size, 0) && Write(t, 0, [7]).Wrote?
    ensures var u := Write(t, 0, [7]).s; BlockAt(u.disk, DARRAY_ADDR).Bytes? && !Sound(u)
  {
    hide LeadsTo, Taken, Enabled, Apply, InodeAt, Begun, Sound, Open, BlockAt, Write, FindItem, Slist.Valid,
      Slist.FreeCells;
    var s: Fs;
    cs, s := TouchMany(d, g, fds, 8);
    Begins(d, g, fds);
    EighthFound(s);
    OpensFirst(s, 8, 0, Name(7), 8);
    Then(Begun(d, g, fds), cs, s, OpenFile(Name(7), O_RDWR));
    cs, t := cs + [OpenFile(Name(7), O_RDWR)], Open(s, Name(7), O_RDWR).0;
    TakenIsSound(t, 8, 0);
    RootIsDir(t);
    RootSector(t);
    DirWriteKeepsSoundIff(t, 0, [7]);
  }

  lemma RootSector(s: Fs)
    requires Sound(s)
    ensures DirPtr(s.disk, 0) == DARRAY_ADDR
  {
    assert RootOk(s.disk);
  }
}
