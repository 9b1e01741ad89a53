/** Whole runs of file system calls from a freshly made file system, and exactly which calls keep it sound. */
module FsHistory {
  import opened Bitmap
  import opened Fs
  import opened FsRuns
  import opened FsTree
  import opened FsCalls
  import opened FsPaths
  import opened FsWrites
  import opened FsReads
  import opened FsStores
  import opened FsAtomic
  import opened FsFormat

  datatype Call =
    | MakeFs(group: Group)
    | MountFs
    | MkDir(name: string)
    | RmDir(name: string)
    | Cd(name: string)
    | Touch(name: string)
    | OpenFile(name: string, access: int)
    | CloseFile(fd: int)
    | ReadFrom(fd: int, n: nat)
    | WriteTo(fd: int, buf: seq<bv8>)
    | SeekTo(fd: int, offset: nat)

  /** A call returns, or it crashes. */
  datatype Reply = Returns(s: Fs) | Crashes

  function Perform(s: Fs, c: Call): Reply {
    match c
    case MakeFs(group) => Returns(s.(disk := Format(s.disk, group)))
    case MountFs => Returns(Mount(s))
    case MkDir(name) => Returns(MakeDir(s, name).0)
    case RmDir(name) => Returns(RemoveDir(s, name).0)
    case Cd(name) => Returns(ChangeDir(s, name).0)
    case Touch(name) => Returns(TouchFile(s, name).0)
    case OpenFile(name, access) => Returns(Open(s, name, access).0)
    case CloseFile(fd) => Returns(Close(s, fd).0)
    case ReadFrom(fd, n) => Returns(Read(s, fd, n).0)
    case WriteTo(fd, buf) => (match Write(s, fd, buf) case Wrote(t, _) => Returns(t) case WriteCrash => Crashes)
    case SeekTo(fd, offset) => Returns(Seek(s, fd, offset))
  }

  /** What can be told before a call: mkfs runs on fresh caches, mkdir and touch find what they need, and a write
      fills no directory's sector and no wild one and takes no block for what is no file. */
  ghost predicate Harmless(s: Fs, c: Call) {
    match c
    case MakeFs(_) => Fresh(s)
    case MkDir(name) =>
      Admit(s, name).0 == Done ==> HasInode(s) && (FreeAbove(s) != {} || StaleIsEmptyFile(s))
    case Touch(name) => Admit(s, name).0 == Done ==> HasInode(s)
    case WriteTo(fd, buf) => MayWrite(s, fd) ==> WriteSpares(s, fd, buf)
    case _ => true
  }

  ghost predicate Enabled(s: Fs, c: Call) {
    Harmless(s, c) && Perform(s, c).Returns?
  }

  ghost function Apply(s: Fs, c: Call): Fs
    requires Enabled(s, c)
  {
    Perform(s, c).s
  }

  ghost predicate AllEnabled(s: Fs, cs: seq<Call>)
    decreases |cs|
  {
    cs == [] || (Enabled(s, cs[0]) && AllEnabled(Apply(s, cs[0]), cs[1..]))
  }

  ghost function RunCalls(s: Fs, cs: seq<Call>): Fs
    requires AllEnabled(s, cs)
    decreases |cs|
  {
    if cs == [] then s else RunCalls(Apply(s, cs[0]), cs[1..])
  }

  // ---------------------------------------------------------------- depth

  lemma AddedStaysAcyclic(d: Disk, e: Disk, h: int, n: int, ino: int)
    requires Tree(d) && Acyclic(d) && EntryAdded(d, e, h, n, ino)
    ensures Acyclic(e)
  {
    hide Live, InodeAt, BlockAt, DirAt;
    var rank :| Ranks(d, rank);
    var rank' := rank[ino := RankOf(rank, h) + 1];
    forall i, m, c | Entry(e, i, m, c) ensures RankOf(rank', c) == RankOf(rank', i) + 1 {
      assert EntryOk(d, i, m, c);
    }
    assert Ranks(e, rank');
  }

  lemma DroppedStaysAcyclic(d: Disk, e: Disk)
    requires Acyclic(d) && NoEntryAdded(d, e)
    ensures Acyclic(e)
  {
    hide Entry;
    var rank :| Ranks(d, rank);
    assert Ranks(e, rank);
  }

  function Climb(s: Fs, n: nat): Fs
    decreases n
  {
    if n == 0 then s else Climb(ChangeDir(s, "..").0, n - 1)
  }

  /** Going up often enough ends in the root. */
  lemma {:induction false} ClimbsTo(s: Fs, rank: map<int, nat>, h: int, n: nat)
    requires Sound(s) && Ranks(s.disk, rank) && IsHere(s, h) && RankOf(rank, h) == n
    ensures Climb(s, n).here == DARRAY_ADDR
    decreases n
  {
    hide Live, InodeAt, BlockAt, DirAt, Used, Ownership, Counted, BitAt, IsBlock, MapsCached;
    if s.here != DARRAY_ADDR {
      var q := ParentIsDir(s);
      assert RootOk(s.disk) && HasEntry(s.disk, h);
      var i, m :| Entry(s.disk, i, m, h);
      assert EntryOk(s.disk, i, m, h);
      GoToKeepsSound(s, i);
      assert IsHere(GoTo(s, DirPtr(s.disk, i)), i);
      ParentPtr(s, h, i, m);
      ClimbsTo(ChangeDir(s, "..").0, rank, i, n - 1);
    } else {
      StaysInRoot(s, n);
    }
  }

  lemma ParentPtr(s: Fs, h: int, i: int, m: int)
    requires Sound(s) && IsHere(s, h) && Entry(s.disk, i, m, h)
    ensures s.dir.parent == DirPtr(s.disk, i)
  {
    hide Live, InodeAt, BlockAt, Used, Ownership, Counted, BitAt, IsBlock, MapsCached;
    assert EntryOk(s.disk, i, m, h);
  }

  lemma {:induction false} StaysInRoot(s: Fs, n: nat)
    requires s.here == DARRAY_ADDR
    ensures Climb(s, n).here == DARRAY_ADDR
    decreases n
  {
    if n > 0 { StaysInRoot(s, n - 1); }
  }

  // ---------------------------------------------------------------- every run

  ghost predicate Kept(s: Fs) {
    Sound(s) && Acyclic(s.disk)
  }

  lemma SoundHasTree(s: Fs)
    requires Sound(s)
    ensures Tree(s.disk) && DiskSound(s.disk)
  {}

  lemma SameDiskStays(s: Fs, t: Fs)
    requires Kept(s) && t == s.(fds := t.fds, fdList := t.fdList)
    ensures Kept(t)
  {
    hide Ownership, Tree, Counted, DirInode, BlockAt, IsBlock;
    var h :| IsHere(s, h);
    assert IsHere(t, h);
  }

  // ---------------------------------------------------------------- one call

  /** Every call returns and keeps the file system sound exactly when it is harmless, which can be told beforehand. */
  lemma CallKeepsIff(s: Fs, c: Call)
    requires Kept(s)
    ensures Perform(s, c).Returns? && Sound(Perform(s, c).s) <==> Harmless(s, c)
    ensures Perform(s, c).Returns? && Sound(Perform(s, c).s) ==> Kept(Perform(s, c).s)
  {
    hide Sound, Acyclic, DiskSound, Tree, Write, WriteSpares, MakeDir, TouchFile, RemoveDir, ChangeDir, Open, Close,
      Read, Seek, Format, Fresh, HasInode, FreeAbove, StaleIsEmptyFile, Admit, Mount;
    match c
    case MakeFs(group) => FormatInUseIff(s, group); FormatIsSound(s.disk, group); SoundIsIntact(s);
    case MountFs => MountStays(s);
    case MkDir(name) =>
      MakeDirKeepsSoundIff(s, name);
      if Sound(MakeDir(s, name).0) { MakeDirStays(s, name); }
    case RmDir(name) => RemoveDirStays(s, name);
    case Cd(name) => ChangeDirKeepsSound(s, name); ChangeDirStays(s, name);
    case Touch(name) =>
      TouchKeepsSoundIff(s, name);
      if Sound(TouchFile(s, name).0) { TouchStays(s, name); }
    case WriteTo(fd, buf) => WriteStays(s, fd, buf);
    case OpenFile(_, _) => FilesStay(s, c);
    case CloseFile(_) => FilesStay(s, c);
    case ReadFrom(_, _) => FilesStay(s, c);
    case SeekTo(_, _) => FilesStay(s, c);
  }

  lemma FilesStay(s: Fs, c: Call)
    requires Kept(s) && (c.OpenFile? || c.CloseFile? || c.ReadFrom? || c.SeekTo?)
    ensures Perform(s, c).Returns? && Kept(Perform(s, c).s)
  {
    hide Kept, InodeAt, FileExists, ReadLoop;
    SameDiskStays(s, Perform(s, c).s);
  }

  lemma MountStays(s: Fs)
    requires Kept(s)
    ensures Kept(Mount(s))
  {
    hide Sound, Acyclic, DiskSound;
    SoundHasTree(s);
    MountKeepsSound(s);
    assert Mount(s).disk == s.disk;
  }

  lemma MakeDirStays(s: Fs, name: string)
    requires Kept(s) && Sound(MakeDir(s, name).0)
    ensures Acyclic(MakeDir(s, name).0.disk)
  {
    hide Sound, Acyclic, EntryAdded, MakeDir, Tree;
    SoundHasTree(s);
    var (t, o) := MakeDir(s, name);
    if o == NoInode {
      MakeDirNoInode(s, name);
    } else {
      if o == NoBlock { NoBlockIff(s, name); } else { MakeDirKeepsSound(s, name); }
      if o == Done || o == NoBlock {
        var h, n, ino :| EntryAdded(s.disk, t.disk, h, n, ino);
        AddedStaysAcyclic(s.disk, t.disk, h, n, ino);
      }
    }
  }

  lemma MakeDirNoInode(s: Fs, name: string)
    requires Sound(s) && MakeDir(s, name).1 == NoInode
    ensures !Sound(MakeDir(s, name).0)
  {
    hide Sound, MakeDir;
    MakeDirIsAtomicIff(s, name);
    NotCached(MakeDir(s, name).0);
  }

  lemma RemoveDirStays(s: Fs, name: string)
    requires Kept(s)
    ensures Kept(RemoveDir(s, name).0)
  {
    hide Sound, Acyclic, NoEntryAdded, RemoveDir;
    RemoveDirKeepsSound(s, name);
    DroppedStaysAcyclic(s.disk, RemoveDir(s, name).0.disk);
  }

  lemma ChangeDirStays(s: Fs, name: string)
    ensures ChangeDir(s, name).0.disk == s.disk
  {
    hide DirAt, InodeAt, Resolve, Lookup;
  }

  lemma TouchStays(s: Fs, name: string)
    requires Kept(s) && Sound(TouchFile(s, name).0)
    ensures Acyclic(TouchFile(s, name).0.disk)
  {
    hide Sound, Acyclic, EntryAdded, TouchFile, Tree;
    SoundHasTree(s);
    var (t, o) := TouchFile(s, name);
    if o == NoInode {
      TouchIsAtomicIff(s, name);
      NotCached(t);
    } else {
      TouchKeepsSound(s, name);
      if o == Done {
        var h, n, ino :| EntryAdded(s.disk, t.disk, h, n, ino);
        AddedStaysAcyclic(s.disk, t.disk, h, n, ino);
      }
    }
  }

  lemma WriteStays(s: Fs, fd: int, buf: seq<bv8>)
    requires Kept(s)
    ensures LeavesSound(s, fd, buf) <==> (MayWrite(s, fd) ==> WriteSpares(s, fd, buf))
    ensures LeavesSound(s, fd, buf) ==> Kept(Write(s, fd, buf).s)
  {
    hide Sound, Acyclic, WriteSpares, NoEntryAdded, WriteLoop, PutInode, InodeAt;
    if MayWrite(s, fd) {
      WriteKeepsSoundIff(s, fd, buf);
      if LeavesSound(s, fd, buf) { DroppedStaysAcyclic(s.disk, Write(s, fd, buf).s.disk); }
    }
  }

  lemma EnabledKeeps(s: Fs, c: Call)
    requires Kept(s) && Enabled(s, c)
    ensures Kept(Apply(s, c))
  {
    hide Kept, Harmless, Perform;
    CallKeepsIff(s, c);
  }

  lemma {:induction false} RunKeeps(s: Fs, cs: seq<Call>)
    requires Kept(s) && AllEnabled(s, cs)
    ensures Kept(RunCalls(s, cs))
    decreases |cs|
  {
    hide Kept, Apply, Enabled;
    if cs != [] {
      EnabledKeeps(s, cs[0]);
      RunKeeps(Apply(s, cs[0]), cs[1..]);
    }
  }

  /** In every run from mkfs and mount: a block is marked used exactly when somebody owns it, nobody shares one, the
      counters are the populations of the bitmaps, memory agrees with the disk, no entry's name is longer than 26
      characters or given twice in a directory, and going up leads to the root. */
  lemma EveryBlockHasOneOwner(s: Fs, d: Card, x: Group, cs: seq<Call>)
    requires s.disk == Format(d, x) && AllEnabled(Mount(s), cs)
    ensures var t := RunCalls(Mount(s), cs);
      && (forall b :: 0 <= b < DATA_ITEM_NUM ==> (Used(t.disk, b) <==> exists i, k :: Owns(t.disk, i, k, b)))
      && (forall b, i, k, j, l :: Owns(t.disk, i, k, b) && Owns(t.disk, j, l, b) ==> i == j && k == l)
      && t.super == t.disk.super == Super(|InodeBits(t.disk)|, |DataBits(t.disk)|)
      && MapsCached(t) && DirCached(t)
      && (forall i, n :: DirInode(t.disk, i) && ItemOf(t.disk, i, n).valid ==> |ItemOf(t.disk, i, n).name| <= 26)
      && (forall i, n, m :: (DirInode(t.disk, i) && ItemOf(t.disk, i, n).valid && ItemOf(t.disk, i, m).valid
                             && ItemOf(t.disk, i, n).name == ItemOf(t.disk, i, m).name) ==> n == m)
      && exists n :: Climb(t, n).here == DARRAY_ADDR
  {
    hide Apply, Enabled, Format;
    FormatIsSound(d, x);
    MountKeepsSound(s);
    RunKeeps(Mount(s), cs);
    ReadOff(RunCalls(Mount(s), cs));
  }

  lemma ReadOff(t: Fs)
    requires Kept(t)
    ensures forall b :: 0 <= b < DATA_ITEM_NUM ==> (Used(t.disk, b) <==> exists i, k :: Owns(t.disk, i, k, b))
    ensures forall b, i, k, j, l :: Owns(t.disk, i, k, b) && Owns(t.disk, j, l, b) ==> i == j && k == l
    ensures t.super == t.disk.super == Super(|InodeBits(t.disk)|, |DataBits(t.disk)|)
    ensures MapsCached(t) && DirCached(t)
    ensures forall i, n :: DirInode(t.disk, i) && ItemOf(t.disk, i, n).valid ==> |ItemOf(t.disk, i, n).name| <= 26
    ensures forall i, n, m :: (DirInode(t.disk, i) && ItemOf(t.disk, i, n).valid && ItemOf(t.disk, i, m).valid
      && ItemOf(t.disk, i, n).name == ItemOf(t.disk, i, m).name) ==> n == m
    ensures exists n :: Climb(t, n).here == DARRAY_ADDR
  {
    hide Live, Used, InodeAt, BlockAt, PtrOf, BlockOf, BitAt, Climb;
    var d := t.disk;
    forall b | 0 <= b < DATA_ITEM_NUM ensures Used(d, b) <==> exists i, k :: Owns(d, i, k, b) {
      assert IsOwned(d, b);
      BlockInverse(b);
      if i, k :| Owns(d, i, k, b) { assert OwnerOk(d, i, k); }
    }
    forall b, i, k, j, l | Owns(d, i, k, b) && Owns(d, j, l, b) ensures i == j && k == l {
      assert OnlyOwner(d, i, k, j, l);
    }
    forall i, n | DirInode(d, i) && ItemOf(d, i, n).valid ensures |ItemOf(d, i, n).name| <= 26 {
      assert NameOk(d, i, n);
    }
    forall i, n, m | DirInode(d, i) && ItemOf(d, i, n).valid && ItemOf(d, i, m).valid
        && ItemOf(d, i, n).name == ItemOf(d, i, m).name
      ensures n == m
    {
      assert OnlyName(d, i, n, m);
    }
    var rank :| Ranks(d, rank);
    var h :| IsHere(t, h);
    ClimbsTo(t, rank, h, RankOf(rank, h));
  }
}
