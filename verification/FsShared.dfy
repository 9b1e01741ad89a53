/** A file that one descriptor appends to while other calls go on: in every run in which nobody else writes to its inode
    and nobody moves or closes the descriptor, the file is what the appends have laid down. */
module FsShared {
  import Slist
  import opened Bitmap
  import opened Fs
  import opened FsRuns
  import opened FsTree
  import opened FsCalls
  import opened FsWrites
  import opened FsReads
  import opened FsFiles
  import opened FsAtomic
  import opened FsHistory

  /** Descriptor fd is in use, open for writing, and holds the file. */
  ghost predicate Appending(s: Fs, fd: int, ino: int, data: seq<bv8>) {
    var access := FdAt(s, fd).access;
    && Holding(s, fd, ino, access, data) && (access == 0 || access == 2)
    && Slist.Valid(s.fdList) && fd + 1 in Slist.Live(s.fdList)
  }

  /** A call that leaves the descriptor and the inode to it: it does not move or close the descriptor, and if it writes
      through another one, then within another file. */
  predicate LeavesAlone(s: Fs, c: Call, fd: int, ino: int) {
    match c
    case MakeFs(_) => false
    case WriteTo(f, buf) => f == fd || !MayWrite(s, f) || (s.fds[f].ino != ino && CanWrite(s, f, buf))
    case SeekTo(f, _) => f != fd
    case ReadFrom(f, _) => f != fd
    case CloseFile(f) => f != fd
    case _ => true
  }

  ghost predicate AllLeaveAlone(s: Fs, cs: seq<Call>, fd: int, ino: int)
    requires AllEnabled(s, cs)
    decreases |cs|
  {
    cs == [] || (LeavesAlone(s, cs[0], fd, ino) && AllLeaveAlone(Apply(s, cs[0]), cs[1..], fd, ino))
  }

  /** The bytes that the appends of the run lay down. */
  ghost function Appended(s: Fs, cs: seq<Call>, fd: int): seq<bv8>
    requires AllEnabled(s, cs)
    decreases |cs|
  {
    if cs == [] then [] else LaidByCall(s, cs[0], fd) + Appended(Apply(s, cs[0]), cs[1..], fd)
  }

  function LaidByCall(s: Fs, c: Call, fd: int): seq<bv8> {
    if c.WriteTo? && c.fd == fd && Write(s, fd, c.buf).Wrote?
    then LaidBy(s, fd, c.buf, Write(s, fd, c.buf).count) else []
  }

  /** How many bytes the appends of the run ask for. */
  function Asked(cs: seq<Call>, fd: int): nat {
    if cs == [] then 0 else (if cs[0].WriteTo? && cs[0].fd == fd then |cs[0].buf| else 0) + Asked(cs[1..], fd)
  }

  // ---------------------------------------------------------------- one call

  /** The inode and its blocks are as they were. */
  ghost predicate FileStays(d: Disk, e: Disk, ino: int) {
    && Live(e, ino) && InodeAt(e, ino) == InodeAt(d, ino)
    && forall k :: Holds(d, ino, k) ==> BlockAt(e, PtrAt(d, ino, k)) == BlockAt(d, PtrAt(d, ino, k))
  }

  lemma StaysHolding(s: Fs, t: Fs, fd: int, ino: int, access: int, data: seq<bv8>)
    requires Holding(s, fd, ino, access, data) && Sound(t) && FileStays(s.disk, t.disk, ino)
    requires |t.fds| == |s.fds| && t.fds[fd] == s.fds[fd]
    ensures Holding(t, fd, ino, access, data) && FdAt(t, fd) == FdAt(s, fd)
  {
    hide Live, InodeAt, BlockAt, BytesAt, Sound;
    var x := InodeAt(s.disk, ino);
    SoundFile(s, ino);
    forall i | 0 <= i < |data| ensures ByteAt(t.disk, x, i) == data[i] {
      SlotBelow(i, x.capacity);
      assert Holds(s.disk, ino, i / 512);
      SameBlock(s.disk, t.disk, x.pointers[i / 512]);
    }
  }

  lemma SameBlock(d: Disk, e: Disk, p: int)
    requires BlockAt(e, p) == BlockAt(d, p)
    ensures BytesAt(e, p) == BytesAt(d, p)
  {
    hide BlockAt;
  }

  lemma SoundFile(s: Fs, ino: int)
    requires Sound(s) && FileInode(s.disk, ino)
    ensures var x := InodeAt(s.disk, ino);
      x.capacity % 512 == 0 && x.capacity <= SLOT_NUM * SECTOR_SIZE && x.kind == FILE_NORMAL
  {
    hide Live, InodeAt;
    assert InodeOk(s.disk, ino);
  }

  /** A block of a file is neither the current directory's sector nor a clear block. */
  lemma FileBlocks(s: Fs, ino: int, k: int)
    requires Sound(s) && FileInode(s.disk, ino) && Holds(s.disk, ino, k)
    ensures PtrAt(s.disk, ino, k) != s.here
    ensures forall b :: !Used(s.disk, b) ==> PtrAt(s.disk, ino, k) != PtrOf(b)
  {
    hide Live, InodeAt, BlockAt, Used, IsBlock, PtrOf, BlockOf, Tree, Counted;
    var h :| IsHere(s, h);
    assert OnlyOwner(s.disk, h, 0, ino, k) && OwnerOk(s.disk, ino, k);
    forall b ensures !Used(s.disk, b) ==> PtrAt(s.disk, ino, k) != PtrOf(b) { BlockInverse(b); }
  }

  lemma GrownFileStays(s: Fs, e: Disk, n: int, name: string, ino': int, x: Inode, b: int, ino: int)
    requires Sound(s) && Grown(s.disk, e, s.here, n, name, ino', x, b) && FileInode(s.disk, ino)
    ensures FileStays(s.disk, e, ino)
  {
    hide Live, InodeAt, BlockAt, Used, PtrOf, Sound;
    forall k | Holds(s.disk, ino, k)
      ensures BlockAt(e, PtrAt(s.disk, ino, k)) == BlockAt(s.disk, PtrAt(s.disk, ino, k))
    {
      FileBlocks(s, ino, k);
    }
  }

  lemma MakeDirFileStays(s: Fs, name: string, ino: int)
    requires Sound(s) && Sound(MakeDir(s, name).0) && FileInode(s.disk, ino)
    ensures var t := MakeDir(s, name).0; FileStays(s.disk, t.disk, ino) && t.fds == s.fds && t.fdList == s.fdList
  {
    hide Live, InodeAt, BlockAt, Used, PtrOf, Sound, MakeDir, Holds;
    var (t, o) := MakeDir(s, name);
    if o == Done {
      MakeDirGrows(s, name);
      var n := FreeSlot(s.dir.items);
      GrownFileStays(s, t.disk, n, name, t.dir.items[n].ino, InodeAt(t.disk, t.dir.items[n].ino),
                     BlockOf(InodeAt(t.disk, t.dir.items[n].ino).pointers[0]), ino);
    } else if o == NoBlock {
      HalfMadeIs(s, name);
      HalfMadeFds(s, name);
      forall k | Holds(s.disk, ino, k)
        ensures BlockAt(t.disk, PtrAt(s.disk, ino, k)) == BlockAt(s.disk, PtrAt(s.disk, ino, k))
      {
        FileBlocks(s, ino, k);
      }
    } else if o == NoInode {
      MakeDirNoInode(s, name);
    } else {
      MakeDirKeepsSound(s, name);
    }
  }

  lemma HalfMadeFds(s: Fs, name: string)
    requires Sound(s)
    ensures MakeDir(s, name).0.fds == s.fds && MakeDir(s, name).0.fdList == s.fdList
  {
    hide BlockAt, Live, InodeAt, Used, IsBlock, Ownership, Tree, Counted, AllocBlock, Enter, PutNewDir;
    var n := FreeSlot(s.dir.items);
    if n < MAX_DIR_ITEM_NUM {
      EnterEffect(s, name, n);
      var s1 := Enter(s, name, n).0;
      if Enter(s, name, n).1 != -1 {
        AllocBlockEffect(s1);
        PutNewDirFds(AllocBlock(s1).0, Enter(s, name, n).1, PtrOf(AllocBlock(s1).1), name);
      }
    }
  }

  lemma PutNewDirFds(s: Fs, ino: int, p: int, name: string)
    ensures PutNewDir(s, ino, p, name).fds == s.fds && PutNewDir(s, ino, p, name).fdList == s.fdList
  {}

  lemma TouchFileStays(s: Fs, name: string, ino: int)
    requires Sound(s) && Sound(TouchFile(s, name).0) && FileInode(s.disk, ino)
    ensures var t := TouchFile(s, name).0; FileStays(s.disk, t.disk, ino) && t.fds == s.fds && t.fdList == s.fdList
  {
    hide Live, InodeAt, BlockAt, Used, PtrOf, Sound, TouchFile;
    var (t, o) := TouchFile(s, name);
    if o == Done {
      TouchGrows(s, name);
      var n := FreeSlot(s.dir.items);
      GrownFileStays(s, t.disk, n, name, t.dir.items[n].ino, InodeAt(t.disk, t.dir.items[n].ino), 0, ino);
    } else if o == NoInode {
      TouchIsAtomicIff(s, name);
      NotCached(t);
    } else {
      TouchKeepsSound(s, name);
    }
  }

  lemma RemoveDirFileStays(s: Fs, name: string, ino: int)
    requires Sound(s) && FileInode(s.disk, ino)
    ensures var t := RemoveDir(s, name).0; FileStays(s.disk, t.disk, ino) && t.fds == s.fds && t.fdList == s.fdList
  {
    hide Live, InodeAt, BlockAt, Used, PtrOf, Sound, RemoveDir;
    var (t, o) := RemoveDir(s, name);
    if o == Done {
      RemoveDirShrinks(s, name);
      forall k | Holds(s.disk, ino, k)
        ensures BlockAt(t.disk, PtrAt(s.disk, ino, k)) == BlockAt(s.disk, PtrAt(s.disk, ino, k))
      {
        FileBlocks(s, ino, k);
      }
    } else {
      RemoveDirRefuses(s, name);
    }
  }

  lemma RemoveDirRefuses(s: Fs, name: string)
    requires RemoveDir(s, name).1 != Done
    ensures RemoveDir(s, name).0 == s
  {}

  lemma UntouchedStays(d: Disk, e: Disk, j: int, ino: int)
    requires OthersUntouched(d, e, j) && ino != j && Live(d, ino)
    ensures FileStays(d, e, ino)
  {}

  lemma AppendingIs(s: Fs, fd: int, ino: int, data: seq<bv8>)
    requires Appending(s, fd, ino, data)
    ensures Holding(s, fd, ino, FdAt(s, fd).access, data) && Sound(s) && FileInode(s.disk, ino) && 0 <= fd < |s.fds|
  {}

  /** Only the descriptors and the current directory have changed, and not descriptor fd. */
  lemma FilesLeaveAlone(s: Fs, c: Call, fd: int, ino: int, data: seq<bv8>)
    requires Appending(s, fd, ino, data) && LeavesAlone(s, c, fd, ino)
    requires c.OpenFile? || c.CloseFile? || c.ReadFrom? || c.SeekTo?
    requires Perform(s, c).Returns? && Sound(Perform(s, c).s)
    ensures Appending(Perform(s, c).s, fd, ino, data)
  {
    hide Sound, Holding, Slist.Valid, Perform;
    AppendingIs(s, fd, ino, data);
    FdsStay(s, c, fd);
    SameFile(s, Perform(s, c).s, ino);
    StaysHolding(s, Perform(s, c).s, fd, ino, FdAt(s, fd).access, data);
  }

  /** Neither descriptor fd nor its being in use changes. */
  ghost predicate FdStays(s: Fs, t: Fs, fd: int) {
    && t.disk == s.disk && |t.fds| == |s.fds| && (0 <= fd < |s.fds| ==> t.fds[fd] == s.fds[fd])
    && Slist.Valid(t.fdList) && fd + 1 in Slist.Live(t.fdList)
  }

  lemma FdsStay(s: Fs, c: Call, fd: int)
    requires Slist.Valid(s.fdList) && fd + 1 in Slist.Live(s.fdList)
    requires (c.OpenFile? || c.CloseFile? || c.ReadFrom? || c.SeekTo?) && LeavesAlone(s, c, fd, 0)
    ensures Perform(s, c).Returns? && FdStays(s, Perform(s, c).s, fd)
  {
    hide Open, Close, Read, Seek, Slist.Valid;
    match c
    case OpenFile(name, access) => OpenStays(s, name, access, fd);
    case CloseFile(f) => CloseStays(s, f, fd);
    case ReadFrom(f, n) => ReadStays(s, f, n, fd);
    case SeekTo(f, offset) => SeekStays(s, f, offset, fd);
  }

  lemma OpenStays(s: Fs, name: string, access: int, fd: int)
    requires Slist.Valid(s.fdList) && fd + 1 in Slist.Live(s.fdList)
    ensures FdStays(s, Open(s, name, access).0, fd)
  {
    hide Slist.Valid, InodeAt, FileExists, Slist.Live;
    Slist.AllocPops(s.fdList);
  }

  lemma CloseStays(s: Fs, f: int, fd: int)
    requires Slist.Valid(s.fdList) && fd + 1 in Slist.Live(s.fdList) && f != fd
    ensures FdStays(s, Close(s, f).0, fd)
  {
    hide Slist.Valid, Slist.Live;
    Slist.FreePushes(s.fdList, f + 1);
  }

  lemma ReadStays(s: Fs, f: int, n: nat, fd: int)
    requires Slist.Valid(s.fdList) && fd + 1 in Slist.Live(s.fdList) && f != fd
    ensures FdStays(s, Read(s, f, n).0, fd)
  {
    hide Slist.Valid, Slist.Live, InodeAt, ReadLoop, ReadCount;
  }

  lemma SeekStays(s: Fs, f: int, offset: nat, fd: int)
    requires Slist.Valid(s.fdList) && fd + 1 in Slist.Live(s.fdList) && f != fd
    ensures FdStays(s, Seek(s, f, offset), fd)
  {
    hide Slist.Valid, Slist.Live;
  }

  lemma SameFile(s: Fs, t: Fs, ino: int)
    requires t.disk == s.disk && Live(s.disk, ino)
    ensures FileStays(s.disk, t.disk, ino)
  {}

  lemma DirectoriesLeaveAlone(s: Fs, c: Call, fd: int, ino: int, data: seq<bv8>)
    requires Appending(s, fd, ino, data)
    requires c.MountFs? || c.MkDir? || c.RmDir? || c.Cd? || c.Touch?
    requires Perform(s, c).Returns? && Sound(Perform(s, c).s)
    ensures Appending(Perform(s, c).s, fd, ino, data)
  {
    hide Sound, Holding, InodeAt, MakeDir, TouchFile, RemoveDir, ChangeDir, Slist.Valid, Live, FileStays;
    var t := Perform(s, c).s;
    AppendingIs(s, fd, ino, data);
    match c
    case MountFs => SameFile(s, t, ino); StaysHolding(s, t, fd, ino, FdAt(s, fd).access, data);
    case Cd(name) => CdFds(s, name); SameFile(s, t, ino); StaysHolding(s, t, fd, ino, FdAt(s, fd).access, data);
    case MkDir(name) => MakeDirFileStays(s, name, ino); StaysHolding(s, t, fd, ino, FdAt(s, fd).access, data);
    case RmDir(name) => RemoveDirFileStays(s, name, ino); StaysHolding(s, t, fd, ino, FdAt(s, fd).access, data);
    case Touch(name) => TouchFileStays(s, name, ino); StaysHolding(s, t, fd, ino, FdAt(s, fd).access, data);
  }

  lemma CdFds(s: Fs, name: string)
    ensures var t := ChangeDir(s, name).0; t.disk == s.disk && t.fds == s.fds && t.fdList == s.fdList
  {
    hide DirAt, InodeAt, Resolve, Lookup;
  }

  /** A write through another descriptor, within another file. */
  lemma OtherWrites(s: Fs, f: int, buf: seq<bv8>, fd: int, ino: int, data: seq<bv8>)
    requires Appending(s, fd, ino, data) && f != fd && LeavesAlone(s, WriteTo(f, buf), fd, ino)
    ensures Write(s, f, buf).Wrote? && Appending(Write(s, f, buf).s, fd, ino, data)
  {
    hide Sound, Holding, InodeAt, Slist.Valid, WriteLoop, PutInode, Live, CanWrite, OthersUntouched, FreeAbove, Missing,
      FileStays, Laid;
    if MayWrite(s, f) {
      AppendingIs(s, fd, ino, data);
      WriteIsAllOrNothing(s, f, buf);
      UntouchedStays(s.disk, Write(s, f, buf).s.disk, s.fds[f].ino, ino);
      StaysHolding(s, Write(s, f, buf).s, fd, ino, FdAt(s, fd).access, data);
    }
  }

  lemma OwnWrites(s: Fs, fd: int, buf: seq<bv8>, ino: int, data: seq<bv8>)
    requires Appending(s, fd, ino, data) && |data| + |buf| <= DIRECT_NUM * SECTOR_SIZE
    ensures Write(s, fd, buf).Wrote?
    ensures Appending(Write(s, fd, buf).s, fd, ino, data + LaidBy(s, fd, buf, Write(s, fd, buf).count))
  {
    hide Sound, Holding, InodeAt, Slist.Valid, WriteLoop, PutInode, Live, OthersUntouched, FreeAbove, Missing, LaidBy,
      Laid, InDirect;
    AppendingIs(s, fd, ino, data);
    AppendStep(s, fd, ino, FdAt(s, fd).access, data, buf);
    WriteIsAllOrNothing(s, fd, buf);
  }

  /** One call of a run keeps the file what the appends so far have laid down. */
  lemma CallAppends(s: Fs, c: Call, fd: int, ino: int, data: seq<bv8>)
    requires Kept(s) && Enabled(s, c) && Appending(s, fd, ino, data) && LeavesAlone(s, c, fd, ino)
    requires c.WriteTo? && c.fd == fd ==> |data| + |c.buf| <= DIRECT_NUM * SECTOR_SIZE
    ensures Appending(Apply(s, c), fd, ino, data + LaidByCall(s, c, fd))
  {
    hide Kept, Harmless, Perform, Appending, LaidBy, Sound;
    EnabledKeeps(s, c);
    KeptIsSound(Apply(s, c));
    assert data + [] == data;
    if c.WriteTo? {
      WriteApplies(s, c);
      if c.fd == fd {
        OwnWrites(s, fd, c.buf, ino, data);
      } else {
        OtherWrites(s, c.fd, c.buf, fd, ino, data);
      }
    } else if c.OpenFile? || c.CloseFile? || c.ReadFrom? || c.SeekTo? {
      FilesLeaveAlone(s, c, fd, ino, data);
    } else {
      DirectoriesLeaveAlone(s, c, fd, ino, data);
    }
  }

  lemma KeptIsSound(s: Fs)
    requires Kept(s)
    ensures Sound(s)
  {}

  lemma WriteApplies(s: Fs, c: Call)
    requires c.WriteTo? && Enabled(s, c)
    ensures Write(s, c.fd, c.buf) == Wrote(Apply(s, c), Write(s, c.fd, c.buf).count)
  {
    hide Harmless;
  }

  /** Over every run of calls in which only descriptor fd writes to the inode and nobody else moves it, the file's
      bytes are those that its appends have laid down, in order. */
  lemma {:induction false} InterleavedAppends(s: Fs, cs: seq<Call>, fd: int, ino: int, data: seq<bv8>)
    requires Kept(s) && AllEnabled(s, cs) && Appending(s, fd, ino, data) && AllLeaveAlone(s, cs, fd, ino)
    requires |data| + Asked(cs, fd) <= DIRECT_NUM * SECTOR_SIZE
    ensures Appending(RunCalls(s, cs), fd, ino, data + Appended(s, cs, fd))
    decreases |cs|
  {
    hide Kept, Enabled, Appending, Apply, LeavesAlone, LaidByCall;
    if cs == [] {
      assert data + [] == data;
    } else {
      EnabledKeeps(s, cs[0]);
      CallAppends(s, cs[0], fd, ino, data);
      var laid := LaidByCall(s, cs[0], fd);
      LaidByCallSize(s, cs[0], fd);
      InterleavedAppends(Apply(s, cs[0]), cs[1..], fd, ino, data + laid);
      assert data + laid + Appended(Apply(s, cs[0]), cs[1..], fd)
          == data + (laid + Appended(Apply(s, cs[0]), cs[1..], fd));
    }
  }

  lemma LaidByCallSize(s: Fs, c: Call, fd: int)
    ensures |LaidByCall(s, c, fd)| <= if c.WriteTo? && c.fd == fd then |c.buf| else 0
  {
    hide Write, Laid;
  }
}
