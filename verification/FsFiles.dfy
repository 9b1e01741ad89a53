/** Files refine byte sequences: what appends lay down is what is read back. */
module FsFiles {
  import Slist
  import opened Bitmap
  import opened Fs
  import opened FsRuns
  import opened FsTree
  import opened FsCalls
  import opened FsWrites
  import opened FsReads

  /** Inode ino is a file whose bytes are `data`. */
  ghost predicate FileHolds(d: Disk, ino: int, data: seq<bv8>) {
    && FileInode(d, ino)
    && InodeAt(d, ino).size == |data| <= InodeAt(d, ino).capacity && |data| <= DIRECT_NUM * SECTOR_SIZE
    && forall i :: 0 <= i < |data| ==> ByteAt(d, InodeAt(d, ino), i) == data[i]
  }

  /** Descriptor fd, at its end, is open in this mode on inode ino, whose bytes are `data`. */
  ghost predicate Holding(s: Fs, fd: int, ino: int, access: int, data: seq<bv8>) {
    Sound(s) && 0 <= fd < |s.fds| && FileHolds(s.disk, ino, data) && s.fds[fd] == Fd(ino, access, |data|, |data|)
  }

  /** A write that reports all it was asked for. */
  predicate GoesThrough(s: Fs, fd: int, buf: seq<bv8>) {
    Write(s, fd, buf).Wrote? && Write(s, fd, buf).count == |buf|
  }

  /** A run of writes on one descriptor, and the bytes that those which went through have laid down. */
  function AppendAll(s: Fs, fd: int, bufs: seq<seq<bv8>>): (Fs, seq<bv8>)
    decreases |bufs|
  {
    if bufs == [] || !CanWrite(s, fd, bufs[0]) || Write(s, fd, bufs[0]).WriteCrash? then (s, []) else
    var r := Write(s, fd, bufs[0]);
    var (u, rest) := AppendAll(r.s, fd, bufs[1..]);
    (u, LaidBy(s, fd, bufs[0], r.count) + rest)
  }

  /** The bytes that a write lays down if it reports `count`. */
  function LaidBy(s: Fs, fd: int, buf: seq<bv8>, count: nat): seq<bv8> {
    if count == |buf| then Laid(FdAt(s, fd).offset, buf, |buf|) else []
  }

  function Total(bufs: seq<seq<bv8>>): nat {
    if bufs == [] then 0 else |bufs[0]| + Total(bufs[1..])
  }

  lemma AppendStep(s: Fs, fd: int, ino: int, access: int, data: seq<bv8>, buf: seq<bv8>)
    requires Holding(s, fd, ino, access, data) && |data| + |buf| <= DIRECT_NUM * SECTOR_SIZE
    requires access == 0 || access == 2
    ensures CanWrite(s, fd, buf) && Write(s, fd, buf).Wrote?
    ensures var (t, n) := (Write(s, fd, buf).s, Write(s, fd, buf).count);
      && (n == |buf| || n == 0)
      && Holding(t, fd, ino, access, data + LaidBy(s, fd, buf, n))
      && OthersUntouched(s.disk, t.disk, ino) && t.here == s.here && t.fdList == s.fdList
  {
    hide Sound, Live, InodeAt, Write, Missing, FreeAbove, ByteAt, Laid;
    assert CanWrite(s, fd, buf);
    WriteIsAllOrNothing(s, fd, buf);
    assert data + [] == data;
    LaidNothing(FdAt(s, fd).offset, buf);
    if buf == [] { assert data + LaidBy(s, fd, buf, 0) == data; }
  }

  lemma UntouchedTwice(d: Disk, e: Disk, f: Disk, ino: int)
    requires OthersUntouched(d, e, ino) && OthersUntouched(e, f, ino)
    ensures OthersUntouched(d, f, ino)
  {
    hide InodeAt, BlockAt, Live;
    forall i, k | i != ino && Holds(d, i, k) ensures BlockAt(f, PtrAt(d, i, k)) == BlockAt(d, PtrAt(d, i, k)) {
      assert Holds(e, i, k) && PtrAt(e, i, k) == PtrAt(d, i, k);
    }
  }

  /** After any run of appends through a descriptor open for writing the file holds exactly the bytes that those which
      went through have laid down, in order, and nothing that belongs to another inode has changed. */
  lemma {:induction false} AppendsAccumulate(s: Fs, fd: int, ino: int, access: int, data: seq<bv8>,
          bufs: seq<seq<bv8>>)
    requires Holding(s, fd, ino, access, data) && |data| + Total(bufs) <= DIRECT_NUM * SECTOR_SIZE
    requires access == 0 || access == 2
    ensures var (t, accepted) := AppendAll(s, fd, bufs);
      && Holding(t, fd, ino, access, data + accepted) && OthersUntouched(s.disk, t.disk, ino)
      && t.here == s.here && t.fdList == s.fdList
    decreases |bufs|
  {
    hide Holding, Write, CanWrite, OthersUntouched, LaidBy;
    if bufs == [] {
      assert data + [] == data;
      UntouchedItself(s.disk, ino);
    } else {
      AppendStep(s, fd, ino, access, data, bufs[0]);
      var (t, n) := (Write(s, fd, bufs[0]).s, Write(s, fd, bufs[0]).count);
      var first := LaidBy(s, fd, bufs[0], n);
      LaidBySize(s, fd, bufs[0], n);
      AppendsAccumulate(t, fd, ino, access, data + first, bufs[1..]);
      var (u, rest) := AppendAll(t, fd, bufs[1..]);
      assert data + first + rest == data + (first + rest);
      UntouchedTwice(s.disk, t.disk, u.disk, ino);
    }
  }

  lemma LaidBySize(s: Fs, fd: int, buf: seq<bv8>, n: nat)
    ensures |LaidBy(s, fd, buf, n)| <= |buf|
  {
    hide Laid;
  }

  lemma UntouchedItself(d: Disk, ino: int)
    ensures OthersUntouched(d, d, ino)
  {}

  lemma DirectBytes(d: Disk, x: Inode, i: nat)
    requires i < DIRECT_NUM * SECTOR_SIZE
    ensures FlatByte(d, x, i) == ByteAt(d, x, i)
  {}

  /** Seeking to o and reading n bytes returns the slice of `data` and moves the offset by its length. */
  predicate ReadsSlice(s: Fs, fd: int, data: seq<bv8>, o: nat, n: nat)
    requires o <= |data|
  {
    var count := Min(n, |data| - o);
    0 <= fd < |s.fds|
    && Read(Seek(s, fd, o), fd, n) ==
         (s.(fds := s.fds[fd := s.fds[fd].(offset := o + count)]), ReadBytes(data[o..o + count]))
  }

  /** Seek to o and read n through a descriptor open for reading: exactly the slice, and the offset moves by its
      length. */
  lemma ReadsBack(s: Fs, fd: int, ino: int, data: seq<bv8>, o: nat, n: nat)
    requires FileHolds(s.disk, ino, data) && 0 <= fd < |s.fds| && o <= |data|
    requires s.fds[fd].ino == ino && s.fds[fd].size == |data| && (s.fds[fd].access == 0 || s.fds[fd].access == 1)
    ensures ReadsSlice(s, fd, data, o, n)
  {
    hide Live, InodeAt, BytesAt, FlatByte, ByteAt, OffsetToPointer;
    var s1 := Seek(s, fd, o);
    var x := InodeAt(s.disk, ino);
    var count := ReadCount(s1.fds[fd], n);
    assert count == Min(n, |data| - o);
    ReadLoopIsSlice(s.disk, x, o, count);
    var r := ReadLoop(s.disk, x, o, count);
    forall i | o <= i < o + count ensures r.bytes[i - o] == data[i] { DirectBytes(s.disk, x, i); }
    assert r.bytes == data[o..o + count];
    var f := s.fds[fd].(offset := o + count);
    assert s1.fds[fd := f] == s.fds[fd := f];
  }

  // ---------------------------------------------------------------- from touch on

  lemma FindsUnique(items: seq<Item>, n: nat, name: string)
    requires n < |items| && items[n].valid && items[n].name == name
    requires forall k :: 0 <= k < |items| && k != n ==> !(items[k].valid && items[k].name == name)
    ensures FindItem(items, name) == n
  {}

  /** The descriptor names the inode that was found exactly when that is one of the first eight. */
  lemma OpenNamesInodeIff(s: Fs, name: string, access: int)
    requires Sound(s) && Slist.Valid(s.fdList) && Open(s, name, access).1 != -1
    ensures var (t, fd) := Open(s, name, access);
      var ino := FileExists(s, name);
      && 0 <= fd < |t.fds| && FileInode(s.disk, ino)
      && t == s.(fds := t.fds, fdList := t.fdList)
      && t.fds[fd] == Fd(t.fds[fd].ino, access, InodeAt(s.disk, ino).size, 0)
      && (t.fds[fd].ino == ino <==> ino < INODES_PER_SECTOR)
  {
    hide Live, InodeAt, BlockAt, Used, Ownership, Counted, BitAt, Slist.Valid, FindItem, IsBlock;
    Slist.AllocPops(s.fdList);
    FindItemRange(s.dir.items, name);
    var n := FindItem(s.dir.items, name);
    var h :| IsHere(s, h);
    FoundEntry(s, n, h);
  }

  /** Closing the descriptor just opened succeeds and restores the free list; closing it again fails. */
  lemma CloseUndoesOpen(s: Fs, name: string, access: int)
    requires Slist.Valid(s.fdList) && Open(s, name, access).1 != -1
    ensures var (t, fd) := Open(s, name, access);
      var (u, r) := Close(t, fd);
      && r == 1 && Slist.Live(u.fdList) == Slist.Live(s.fdList)
      && Slist.FreeCells(u.fdList) == Slist.FreeCells(s.fdList)
      && u == t.(fdList := u.fdList) && Close(u, fd) == (u, 0)
  {
    hide Slist.Valid, InodeAt, FileExists;
    Slist.AllocPops(s.fdList);
    var (t, fd) := Open(s, name, access);
    Slist.FreePushes(t.fdList, fd + 1);
    Slist.FreePushes(Close(t, fd).0.fdList, fd + 1);
  }

  /** A file in inode 8 is opened as inode 0, the root directory. */
  lemma EighthOpensRoot(s: Fs, name: string, access: int)
    requires Sound(s) && Slist.Valid(s.fdList) && FileExists(s, name) == 8 && Open(s, name, access).1 != -1
    ensures var (t, fd) := Open(s, name, access); 0 <= fd < |t.fds| && t.fds[fd].ino == 0 && DirInode(t.disk, 0)
  {
    hide Sound, InodeAt, Slist.Valid, FileExists, Tree, Live;
    OpenNamesInodeIff(s, name, access);
    RootIsDir(s);
  }

  lemma RootIsDir(s: Fs)
    requires Sound(s)
    ensures DirInode(s.disk, 0)
  {
    assert RootOk(s.disk);
  }

  /** A write that goes through leaves the right size in the inode exactly when it starts at the end of the file, or
      writes nothing within it: the size grows by what is written, overwritten bytes included. */
  lemma SizeIsRightIff(s: Fs, fd: int, buf: seq<bv8>)
    requires Sound(s) && CanWrite(s, fd, buf) && GoesThrough(s, fd, buf)
    ensures var ino, o := s.fds[fd].ino, s.fds[fd].offset;
      var size := InodeAt(s.disk, ino).size;
      InodeAt(Write(s, fd, buf).s.disk, ino).size == (if size < o + |buf| then o + |buf| else size) <==>
      (o == size || (buf == [] && o <= size))
  {
    hide Sound, Live, InodeAt, Write, Missing, FreeAbove, ByteAt, Laid;
    WriteIsAllOrNothing(s, fd, buf);
  }

  lemma FdsDoNotMatter(s: Fs, t: Fs)
    requires Sound(s) && t == s.(fds := t.fds, fdList := t.fdList)
    ensures Sound(t)
  {
    hide Ownership, Tree, Counted, DirInode, BlockAt, IsBlock;
    var h :| IsHere(s, h);
    assert IsHere(t, h);
  }

  /** touch and then fopen give an empty file, if its inode is one of the first eight. */
  lemma TouchedIsEmpty(s: Fs, name: string, access: int)
    requires Sound(s) && Slist.Valid(s.fdList) && TouchFile(s, name).1 == Done
    requires Open(TouchFile(s, name).0, name, access).1 != -1
    requires FileExists(TouchFile(s, name).0, name) < INODES_PER_SECTOR
    ensures var (u, fd) := Open(TouchFile(s, name).0, name, access);
      Holding(u, fd, FileExists(TouchFile(s, name).0, name), access, [])
  {
    hide Live, InodeAt, BlockAt, Used, Ownership, Tree, Counted, BitAt, Slist.Valid, FindItem, IsBlock, TouchFile,
      Sound, Open;
    var t := TouchFile(s, name).0;
    TouchGrows(s, name);
    TouchKeepsSound(s, name);
    TouchFinds(s, name);
    OpenNamesInodeIff(t, name, access);
    var (u, fd) := Open(t, name, access);
    FdsDoNotMatter(t, u);
  }

  lemma TouchFinds(s: Fs, name: string)
    requires Sound(s) && TouchFile(s, name).1 == Done
    ensures var t := TouchFile(s, name).0;
      FileExists(t, name) == t.dir.items[FreeSlot(s.dir.items)].ino && t.fdList == s.fdList
  {
    hide Live, InodeAt, BlockAt, Used, Ownership, Tree, Counted, BitAt, IsBlock, Sound, PutInode;
    ExistsIff(s, name);
    var n := FreeSlot(s.dir.items);
    SoundMaps(s);
    EnterEffect(s, name, n);
    TouchGrows(s, name);
    FindsUnique(TouchFile(s, name).0.dir.items, n, name);
  }

  lemma SoundMaps(s: Fs)
    requires Sound(s)
    ensures MapsCached(s) && IsBlock(s.here)
  {}

  /** File refinement: touch, open, any run of appends within the direct blocks, seek and read return the slice of
      the bytes laid down; the whole leaves every other inode and its blocks as touch left them. */
  lemma FileIsItsBytes(s: Fs, name: string, bufs: seq<seq<bv8>>, o: nat, n: nat)
    requires Sound(s) && Slist.Valid(s.fdList) && TouchFile(s, name).1 == Done
    requires Open(TouchFile(s, name).0, name, O_RDWR).1 != -1
    requires FileExists(TouchFile(s, name).0, name) < INODES_PER_SECTOR
    requires Total(bufs) <= DIRECT_NUM * SECTOR_SIZE
    ensures var t := TouchFile(s, name).0;
      var (u, fd) := Open(t, name, O_RDWR);
      var (v, data) := AppendAll(u, fd, bufs);
      && OthersUntouched(t.disk, v.disk, FileExists(t, name))
      && (o <= |data| ==> ReadsSlice(v, fd, data, o, n))
  {
    hide FileHolds, TouchFile, Open, AppendAll, Read, Seek, OthersUntouched, Sound;
    var t := TouchFile(s, name).0;
    var (u, fd) := Open(t, name, O_RDWR);
    var ino := FileExists(t, name);
    TouchedIsEmpty(s, name, O_RDWR);
    OpenKeepsDisk(t, name, O_RDWR);
    AppendsAccumulate(u, fd, ino, O_RDWR, [], bufs);
    var (v, data) := AppendAll(u, fd, bufs);
    assert [] + data == data;
    if o <= |data| { ReadsBack(v, fd, ino, data, o, n); }
  }

  lemma OpenKeepsDisk(s: Fs, name: string, access: int)
    ensures Open(s, name, access).0.disk == s.disk
  {}

  // ---------------------------------------------------------------- appends that are the buffers themselves

  function Concat(bufs: seq<seq<bv8>>): seq<bv8> {
    if bufs == [] then [] else bufs[0] + Concat(bufs[1..])
  }

  /** From offset o on, each buffer fits the sector in which it starts. */
  predicate EachFits(o: nat, bufs: seq<seq<bv8>>)
    decreases |bufs|
  {
    bufs == [] || (o % 512 + |bufs[0]| <= 512 && EachFits(o + |bufs[0]|, bufs[1..]))
  }

  /** No append of the run is turned down for want of a block. */
  predicate AllGoThrough(s: Fs, fd: int, bufs: seq<seq<bv8>>)
    decreases |bufs|
  {
    bufs == [] || (GoesThrough(s, fd, bufs[0]) && AllGoThrough(Write(s, fd, bufs[0]).s, fd, bufs[1..]))
  }

  /** If every append goes through and fits the sector in which it starts, the file
      is the concatenation of the buffers. */
  lemma {:induction false} AppendsConcatenate(s: Fs, fd: int, ino: int, access: int, data: seq<bv8>,
          bufs: seq<seq<bv8>>)
    requires Holding(s, fd, ino, access, data) && |data| + Total(bufs) <= DIRECT_NUM * SECTOR_SIZE
    requires access == 0 || access == 2
    requires EachFits(|data|, bufs) && AllGoThrough(s, fd, bufs)
    ensures AppendAll(s, fd, bufs).1 == Concat(bufs)
    decreases |bufs|
  {
    hide Holding, Write, CanWrite, OthersUntouched;
    if bufs != [] {
      var t := Write(s, fd, bufs[0]).s;
      AppendStep(s, fd, ino, access, data, bufs[0]);
      HoldingOffset(s, fd, ino, access, data);
      FitsOneSector(|data|, bufs[0]);
      AppendsConcatenate(t, fd, ino, access, data + bufs[0], bufs[1..]);
    }
  }

  lemma HoldingOffset(s: Fs, fd: int, ino: int, access: int, data: seq<bv8>)
    requires Holding(s, fd, ino, access, data)
    ensures FdAt(s, fd).offset == |data|
  {}
}
