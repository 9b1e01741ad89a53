/** When each call goes through and when it refuses, told by the directory, the name and the descriptor as they are
    before it. */
module FsAnswers {
  import Slist
  import opened Bitmap
  import opened Fs
  import opened FsRuns
  import opened FsTree
  import opened FsCalls
  import opened FsWrites
  import opened FsReads
  import opened FsFiles
  import opened FsAtomic

  // ---------------------------------------------------------------- mkdir and touch

  /** Item k is the first valid one of that name. */
  predicate FirstNamed(items: Items, k: int, name: string) {
    && 0 <= k < 15 && items[k].valid && items[k].name == name
    && forall j :: 0 <= j < k ==> !(items[j].valid && items[j].name == name)
  }

  ghost predicate HasName(items: Items, name: string) {
    exists k :: 0 <= k < 15 && items[k].valid && items[k].name == name
  }

  /** The name is in use, as far as the search can tell: inode number 0 is its answer for a name that is not there. */
  ghost predicate InUse(items: Items, name: string) {
    exists k :: FirstNamed(items, k, name) && items[k].ino != 0
  }

  predicate IsFull(items: Items) {
    forall k :: 0 <= k < 15 ==> items[k].valid
  }

  /** The three refusals, in the order of the tests. */
  ghost predicate RefusesName(s: Fs, name: string, t: Fs, o: Outcome) {
    && (o == TooLong <==> |name| > 26)
    && (o == Exists <==> |name| <= 26 && InUse(s.dir.items, name))
    && (o == DirFull <==> |name| <= 26 && !InUse(s.dir.items, name) && IsFull(s.dir.items))
    && (o == TooLong || o == Exists || o == DirFull ==> t == s)
  }

  lemma FoundIsFirst(items: Items, name: string)
    ensures var k := FindItem(items, name); if k == -1 then !HasName(items, name) else FirstNamed(items, k, name)
    ensures forall k :: FirstNamed(items, k, name) ==> k == FindItem(items, name)
  {
    var i := FindItem(items, name);
    forall k | FirstNamed(items, k, name) ensures k == i {
      assert items[k].valid && items[k].name == name;
    }
  }

  lemma AdmitIs(s: Fs, name: string)
    ensures RefusesName(s, name, s, Admit(s, name).0)
    ensures Admit(s, name).0 != NoInode && Admit(s, name).0 != NoBlock && Admit(s, name).0 != Done ==>
      MakeDir(s, name) == (s, Admit(s, name).0) && TouchFile(s, name) == (s, Admit(s, name).0)
    ensures Admit(s, name).0 == Done <==> |name| <= 26 && !InUse(s.dir.items, name) && !IsFull(s.dir.items)
  {
    hide Enter, AllocBlock, FindItem;
    FoundIsFirst(s.dir.items, name);
    FoundOrNot(s.dir.items, name);
  }

  lemma FoundOrNot(items: Items, name: string)
    ensures -1 <= FindItem(items, name) < 15 && 0 <= FreeSlot(items) <= 15
    ensures FreeSlot(items) == 15 <==> IsFull(items)
  {
    var n := FreeSlot(items);
  }

  /** mkdir and touch refuse a name of more than 26 characters, a name in use, and a full directory, in that order;
      they change nothing then. */
  lemma RefusalsAre(s: Fs, name: string)
    ensures RefusesName(s, name, MakeDir(s, name).0, MakeDir(s, name).1)
    ensures RefusesName(s, name, TouchFile(s, name).0, TouchFile(s, name).1)
  {
    hide FindItem, Enter, AllocBlock, PutNewDir, PutInode, InUse, IsFull;
    AdmitIs(s, name);
  }

  /** In a sound file system a name is in use exactly when some valid entry has it. */
  lemma InUseIff(s: Fs, name: string)
    requires Sound(s)
    ensures InUse(s.dir.items, name) <==> HasName(s.dir.items, name)
  {
    hide Sound, FindItem;
    ExistsIff(s, name);
    FoundIsFirst(s.dir.items, name);
  }

  /** All the answers of mkdir. */
  lemma MakeDirAnswers(s: Fs, name: string)
    requires Sound(s)
    ensures var o := MakeDir(s, name).1;
      var room := |name| <= 26 && !HasName(s.dir.items, name) && !IsFull(s.dir.items);
      && (o == Done <==> room && HasInode(s) && FreeAbove(s) != {})
      && (o == NoInode <==> room && !HasInode(s))
      && (o == NoBlock <==> room && HasInode(s) && FreeAbove(s) == {})
      && (o == TooLong <==> |name| > 26)
      && (o == Exists <==> |name| <= 26 && HasName(s.dir.items, name))
      && (o == DirFull <==> |name| <= 26 && !HasName(s.dir.items, name) && IsFull(s.dir.items))
  {
    hide Sound, Admit, Enter, AllocBlock, PutNewDir, FreeAbove, HasInode, HasName, IsFull, InUse, MakeDir;
    AdmitIs(s, name);
    InUseIff(s, name);
    RefusalsAre(s, name);
    if Admit(s, name).0 == Done { MakeDirRoom(s, name); }
  }

  lemma MakeDirRoom(s: Fs, name: string)
    requires Sound(s) && Admit(s, name).0 == Done
    ensures MakeDir(s, name).1 ==
      if !HasInode(s) then NoInode else if FreeAbove(s) == {} then NoBlock else Done
  {
    hide Live, Used, InodeAt, PtrOf, BlockOf, BitAt, Ownership, Tree, Counted, Enter, AllocBlock, AllocInode,
      PutNewDir, BlockAt, IsBlock, FindItem;
    var n := FreeSlot(s.dir.items);
    SoundMapsHere(s);
    HasInodeIff(s);
    EnterEffect(s, name, n);
    EnterTakes(s, name, n);
    var s1 := Enter(s, name, n).0;
    if HasInode(s) {
      SameBits(s.disk, s1.disk);
      assert FreeAbove(s1) == FreeAbove(s);
      AllocBlockEffect(s1);
    }
  }

  /** All the answers of touch. */
  lemma TouchAnswers(s: Fs, name: string)
    requires Sound(s)
    ensures var o := TouchFile(s, name).1;
      var room := |name| <= 26 && !HasName(s.dir.items, name) && !IsFull(s.dir.items);
      && (o == Done <==> room && HasInode(s))
      && (o == NoInode <==> room && !HasInode(s))
      && (o == TooLong <==> |name| > 26)
      && (o == Exists <==> |name| <= 26 && HasName(s.dir.items, name))
      && (o == DirFull <==> |name| <= 26 && !HasName(s.dir.items, name) && IsFull(s.dir.items))
  {
    hide Sound, Admit, Enter, PutInode, HasInode, HasName, IsFull, InUse, AllocInode, InodeAt, FreeSlot;
    AdmitIs(s, name);
    InUseIff(s, name);
    SoundMapsHere(s);
    HasInodeIff(s);
    if Admit(s, name).0 == Done {
      TouchSlot(s, name);
      EnterTakes(s, name, FreeSlot(s.dir.items));
    }
  }

  lemma TouchSlot(s: Fs, name: string)
    requires Admit(s, name).0 == Done
    ensures Admit(s, name).1 == FreeSlot(s.dir.items) < 15
  {}

  // ---------------------------------------------------------------- rmdir

  /** rmdir removes exactly the directories without entries; otherwise it says why not and changes nothing. */
  lemma RemoveDirAnswers(s: Fs, name: string)
    ensures var (t, o) := RemoveDir(s, name);
      && (o == NotFound <==> !HasName(s.dir.items, name))
      && (o == Done || o == NotDir || o == NotEmpty <==> HasName(s.dir.items, name))
      && (o != Done ==> t == s)
      && forall k :: FirstNamed(s.dir.items, k, name) ==>
           var x := InodeAt(s.disk, s.dir.items[k].ino);
           && (o == NotDir <==> x.kind != 2)
           && (o == Done <==> x.kind == 2 && forall j :: 0 <= j < 15 ==> !DirAt(s.disk, x.pointers[0]).items[j].valid)
  {
    hide InodeAt, DirAt, FindItem, Drop;
    FoundIsFirst(s.dir.items, name);
    FoundOrNot(s.dir.items, name);
  }

  // ---------------------------------------------------------------- fopen and fclose

  ghost predicate NamesFile(s: Fs, name: string) {
    exists k :: FirstNamed(s.dir.items, k, name) && s.dir.items[k].ino != 0
      && InodeAt(s.disk, s.dir.items[k].ino).kind == 1
  }

  /** fopen gives the descriptor at the head of the free list to a name that is in use for a file; it refuses exactly
      when there is none, or no such name, and changes nothing then. */
  lemma OpenAnswers(s: Fs, name: string, access: int)
    requires Slist.Valid(s.fdList) && |s.fdList| == |s.fds| + 1
    ensures var (t, fd) := Open(s, name, access);
      && (fd != -1 <==> Slist.FreeCells(s.fdList) != [] && NamesFile(s, name))
      && (fd == -1 ==> t == s)
      && (fd != -1 ==>
            && fd == Slist.FreeCells(s.fdList)[0] - 1 && 0 <= fd < |s.fds|
            && Slist.FreeCells(t.fdList) == Slist.FreeCells(s.fdList)[1..]
            && t == s.(fdList := t.fdList, fds := t.fds) && |t.fds| == |s.fds|
            && (forall g :: 0 <= g < |s.fds| && g != fd ==> t.fds[g] == s.fds[g])
            && forall k :: FirstNamed(s.dir.items, k, name) ==>
                 var ino := s.dir.items[k].ino;
                 t.fds[fd] == Fd(ino % 8, access, InodeAt(s.disk, ino).size, 0))
  {
    hide InodeAt, FindItem, Slist.Valid;
    FoundIsFirst(s.dir.items, name);
    FoundOrNot(s.dir.items, name);
    Slist.AllocPops(s.fdList);
  }

  /** fclose succeeds exactly on a descriptor in use, which becomes the next to be given out. */
  lemma CloseAnswers(s: Fs, fd: int)
    requires Slist.Valid(s.fdList)
    ensures var (t, r) := Close(s, fd);
      && t == s.(fdList := t.fdList)
      && (r == 1 <==> fd + 1 in Slist.Live(s.fdList)) && (r != 1 ==> r == 0 && t == s)
      && (r == 1 ==> Slist.FreeCells(t.fdList) == [fd + 1] + Slist.FreeCells(s.fdList))
  {
    hide Slist.Valid;
    Slist.FreePushes(s.fdList, fd + 1);
  }

  /** After mount every clear block can be allocated. */
  lemma MountSeesAll(s: Fs, b: int)
    requires 0 <= b < DATA_ITEM_NUM && !Used(s.disk, b)
    ensures b in FreeAbove(Mount(s)) && Mount(s).fds == s.fds && Mount(s).fdList == s.fdList
  {
    hide Used;
  }

  // ---------------------------------------------------------------- access modes

  /** Modes 0 and 2 may write, modes 0 and 1 may read; in any other mode nothing is written or read. */
  lemma ModesRefuse(s: Fs, fd: int, buf: seq<bv8>, n: nat)
    requires 0 <= fd < |s.fds|
    ensures s.fds[fd].access != 0 && s.fds[fd].access != 2 ==> Write(s, fd, buf) == Wrote(s, 0)
    ensures s.fds[fd].access != 0 && s.fds[fd].access != 1 ==> Read(s, fd, n) == (s, ReadBytes([]))
  {}

  /** A file opened for reading only is read as it is and cannot be written. */
  lemma OpenedForReading(s: Fs, name: string, data: seq<bv8>, buf: seq<bv8>, o: nat, n: nat)
    requires Sound(s) && Slist.Valid(s.fdList) && Open(s, name, 1).1 != -1 && FileExists(s, name) < 8
    requires FileHolds(s.disk, FileExists(s, name), data)
    ensures var (t, fd) := Open(s, name, 1);
      Write(t, fd, buf) == Wrote(t, 0) && (o <= |data| ==> ReadsSlice(t, fd, data, o, n))
  {
    hide Sound, Slist.Valid, FileExists, InodeAt, Live, ReadsSlice, Open, Write;
    OpenNamesInodeIff(s, name, 1);
    var (t, fd) := Open(s, name, 1);
    ModesRefuse(t, fd, buf, n);
    if o <= |data| { ReadsBack(t, fd, FileExists(s, name), data, o, n); }
  }

  /** A file opened for writing only cannot be read, and is written as far as there are blocks for it. */
  lemma OpenedForWriting(s: Fs, name: string, buf: seq<bv8>, n: nat)
    requires Sound(s) && Slist.Valid(s.fdList) && Open(s, name, 2).1 != -1 && FileExists(s, name) < 8
    requires |buf| <= DIRECT_NUM * SECTOR_SIZE
    ensures var (t, fd) := Open(s, name, 2);
      var ino := FileExists(s, name);
      && 0 <= fd < |t.fds| && Read(t, fd, n) == (t, ReadBytes([])) && Write(t, fd, buf).Wrote?
      && var (u, count) := (Write(t, fd, buf).s, Write(t, fd, buf).count);
         && Sound(u) && OthersUntouched(t.disk, u.disk, ino)
         && if Missing(InodeAt(t.disk, ino), |buf|) <= |FreeAbove(t)|
            then count == |buf| && WroteAll(t, u, fd, InodeAt(t.disk, ino), InodeAt(u.disk, ino), Laid(0, buf, |buf|))
            else count == 0 && WroteNothing(t, u, InodeAt(t.disk, ino), InodeAt(u.disk, ino))
  {
    hide Sound, Slist.Valid, FileExists, InodeAt, Live, Open, Write, Read, WroteAll, WroteNothing, OthersUntouched,
      FreeAbove, Missing, Laid;
    OpenNamesInodeIff(s, name, 2);
    var (t, fd) := Open(s, name, 2);
    ModesRefuse(t, fd, buf, n);
    FdsDoNotMatter(s, t);
    assert CanWrite(t, fd, buf);
    WriteIsAllOrNothing(t, fd, buf);
  }

  // ---------------------------------------------------------------- two descriptors

  /** Writing to a file leaves the current directory as it is. */
  lemma DirStays(s: Fs, t: Fs, ino: int)
    requires Sound(s) && Sound(t) && t.here == s.here && OthersUntouched(s.disk, t.disk, ino) && FileInode(s.disk, ino)
    ensures t.dir == s.dir
  {
    hide Live, InodeAt, BlockAt, Used, IsBlock, Ownership, Tree, Counted, MapsCached;
    var h :| IsHere(s, h);
    assert Holds(s.disk, h, 0);
  }

  /** What is appended to a new file through a descriptor for writing only is what another, for reading only, reads;
      the one cannot be read through, and the other not written through. */
  lemma WrittenThenRead(s: Fs, name: string, bufs: seq<seq<bv8>>, o: nat, n: nat, buf: seq<bv8>)
    requires Sound(s) && Slist.Valid(s.fdList) && TouchFile(s, name).1 == Done
    requires Open(TouchFile(s, name).0, name, 2).1 != -1
    requires FileExists(TouchFile(s, name).0, name) < 8 && Total(bufs) <= DIRECT_NUM * SECTOR_SIZE
    ensures var (u, w) := Open(TouchFile(s, name).0, name, 2);
      var (v, data) := AppendAll(u, w, bufs);
      && Read(v, w, n) == (v, ReadBytes([]))
      && (Open(v, name, 1).1 != -1 ==>
            var (t, r) := Open(v, name, 1);
            Write(t, r, buf) == Wrote(t, 0) && (o <= |data| ==> ReadsSlice(t, r, data, o, n)))
  {
    hide FileHolds, TouchFile, Open, AppendAll, Read, Seek, OthersUntouched, Sound, FileExists, Slist.Valid, ReadsSlice,
      Write;
    var t0 := TouchFile(s, name).0;
    var ino := FileExists(t0, name);
    var (u, w) := Open(t0, name, 2);
    TouchedIsEmpty(s, name, 2);
    TouchFinds(s, name);
    TouchKeepsSound(s, name);
    OpenNamesInodeIff(t0, name, 2);
    OpenKeepsList(t0, name, 2);
    AppendsAccumulate(u, w, ino, 2, [], bufs);
    var (v, data) := AppendAll(u, w, bufs);
    assert [] + data == data;
    ModesRefuse(v, w, buf, n);
    HoldsFile(u, ino, []);
    DirStays(u, v, ino);
    SameNames(t0, v, name);
    if Open(v, name, 1).1 != -1 { OpenedForReading(v, name, data, buf, o, n); }
  }

  lemma OpenKeepsList(s: Fs, name: string, access: int)
    requires Slist.Valid(s.fdList)
    ensures Slist.Valid(Open(s, name, access).0.fdList) && Open(s, name, access).0.dir == s.dir
  {
    hide Slist.Valid, InodeAt, FileExists;
    Slist.AllocPops(s.fdList);
  }

  lemma HoldsFile(s: Fs, ino: int, data: seq<bv8>)
    requires FileHolds(s.disk, ino, data)
    ensures FileInode(s.disk, ino)
  {}

  lemma SameNames(s: Fs, t: Fs, name: string)
    requires t.dir == s.dir
    ensures FileExists(t, name) == FileExists(s, name)
  {}
}
