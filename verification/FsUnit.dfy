/** The procedures of fs.c on the kernel's variables and the sectors of the card: each does to them what the function
    of the same name in Fs does to their contents. */
module FsUnit {
  import opened Slist
  import opened Bitmap
  import opened Fs
  import opened FsReads
  import FsCalls
  import FsWrites

  lemma AdmitSlot(s: Fs, name: string)
    ensures Admit(s, name).0 == Done ==> 0 <= Admit(s, name).1 < MAX_DIR_ITEM_NUM
  {}

  lemma EnterRange(s: Fs, name: string, i: int)
    requires 0 <= i < MAX_DIR_ITEM_NUM
    ensures -1 <= Enter(s, name, i).1 < INODE_ITEM_NUM
  {}

  lemma InodesOnly(d: Disk, e: Disk, ino: int)
    requires d.inodes == e.inodes
    ensures InodeAt(d, ino) == InodeAt(e, ino)
  {}

  lemma FindRange(items: seq<Item>, name: string)
    ensures -1 <= FindItem(items, name) < |items|
  {}

  lemma PositionRange(path: string, c: char)
    ensures -1 <= Separate(path, c) < |path|
  {}

  lemma FreshIs(ws: Windows)
    requires forall w :: 0 <= w < WINDOW_NUM ==> ws[w] == FreshWindow(w)
    ensures ws == FreshWindows()
  {}

  /** What a loop of fwrite amounts to, from any of its rounds on. */
  function FromHere(s: Fs, fd: int, x: Inode, buf: seq<bv8>, n: nat, count: nat): Loop {
    if 0 <= fd < |s.fds| && n <= |buf| then WriteLoop(s, fd, x, buf, n, count) else Crash
  }

  function Prepend(buf: seq<bv8>, r: ReadResult): ReadResult {
    match r
    case ReadPanic => ReadPanic
    case ReadBytes(rest) => ReadBytes(buf + rest)
  }

  lemma ReadUnrolls(d: Disk, x: Inode, offset: nat, left: nat, buf: seq<bv8>)
    requires left > 0
    ensures Prepend(buf, ReadLoop(d, x, offset, left)) ==
      match OffsetToPointer(d, x, offset)
      case WrongSeg => ReadPanic
      case Sector(p) =>
        var t := Chunk(offset, left);
        Prepend(buf + BytesAt(d, p)[offset % 512..offset % 512 + t], ReadLoop(d, x, offset + t, left - t))
  {
    hide OffsetToPointer, BytesAt;
    match OffsetToPointer(d, x, offset)
    case WrongSeg =>
    case Sector(p) =>
      var t := Chunk(offset, left);
      var piece := BytesAt(d, p)[offset % 512..offset % 512 + t];
      match ReadLoop(d, x, offset + t, left - t)
      case ReadPanic =>
      case ReadBytes(rest) => assert buf + (piece + rest) == buf + piece + rest;
  }

  lemma ReadEnds(d: Disk, x: Inode, offset: nat, buf: seq<bv8>)
    ensures Prepend(buf, ReadLoop(d, x, offset, 0)) == ReadBytes(buf)
  {}

  lemma ReadStarts(r: ReadResult)
    ensures Prepend([], r) == r
  {
    if r.ReadBytes? { assert [] + r.bytes == r.bytes; }
  }

  lemma CursorRange(l: seq<Node>)
    requires Slist.Valid(l)
    ensures |l| > 0 && 0 <= l[0].cursor < |l|
  {}

  class FileSystem {
    // the card
    var cardSuper: Super
    var cardImap: Window
    const cardSmap: array<Window>
    const cardInodes: array<Group>
    const cardBlocks: array<Block>
    var cardRest: map<int, Block>
    // the kernel
    var superBlock: Super
    var currentDir: Dir
    var currentDirPointer: int
    const inodeBits: array<Word>
    const windowBits: array<Word>
    var smapIndex: nat
    const fdArray: array<Fd>
    const fdList: array<Node>

    predicate Sized() {
      && cardSmap.Length == WINDOW_NUM && cardInodes.Length == 512 && cardBlocks.Length == DATA_ITEM_NUM
      && inodeBits.Length == 128 && windowBits.Length == 128 && inodeBits != windowBits
      && fdArray.Length == FD_ARRAY_SIZE && fdList.Length == FD_ARRAY_SIZE + 1
    }

    function CardState(): Disk
      requires Sized()
      reads this, cardSmap, cardInodes, cardBlocks
    {
      Disk(cardSuper, cardImap, cardSmap[..], cardInodes[..], Sectors(cardBlocks[..], cardRest))
    }

    function State(): Fs
      requires Sized()
      reads this, cardSmap, cardInodes, cardBlocks, inodeBits, windowBits, fdArray, fdList
    {
      Fs(CardState(), superBlock, inodeBits[..], windowBits[..], smapIndex, currentDir, currentDirPointer, fdArray[..],
        fdList[..])
    }

    // ---------------------------------------------------------------- bitmaps

    method IarrayAlloc() returns (ino: int)
      requires Sized()
      modifies this`cardSuper, this`cardImap, this`superBlock, inodeBits
      ensures (State(), ino) == AllocInode(old(State()))
    {
      var k := Scan(inodeBits);
      if k == -1 {
        return -1;
      }
      inodeBits[k / WORD_BITS] := SetWord(inodeBits[k / WORD_BITS], k % WORD_BITS);
      cardImap := inodeBits[..];
      superBlock := superBlock.(inodeUsed := superBlock.inodeUsed + 1);
      cardSuper := superBlock;
      assert inodeBits[..] == Mark(old(inodeBits[..]), k);
      return k;
    }

    method IarrayFree(ino: int)
      requires Sized() && 0 <= ino < INODE_ITEM_NUM
      modifies this`cardSuper, this`cardImap, this`superBlock, inodeBits
      ensures State() == FreeInode(old(State()), ino)
    {
      var i := ino / 32;
      var j := ino - i * 32;
      inodeBits[i] := ClearWord(inodeBits[i], j);
      cardImap := inodeBits[..];
      superBlock := superBlock.(inodeUsed := superBlock.inodeUsed - 1);
      cardSuper := superBlock;
      assert inodeBits[..] == Unmark(old(inodeBits[..]), ino);
    }

    /** sdread of one window of the data bitmap. */
    method LoadWindow(w: nat)
      requires Sized()
      modifies this`smapIndex, windowBits
      ensures State() == old(State()).(smapIndex := w, dbits := WindowAt(old(State()).disk, w))
    {
      ghost var s := State();
      smapIndex := w;
      var words := if w < WINDOW_NUM then cardSmap[w] else BlankWindow();
      forall i | 0 <= i < 128 { windowBits[i] := words[i]; }
      assert windowBits[..] == WindowAt(s.disk, w);
    }

    /** The bit is set in the window, the window and the counter are written. */
    method TakeBit(k: int)
      requires Sized() && smapIndex < WINDOW_NUM && 0 <= k < WINDOW_BITS
      modifies this`cardSuper, this`superBlock, windowBits, cardSmap
      ensures State() == SetDataBits(old(State()), old(smapIndex), Mark(old(windowBits[..]), k),
                                     old(superBlock).(dataUsed := old(superBlock).dataUsed + 1))
    {
      hide SetWord;
      windowBits[k / WORD_BITS] := SetWord(windowBits[k / WORD_BITS], k % WORD_BITS);
      cardSmap[smapIndex] := windowBits[..];
      superBlock := superBlock.(dataUsed := superBlock.dataUsed + 1);
      cardSuper := superBlock;
      assert windowBits[..] == Mark(old(windowBits[..]), k);
    }

    method DarrayAlloc() returns (b: int)
      requires Sized()
      modifies this`cardSuper, this`superBlock, this`smapIndex, windowBits, cardSmap
      ensures (State(), b) == AllocBlock(old(State()))
    {
      hide SetDataBits, Mark, FirstClear;
      ghost var s := State();
      while smapIndex < WINDOW_NUM
        invariant Slide(State()) == Slide(s)
        invariant inodeBits[..] == s.ibits && cardSmap[..] == s.disk.dbits
        decreases WINDOW_NUM - smapIndex
      {
        var k := Scan(windowBits);
        if k == -1 {
          LoadWindow(smapIndex + 1);
        } else {
          TakeBit(k);
          return smapIndex * 512 * 8 + k;
        }
      }
      return -1;
    }

    method DarrayFree(b: int)
      requires Sized() && 0 <= b < DATA_ITEM_NUM
      modifies this`cardSuper, this`superBlock, this`smapIndex, windowBits, cardSmap
      ensures State() == FreeBlock(old(State()), b)
    {
      ghost var s := State();
      var w := b / (512 * 8);
      var rest := b - w * 512 * 8;
      var i := rest / 32;
      var j := rest - i * 32;
      LoadWindow(w);
      windowBits[i] := ClearWord(windowBits[i], j);
      cardSmap[smapIndex] := windowBits[..];
      superBlock := superBlock.(dataUsed := superBlock.dataUsed - 1);
      cardSuper := superBlock;
      assert windowBits[..] == Unmark(s.disk.dbits[w], b % WINDOW_BITS);
    }

    // ---------------------------------------------------------------- sectors

    /** sdwrite of a data sector. */
    method SdWrite(p: int, x: Block)
      requires Sized()
      modifies this`cardRest, cardBlocks
      ensures State() == old(State()).(disk := PutBlock(old(State()).disk, p, x))
    {
      hide BlankBytes;
      if IsBlock(p) {
        cardBlocks[BlockOf(p)] := x;
        assert cardBlocks[..] == old(cardBlocks[..])[BlockOf(p) := x];
      } else {
        cardRest := cardRest[p := x];
      }
    }

    /** sdread of a data sector. */
    method SdRead(p: int) returns (x: Block)
      requires Sized()
      ensures x == BlockAt(State().disk, p)
    {
      x := if IsBlock(p) then cardBlocks[BlockOf(p)] else if p in cardRest then cardRest[p] else Bytes(BlankBytes());
    }

    method ReadDir(p: int) returns (d: Dir)
      requires Sized()
      ensures d == DirAt(State().disk, p)
    {
      hide BlockAt;
      var x := SdRead(p);
      d := if x.DirBlock? then x.dir else BlankDir();
    }

    /** The group of eight that inode `ino` is in, with that inode replaced, goes to its sector. */
    method WriteInode(ino: int, x: Inode)
      requires Sized()
      modifies cardInodes
      ensures State() == old(State()).(disk := PutInode(old(State()).disk, ino, x))
    {
      if 0 <= ino < INODE_ITEM_NUM {
        var g := ino / 8;
        var r := ino - g * 8;
        cardInodes[g] := cardInodes[g][r := x];
      }
      assert cardInodes[..] == PutInode(old(State()).disk, ino, x).inodes;
    }

    method ReadInode(ino: int) returns (x: Inode)
      requires Sized()
      ensures x == InodeAt(State().disk, ino)
    {
      if 0 <= ino < INODE_ITEM_NUM {
        var g := ino / 8;
        var r := ino - g * 8;
        x := cardInodes[g][r];
      } else {
        x := BlankInode();
      }
    }

    // ---------------------------------------------------------------- directories

    static method Find(items: Items, name: string) returns (i: int)
      ensures i == FindItem(items, name)
    {
      i := 0;
      while i < MAX_DIR_ITEM_NUM
        invariant 0 <= i <= MAX_DIR_ITEM_NUM
        invariant forall k :: 0 <= k < i ==> !(items[k].valid && items[k].name == name)
      {
        if items[i].valid {
          if items[i].name == name {
            return;
          }
        }
        i := i + 1;
      }
      i := -1;
    }

    method IsFileExist(name: string) returns (ino: int)
      requires Sized()
      ensures ino == FileExists(State(), name)
    {
      var i := Find(currentDir.items, name);
      ino := if i == -1 then 0 else currentDir.items[i].ino;
    }

    /** The tests and the search for a slot that mkdir and touch have in common. */
    method FindRoom(name: string) returns (o: Outcome, i: int)
      requires Sized()
      ensures (o, i) == Admit(State(), name)
    {
      i := -1;
      if |name| > MAX_NAME_LENGTH {
        return TooLong, -1;
      }
      var e := IsFileExist(name);
      if e != 0 {
        return Exists, -1;
      }
      var n := 0;
      while n < MAX_DIR_ITEM_NUM && currentDir.items[n].valid
        invariant 0 <= n <= MAX_DIR_ITEM_NUM
        invariant forall k :: 0 <= k < n ==> currentDir.items[k].valid
      {
        n := n + 1;
      }
      if n == MAX_DIR_ITEM_NUM {
        return DirFull, -1;
      }
      return Done, n;
    }

    method EnterName(name: string, i: int) returns (ino: int)
      requires Sized() && 0 <= i < MAX_DIR_ITEM_NUM
      modifies this`cardRest, this`cardSuper, this`cardImap, this`superBlock, this`currentDir, inodeBits, cardBlocks
      ensures (State(), ino) == Enter(old(State()), name, i)
    {
      hide PutBlock, BitAt, AllocInode;
      currentDir := currentDir.(items := currentDir.items[i := currentDir.items[i].(valid := true)]);
      ino := IarrayAlloc();
      if ino == -1 {
        return;
      }
      currentDir := currentDir.(items := currentDir.items[i := Item(true, name, ino)]);
      SdWrite(currentDirPointer, DirBlock(currentDir));
    }

    method Mkdir(name: string) returns (o: Outcome)
      requires Sized()
      modifies this, inodeBits, windowBits, cardSmap, cardInodes, cardBlocks
      ensures (State(), o) == MakeDir(old(State()), name)
    {
      hide PutBlock, PutInode, InodeAt, AllocBlock, Enter, Admit;
      ghost var s := State();
      var i;
      o, i := FindRoom(name);
      AdmitSlot(s, name);
      if o != Done {
        return;
      }
      EnterRange(s, name, i);
      var ino := EnterName(name, i);
      if ino == -1 {
        return NoInode;
      }
      ghost var s1 := State();
      var x := ReadInode(ino);
      x := x.(kind := FILE_DIR, links := 1, size := 512, capacity := 512);
      var b := DarrayAlloc();
      if b == -1 {
        return NoBlock;
      }
      ghost var s2 := State();
      assert s2.disk.inodes == s1.disk.inodes;
      InodesOnly(s1.disk, s2.disk, ino);
      var p := DARRAY_ADDR + b * SECTOR_SIZE;
      x := x.(pointers := x.pointers[0 := p]);
      WriteInode(ino, x);
      SdWrite(p, DirBlock(Dir(currentDirPointer, name, BlankItems())));
      assert State() == PutNewDir(s2, ino, p, name);
      return Done;
    }

    method TouchName(name: string) returns (o: Outcome)
      requires Sized()
      modifies this, inodeBits, cardInodes, cardBlocks
      ensures (State(), o) == TouchFile(old(State()), name)
    {
      hide PutBlock, PutInode, InodeAt, Enter, Admit;
      ghost var s := State();
      var i;
      o, i := FindRoom(name);
      AdmitSlot(s, name);
      if o != Done {
        return;
      }
      EnterRange(s, name, i);
      var ino := EnterName(name, i);
      if ino == -1 {
        return NoInode;
      }
      var x := ReadInode(ino);
      WriteInode(ino, x.(kind := FILE_NORMAL, links := 1, size := 0, capacity := 0));
    }

    method Rmdir(name: string) returns (o: Outcome)
      requires Sized()
      requires FsCalls.RemovesLive(State(), name)
      modifies this, inodeBits, windowBits, cardSmap, cardBlocks
      ensures (State(), o) == RemoveDir(old(State()), name)
    {
      hide PutBlock, InodeAt, DirAt, FreeInode, FreeBlock, FindItem;
      ghost var s := State();
      var i := Find(currentDir.items, name);
      FindRange(currentDir.items, name);
      if i == -1 {
        return NotFound;
      }
      var ino := currentDir.items[i].ino;
      var x := ReadInode(ino);
      if x.kind != FILE_DIR {
        return NotDir;
      }
      var p := x.pointers[0];
      var d := ReadDir(p);
      var j := 0;
      while j < MAX_DIR_ITEM_NUM
        invariant 0 <= j <= MAX_DIR_ITEM_NUM
        invariant forall k :: 0 <= k < j ==> !d.items[k].valid
      {
        if d.items[j].valid {
          return NotEmpty;
        }
        j := j + 1;
      }
      IarrayFree(ino);
      DarrayFree((p - DARRAY_ADDR) / SECTOR_SIZE);
      currentDir := currentDir.(items := currentDir.items[i := currentDir.items[i].(valid := false)]);
      SdWrite(currentDirPointer, DirBlock(currentDir));
      assert State() == Drop(s, i, ino, p);
      return Done;
    }

    // ---------------------------------------------------------------- paths

    static method Position(path: string, c: char) returns (i: int)
      ensures i == Separate(path, c)
    {
      i := 0;
      while i < |path| && path[i] != c
        invariant 0 <= i <= |path|
        invariant forall k :: 0 <= k < i ==> path[k] != c
      {
        i := i + 1;
      }
      if i == |path| {
        i := -1;
      }
    }

    method ParsePath(path: string) returns (ino: int)
      requires Sized() && path != ""
      ensures ino == Resolve(State().disk, path)
    {
      hide DirAt, InodeAt, FindItem, Separate;
      if path == "\\" {
        return 0;
      }
      var dir := ReadDir(DARRAY_ADDR);
      var s := path[1..];
      var pos := Position(s, '\\');
      PositionRange(s, '\\');
      while pos != -1
        invariant pos == Separate(s, '\\') && -1 <= pos < |s|
        invariant Walk(State().disk, dir, s) == Resolve(State().disk, path)
        decreases |s|
      {
        var i := Find(dir.items, s[..pos]);
        FindRange(dir.items, s[..pos]);
        if i == -1 {
          return -1;
        }
        var x := ReadInode(dir.items[i].ino);
        if x.kind != FILE_DIR {
          return -1;
        }
        dir := ReadDir(x.pointers[0]);
        s := s[pos + 1..];
        pos := Position(s, '\\');
        PositionRange(s, '\\');
      }
      var i := Find(dir.items, s);
      FindRange(dir.items, s);
      ino := if i == -1 then -1 else dir.items[i].ino;
    }

    method Cd(name: string) returns (o: Outcome)
      requires Sized()
      modifies this`currentDir, this`currentDirPointer
      ensures (State(), o) == ChangeDir(old(State()), name)
    {
      hide DirAt, InodeAt, FindItem, Resolve;
      if name == ".." {
        if currentDirPointer == DARRAY_ADDR {
          return Done;
        }
        var p := currentDir.parent;
        currentDirPointer := p;
        currentDir := ReadDir(p);
        return Done;
      }
      if name == "." {
        return Done;
      }
      var ino := -1;
      if name != "" && name[0] == '\\' {
        ino := ParsePath(name);
      } else {
        var i := Find(currentDir.items, name);
        FindRange(currentDir.items, name);
        if i != -1 {
          ino := currentDir.items[i].ino;
        }
      }
      if ino == -1 {
        return NotFound;
      }
      var x := ReadInode(ino);
      if x.kind != FILE_DIR {
        return NotDir;
      }
      currentDir := ReadDir(x.pointers[0]);
      currentDirPointer := x.pointers[0];
      return Done;
    }

    // ---------------------------------------------------------------- mkfs and mount

    method Mkfs(group: Group)
      requires Sized()
      modifies this`cardRest, this`cardSuper, this`cardImap, cardSmap, cardInodes, cardBlocks
      ensures State() == old(State()).(disk := Format(old(State()).disk, group))
    {
      hide PutBlock, BlankItems, BlankWindow, FreshWindows;
      ghost var d := State().disk;
      cardSuper := Super(1, 1);
      cardImap := FirstWindow();
      cardSmap[0] := FirstWindow();
      var i := 0;
      while i < 255
        modifies cardSmap
        invariant 0 <= i <= 255
        invariant forall w :: 0 <= w <= i ==> cardSmap[w] == FreshWindow(w)
      {
        cardSmap[i + 1] := BlankWindow();
        i := i + 1;
      }
      FreshIs(cardSmap[..]);
      var root := group[0].(kind := FILE_DIR, links := 1, size := 512, capacity := 512,
                            pointers := group[0].pointers[0 := DARRAY_ADDR]);
      cardInodes[0] := group[0 := root];
      assert cardInodes[..] == d.inodes[0 := group[0 := RootInode(group[0])]];
      assert State() == old(State()).(disk := d.(super := Super(1, 1), ibits := FirstWindow(), dbits := FreshWindows(),
                                                 inodes := cardInodes[..]));
      SdWrite(DARRAY_ADDR, DirBlock(Dir(DARRAY_ADDR, "/", BlankItems())));
    }

    method MountCard()
      requires Sized()
      modifies this, inodeBits, windowBits
      ensures State() == Mount(old(State()))
    {
      hide DirAt;
      ghost var s := State();
      superBlock := cardSuper;
      currentDir := ReadDir(DARRAY_ADDR);
      currentDirPointer := DARRAY_ADDR;
      forall i | 0 <= i < 128 { inodeBits[i] := cardImap[i]; }
      assert inodeBits[..] == s.disk.ibits;
      LoadWindow(0);
    }

    // ---------------------------------------------------------------- open files

    method Fopen(name: string, access: int) returns (fd: int)
      requires Sized() && Slist.Valid(fdList[..])
      modifies fdArray, fdList
      ensures (State(), fd) == Open(old(State()), name, access)
    {
      hide InodeAt, BlockAt, Slist.Valid;
      ghost var s := State();
      AllocPops(fdList[..]);
      CursorRange(fdList[..]);
      var ino := IsFileExist(name);
      if ino == 0 {
        return -1;
      }
      var x := ReadInode(ino);
      if x.kind != FILE_NORMAL {
        return -1;
      }
      var t := AllocCell(fdList);
      fd := t - 1;
      if fd == -1 {
        assert State() == s;
        return -1;
      }
      var group := ino / 8;
      ino := ino - group * 8;
      fdArray[fd] := Fd(ino, access, x.size, 0);
      assert fdArray[..] == s.fds[fd := Fd(ino, access, x.size, 0)];
    }

    method Fclose(fd: int) returns (r: int)
      requires Sized() && Slist.Valid(fdList[..])
      modifies fdList
      ensures (State(), r) == Close(old(State()), fd)
    {
      hide Slist.Valid;
      if fd == -1 {
        return 0;
      }
      var ok := FreeCell(fdList, fd + 1, fdList.Length);
      r := if ok then 1 else 0;
    }

    method Fseek(fd: int, offset: nat)
      requires Sized()
      modifies fdArray
      ensures State() == Seek(old(State()), fd, offset)
    {
      if 0 <= fd < fdArray.Length {
        fdArray[fd] := fdArray[fd].(offset := offset);
        assert fdArray[..] == old(fdArray[..])[fd := old(fdArray[fd]).(offset := offset)];
      }
    }

    method ReadTable(p: int) returns (t: PointerTable)
      requires Sized()
      ensures t == TableAt(State().disk, p)
    {
      hide BlockAt;
      var x := SdRead(p);
      t := match x
      case Bytes(bytes) => seq(128, k requires 0 <= k < 128 => WordAt(bytes, k))
      case DirBlock(dir) => seq(128, k => if k == 0 then dir.parent else 0);
    }

    method LocateSector(x: Inode, offset: nat) returns (r: Found, remain: nat)
      requires Sized()
      ensures r == OffsetToPointer(State().disk, x, offset) && remain == offset % 512
    {
      hide TableAt;
      remain := offset - offset / 512 * 512;
      var o := offset / 512;
      var seg := (if o >= 10 then 1 else 0) + (if o >= 138 then 1 else 0) + (if o >= 16522 then 1 else 0)
               + (if o >= 2113674 then 1 else 0);
      if seg == 0 {
        r := Sector(x.pointers[o]);
      } else if seg == 1 {
        o := o - 10;
        var d := ReadTable(x.pointers[10]);
        r := Sector(d[o]);
      } else if seg == 2 {
        o := o - 138;
        var i := o / 128;
        o := o - i * 128;
        var d := ReadTable(x.pointers[11]);
        d := ReadTable(d[i]);
        r := Sector(d[o]);
      } else if seg == 3 {
        o := o - 16522;
        var i := o / (128 * 128);
        o := o - i * 128 * 128;
        var d := ReadTable(x.pointers[12]);
        d := ReadTable(d[i]);
        i := o / 128;
        o := o - i * 128;
        d := ReadTable(d[i]);
        r := Sector(d[o]);
      } else {
        r := WrongSeg;
      }
    }

    method ReadBytesOf(p: int) returns (bytes: SectorBytes)
      requires Sized()
      ensures bytes == BytesAt(State().disk, p)
    {
      hide BlockAt;
      var x := SdRead(p);
      bytes := if x.Bytes? then x.bytes else BlankBytes();
    }

    /** One round of fread's loop: the bytes of the sector of `offset` that are wanted. */
    method ReadChunk(x: Inode, offset: nat, left: nat) returns (where: Found, piece: seq<bv8>)
      requires Sized()
      ensures where == OffsetToPointer(State().disk, x, offset)
      ensures where.Sector? ==>
        piece == BytesAt(State().disk, where.p)[offset % 512..offset % 512 + Chunk(offset, left)]
    {
      hide BytesAt, OffsetToPointer;
      var rest;
      where, rest := LocateSector(x, offset);
      piece := [];
      if where.Sector? {
        var t := if left < 512 - rest then left else 512 - rest;
        var sector := ReadBytesOf(where.p);
        piece := sector[rest..rest + t];
      }
    }

    method Fread(fd: int, n: nat) returns (r: ReadResult)
      requires Sized()
      modifies fdArray
      ensures r == Read(old(State()), fd, n).1
      ensures r.ReadBytes? ==> State() == Read(old(State()), fd, n).0
    {
      hide InodeAt, BytesAt, OffsetToPointer, TableAt, ReadLoop, Prepend;
      ghost var s := State();
      if !(0 <= fd < fdArray.Length) {
        return ReadBytes([]);
      }
      if fdArray[fd].access != O_RDWR && fdArray[fd].access != O_RD {
        return ReadBytes([]);
      }
      var f := fdArray[fd];
      var x := ReadInode(f.ino);
      var remain := (f.size - f.offset) % TWO32;
      var left := if remain < n then remain else n;
      ghost var count := left;
      var buf := [];
      ReadStarts(ReadLoop(s.disk, x, f.offset, count));
      while left != 0
        invariant 0 <= left <= count && fdArray[fd] == f.(offset := f.offset + count - left)
        invariant fdArray[..] == s.fds[fd := fdArray[fd]]
        invariant ReadLoop(s.disk, x, f.offset, count)
          == Prepend(buf, ReadLoop(s.disk, x, f.offset + count - left, left))
      {
        var offset := fdArray[fd].offset;
        var where, piece := ReadChunk(x, offset, left);
        ReadUnrolls(s.disk, x, offset, left, buf);
        if where == WrongSeg {
          return ReadPanic;
        }
        buf := buf + piece;
        left := left - |piece|;
        fdArray[fd] := fdArray[fd].(offset := offset + |piece|);
      }
      ReadEnds(s.disk, x, f.offset + count, buf);
      r := ReadBytes(buf);
    }

    /** The branch of fwrite's loop that copies, once the sector of the offset is found. */
    method CopyChunk(fd: int, p: int, start: nat, buf: seq<bv8>, n: nat) returns (t: nat)
      requires Sized() && 0 <= fd < fdArray.Length && n <= |buf| && start == fdArray[fd].offset % 512
      modifies this`cardRest, cardBlocks, fdArray
      ensures t == Chunk(old(fdArray[fd].offset), n) && State() == PutData(old(State()), fd, p, buf[..t])
    {
      hide BytesAt, PutBlock, Splice;
      ghost var s := State();
      var f := fdArray[fd];
      var sector := ReadBytesOf(p);
      t := 512 - start;
      t := if n < t then n else t;
      SdWrite(p, Bytes(Splice(sector, start, buf[..t])));
      fdArray[fd] := f.(offset := f.offset + t, size := f.size + t);
      assert fdArray[..] == s.fds[fd := f.(offset := f.offset + t, size := f.size + t)];
    }

    method Fwrite(fd: int, buf: seq<bv8>) returns (written: nat, crashed: bool)
      requires Sized()
      modifies this`cardRest, this`cardSuper, this`superBlock, this`smapIndex, windowBits, cardSmap, cardInodes,
        cardBlocks, fdArray
      ensures crashed <==> Write(old(State()), fd, buf).WriteCrash?
      ensures !crashed ==> Write(old(State()), fd, buf) == Wrote(State(), written)
    {
      hide InodeAt, WriteLoop, PutData, AllocBlock, PutInode, OffsetToPointer, TableAt;
      ghost var s := State();
      written, crashed := 0, false;
      if !(0 <= fd < fdArray.Length) {
        return;
      }
      if fdArray[fd].access != O_RDWR && fdArray[fd].access != O_WR {
        return;
      }
      var ino := fdArray[fd].ino;
      var x := ReadInode(ino);
      ghost var x0 := x;
      var n: nat := |buf|;
      while n != 0
        invariant n <= |buf| && FromHere(State(), fd, x, buf, n, written) == FromHere(s, fd, x0, buf, |buf|, 0)
        decreases n, Headroom(x)
      {
        ghost var s1 := State();
        var f := fdArray[fd];
        if (x.capacity - f.offset) % TWO32 >= n {
          var where, start := LocateSector(x, f.offset);
          FsWrites.LoopCopies(s1, fd, x, buf, n, written);
          if where == WrongSeg {
            crashed := true;
            return;
          }
          var t := CopyChunk(fd, where.p, start, buf, n);
          x := x.(size := x.size + t);
          n := n - t;
          written := written + t;
        } else {
          FsWrites.LoopAllocates(s1, fd, x, buf, n, written);
          var i := x.capacity / 512;
          var b := DarrayAlloc();
          if b == -1 {
            WriteInode(ino, x);
            return;
          }
          if i >= SLOT_NUM {
            crashed := true;
            return;
          }
          x := x.(pointers := x.pointers[i := DARRAY_ADDR + b * SECTOR_SIZE], capacity := x.capacity + 512);
        }
      }
      assert FromHere(State(), fd, x, buf, 0, written) == Stopped(State(), x, written) by {
        FsWrites.LoopDone(State(), fd, x, buf, written);
      }
      WriteInode(ino, x);
    }
  }
}
