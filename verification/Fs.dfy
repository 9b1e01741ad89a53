/** The file system of kernel/fs/fs.c: the disk as typed sectors, what the kernel keeps of it in memory, and every
    call as a function on both. */
module Fs {
  import opened Slist
  import opened Bitmap

  const SECTOR_SIZE := 512
  const FS_BASE := 0x01000000
  const META_SECTORS := 770
  const DARRAY_ADDR := 0x01080000
  const INODE_ITEM_NUM := 4096
  const DATA_ITEM_NUM := 1048576
  const INODES_PER_SECTOR := 8
  const WINDOW_NUM := 256
  const WINDOW_BITS := 4096
  const MAX_NAME_LENGTH := 26
  const MAX_DIR_ITEM_NUM := 15
  const FD_ARRAY_SIZE := 64
  const SLOT_NUM := 13
  const DIRECT_NUM := 10
  const FILE_NORMAL := 1
  const FILE_DIR := 2
  const O_RDWR := 0
  const O_RD := 1
  const O_WR := 2
  const TWO32 := 0x1_0000_0000

  // ---------------------------------------------------------------- sectors

  /** One sector of a bitmap: the inode map, or a window of the data map. */
  type Window = s: seq<Word> | |s| == 128 witness seq(128, i => 0)

  type Pointers = s: seq<int> | |s| == 13 witness seq(13, i => 0)

  datatype Inode = Inode(kind: int, links: int, size: nat, capacity: nat, pointers: Pointers)

  type Group = s: seq<Inode> | |s| == 8 witness seq(8, i => BlankInode())

  datatype Item = Item(valid: bool, name: string, ino: int)

  type Items = s: seq<Item> | |s| == 15 witness seq(15, i => Item(false, "", 0))

  datatype Dir = Dir(parent: int, name: string, items: Items)

  type SectorBytes = s: seq<bv8> | |s| == 512 witness seq(512, i => 0)

  type PointerTable = s: seq<int> | |s| == 128 witness seq(128, i => 0)

  /** A data sector, by what was last written to it. */
  datatype Block = DirBlock(dir: Dir) | Bytes(bytes: SectorBytes)

  datatype Super = Super(inodeUsed: int, dataUsed: int)

  type Windows = s: seq<Window> | |s| == 256 witness seq<Window>(256, w => BlankWindow())

  type Groups = s: seq<Group> | |s| == 512 witness seq<Group>(512, g => BlankGroup())

  type Blocks = s: seq<Block> | |s| == 1048576 witness seq(1048576, b => Bytes(BlankBytes()))

  /** The data area, and by their addresses whatever sectors outside it have been written as data. */
  datatype Sectors = Sectors(area: Blocks, rest: map<int, Block>)

  datatype Disk = Disk(super: Super, ibits: Window, dbits: Windows, inodes: Groups, blocks: Sectors)

  datatype Fd = Fd(ino: int, access: int, size: int, offset: nat)

  /** `here` is current_dir_pointer, the address of the sector `dir` was read from. */
  datatype Fs = Fs(disk: Disk, super: Super, ibits: Window, dbits: Window, smapIndex: nat, dir: Dir, here: int,
                   fds: seq<Fd>, fdList: seq<Node>)

  datatype Outcome = Done | TooLong | Exists | DirFull | NoInode | NoBlock | NotFound | NotDir | NotEmpty

  function BlankItems(): Items { seq(15, i => Item(false, "", 0)) }

  function BlankDir(): Dir { Dir(0, "", BlankItems()) }

  function BlankBytes(): SectorBytes { seq(512, i => 0) }

  function BlankInode(): Inode { Inode(0, 0, 0, 0, seq(13, k => 0)) }

  function BlankGroup(): Group { seq(8, i => BlankInode()) }

  function BlankWindow(): Window { seq(128, i => 0) }

  // ---------------------------------------------------------------- reading and writing sectors

  function PtrOf(b: int): int { DARRAY_ADDR + b * SECTOR_SIZE }

  function BlockOf(p: int): int { (p - DARRAY_ADDR) / SECTOR_SIZE }

  predicate IsBlock(p: int) {
    p == PtrOf(BlockOf(p)) && 0 <= BlockOf(p) < DATA_ITEM_NUM
  }

  /** A data sector at this address would lie across the superblock, the bitmaps or the inodes, or across two sectors of
      the data area. */
  predicate Wild(p: int) {
    || FS_BASE - SECTOR_SIZE < p < FS_BASE + META_SECTORS * SECTOR_SIZE
    || (DARRAY_ADDR - SECTOR_SIZE < p < DARRAY_ADDR + DATA_ITEM_NUM * SECTOR_SIZE && !IsBlock(p))
  }

  /** Nothing has been stored there as data. */
  predicate Intact(d: Disk) {
    forall p :: p in d.blocks.rest ==> !Wild(p)
  }

  /** A card before the kernel has stored anything on it. */
  type Card = d: Disk | Intact(d)
    witness Disk(Super(0, 0), BlankWindow(), seq(256, w => BlankWindow()), seq(512, g => BlankGroup()),
                 Sectors(seq(1048576, b => Bytes(BlankBytes())), map[]))

  function BlockAt(d: Disk, p: int): Block {
    if IsBlock(p) then d.blocks.area[BlockOf(p)]
    else if p in d.blocks.rest then d.blocks.rest[p] else Bytes(BlankBytes())
  }

  function PutBlock(d: Disk, p: int, x: Block): Disk {
    if IsBlock(p) then d.(blocks := d.blocks.(area := d.blocks.area[BlockOf(p) := x]))
    else d.(blocks := d.blocks.(rest := d.blocks.rest[p := x]))
  }

  function DirAt(d: Disk, p: int): Dir {
    if BlockAt(d, p).DirBlock? then BlockAt(d, p).dir else BlankDir()
  }

  function BytesAt(d: Disk, p: int): SectorBytes {
    if BlockAt(d, p).Bytes? then BlockAt(d, p).bytes else BlankBytes()
  }

  /** Word k of a sector, least byte first. */
  function WordAt(bytes: SectorBytes, k: int): int
    requires 0 <= k < 128
  {
    bytes[4 * k] as int + 0x100 * bytes[4 * k + 1] as int
    + 0x10000 * bytes[4 * k + 2] as int + 0x1000000 * bytes[4 * k + 3] as int
  }

  /** A sector read as a table of pointers. A directory begins with its parent's address. */
  function TableAt(d: Disk, p: int): PointerTable {
    match BlockAt(d, p)
    case Bytes(bytes) => seq(128, k requires 0 <= k < 128 => WordAt(bytes, k))
    case DirBlock(dir) => seq(128, k => if k == 0 then dir.parent else 0)
  }

  function InodeAt(d: Disk, ino: int): Inode {
    if 0 <= ino < INODE_ITEM_NUM then d.inodes[ino / INODES_PER_SECTOR][ino % INODES_PER_SECTOR] else BlankInode()
  }

  function PutInode(d: Disk, ino: int, x: Inode): Disk {
    if 0 <= ino < INODE_ITEM_NUM
    then d.(inodes := d.inodes[ino / INODES_PER_SECTOR :=
                d.inodes[ino / INODES_PER_SECTOR][ino % INODES_PER_SECTOR := x]])
    else d
  }

  /** The 257th window, read when the last one is full, lies outside the map; nothing uses it. */
  function WindowAt(d: Disk, i: int): Window {
    if 0 <= i < WINDOW_NUM then d.dbits[i] else BlankWindow()
  }

  // ---------------------------------------------------------------- the bitmaps

  predicate Live(d: Disk, ino: int) {
    BitAt(d.ibits, ino)
  }

  predicate Used(d: Disk, b: int) {
    0 <= b < DATA_ITEM_NUM && BitAt(d.dbits[b / WINDOW_BITS], b % WINDOW_BITS)
  }

  function SetInodeBits(s: Fs, ibits: Window, super: Super): Fs {
    s.(ibits := ibits, super := super, disk := s.disk.(ibits := ibits, super := super))
  }

  function SetDataBits(s: Fs, w: nat, dbits: Window, super: Super): Fs
    requires w < WINDOW_NUM
  {
    s.(dbits := dbits, smapIndex := w, super := super,
      disk := s.disk.(dbits := s.disk.dbits[w := dbits], super := super))
  }

  /** iarray_alloc */
  function AllocInode(s: Fs): (Fs, int) {
    var k := FirstClear(s.ibits);
    if k == -1 then (s, -1)
    else (SetInodeBits(s, Mark(s.ibits, k), s.super.(inodeUsed := s.super.inodeUsed + 1)), k)
  }

  /** iarray_free */
  function FreeInode(s: Fs, ino: int): Fs {
    SetInodeBits(s, Unmark(s.ibits, ino), s.super.(inodeUsed := s.super.inodeUsed - 1))
  }

  /** The window slides up until it shows a clear bit, or past the last one. */
  function Slide(s: Fs): (r: Fs)
    ensures r.smapIndex < WINDOW_NUM ==> FirstClear(r.dbits) != -1
    decreases WINDOW_NUM - s.smapIndex
  {
    if s.smapIndex >= WINDOW_NUM || FirstClear(s.dbits) != -1 then s
    else Slide(s.(smapIndex := s.smapIndex + 1, dbits := WindowAt(s.disk, s.smapIndex + 1)))
  }

  /** darray_alloc */
  function AllocBlock(s: Fs): (Fs, int) {
    var s1 := Slide(s);
    if s1.smapIndex >= WINDOW_NUM then (s1, -1) else
    var k := FirstClear(s1.dbits);
    (SetDataBits(s1, s1.smapIndex, Mark(s1.dbits, k), s1.super.(dataUsed := s1.super.dataUsed + 1)),
     s1.smapIndex * WINDOW_BITS + k)
  }

  /** darray_free */
  function FreeBlock(s: Fs, b: int): Fs {
    if 0 <= b < DATA_ITEM_NUM
    then SetDataBits(s, b / WINDOW_BITS, Unmark(s.disk.dbits[b / WINDOW_BITS], b % WINDOW_BITS),
                 s.super.(dataUsed := s.super.dataUsed - 1))
    else s
  }

  // ---------------------------------------------------------------- directories

  /** The first valid item of that name, -1 if there is none. */
  function FindItem(items: seq<Item>, name: string): (i: int)
    ensures -1 <= i < |items|
    ensures i != -1 ==> items[i].valid && items[i].name == name
    ensures forall k :: 0 <= k < (if i == -1 then |items| else i) ==> !(items[k].valid && items[k].name == name)
  {
    if items == [] then -1
    else if items[0].valid && items[0].name == name then 0
    else var r := FindItem(items[1..], name); if r == -1 then -1 else r + 1
  }

  /** The first item that is not valid, the number of items if all are. */
  function FreeSlot(items: seq<Item>): (i: nat)
    ensures i <= |items|
    ensures i < |items| ==> !items[i].valid
    ensures forall k :: 0 <= k < i ==> items[k].valid
  {
    if items == [] || !items[0].valid then 0 else 1 + FreeSlot(items[1..])
  }

  predicate IsEmpty(d: Dir) {
    forall k :: 0 <= k < MAX_DIR_ITEM_NUM ==> !d.items[k].valid
  }

  /** is_file_exist: 0 for a name that is not there. */
  function FileExists(s: Fs, name: string): int {
    var i := FindItem(s.dir.items, name);
    if i == -1 then 0 else s.dir.items[i].ino
  }

  function SetItem(s: Fs, i: int, item: Item): Fs {
    if 0 <= i < MAX_DIR_ITEM_NUM then s.(dir := s.dir.(items := s.dir.items[i := item])) else s
  }

  function WriteDir(s: Fs): Fs {
    s.(disk := PutBlock(s.disk, s.here, DirBlock(s.dir)))
  }

  function NewDirInode(x: Inode, p: int): Inode {
    x.(kind := FILE_DIR, links := 1, size := 512, capacity := 512, pointers := x.pointers[0 := p])
  }

  function NewFileInode(x: Inode): Inode {
    x.(kind := FILE_NORMAL, links := 1, size := 0, capacity := 0)
  }

  /** The directory gets its inode and its empty sector. */
  function PutNewDir(s: Fs, ino: int, p: int, name: string): Fs {
    s.(disk := PutBlock(PutInode(s.disk, ino, NewDirInode(InodeAt(s.disk, ino), p)), p,
                        DirBlock(Dir(s.here, name, BlankItems()))))
  }

  /** The tests mkdir and touch begin with: the slot for the new name, or what is wrong with it. */
  function Admit(s: Fs, name: string): (Outcome, int) {
    if |name| > MAX_NAME_LENGTH then (TooLong, -1)
    else if FileExists(s, name) != 0 then (Exists, -1)
    else if FreeSlot(s.dir.items) == MAX_DIR_ITEM_NUM then (DirFull, -1)
    else (Done, FreeSlot(s.dir.items) as int)
  }

  /** The entry's valid byte is set, then an inode is looked for, then the entry is completed and written. */
  function Enter(s: Fs, name: string, i: int): (Fs, int)
    requires 0 <= i < MAX_DIR_ITEM_NUM
  {
    var (s1, ino) := AllocInode(SetItem(s, i, s.dir.items[i].(valid := true)));
    if ino == -1 then (s1, -1) else (WriteDir(SetItem(s1, i, Item(true, name, ino))), ino)
  }

  function MakeDir(s: Fs, name: string): (Fs, Outcome) {
    var (o, i) := Admit(s, name);
    if o != Done then (s, o) else
    var (s1, ino) := Enter(s, name, i);
    if ino == -1 then (s1, NoInode) else
    var (s2, b) := AllocBlock(s1);
    if b == -1 then (s2, NoBlock) else (PutNewDir(s2, ino, PtrOf(b), name), Done)
  }

  function TouchFile(s: Fs, name: string): (Fs, Outcome) {
    var (o, i) := Admit(s, name);
    if o != Done then (s, o) else
    var (s1, ino) := Enter(s, name, i);
    if ino == -1 then (s1, NoInode)
    else (s1.(disk := PutInode(s1.disk, ino, NewFileInode(InodeAt(s1.disk, ino)))), Done)
  }

  function Drop(s: Fs, i: int, ino: int, p: int): Fs
    requires 0 <= i < MAX_DIR_ITEM_NUM
  {
    var s1 := FreeBlock(FreeInode(s, ino), BlockOf(p));
    WriteDir(SetItem(s1, i, s1.dir.items[i].(valid := false)))
  }

  function RemoveDir(s: Fs, name: string): (Fs, Outcome) {
    var i := FindItem(s.dir.items, name);
    if i == -1 then (s, NotFound) else
    var ino := s.dir.items[i].ino;
    var x := InodeAt(s.disk, ino);
    if x.kind != FILE_DIR then (s, NotDir)
    else if !IsEmpty(DirAt(s.disk, x.pointers[0])) then (s, NotEmpty)
    else (Drop(s, i, ino, x.pointers[0]), Done)
  }

  // ---------------------------------------------------------------- paths

  /** separate: the first position of c, -1 if there is none. */
  function Separate(path: string, c: char): (i: int)
    ensures -1 <= i < |path|
    ensures i != -1 ==> path[i] == c
    ensures forall k :: 0 <= k < (if i == -1 then |path| else i) ==> path[k] != c
  {
    if path == "" then -1
    else if path[0] == c then 0
    else var r := Separate(path[1..], c); if r == -1 then -1 else r + 1
  }

  /** The number under a name in a directory, -1 if it is not there. */
  function Lookup(dir: Dir, name: string): int {
    var i := FindItem(dir.items, name);
    if i == -1 then -1 else dir.items[i].ino
  }

  function Walk(d: Disk, dir: Dir, path: string): int
    decreases |path|
  {
    var pos := Separate(path, '\\');
    if pos == -1 then Lookup(dir, path) else
    var i := FindItem(dir.items, path[..pos]);
    if i == -1 then -1 else
    var x := InodeAt(d, dir.items[i].ino);
    if x.kind != FILE_DIR then -1 else Walk(d, DirAt(d, x.pointers[0]), path[pos + 1..])
  }

  /** parse_path */
  function Resolve(d: Disk, path: string): int
    requires path != ""
  {
    if path == "\\" then 0 else Walk(d, DirAt(d, DARRAY_ADDR), path[1..])
  }

  function GoTo(s: Fs, p: int): Fs {
    s.(dir := DirAt(s.disk, p), here := p)
  }

  function EnterIno(s: Fs, ino: int): (Fs, Outcome) {
    if ino == -1 then (s, NotFound)
    else if InodeAt(s.disk, ino).kind != FILE_DIR then (s, NotDir)
    else (GoTo(s, InodeAt(s.disk, ino).pointers[0]), Done)
  }

  function ChangeDir(s: Fs, name: string): (Fs, Outcome) {
    if name == ".." then (if s.here == DARRAY_ADDR then s else GoTo(s, s.dir.parent), Done)
    else if name == "." then (s, Done)
    else EnterIno(s, if name != "" && name[0] == '\\' then Resolve(s.disk, name) else Lookup(s.dir, name))
  }

  // ---------------------------------------------------------------- open files

  /** fopen: the descriptor gets the number of the inode within its group of eight. */
  function Open(s: Fs, name: string, access: int): (Fs, int) {
    var ino := FileExists(s, name);
    if ino == 0 then (s, -1)
    else if InodeAt(s.disk, ino).kind != FILE_NORMAL then (s, -1)
    else if !(|s.fdList| > 0 && 0 <= s.fdList[0].cursor < |s.fdList|) then (s, -1) else
    var (list, t) := AllocNode(s.fdList);
    if t - 1 == -1 then (s, -1)
    else if t - 1 < |s.fds|
    then (s.(fdList := list, fds := s.fds[t - 1 := Fd(ino % INODES_PER_SECTOR, access, InodeAt(s.disk, ino).size, 0)]),
      t - 1)
    else (s, -1)
  }

  function Close(s: Fs, fd: int): (Fs, int) {
    if fd == -1 || |s.fdList| == 0 then (s, 0) else
    var (list, ok) := FreeNode(s.fdList, fd + 1);
    (s.(fdList := list), if ok then 1 else 0)
  }

  function Seek(s: Fs, fd: int, offset: nat): Fs {
    if 0 <= fd < |s.fds| then s.(fds := s.fds[fd := s.fds[fd].(offset := offset)]) else s
  }

  function FdAt(s: Fs, fd: int): Fd {
    if 0 <= fd < |s.fds| then s.fds[fd] else Fd(0, -1, 0, 0)
  }

  function SetFd(s: Fs, fd: int, f: Fd): Fs {
    if 0 <= fd < |s.fds| then s.(fds := s.fds[fd := f]) else s
  }

  function Min(a: int, b: int): int { if a < b then a else b }

  /** How much of the buffer goes to the sector of `offset`. */
  function Chunk(offset: nat, n: nat): (t: nat)
    ensures t <= n && offset % 512 + t <= 512 && (n > 0 ==> t > 0)
  {
    Min(n, 512 - offset % 512)
  }

  function Splice(s: SectorBytes, at: nat, buf: seq<bv8>): SectorBytes
    requires at + |buf| <= 512
  {
    s[..at] + buf + s[at + |buf|..]
  }

  datatype Found = Sector(p: int) | WrongSeg

  /** offset_to_pointer; WrongSeg is its panic. */
  function OffsetToPointer(d: Disk, x: Inode, offset: nat): Found {
    var i := offset / 512;
    if i < 10 then Sector(x.pointers[i])
    else if i < 138 then Sector(TableAt(d, x.pointers[10])[i - 10])
    else if i < 16522 then
      var o := i - 138;
      var a := o / 128;
      Sector(TableAt(d, TableAt(d, x.pointers[11])[a])[o - a * 128])
    else if i < 2113674 then
      var o := i - 16522;
      var a := o / (128 * 128);
      var o' := o - a * 128 * 128;
      var b := o' / 128;
      Sector(TableAt(d, TableAt(d, TableAt(d, x.pointers[12])[a])[b])[o' - b * 128])
    else WrongSeg
  }

  /** `data` goes to sector p at the offset, and the descriptor moves on. */
  function PutData(s: Fs, fd: int, p: int, data: seq<bv8>): Fs
    requires FdAt(s, fd).offset % 512 + |data| <= 512
  {
    var f := FdAt(s, fd);
    var d := PutBlock(s.disk, p, Bytes(Splice(BytesAt(s.disk, p), f.offset % 512, data)));
    SetFd(s.(disk := d), fd, f.(offset := f.offset + |data|, size := f.size + |data|))
  }

  /** A fresh sector becomes the next pointer. */
  function AddBlock(x: Inode, p: int): Inode
    requires x.capacity < SLOT_NUM * SECTOR_SIZE
  {
    x.(pointers := x.pointers[x.capacity / 512 := p], capacity := x.capacity + 512)
  }

  /** What is left to allocate: the measure of the loop of fwrite. */
  function Headroom(x: Inode): nat {
    if x.capacity < SLOT_NUM * SECTOR_SIZE then SLOT_NUM * SECTOR_SIZE - x.capacity else 0
  }

  /** Crash: the sector of the offset is outside the block map, or a pointer is stored past the last one. */
  datatype Loop = Stopped(s: Fs, x: Inode, count: nat) | Crash

  /** The loop of fwrite with n bytes to go. Each round that copies takes the bytes from the start of the buffer, which
      does not move on; what remains of the allocated size is unsigned. */
  function WriteLoop(s: Fs, fd: int, x: Inode, buf: seq<bv8>, n: nat, count: nat): Loop
    requires 0 <= fd < |s.fds| && n <= |buf|
    decreases n, Headroom(x)
  {
    if n == 0 then Stopped(s, x, count)
    else if (x.capacity - s.fds[fd].offset) % TWO32 >= n then
      match OffsetToPointer(s.disk, x, s.fds[fd].offset)
      case WrongSeg => Crash
      case Sector(p) =>
        var t := Chunk(s.fds[fd].offset, n);
        WriteLoop(PutData(s, fd, p, buf[..t]), fd, x.(size := x.size + t), buf, n - t, count + t)
    else
      var (s1, b) := AllocBlock(s);
      SlideKeeps(s);
      if b == -1 then Stopped(s1, x, count)
      else if x.capacity / 512 >= SLOT_NUM then Crash
      else WriteLoop(s1, fd, AddBlock(x, PtrOf(b)), buf, n, count)
  }

  /** Sliding changes nothing but the window. */
  lemma {:induction false} SlideKeeps(s: Fs)
    ensures Slide(s) == s.(dbits := Slide(s).dbits, smapIndex := Slide(s).smapIndex)
    decreases WINDOW_NUM - s.smapIndex
  {
    if s.smapIndex < WINDOW_NUM && FirstClear(s.dbits) == -1 {
      SlideKeeps(s.(smapIndex := s.smapIndex + 1, dbits := WindowAt(s.disk, s.smapIndex + 1)));
    }
  }

  predicate MayWrite(s: Fs, fd: int) {
    0 <= fd < |s.fds| && (s.fds[fd].access == O_RDWR || s.fds[fd].access == O_WR)
  }

  predicate MayRead(s: Fs, fd: int) {
    0 <= fd < |s.fds| && (s.fds[fd].access == O_RDWR || s.fds[fd].access == O_RD)
  }

  datatype WriteResult = Wrote(s: Fs, count: nat) | WriteCrash

  /** fwrite; the inode is written once, after the last chunk. */
  function Write(s: Fs, fd: int, buf: seq<bv8>): WriteResult {
    if !MayWrite(s, fd) then Wrote(s, 0) else
    var ino := s.fds[fd].ino;
    match WriteLoop(s, fd, InodeAt(s.disk, ino), buf, |buf|, 0)
    case Stopped(s1, x, n) => Wrote(s1.(disk := PutInode(s1.disk, ino, x)), n)
    case Crash => WriteCrash
  }

  // ---------------------------------------------------------------- start

  function RootDir(): Dir { Dir(DARRAY_ADDR, "/", BlankItems()) }

  function FirstWindow(): Window { BlankWindow()[0 := 1] }

  function FreshWindow(w: int): Window { if w == 0 then FirstWindow() else BlankWindow() }

  function FreshWindows(): Windows { seq<Window>(256, w => FreshWindow(w)) }

  function RootInode(x: Inode): Inode {
    x.(kind := FILE_DIR, links := 1, size := 512, capacity := 512, pointers := x.pointers[0 := DARRAY_ADDR])
  }

  /** mkfs; `g` is what the buffer for the first eight inodes held, and what mkfs does not write stays on the card. */
  function Format(d: Disk, g: Group): Disk {
    PutBlock(d.(super := Super(1, 1), ibits := FirstWindow(), dbits := FreshWindows(),
                inodes := d.inodes[0 := g[0 := RootInode(g[0])]]),
             DARRAY_ADDR, DirBlock(RootDir()))
  }

  function Mount(s: Fs): Fs {
    s.(super := s.disk.super, dir := DirAt(s.disk, DARRAY_ADDR), here := DARRAY_ADDR, ibits := s.disk.ibits,
       smapIndex := 0, dbits := s.disk.dbits[0])
  }
}
