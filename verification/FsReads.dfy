/** The block map and fread: the four-level map is the in-order flattening of the pointer tree, and a read is a slice
    of the bytes it leads to. */
module FsReads {
  import opened Bitmap
  import opened Fs

  const TABLE_SIZE := 128
  const BLOCK_LIMIT := 2113674

  // ---------------------------------------------------------------- the flattening

  function Size(depth: nat): nat {
    if depth == 0 then 1 else TABLE_SIZE * Size(depth - 1)
  }

  /** The data sectors below p, which is a data sector at depth 0 and a table of depth - 1 pointers above that. */
  function Leaves(d: Disk, p: int, depth: nat): seq<int>
    decreases depth, 0
  {
    if depth == 0 then [p] else AllLeaves(d, TableAt(d, p), depth - 1)
  }

  function AllLeaves(d: Disk, ps: seq<int>, depth: nat): seq<int>
    decreases depth, 1, |ps|
  {
    if ps == [] then [] else Leaves(d, ps[0], depth) + AllLeaves(d, ps[1..], depth)
  }

  /** All data sectors of a file in order: ten direct ones, then the three trees. */
  function Flat(d: Disk, x: Inode): seq<int> {
    x.pointers[..10] + Leaves(d, x.pointers[10], 1) + Leaves(d, x.pointers[11], 2) + Leaves(d, x.pointers[12], 3)
  }

  lemma {:induction false} LeavesSize(d: Disk, p: int, depth: nat)
    ensures |Leaves(d, p, depth)| == Size(depth)
    decreases depth, 0
  {
    if depth > 0 { AllLeavesSize(d, TableAt(d, p), depth - 1); }
  }

  lemma {:induction false} AllLeavesSize(d: Disk, ps: seq<int>, depth: nat)
    ensures |AllLeaves(d, ps, depth)| == |ps| * Size(depth)
    decreases depth, 1, |ps|
  {
    if ps != [] {
      LeavesSize(d, ps[0], depth);
      AllLeavesSize(d, ps[1..], depth);
      assert |ps| * Size(depth) == Size(depth) + (|ps| - 1) * Size(depth);
    }
  }

  lemma RowOf(a: nat, k: nat, b: nat, n: nat)
    requires a < k && b < n
    ensures a * n + b < k * n && (a > 0 ==> a * n + b == n + ((a - 1) * n + b))
  {
    assert (a + 1) * n <= k * n;
  }

  function ElementAt(ps: seq<int>, i: int): int {
    if 0 <= i < |ps| then ps[i] else 0
  }

  /** Position a * Size + b of the leaves below a row of pointers is position b below pointer a. */
  lemma {:induction false} AllLeavesAt(d: Disk, ps: seq<int>, depth: nat, a: nat, b: nat)
    requires a < |ps| && b < Size(depth)
    ensures |Leaves(d, ps[a], depth)| == Size(depth)
    ensures a * Size(depth) + b < |AllLeaves(d, ps, depth)|
    ensures ElementAt(AllLeaves(d, ps, depth), a * Size(depth) + b) == ElementAt(Leaves(d, ps[a], depth), b)
    decreases a
  {
    hide Leaves, TableAt, Size;
    AllLeavesSize(d, ps, depth);
    LeavesSize(d, ps[0], depth);
    LeavesSize(d, ps[a], depth);
    RowOf(a, |ps|, b, Size(depth));
    if a > 0 {
      AllLeavesAt(d, ps[1..], depth, a - 1, b);
    }
  }

  lemma Sizes()
    ensures Size(0) == 1 && Size(1) == 128 && Size(2) == 16384 && Size(3) == 2097152
  {}

  lemma LeavesBelow(d: Disk, p: int, depth: nat)
    ensures |Leaves(d, p, depth + 1)| == Size(depth + 1)
    ensures Leaves(d, p, depth + 1) == AllLeaves(d, TableAt(d, p), depth)
    ensures Leaves(d, p, 0) == [p]
  {
    LeavesSize(d, p, depth + 1);
  }

  lemma DepthOne(d: Disk, p: int, c: nat)
    requires c < 128
    ensures |Leaves(d, p, 1)| == 128 && Leaves(d, p, 1)[c] == TableAt(d, p)[c]
  {
    Sizes();
    hide Leaves, AllLeaves, BlockAt, Size;
    LeavesBelow(d, p, 0);
    LeavesBelow(d, TableAt(d, p)[c], 0);
    AllLeavesAt(d, TableAt(d, p), 0, c, 0);
  }

  lemma DepthTwo(d: Disk, p: int, b: nat, c: nat)
    requires b < 128 && c < 128
    ensures |Leaves(d, p, 2)| == 16384 && Leaves(d, p, 2)[b * 128 + c] == TableAt(d, TableAt(d, p)[b])[c]
  {
    Sizes();
    hide Leaves, AllLeaves, BlockAt, Size;
    LeavesBelow(d, p, 1);
    AllLeavesAt(d, TableAt(d, p), 1, b, c);
    DepthOne(d, TableAt(d, p)[b], c);
  }

  lemma DepthThree(d: Disk, p: int, a: nat, b: nat, c: nat)
    requires a < 128 && b < 128 && c < 128
    ensures |Leaves(d, p, 3)| == 2097152
    ensures Leaves(d, p, 3)[a * 16384 + (b * 128 + c)] == TableAt(d, TableAt(d, TableAt(d, p)[a])[b])[c]
  {
    Sizes();
    hide Leaves, AllLeaves, BlockAt, Size;
    LeavesBelow(d, p, 2);
    AllLeavesAt(d, TableAt(d, p), 2, a, b * 128 + c);
    DepthTwo(d, TableAt(d, p)[a], b, c);
  }

  lemma FlatSize(d: Disk, x: Inode)
    ensures |Flat(d, x)| == BLOCK_LIMIT
  {
    Sizes();
    LeavesSize(d, x.pointers[10], 1);
    LeavesSize(d, x.pointers[11], 2);
    LeavesSize(d, x.pointers[12], 3);
  }

  lemma FlatAt(d: Disk, x: Inode, i: nat)
    requires i < BLOCK_LIMIT
    ensures |Flat(d, x)| == BLOCK_LIMIT
    ensures i < 10 ==> Flat(d, x)[i] == x.pointers[i]
    ensures 10 <= i < 138 ==>
      |Leaves(d, x.pointers[10], 1)| == 128 && Flat(d, x)[i] == Leaves(d, x.pointers[10], 1)[i - 10]
    ensures 138 <= i < 16522 ==>
      |Leaves(d, x.pointers[11], 2)| == 16384 && Flat(d, x)[i] == Leaves(d, x.pointers[11], 2)[i - 138]
    ensures 16522 <= i ==>
      |Leaves(d, x.pointers[12], 3)| == 2097152 && Flat(d, x)[i] == Leaves(d, x.pointers[12], 3)[i - 16522]
  {
    hide Leaves;
    Sizes();
    FlatSize(d, x);
    LeavesSize(d, x.pointers[10], 1);
    LeavesSize(d, x.pointers[11], 2);
    LeavesSize(d, x.pointers[12], 3);
  }

  /** offset_to_pointer returns exactly the element of the flattening that holds the offset, and panics beyond it. */
  lemma MapIsFlattening(d: Disk, x: Inode, offset: nat)
    ensures |Flat(d, x)| == BLOCK_LIMIT
    ensures OffsetToPointer(d, x, offset)
      == if offset / 512 < BLOCK_LIMIT then Sector(Flat(d, x)[offset / 512]) else WrongSeg
  {
    hide Leaves, Flat, TableAt;
    FlatSize(d, x);
    var i := offset / 512;
    if i < BLOCK_LIMIT {
      FlatAt(d, x, i);
      if 10 <= i < 138 {
        DepthOne(d, x.pointers[10], i - 10);
      } else if 138 <= i < 16522 {
        var o := i - 138;
        DepthTwo(d, x.pointers[11], o / 128, o % 128);
      } else if 16522 <= i {
        var o := i - 16522;
        DepthThree(d, x.pointers[12], o / 16384, o % 16384 / 128, o % 16384 % 128);
      }
    }
  }

  lemma LastByte(a: int, rest: int)
    requires 0 <= a < 0x100
    ensures (a + 0x100 * rest) % 0x100 == a && (a + 0x100 * rest) / 0x100 == rest
  {}

  lemma WordBytes(w: int, a: int, b: int, c: int, e: int)
    requires 0 <= a < 0x100 && 0 <= b < 0x100 && 0 <= c < 0x100 && w == a + 0x100 * b + 0x10000 * c + 0x1000000 * e
    ensures IsWord(w, a, b, c, e)
  {
    LastByte(a, b + 0x100 * (c + 0x100 * e));
    LastByte(b, c + 0x100 * e);
    LastByte(c, e);
    assert w == a + 0x100 * (b + 0x100 * (c + 0x100 * e));
  }

  /** The number is made of these bytes, the least first. */
  predicate IsWord(w: int, a: int, b: int, c: int, e: int) {
    w % 0x100 == a && w / 0x100 % 0x100 == b && w / 0x100 / 0x100 % 0x100 == c && w / 0x100 / 0x100 / 0x100 == e
  }

  /** Entry k of a sector of bytes, read as a table, is made of the bytes from 4 * k on. */
  lemma TableBytes(d: Disk, p: int, k: nat)
    requires BlockAt(d, p).Bytes? && k < 128
    ensures var bytes := BytesAt(d, p);
      IsWord(TableAt(d, p)[k], bytes[4 * k] as int, bytes[4 * k + 1] as int, bytes[4 * k + 2] as int,
             bytes[4 * k + 3] as int)
  {
    hide BlockAt, IsWord;
    var bytes := BytesAt(d, p);
    WordBytes(TableAt(d, p)[k], bytes[4 * k] as int, bytes[4 * k + 1] as int, bytes[4 * k + 2] as int,
              bytes[4 * k + 3] as int);
  }

  // ---------------------------------------------------------------- no sharing

  /** `ts` are the tables of the file; no table entry occurs twice, and none is one of the inode's own pointers. */
  ghost predicate Unshared(d: Disk, x: Inode, ts: set<int>) {
    && (forall i, j :: 0 <= i < j < SLOT_NUM ==> x.pointers[i] != x.pointers[j])
    && x.pointers[10] in ts && x.pointers[11] in ts && x.pointers[12] in ts
    && (forall a :: 0 <= a < 128 ==> TableAt(d, x.pointers[11])[a] in ts && TableAt(d, x.pointers[12])[a] in ts)
    && (forall a, b :: 0 <= a < 128 && 0 <= b < 128 ==> TableAt(d, TableAt(d, x.pointers[12])[a])[b] in ts)
    && (forall t, u, i, j ::
         t in ts && u in ts && 0 <= i < 128 && 0 <= j < 128 && TableAt(d, t)[i] == TableAt(d, u)[j] ==>
          (t == u && i == j))
    && (forall t, i, k :: t in ts && 0 <= i < 128 && 0 <= k < SLOT_NUM ==> TableAt(d, t)[i] != x.pointers[k])
  }

  /** Which table and which place in it, for a block that is not direct. */
  function Place(d: Disk, x: Inode, i: nat): (int, int)
    requires 10 <= i < BLOCK_LIMIT
  {
    if i < 138 then (x.pointers[10], i - 10)
    else if i < 16522 then (TableAt(d, x.pointers[11])[(i - 138) / 128], (i - 138) % 128)
    else (TableAt(d, TableAt(d, x.pointers[12])[(i - 16522) / 16384])[(i - 16522) % 16384 / 128], (i - 16522) % 128)
  }

  lemma PlaceOf(d: Disk, x: Inode, ts: set<int>, i: nat)
    requires Unshared(d, x, ts) && 10 <= i < BLOCK_LIMIT
    ensures var (t, c) := Place(d, x, i);
      t in ts && 0 <= c < 128 && OffsetToPointer(d, x, i * 512) == Sector(TableAt(d, t)[c])
  {
    hide TableAt;
    assert i * 512 / 512 == i;
    hide Unshared;
    PlaceRange(d, x, ts, i);
    if i >= 16522 {
      var k := i - 16522;
      assert k % 16384 - k % 16384 / 128 * 128 == k % 128;
    }
  }

  lemma PlaceRange(d: Disk, x: Inode, ts: set<int>, i: nat)
    requires Unshared(d, x, ts) && 10 <= i < BLOCK_LIMIT
    ensures Place(d, x, i).0 in ts && 0 <= Place(d, x, i).1 < 128
  {
    hide TableAt;
  }

  /** Over a pointer tree without sharing, distinct blocks of the file are in distinct sectors. */
  lemma DistinctBlocks(d: Disk, x: Inode, ts: set<int>, i: nat, j: nat)
    requires Unshared(d, x, ts) && i < j < BLOCK_LIMIT
    ensures OffsetToPointer(d, x, i * 512) != OffsetToPointer(d, x, j * 512)
  {
    hide TableAt;
    assert i * 512 / 512 == i && j * 512 / 512 == j;
    if 10 <= j { PlaceOf(d, x, ts, j); }
    if 10 <= i {
      PlaceOf(d, x, ts, i);
      hide OffsetToPointer;
      DistinctPlaces(d, x, ts, i, j);
    }
  }

  lemma Digits(k: nat)
    ensures k == 16384 * (k / 16384) + 128 * (k % 16384 / 128) + k % 128
    ensures k == 128 * (k / 128) + k % 128
  {
    assert k % 128 == k % 16384 % 128;
  }

  /** The table a row of pointers gives at index a is the table it gives at index b only if a is b. */
  lemma SameTable(d: Disk, x: Inode, ts: set<int>, t: int, u: int, a: int, b: int)
    requires Unshared(d, x, ts) && t in ts && u in ts && 0 <= a < 128 && 0 <= b < 128
    ensures TableAt(d, t)[a] == TableAt(d, u)[b] ==> t == u && a == b
    ensures TableAt(d, t)[a] != x.pointers[10] && TableAt(d, t)[a] != x.pointers[11]
    ensures TableAt(d, t)[a] != x.pointers[12]
  {
    hide TableAt;
  }

  lemma DistinctPlaces(d: Disk, x: Inode, ts: set<int>, i: nat, j: nat)
    requires Unshared(d, x, ts) && 10 <= i < j < BLOCK_LIMIT
    ensures Place(d, x, i) != Place(d, x, j)
  {
    hide TableAt, OffsetToPointer, Unshared;
    var p, q := x.pointers[11], x.pointers[12];
    assert x.pointers[10] in ts && p in ts && q in ts && p != q
        && (forall a :: 0 <= a < 128 ==> TableAt(d, q)[a] in ts) by {
      InTables(d, x, ts);
    }
    if 16522 <= i {
      var k, l := i - 16522, j - 16522;
      Digits(k);
      Digits(l);
      SameTable(d, x, ts, TableAt(d, q)[k / 16384], TableAt(d, q)[l / 16384], k % 16384 / 128, l % 16384 / 128);
      SameTable(d, x, ts, q, q, k / 16384, l / 16384);
    } else if 138 <= i && j < 16522 {
      Digits(i - 138);
      Digits(j - 138);
      SameTable(d, x, ts, p, p, (i - 138) / 128, (j - 138) / 128);
    } else if 138 <= i {
      var l := j - 16522;
      SameTable(d, x, ts, p, TableAt(d, q)[l / 16384], (i - 138) / 128, l % 16384 / 128);
      SameTable(d, x, ts, q, q, l / 16384, l / 16384);
    } else if 138 <= j < 16522 {
      SameTable(d, x, ts, p, p, (j - 138) / 128, (j - 138) / 128);
    } else if 16522 <= j {
      var l := j - 16522;
      SameTable(d, x, ts, TableAt(d, q)[l / 16384], p, l % 16384 / 128, 0);
    }
  }

  lemma InTables(d: Disk, x: Inode, ts: set<int>)
    requires Unshared(d, x, ts)
    ensures x.pointers[10] in ts && x.pointers[11] in ts && x.pointers[12] in ts && x.pointers[11] != x.pointers[12]
    ensures forall a :: 0 <= a < 128 ==> TableAt(d, x.pointers[12])[a] in ts
  {}

  // ---------------------------------------------------------------- fread

  datatype ReadResult = ReadBytes(bytes: seq<bv8>) | ReadPanic

  /** The bytes of the sector of `offset` that the read wants. */
  function ReadLoop(d: Disk, x: Inode, offset: nat, n: nat): ReadResult
    decreases n
  {
    if n == 0 then ReadBytes([]) else
    match OffsetToPointer(d, x, offset)
    case WrongSeg => ReadPanic
    case Sector(p) =>
      var t := Chunk(offset, n);
      match ReadLoop(d, x, offset + t, n - t)
      case ReadPanic => ReadPanic
      case ReadBytes(rest) => ReadBytes(BytesAt(d, p)[offset % 512..offset % 512 + t] + rest)
  }

  /** How much is read: the difference of size and offset is taken modulo 2^32. */
  function ReadCount(f: Fd, n: nat): nat {
    var remain := (f.size - f.offset) % TWO32;
    if remain < n then remain else n
  }

  function Read(s: Fs, fd: int, n: nat): (Fs, ReadResult)
  {
    if !MayRead(s, fd) then (s, ReadBytes([])) else
    var f := s.fds[fd];
    var count := ReadCount(f, n);
    match ReadLoop(s.disk, InodeAt(s.disk, f.ino), f.offset, count)
    case ReadPanic => (s, ReadPanic)
    case ReadBytes(bytes) => (SetFd(s, fd, f.(offset := f.offset + count)), ReadBytes(bytes))
  }

  /** Byte i of the file, through the whole block map. */
  function FlatByte(d: Disk, x: Inode, i: nat): bv8 {
    match OffsetToPointer(d, x, i)
    case Sector(p) => BytesAt(d, p)[i % 512]
    case WrongSeg => 0
  }

  lemma SameSector(o: nat, t: nat, i: nat)
    requires o <= i < o + t && o % 512 + t <= 512
    ensures i / 512 == o / 512 && i % 512 == o % 512 + (i - o)
  {}

  /** A read yields the bytes of the file in order, whatever sectors they are in; it panics exactly when it would
      reach beyond the last block of the map. */
  lemma {:induction false} ReadLoopIsSlice(d: Disk, x: Inode, offset: nat, n: nat)
    ensures ReadLoop(d, x, offset, n) == ReadPanic <==> n > 0 && offset + n > BLOCK_LIMIT * 512
    ensures ReadLoop(d, x, offset, n).ReadBytes? ==>
      && |ReadLoop(d, x, offset, n).bytes| == n
      && forall i :: offset <= i < offset + n ==> ReadLoop(d, x, offset, n).bytes[i - offset] == FlatByte(d, x, i)
    decreases n
  {
    hide TableAt, BytesAt, OffsetToPointer;
    if n > 0 {
      var t := Chunk(offset, n);
      SegOf(d, x, offset);
      ReadLoopIsSlice(d, x, offset + t, n - t);
      if offset / 512 < BLOCK_LIMIT && ReadLoop(d, x, offset, n).ReadBytes? {
        forall i | offset <= i < offset + n ensures ReadLoop(d, x, offset, n).bytes[i - offset] == FlatByte(d, x, i) {
          if i < offset + t {
            SameSector(offset, t, i);
            SameFound(d, x, offset, i);
          }
        }
      }
    }
  }

  /** fread, through a descriptor open for reading: the bytes of the file from the offset on, which moves past them;
      or a panic, if they reach beyond the block map. */
  lemma ReadDelivers(s: Fs, fd: int, n: nat)
    requires 0 <= fd < |s.fds| && (s.fds[fd].access == 0 || s.fds[fd].access == 1)
    ensures var f, count := s.fds[fd], ReadCount(s.fds[fd], n);
      var (t, r) := Read(s, fd, n);
      && (r == ReadPanic <==> count > 0 && f.offset + count > 2113674 * 512)
      && (r == ReadPanic ==> t == s)
      && (r != ReadPanic ==>
            && t == s.(fds := s.fds[fd := f.(offset := f.offset + count)]) && |r.bytes| == count
            && forall i :: f.offset <= i < f.offset + count ==>
                 r.bytes[i - f.offset] == FlatByte(s.disk, InodeAt(s.disk, f.ino), i))
  {
    hide InodeAt, FlatByte, ReadLoop, ReadCount;
    ReadLoopIsSlice(s.disk, InodeAt(s.disk, s.fds[fd].ino), s.fds[fd].offset, ReadCount(s.fds[fd], n));
  }

  lemma SegOf(d: Disk, x: Inode, offset: nat)
    ensures OffsetToPointer(d, x, offset) == WrongSeg <==> offset / 512 >= BLOCK_LIMIT
  {}

  lemma SameFound(d: Disk, x: Inode, o: nat, i: nat)
    requires i / 512 == o / 512
    ensures OffsetToPointer(d, x, i) == OffsetToPointer(d, x, o)
  {
    hide TableAt;
  }

  /** fread returns what is left of the file, up to n bytes, exactly when the offset is not beyond the size;
      otherwise the difference wraps around and it reads past the end. */
  lemma ReadCountIff(f: Fd, n: nat)
    requires 0 <= f.size < TWO32 && 0 <= f.offset < TWO32
    ensures f.offset > f.size ==> ReadCount(f, n) == Min(n, 0x1_0000_0000 - (f.offset - f.size))
    ensures ReadCount(f, n) == (if f.size - f.offset <= 0 then 0 else Min(n, f.size - f.offset)) <==>
      f.offset <= f.size || n == 0
  {
    if f.offset > f.size {
      assert (f.size - f.offset) % TWO32 == f.size - f.offset + TWO32;
    }
  }

  /** Of an empty file, five bytes are read at offset 1. */
  lemma ReadsPastTheEnd()
    ensures ReadCount(Fd(1, O_RD, 0, 1), 5) == 5
  {
    assert (0 - 1) % TWO32 == 0xffff_ffff;
  }
}
