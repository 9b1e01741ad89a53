/** cd against the tree of entries: where every name and every path leads, and when it leads nowhere. */
module FsDescents {
  import opened Bitmap
  import opened Fs
  import opened FsRuns
  import opened FsTree
  import opened FsCalls
  import opened FsPaths

  // ---------------------------------------------------------------- the tree as a reference

  /** A valid entry of directory h has the name and names inode c. */
  ghost predicate Names(d: Disk, h: int, name: string, c: int) {
    exists n :: Entry(d, h, n, c) && ItemOf(d, h, n).name == name
  }

  /** Where cd with one name leads from directory h: "." nowhere else, ".." to the directory that h is entered in, or
      from the root to the root, and any other name to the directory that is entered under it. */
  ghost predicate Step(d: Disk, h: int, name: string, j: int) {
    if name == "." then j == h
    else if name == ".." then (if h == 0 then j == 0 else exists n :: Entry(d, j, n, h))
    else DirInode(d, j) && Names(d, h, name, j)
  }

  /** Down from directory h along entries, every component taken as the name of one. */
  ghost predicate Down(d: Disk, h: int, cs: seq<string>, j: int)
    decreases |cs|
  {
    if cs == [] then j == h else exists k :: DirInode(d, k) && Names(d, h, cs[0], k) && Down(d, k, cs[1..], j)
  }

  predicate NoBackslash(c: string) {
    forall k :: 0 <= k < |c| ==> c[k] != '\\'
  }

  predicate AreComponents(cs: seq<string>) {
    cs != [] && forall k :: 0 <= k < |cs| ==> NoBackslash(cs[k])
  }

  // ---------------------------------------------------------------- one directory

  /** What the search finds in a directory is what the tree says. */
  lemma SearchIs(d: Disk, h: int, name: string)
    requires Tree(d) && DirInode(d, h)
    ensures var r := Lookup(DirAt(d, DirPtr(d, h)), name);
      && (r != -1 ==> Names(d, h, name, r) && Live(d, r))
      && (forall c :: Names(d, h, name, c) ==> c == r != -1)
      && (r == Lookup(DirAt(d, DirPtr(d, h)), name))
    ensures FindItem(DirAt(d, DirPtr(d, h)).items, name) == -1 <==> forall c :: !Names(d, h, name, c)
  {
    hide InodeAt, BlockAt, DirAt, Live, BitAt, FindItem;
    var items := DirAt(d, DirPtr(d, h)).items;
    var n := FindItem(items, name);
    if n != -1 {
      var c := items[n].ino;
      assert Entry(d, h, n, c) && ItemOf(d, h, n).name == name;
      assert EntryOk(d, h, n, c);
      LiveRange(d, c);
    }
    forall c | Names(d, h, name, c) ensures n != -1 && c == items[n].ino {
      var m :| Entry(d, h, m, c) && ItemOf(d, h, m).name == name;
      assert items[m].valid && items[m].name == name;
      assert n != -1;
      assert OnlyName(d, h, n, m);
    }
  }

  lemma LiveRange(d: Disk, i: int)
    requires Live(d, i)
    ensures i != -1
  {}

  /** cd . stays, whatever the state. */
  lemma DotStays(s: Fs)
    ensures ChangeDir(s, ".") == (s, Done)
  {}

  lemma HereIsRootIff(s: Fs, h: int)
    requires Sound(s) && IsHere(s, h)
    ensures s.here == DARRAY_ADDR <==> h == 0
  {
    hide InodeAt, BlockAt, DirAt, Live, Used, Counted, BitAt, IsBlock, MapsCached;
    assert RootOk(s.disk) && OnlyOwner(s.disk, h, 0, 0, 0);
  }

  /** cd .. stays in the root; from any other directory it goes to the one that has the entry for it. */
  lemma DotDotClimbs(s: Fs, h: int, j: int)
    requires Sound(s) && IsHere(s, h) && Step(s.disk, h, "..", j)
    ensures ChangeDir(s, "..").1 == Done && IsHere(ChangeDir(s, "..").0, j)
  {
    hide InodeAt, BlockAt, DirAt, Live, Used, Counted, BitAt, IsBlock, MapsCached;
    HereIsRootIff(s, h);
    if h != 0 {
      var n :| Entry(s.disk, j, n, h);
      assert EntryOk(s.disk, j, n, h);
    }
  }

  lemma HasParent(s: Fs, h: int)
    requires Sound(s) && IsHere(s, h)
    ensures exists j :: Step(s.disk, h, "..", j)
  {
    hide InodeAt, BlockAt, DirAt, Live, Used, Counted, BitAt, IsBlock, MapsCached, Entry;
    if h != 0 {
      assert HasEntry(s.disk, h);
      var j, n :| Entry(s.disk, j, n, h);
      assert Step(s.disk, h, "..", j);
    } else {
      assert Step(s.disk, h, "..", 0);
    }
  }

  /** The directory entered under a number that the search or a walk has found. */
  lemma EnterIs(s: Fs, ino: int)
    requires ino == -1 || Live(s.disk, ino)
    ensures var (t, o) := EnterIno(s, ino);
      && t == s.(dir := t.dir, here := t.here) && (o != Done ==> t == s)
      && (o == Done <==> ino != -1 && DirInode(s.disk, ino)) && (o == Done ==> IsHere(t, ino))
      && (o == NotFound <==> ino == -1)
  {
    hide DirAt, BitAt;
  }

  lemma SoundTree(s: Fs, h: int)
    requires Sound(s) && IsHere(s, h)
    ensures Tree(s.disk) && Ownership(s.disk) && s.dir == DirAt(s.disk, DirPtr(s.disk, h)) && RootOk(s.disk)
  {
    hide InodeAt, DirAt, Live, BlockAt, Used, Counted, IsBlock, MapsCached;
    assert RootOk(s.disk);
  }

  /** cd with a name that is no absolute path leads exactly where the tree says, and nowhere if the tree has nothing of
      that name, or no directory. */
  lemma CdSteps(s: Fs, h: int, name: string)
    requires Sound(s) && IsHere(s, h) && (name == "" || name[0] != '\\')
    ensures var (t, o) := ChangeDir(s, name);
      && (o == Done <==> exists j :: Step(s.disk, h, name, j))
      && (forall j :: Step(s.disk, h, name, j) ==> IsHere(t, j))
      && t == s.(dir := t.dir, here := t.here) && (o != Done ==> t == s)
      && (o == NotFound <==> name != "." && name != ".." && forall c :: !Names(s.disk, h, name, c))
  {
    hide Sound, InodeAt, DirAt, Live, Entry, Tree, Ownership, EnterIno, Lookup;
    SoundTree(s, h);
    if name == ".." {
      HasParent(s, h);
      forall j | Step(s.disk, h, name, j) ensures IsHere(ChangeDir(s, name).0, j) { DotDotClimbs(s, h, j); }
    } else if name == "." {
      assert Step(s.disk, h, name, h);
    } else {
      SearchIs(s.disk, h, name);
      var r := Lookup(s.dir, name);
      EnterIs(s, r);
      if r != -1 && DirInode(s.disk, r) { assert Step(s.disk, h, name, r); }
    }
  }

  // ---------------------------------------------------------------- absolute paths

  lemma JoinSplits(c: string, rest: seq<string>)
    ensures Join([c] + rest) != "" && (rest != [] ==> Join(rest) != "")
    ensures Join([c] + rest)[1..] == if rest == [] then c else c + "\\" + Join(rest)[1..]
  {
    assert ([c] + rest)[1..] == rest;
    if rest == [] {
      assert Join([c] + rest) == "\\" + c;
    } else {
      assert Join(rest) == "\\" + Join(rest)[1..];
      assert Join([c] + rest) == "\\" + (c + "\\" + Join(rest)[1..]);
    }
  }

  lemma WalkStep(d: Disk, h: int, c: string, tail: string)
    requires Tree(d) && DirInode(d, h) && NoBackslash(c)
    ensures var dir := DirAt(d, DirPtr(d, h));
      var r := Lookup(dir, c);
      && Walk(d, dir, c) == r
      && Walk(d, dir, c + "\\" + tail) == if r == -1
           || !DirInode(d, r) then -1 else Walk(d, DirAt(d, DirPtr(d, r)), tail)
  {
    hide Tree, InodeAt, DirAt, Entry, Names, BitAt, FindItem, Live;
    SeparateFirst(c, tail);
    assert (c + "\\" + tail)[..|c|] == c && (c + "\\" + tail)[|c| + 1..] == tail;
    SearchIs(d, h, c);
  }

  /** The walk ends at the entry that the components lead to. */
  lemma {:induction false} WalkIs(d: Disk, h: int, cs: seq<string>)
    requires Tree(d) && DirInode(d, h) && AreComponents(cs)
    ensures var r := Walk(d, DirAt(d, DirPtr(d, h)), Join(cs)[1..]);
      && (r == -1 || Live(d, r))
      && forall j :: Down(d, h, cs, j) <==> r == j && j != -1 && DirInode(d, j)
    decreases |cs|
  {
    hide Tree, InodeAt, DirAt, Live, Entry, Lookup, Join, Names, BitAt, FindItem;
    var c, rest := cs[0], cs[1..];
    assert cs == [c] + rest && NoBackslash(c);
    JoinSplits(c, rest);
    SearchIs(d, h, c);
    if rest == [] {
      WalkStep(d, h, c, "");
      forall j ensures Down(d, h, cs, j) <==> DirInode(d, j) && Names(d, h, c, j) { OneStep(d, h, cs, j); }
    } else {
      WalkStep(d, h, c, Join(rest)[1..]);
      var k := Lookup(DirAt(d, DirPtr(d, h)), c);
      if k != -1 && DirInode(d, k) { WalkIs(d, k, rest); }
    }
  }

  lemma OneStep(d: Disk, h: int, cs: seq<string>, j: int)
    requires |cs| == 1
    ensures Down(d, h, cs, j) <==> DirInode(d, j) && Names(d, h, cs[0], j)
  {
    hide Names, InodeAt, Live;
    assert forall k :: Down(d, k, cs[1..], j) <==> k == j;
  }

  /** cd to an absolute path goes where its components lead from the root, down entries only, and fails without a change
      if they lead to no directory. */
  lemma CdDescends(s: Fs, cs: seq<string>)
    requires Sound(s) && AreComponents(cs) && cs != [""]
    ensures var (t, o) := ChangeDir(s, Join(cs));
      && (o == Done <==> exists j :: Down(s.disk, 0, cs, j))
      && (forall j :: Down(s.disk, 0, cs, j) ==> IsHere(t, j))
      && t == s.(dir := t.dir, here := t.here) && (o != Done ==> t == s)
  {
    hide Sound, InodeAt, DirAt, Live, Entry, Tree, Ownership, EnterIno, Walk, Down, Join;
    var h :| IsHere(s, h) by { SomeHere(s); }
    SoundTree(s, h);
    RootIs(s.disk);
    WalkIs(s.disk, 0, cs);
    PathShape(cs);
    var r := Walk(s.disk, DirAt(s.disk, DirPtr(s.disk, 0)), Join(cs)[1..]);
    EnterIs(s, r);
    if r != -1 && DirInode(s.disk, r) { assert Down(s.disk, 0, cs, r); }
  }

  lemma SomeHere(s: Fs)
    requires Sound(s)
    ensures exists h :: IsHere(s, h)
  {}

  lemma RootIs(d: Disk)
    requires RootOk(d)
    ensures DirInode(d, 0) && DirPtr(d, 0) == DARRAY_ADDR
  {}

  lemma PathShape(cs: seq<string>)
    requires AreComponents(cs) && cs != [""]
    ensures var path := Join(cs); path != "" && path[0] == '\\' && path != ".." && path != "." && path != "\\"
  {
    var path := Join(cs);
    assert path == "\\" + (cs[0] + Join(cs[1..]));
    if cs[0] == "" {
      assert cs[1..] != [];
      assert Join(cs[1..])[0] == '\\';
    }
  }

  /** cd to the root. */
  lemma CdRoot(s: Fs)
    requires Sound(s)
    ensures var (t, o) := ChangeDir(s, "\\"); o == Done && IsHere(t, 0) && t == s.(dir := t.dir, here := t.here)
  {
    hide Sound, InodeAt, DirAt, Live;
    SoundRoot(s);
    CdToRoot(s);
  }

  /** Every absolute path is made of such components, so that this is all there is. */
  lemma {:induction false} EveryPathSplits(path: string) returns (cs: seq<string>)
    requires path != "" && path[0] == '\\'
    ensures AreComponents(cs) && Join(cs) == path
    decreases |path|
  {
    var tail := path[1..];
    var pos := Separate(tail, '\\');
    if pos == -1 {
      cs := [tail];
      assert Join(cs[1..]) == "";
      assert path == "\\" + tail + "";
    } else {
      var rest := EveryPathSplits(tail[pos..]);
      cs := [tail[..pos]] + rest;
      assert cs[1..] == rest;
      assert path == "\\" + tail[..pos] + tail[pos..];
    }
  }
}
