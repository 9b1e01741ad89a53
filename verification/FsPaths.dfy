/** Moving about in the directory tree: relative steps, "..", and absolute paths. */
module FsPaths {
  import opened Bitmap
  import opened Fs
  import opened FsRuns
  import opened FsTree
  import opened FsCalls

  // ---------------------------------------------------------------- absolute paths

  /** A name that is one step for cd and one component of a path. */
  predicate Plain(c: string) {
    c != "" && c != "." && c != ".." && forall k :: 0 <= k < |c| ==> c[k] != '\\'
  }

  function Join(cs: seq<string>): string {
    if cs == [] then "" else "\\" + cs[0] + Join(cs[1..])
  }

  /** One cd after the other, up to the first that fails. */
  function Descend(s: Fs, cs: seq<string>): (Fs, Outcome)
    decreases |cs|
  {
    if cs == [] then (s, Done) else
    var (t, o) := ChangeDir(s, cs[0]);
    if o != Done then (s, o) else Descend(t, cs[1..])
  }

  lemma {:induction false} SeparateFirst(c: string, rest: string)
    requires forall k :: 0 <= k < |c| ==> c[k] != '\\'
    ensures Separate(c, '\\') == -1
    ensures Separate(c + "\\" + rest, '\\') == |c|
  {
    if c != "" {
      SeparateFirst(c[1..], rest);
      assert (c + "\\" + rest)[1..] == c[1..] + "\\" + rest;
    } else {
      assert "" + "\\" + rest == "\\" + rest;
    }
  }

  lemma PlainStep(s: Fs, c: string)
    requires Plain(c)
    ensures ChangeDir(s, c) == EnterIno(s, Lookup(s.dir, c))
  {
    assert c[0] != '\\';
  }

  /** Walking a path finds the inode that the steps one by one would enter. */
  lemma {:induction false} WalkDescends(s: Fs, cs: seq<string>)
    requires cs != [] && forall k :: 0 <= k < |cs| ==> Plain(cs[k])
    ensures var r := Walk(s.disk, s.dir, Join(cs)[1..]);
      var (t, o) := Descend(s, cs);
      && (o == Done <==> r != -1 && InodeAt(s.disk, r).kind == FILE_DIR)
      && (o == Done ==> t == GoTo(s, InodeAt(s.disk, r).pointers[0]))
    decreases |cs|
  {
    hide InodeAt, DirAt;
    var c, rest := cs[0], cs[1..];
    assert Plain(c);
    PlainStep(s, c);
    BlankIsNoDir(s.disk);
    if rest == [] {
      assert Join(cs)[1..] == c;
      SeparateFirst(c, "");
      assert Descend(s, cs) == if ChangeDir(s, c).1 == Done then (ChangeDir(s, c).0, Done) else (s, ChangeDir(s, c).1);
    } else {
      var tail := Join(rest)[1..];
      assert Join(rest) == "\\" + tail;
      assert Join(cs)[1..] == c + "\\" + tail;
      SeparateFirst(c, tail);
      assert (c + "\\" + tail)[..|c|] == c && (c + "\\" + tail)[|c| + 1..] == tail;
      if ChangeDir(s, c).1 == Done {
        WalkDescends(ChangeDir(s, c).0, rest);
      }
    }
  }

  lemma BlankIsNoDir(d: Disk)
    ensures InodeAt(d, -1).kind != FILE_DIR
  {}

  /** A path is none of the names that cd treats differently. */
  lemma JoinShape(cs: seq<string>)
    requires cs != [] && forall k :: 0 <= k < |cs| ==> Plain(cs[k])
    ensures var path := Join(cs); path != "" && path[0] == '\\' && path != ".." && path != "." && path != "\\"
  {
    assert Plain(cs[0]);
    var path := Join(cs);
    assert path[0] == '\\' && path[1] == cs[0][0];
  }

  lemma CdToRoot(s: Fs)
    requires RootOk(s.disk)
    ensures ChangeDir(s, "\\") == (GoTo(s, DARRAY_ADDR), Done)
  {
    hide InodeAt, DirAt, Live, BitAt;
    assert "\\" != ".." && "\\" != ".";
  }

  lemma SoundRoot(s: Fs)
    requires Sound(s)
    ensures RootOk(s.disk)
  {}

  /** cd to an absolute path ends where cd to the root and then one cd for each component ends; if any of these
      fails, so does the absolute one, and nothing changes. */
  lemma AbsolutePathIsDescent(s: Fs, cs: seq<string>)
    requires Sound(s) && cs != [] && forall k :: 0 <= k < |cs| ==> Plain(cs[k])
    ensures var root := ChangeDir(s, "\\").0;
      && root == GoTo(s, DARRAY_ADDR) && ChangeDir(s, "\\").1 == Done
      && (ChangeDir(s, Join(cs)).1 == Done <==> Descend(root, cs).1 == Done)
      && ChangeDir(s, Join(cs)).0 == if Descend(root, cs).1 == Done then Descend(root, cs).0 else s
  {
    hide InodeAt, DirAt, Sound, Walk, Descend, Join, Plain;
    SoundRoot(s);
    CdToRoot(s);
    WalkDescends(GoTo(s, DARRAY_ADDR), cs);
    JoinShape(cs);
  }

  // ---------------------------------------------------------------- up and down

  /** The parent of the current directory is a live directory. */
  lemma ParentIsDir(s: Fs) returns (q: int)
    requires Sound(s) && s.here != DARRAY_ADDR
    ensures DirInode(s.disk, q) && DirPtr(s.disk, q) == s.dir.parent
  {
    hide InodeAt, DirAt, BlockAt, Live, Used, Counted, Ownership, BitAt;
    var h :| IsHere(s, h);
    assert RootOk(s.disk) && HasEntry(s.disk, h);
    var n: int;
    q, n :| Entry(s.disk, q, n, h);
    assert EntryOk(s.disk, q, n, h);
  }

  /** Down to a directory and up again is where one was. */
  lemma DownAndUp(s: Fs, name: string)
    requires Sound(s) && Plain(name) && ChangeDir(s, name).1 == Done
    ensures ChangeDir(ChangeDir(s, name).0, "..") == (s, Done)
  {
    hide InodeAt, DirAt, BlockAt, Live, Used, Counted, Ownership, BitAt, Tree, FindItem, IsBlock;
    PlainStep(s, name);
    BlankIsNoDir(s.disk);
    var n := FindItem(s.dir.items, name);
    FindItemRange(s.dir.items, name);
    var h :| IsHere(s, h);
    FoundEntry(s, n, h);
  }

  /** What a walk finds is live. */
  lemma {:induction false} WalkIsLive(d: Disk, i: int, path: string)
    requires Ownership(d) && Tree(d) && DirInode(d, i)
    ensures Walk(d, DirAt(d, DirPtr(d, i)), path) == -1 || Live(d, Walk(d, DirAt(d, DirPtr(d, i)), path))
    decreases |path|
  {
    hide InodeAt, DirAt, BlockAt, Live, Used, Ownership, BitAt, FindItem;
    var dir := DirAt(d, DirPtr(d, i));
    var pos := Separate(path, '\\');
    var n := FindItem(dir.items, if pos == -1 then path else path[..pos]);
    FindItemRange(dir.items, if pos == -1 then path else path[..pos]);
    if n != -1 {
      var c := dir.items[n].ino;
      assert Entry(d, i, n, c) && EntryOk(d, i, n, c);
      if pos != -1 && InodeAt(d, c).kind == FILE_DIR {
        WalkIsLive(d, c, path[pos + 1..]);
      }
    }
  }

  lemma ChangeDirKeepsSound(s: Fs, name: string)
    requires Sound(s)
    ensures Sound(ChangeDir(s, name).0)
  {
    hide InodeAt, DirAt, BlockAt, Live, Used, Counted, BitAt, FindItem, Walk, IsBlock, MapsCached;
    if name == ".." {
      if s.here != DARRAY_ADDR {
        var q := ParentIsDir(s);
        GoToKeepsSound(s, q);
      }
    } else if name != "." {
      var h :| IsHere(s, h);
      assert RootOk(s.disk);
      var ino := if name != "" && name[0] == '\\' then Resolve(s.disk, name) else Lookup(s.dir, name);
      if name != "" && name[0] == '\\' {
        WalkIsLive(s.disk, 0, name[1..]);
      } else {
        FindItemRange(s.dir.items, name);
        var n := FindItem(s.dir.items, name);
        if n != -1 { FoundEntry(s, n, h); }
      }
      if ino != -1 && InodeAt(s.disk, ino).kind == FILE_DIR {
        GoToKeepsSound(s, ino);
      }
    }
  }
}
