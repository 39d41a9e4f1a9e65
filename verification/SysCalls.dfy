/** The system calls from a path string down to the sectors. */
module SysCalls {
  import opened Basics
  import opened Bitmaps
  import opened Words
  import opened Volume
  import opened Entries
  import opened DirTable
  import opened FileCode
  import opened Tree
  import opened Paths
  import opened TreePaths
  import opened InodeArea
  import opened FsCode
  import opened Mounts
  import opened FsRuns
  import opened FsBroken
  import opened PathCode
  import P = Pipes
  import PC = PipeCode

  /** `path_depth_cnt` */
  method PathDepth(p: Path) returns (n: int)
    ensures n == |Split(p)|
  {
    n := 0;
    var name, rest := PathParse(p);
    ghost var ns := Split(p);
    while name != []
      invariant name == [] <==> ns == []
      invariant name != [] ==> ns[0] == name && ns[1..] == if rest.Some? then Split(rest.v) else []
      invariant n + |ns| == |Split(p)|
      decreases |ns|
    {
      n := n + 1;
      ns := ns[1..];
      name := [];
      if rest.Some? { name, rest := PathParse(rest.v); }
    }
  }

  /** The directory and name under which a new file or directory of this path would be entered: all but the last
      name lead to a directory, and the last one is not there. */
  ghost predicate Vacant(t: Tree, ns: seq<Name>, d: int) {
    ns != [] && Missing(t, ns, |ns| - 1, d)
  }

  /** The call did to the tree and the file table what the operation describes. */
  ghost predicate Did(w0: World, op: Op, w: World) { Sensible(w0, op) && w == Do(w0, op) }

  /** ... and everything is valid unless it lost an inode; `b` was the first free sector. */
  ghost predicate DidNew(w0: World, at: map<int, int>, op: Op, b: int, m: Mounted)
    reads m`list, m`held, m`first, m.fs, m.fs.p
  {
    Did(w0, op, WorldOf(m)) && Makes(w0, op) && (m.Valid() <==> !Loses(w0, at, op, b))
  }

  ghost predicate Roomy(t: Tree) { forall i :: i in t && t[i].Dir? ==> |t[i].items| < 252 }

  /** `strrchr(s, '/') + 1` */
  method LastName(s: Path, ghost ns: seq<Name>) returns (n: Name)
    requires AllPlain(ns) && ns != [] && s == Slashed(ns)
    ensures n == ns[|ns| - 1]
  {
    CutLast(ns);
    var i := StrRChr(s);
    n := s[i + 1..];
    assert Slashed(ns) == Slashed(ns[..|ns| - 1]) + [SLASH] + ns[|ns| - 1];
  }

  /** A missing name is the last one of the path exactly when the searched part is as deep as the path. */
  lemma MissingLast(t: Tree, ns: seq<Name>, k: int, d: int)
    requires Missing(t, ns, k, d) && AllPlain(ns)
    ensures Split(Slashed(ns[..k + 1])) == ns[..k + 1]
    ensures k + 1 == |ns| ==> Vacant(t, ns, d)
    ensures k + 1 < |ns| ==> forall e :: !Vacant(t, ns, e)
  {
    SplitSlashed(ns[..k + 1]);
    if k + 1 < |ns| {
      WalkStops(t, 0, ns, k, |ns| - 1, d);
    }
  }

  /** Beyond a missing name a walk leads nowhere. */
  lemma WalkStops(t: Tree, i: int, ns: seq<Name>, k: int, m: int, d: int)
    requires 0 <= k < m <= |ns| && Walk(t, i, ns[..k]) == Some(Item(d, DIRECTORY)) && d in t && t[d].Dir? && ns[k] !in t[d].items
    ensures Walk(t, i, ns[..m]) == None
  {
    assert ns[..m] == ns[..k] + ns[k..m];
    WalkOn(t, i, ns[..k], ns[k..m], d);
  }

  lemma PlainNames(ns: seq<Name>)
    requires AllNames(ns)
    ensures AllPlain(ns)
  {
    forall i | 0 <= i < |ns| ensures Plain(ns[i]) { assert NameOk(ns[i]); }
  }

  /** `sys_mkdir`: it succeeds exactly when the place is vacant, and then the tree has the new directory there. */
  method SysMkdir(m: Mounted, p: Path) returns (r: Outcome<int>, ghost d: int)
    requires m.Valid() && PathOk(p) && Roomy(m.fs.tree)
    modifies m, m.fs, m.fs.p
    ensures r.Go? ==> r.s == 0 || r.s == -1
    ensures r == Go(-1) ==> m.Valid() && WorldOf(m) == old(WorldOf(m))
    ensures r == Go(-1) ==> RootPath(p) || forall e :: !Vacant(old(m.fs.tree), Split(p), e)
    ensures r.Panic? ==> && !RootPath(p) && Vacant(old(m.fs.tree), Split(p), d)
                         && (|| AllTaken(old(m.fs.tree)) || Free(old(m.fs.p.bits)) == 0
                             || (NeedsBlock(old(m.fs.p.disk), old(m.fs.p.refs), d) && Free(old(m.fs.p.bits)) == 1))
    ensures r == Go(0) ==> !RootPath(p) && Vacant(old(m.fs.tree), Split(p), d)
                           && DidNew(old(WorldOf(m)), old(m.first), OpMkdir(d, Split(p)[|Split(p)| - 1]), FirstFree(m.fs.p.start, old(m.fs.p.bits)), m)
  {
    hide FileSystem.Valid, Mounted.Linked, Mounted.Stale, Mounted.Misplaced, Split, NameOk, Slashed, Grow, NewDir, Least, Walk, Free, NeedsBlock, AllTaken, FirstFree;
    ghost var t, ns := m.fs.tree, Split(p);
    PlainNames(ns);
    var x, parent, searched, k := SearchFile(m.fs, p);
    d := parent;
    if x.Some? {
      if !RootPath(p) { NotVacant(t, ns); }
      return Go(-1), d;
    }
    MissingLast(t, ns, k, parent);
    var depth := PathDepth(p);
    var seen := PathDepth(searched);
    if depth != seen { return Go(-1), d; }
    assert ns[..k + 1] == ns;
    var name := LastName(searched, ns);
    DotNames(m.fs, parent);
    FsParts(m.fs);
    r := m.Mkdir(parent, name);
    if r.Go? { LeastIs(t, r.s); r := Go(0); }
  }

  lemma NotVacant(t: Tree, ns: seq<Name>)
    requires Walk(t, 0, ns).Some?
    ensures forall e :: !Vacant(t, ns, e)
  {
    assert ns[..|ns|] == ns;
    forall e ensures !Vacant(t, ns, e) {
      if Vacant(t, ns, e) {
        WalkStops(t, 0, ns, |ns| - 1, |ns|, e);
        assert false;
      }
    }
  }

  lemma DotNames(fs: FileSystem, d: int)
    requires fs.Valid() && d in fs.tree && fs.tree[d].Dir?
    ensures DOT in fs.tree[d].items && DOTDOT in fs.tree[d].items
  {
    PathUp(fs.tree, fs.home, fs.depth, d);
  }

  /** The lowest free descriptor `fd` refers to the lowest free slot, and that slot is on inode `i`; no other descriptor and
      no other slot has changed.  Without a free descriptor (`fd` is -1) the slot is taken all the same. */
  ghost predicate Opened(files0: seq<FileSlot>, files: seq<FileSlot>, fds: seq<int>, t: seq<int>, fd: int, i: int) {
    && (fd == -1 ==> t == fds && forall j :: 3 <= j < |fds| ==> fds[j] != -1)
    && (fd != -1 ==> && 3 <= fd < |fds| && |t| == |fds| && fds[fd] == -1 && (forall j :: 3 <= j < fd ==> fds[j] != -1)
                     && 3 <= t[fd] < |files| && files[t[fd]] == OnInode(i)
                     && forall j :: 0 <= j < |t| && j != fd ==> t[j] == fds[j])
    && exists g :: SlotTaken(files0, files, g, i) && (fd != -1 ==> g == t[fd])
  }

  /** `pcb_fd_install` of a slot just taken. */
  method InstallSlot(fds: seq<int>, g: int, ghost files0: seq<FileSlot>, ghost files: seq<FileSlot>, ghost i: int) returns (fd: int, t: seq<int>)
    requires |fds| == P.PER_PROC && SlotTaken(files0, files, g, i)
    ensures t == P.Install(fds, 3, g) && (fd == -1 <==> P.Room(fds) == 0) && Opened(files0, files, fds, t, fd, i)
  {
    fd, t := PC.InstallIn(fds, g);
  }

  /** `sys_open` with O_CREAT: a trailing slash, a directory, an existing file, a missing directory on the way or a full
      file table is refused; otherwise the tree has a new empty file, open in the first free slot.  The result is the
      descriptor of that slot, and -1 also when the file was made and the process has no descriptor left for it. */
  method SysCreate(m: Mounted, p: Path, fds: seq<int>) returns (r: Outcome<int>, t: seq<int>, ghost d: int, ghost made: bool)
    requires m.Valid() && PathOk(p) && Roomy(m.fs.tree) && |fds| == P.PER_PROC
    modifies m, m.fs, m.fs.p
    ensures r.Panic? ==> && p[|p| - 1] != SLASH && !RootPath(p) && Vacant(old(m.fs.tree), Split(p), d)
                         && (|| AllTaken(old(m.fs.tree))
                             || (HasSlot(old(m.fs.files)) && NeedsBlock(old(m.fs.p.disk), old(m.fs.p.refs), d) && Free(old(m.fs.p.bits)) == 0))
    ensures r.Go? && !made ==> r.s == -1 && t == fds && m.Valid() && WorldOf(m) == old(WorldOf(m))
    ensures r.Go? && !made ==> || p[|p| - 1] == SLASH || RootPath(p) || !HasSlot(old(m.fs.files))
                               || forall e :: !Vacant(old(m.fs.tree), Split(p), e)
    ensures made ==> r.Go? && p[|p| - 1] != SLASH && !RootPath(p) && Vacant(old(m.fs.tree), Split(p), d)
    ensures made ==> DidNew(old(WorldOf(m)), old(m.first), OpCreate(d, Split(p)[|Split(p)| - 1]), FirstFree(m.fs.p.start, old(m.fs.p.bits)), m)
    ensures made ==> t == P.Install(fds, 3, FreeFrom(old(m.fs.files), 3)) && (r.s == -1 <==> P.Room(fds) == 0)
    ensures made ==> Opened(old(m.fs.files), m.fs.files, fds, t, r.s, LeastFrom(old(m.fs.tree), 0))
  {
    hide FileSystem.Valid, Mounted.Linked, Mounted.Stale, Mounted.Misplaced, Split, NameOk, Slashed, Grow, Least, Walk, Free, NeedsBlock, AllTaken, P.Install, P.Room, FirstFree, Opened;
    ghost var tree, ns := m.fs.tree, Split(p);
    PlainNames(ns);
    t, d, made := fds, 0, false;
    if p[|p| - 1] == SLASH { return Go(-1), t, d, made; }
    var x, parent, searched, k := SearchFile(m.fs, p);
    d := parent;
    if x.Some? {
      if !RootPath(p) { NotVacant(tree, ns); }
      return Go(-1), t, d, made;
    }
    MissingLast(tree, ns, k, parent);
    var depth := PathDepth(p);
    var seen := PathDepth(searched);
    if depth != seen { return Go(-1), t, d, made; }
    assert ns[..k + 1] == ns;
    LastPart(p, ns);
    var i := StrRChr(p);
    var name := p[i + 1..];
    DotNames(m.fs, parent);
    var c, g := m.Create(parent, name);
    if c.Panic? || c.s == -1 { return c, t, d, made; }
    LeastIs(tree, c.s);
    var fd;
    fd, t := InstallSlot(fds, g, old(m.fs.files), m.fs.files, c.s);
    r, made := Go(fd), true;
  }

  /** `sys_open` of an existing file for reading: refused for a trailing slash, a directory, a path that names no file, and
      a full file table; otherwise the file is open in the first free slot.  Unless the path has one name only, the
      directory of the file stays open, whether or not there was a slot. */
  method SysOpen(m: Mounted, p: Path, fds: seq<int>) returns (r: int, t: seq<int>, ghost d: int, ghost i: int, ghost found: bool)
    requires m.Valid() && PathOk(p) && |fds| == P.PER_PROC
    modifies m, m.fs
    ensures m.Valid() && (!found ==> r == -1 && t == fds && WorldOf(m) == old(WorldOf(m)))
    ensures found <==> && p[|p| - 1] != SLASH && !RootPath(p) && ToFile(old(m.fs.tree), Split(p)) && !ThroughFile(old(m.fs.tree), Split(p))
    ensures found ==> Split(p) != [] && Present(old(m.fs.tree), Split(p), |Split(p)| - 1, d, Item(i, REGULAR))
    ensures found ==> Did(old(WorldOf(m)), OpOpen(i, if |Split(p)| == 1 then None else Some(d)), WorldOf(m))
    ensures found ==> (r == -1 <==> !HasSlot(old(m.fs.files)) || P.Room(fds) == 0)
    ensures found && HasSlot(old(m.fs.files)) ==> |old(m.fs.files)| == MAX_OPEN && t == P.Install(fds, 3, FreeFrom(old(m.fs.files), 3))
    ensures found && HasSlot(old(m.fs.files)) ==> Opened(old(m.fs.files), m.fs.files, fds, t, r, i)
    ensures r == -1 && !HasSlot(old(m.fs.files)) ==> t == fds
  {
    hide Mounted.Linked, Sound, Nodes, InodesOk, Rooted, Split, NameOk, Slashed, Walk, TabledBut, AreaOk, Small, HasSlot, ThroughFile, P.Install, P.Room, Opened;
    ghost var tree, ns := m.fs.tree, Split(p);
    PlainNames(ns);
    r, t, d, i, found := -1, fds, 0, 0, false;
    if p[|p| - 1] == SLASH { return; }
    var x, parent, searched, k := SearchFile(m.fs, p);
    if x.None? || x.v.kind == DIRECTORY { return; }
    assert ns[..|ns|] == ns;
    FileEntry(tree, m.fs.home, m.fs.depth, parent, ns[k]);
    FileThere(tree, m.fs.home, m.fs.depth, parent, ns[k]);
    PrefixPlain(ns, k + 1);
    SplitSlashed(ns[..k + 1]);
    WholePathExactlyWhen(tree, ns, k, parent, x.v);
    var depth := PathDepth(p);
    var seen := PathDepth(searched);
    if depth != seen { return; }
    d, i, found := parent, x.v.ino, true;
    var left := if depth == 1 then None else Some(parent);
    var g := m.Open(x.v.ino, left);
    if g == -1 { return; }
    r, t := InstallSlot(fds, g, old(m.fs.files), m.fs.files, i);
  }

  lemma PrefixPlain(ns: seq<Name>, k: int)
    requires AllPlain(ns) && 0 <= k <= |ns|
    ensures AllPlain(ns[..k])
  {
  }

  lemma FileThere(t: Tree, home: map<int, Home>, depth: map<int, nat>, d: int, n: Name)
    requires Rooted(t, home, depth) && d in t && t[d].Dir? && n in t[d].items && t[d].items[n].kind == REGULAR
    ensures t[d].items[n].ino in t && t[t[d].items[n].ino].File?
  {
    FileEntry(t, home, depth, d, n);
    assert ItemOk(t, home, d, n);
  }

  // ---------------------------------------------------------------- sys_unlink

  /** These names, followed from the root, end at a regular file. */
  ghost predicate ToFile(t: Tree, ns: seq<Name>) { Walk(t, 0, ns).Some? && Walk(t, 0, ns).v.kind != DIRECTORY }

  /** A proper prefix of the names leads to a regular file. */
  ghost predicate ThroughFile(t: Tree, ns: seq<Name>) { exists m :: 0 <= m < |ns| && ToFile(t, ns[..m]) }

  /** A walk past a file ends at that file. */
  lemma {:induction false} PastFile(t: Tree, ns: seq<Name>, k: int, d: int, x: Item, m: int)
    requires Present(t, ns, k, d, x) && x.kind != DIRECTORY && 0 <= m <= |ns|
    ensures ToFile(t, ns[..m]) <==> k < m
  {
    if k < m {
      assert ns[..m] == ns[..k] + ns[k..m];
      WalkOn(t, 0, ns[..k], ns[k..m], d);
    } else {
      assert ns[..k] == ns[..m] + ns[m..k];
      PrefixDir(t, 0, ns[..m], ns[m..k]);
    }
  }

  /** On the way to a directory there are only directories. */
  lemma {:induction false} PrefixDir(t: Tree, i: int, a: seq<Name>, b: seq<Name>)
    requires Walk(t, i, a + b).Some? && Walk(t, i, a + b).v.kind == DIRECTORY
    ensures Walk(t, i, a).Some? && Walk(t, i, a).v.kind == DIRECTORY
    decreases |a|
  {
    if a != [] {
      assert (a + b)[0] == a[0] && (a + b)[1..] == a[1..] + b;
      PrefixDir(t, t[i].items[a[0]].ino, a[1..], b);
    }
  }

  /** The file that a search ends at has the whole path for its name exactly when no proper prefix of the names leads to
      a regular file. */
  lemma WholePathExactlyWhen(t: Tree, ns: seq<Name>, k: int, d: int, x: Item)
    requires Present(t, ns, k, d, x) && x.kind != DIRECTORY
    ensures k == |ns| - 1 <==> !ThroughFile(t, ns)
  {
    hide ToFile;
    if k < |ns| - 1 {
      PastFile(t, ns, k, d, x, k + 1);
      assert ToFile(t, ns[..k + 1]);
    } else {
      forall m | 0 <= m < |ns| ensures !ToFile(t, ns[..m]) { PastFile(t, ns, k, d, x, m); }
    }
  }

  /** `sys_unlink`: it fails its assertion on a path of the root, and deletes exactly a regular file that is found and
      not open.  What is deleted is the entry that the whole path names exactly when no proper prefix of it leads to a
      regular file. */
  method SysUnlink(m: Mounted, p: Path) returns (r: Outcome<int>, ghost d: int, ghost k: int)
    requires m.Valid() && PathOk(p)
    modifies m, m.fs, m.fs.p
    ensures r.Panic? <==> FoundAt(old(m.fs.tree), p, 0)
    ensures r.Go? ==> m.Valid() && (r.s == 0 || (r.s == -1 && WorldOf(m) == old(WorldOf(m))))
    ensures r == Go(0) <==> && !RootPath(p) && Walk(old(m.fs.tree), 0, Split(p)).Some?
                            && var x := Walk(old(m.fs.tree), 0, Split(p)).v; x.ino != 0 && x.kind != DIRECTORY && !IsOpen(old(m.fs.files), x.ino)
    ensures r == Go(0) ==> && Present(old(m.fs.tree), Split(p), k, d, Walk(old(m.fs.tree), 0, Split(p)).v)
                           && Did(old(WorldOf(m)), OpUnlink(d, Split(p)[k]), WorldOf(m))
    ensures r == Go(0) ==> (k == |Split(p)| - 1 <==> !ThroughFile(old(m.fs.tree), Split(p)))
  {
    hide Mounted.Linked, Sound, Nodes, InodesOk, Rooted, Split, NameOk, Slashed, Prune, Walk, TabledBut, AreaOk, Small, IsOpen, ThroughFile;
    ghost var t, ns := m.fs.tree, Split(p);
    var x, parent, searched;
    x, parent, searched, k := SearchFile(m.fs, p);
    d := parent;
    if x.Some? && x.v.ino == 0 { return Panic, d, k; }
    if x.None? || x.v.kind == DIRECTORY { return Go(-1), d, k; }
    FileEntry(t, m.fs.home, m.fs.depth, parent, ns[k]);
    WholePathExactlyWhen(t, ns, k, parent, x.v);
    var res := m.Unlink(parent, ns[k], x.v.ino);
    r := Go(res);
  }

  /** The search ends at this inode. */
  ghost predicate FoundAt(t: Tree, p: Path, i: int) {
    if RootPath(p) then i == 0 else Walk(t, 0, Split(p)).Some? && Walk(t, 0, Split(p)).v.ino == i
  }

  lemma FileEntry(t: Tree, home: map<int, Home>, depth: map<int, nat>, d: int, n: Name)
    requires Rooted(t, home, depth) && d in t && t[d].Dir? && n in t[d].items && t[d].items[n].kind != DIRECTORY
    ensures !Dots(n) && t[d].items[n].kind == REGULAR
  {
    PathUp(t, home, depth, d);
    assert ItemOk(t, home, d, n);
  }

  // ---------------------------------------------------------------- sys_rmdir

  /** The path ends in `.`, and what it names is an empty directory other than the root. */
  ghost predicate NamesItself(t: Tree, p: Path) {
    && !RootPath(p) && Split(p) != [] && Split(p)[|Split(p)| - 1] == DOT
    && var x := Walk(t, 0, Split(p)); x.Some? && x.v.ino != 0 && x.v.kind == DIRECTORY && Bare(t, x.v.ino)
  }

  /** A dot leads to the directory itself, and two dots to one that has an entry. */
  lemma DotsLead(t: Tree, home: map<int, Home>, depth: map<int, nat>, d: int, n: Name)
    requires Rooted(t, home, depth) && d in t && t[d].Dir? && n in t[d].items && t[d].items[n].ino != 0
    requires t[d].items[n].kind == DIRECTORY
    ensures t[d].items[n].ino in t && t[t[d].items[n].ino].Dir?
    ensures n == DOT <==> t[d].items[n].ino == d
    ensures n == DOTDOT ==> !Bare(t, t[d].items[n].ino)
  {
    assert DotsOk(t, d) && ParentOk(t, home, d);
    if n == DOTDOT {
      assert HomeOk(t, home, depth, d);
      var h := home[d];
      assert h.name in t[h.dir].items.Keys;
    } else if n != DOT {
      assert ItemOk(t, home, d, n);
    }
  }

  /** `sys_rmdir`: it fails its assertion on the root, and succeeds exactly on an empty directory.  It leaves sectors and
      inodes that make a tree exactly when the path does not end in `.` on such a directory: then the directory is
      released, and its entry stays. */
  method SysRmdir(m: Mounted, p: Path) returns (r: Outcome<int>, ghost d: int)
    requires m.Valid() && PathOk(p)
    modifies m, m.fs, m.fs.p
    ensures r.Panic? <==> FoundAt(old(m.fs.tree), p, 0)
    ensures r.Go? ==> r.s == 0 || (r.s == -1 && WorldOf(m) == old(WorldOf(m)))
    ensures r == Go(0) <==> && !RootPath(p) && Walk(old(m.fs.tree), 0, Split(p)).Some?
                            && var x := Walk(old(m.fs.tree), 0, Split(p)).v; x.ino != 0 && x.kind == DIRECTORY && Bare(old(m.fs.tree), x.ino)
    ensures m.Valid() <==> !NamesItself(old(m.fs.tree), p)
    ensures Consistent(m.fs.p.start, m.fs.p.disk, m.fs.p.inodes, m.fs.p.bits) <==> !NamesItself(old(m.fs.tree), p)
    ensures r == Go(0) && m.Valid() ==>
              Split(p) != [] && Did(old(WorldOf(m)), OpRmdir(d, Split(p)[|Split(p)| - 1]), WorldOf(m))
  {
    hide Mounted.Linked, Sound, Nodes, InodesOk, Rooted, Split, NameOk, Slashed, Prune, Walk, TabledBut, AreaOk, Small, Consistent;
    ghost var t, ns := m.fs.tree, Split(p);
    var x, parent, searched, k := SearchFile(m.fs, p);
    d := parent;
    ValidStands(m.fs);
    if x.Some? && x.v.ino == 0 { return Panic, d; }
    if x.None? || x.v.kind != DIRECTORY { return Go(-1), d; }
    DotsLead(t, m.fs.home, m.fs.depth, parent, ns[k]);
    var res := DirRemove(m, parent, ns[k], x.v.ino);
    r := Go(res);
  }

  lemma NotStanding(fs: FileSystem)
    requires !Consistent(fs.p.start, fs.p.disk, fs.p.inodes, fs.p.bits)
    ensures !fs.Valid()
  {
    if fs.Valid() { ValidStands(fs); }
  }

  /** `dir_is_empty` and `dir_remove` on what a search found; `n` is the last name. */
  method DirRemove(m: Mounted, d: int, ghost n: Name, c: int) returns (r: int)
    requires m.Valid() && d in m.fs.tree && m.fs.tree[d].Dir? && n in m.fs.tree[d].items && m.fs.tree[d].items[n] == Item(c, DIRECTORY) && c != 0
    requires c in m.fs.tree && m.fs.tree[c].Dir? && (n == DOT <==> c == d) && (n == DOTDOT ==> !Bare(m.fs.tree, c))
    modifies m, m.fs, m.fs.p
    ensures r == if Bare(old(m.fs.tree), c) then 0 else -1
    ensures r == -1 ==> WorldOf(m) == old(WorldOf(m))
    ensures m.Valid() <==> !(n == DOT && r == 0)
    ensures Consistent(m.fs.p.start, m.fs.p.disk, m.fs.p.inodes, m.fs.p.bits) <==> !(n == DOT && r == 0)
    ensures r == 0 && n != DOT ==> WorldOf(m) == World(Prune(old(m.fs.tree), d, n), old(m.fs.files), old(m.held)) && !Dots(n)
  {
    hide Mounted.Linked, Sound, Nodes, InodesOk, Rooted, NameOk, Prune, TabledBut, AreaOk, Small, Consistent;
    ghost var t, home, depth := m.fs.tree, m.fs.home, m.fs.depth;
    if c == d {
      r := m.RmdirSelf(c);
      if r == 0 {
        NoTree(m.fs.p.start, m.fs.p.disk, m.fs.p.inodes, m.fs.p.Book(), m.fs.spots, t, home, depth, c);
        NotStanding(m.fs);
        return;
      }
    } else {
      var empty := m.fs.IsEmptyDir(c);
      r := -1;
      if empty { r := m.Rmdir(d, n, c); }
    }
    ValidStands(m.fs);
  }

  /** What follows the last slash of a path that does not end in one is its last name. */
  lemma {:induction false} LastPart(p: Path, ns: seq<Name>)
    requires ns == Split(p) && ns != [] && p != [] && p[|p| - 1] != SLASH
    ensures p[LastSlash(p) + 1..] == ns[|ns| - 1]
    decreases |p|
  {
    hide LastSlash, NameLength, Skip;
    var q := Skip(p);
    SkipTail(p);
    var n := NameLength(q);
    var rest := q[n..];
    if rest == [] {
      assert Split(rest) == [];
      assert q[..n] == q;
      TailAfter(p, q);
    } else {
      SplitRest(rest);
      LastPart(rest, Split(rest));
      TailMore(p, q, n);
    }
  }

  lemma {:induction false} SkipTail(p: Path)
    ensures |Skip(p)| <= |p| && p[|p| - |Skip(p)|..] == Skip(p)
    ensures forall i :: 0 <= i < |p| - |Skip(p)| ==> p[i] == SLASH
    decreases |p|
  {
    if p != [] && p[0] == SLASH {
      SkipTail(p[1..]);
      assert forall i :: 1 <= i < |p| - |Skip(p)| ==> p[i] == p[1..][i - 1];
    }
  }

  lemma TailAfter(p: Path, q: Path)
    requires |q| <= |p| && p[|p| - |q|..] == q && (forall i :: 0 <= i < |p| - |q| ==> p[i] == SLASH)
    requires forall i :: 0 <= i < |q| ==> q[i] != SLASH
    ensures p[LastSlash(p) + 1..] == q
  {
    hide LastSlash;
    var k := |p| - |q|;
    forall i | k <= i < |p| ensures p[i] != SLASH { assert p[i] == p[k..][i - k]; }
    if k > 0 { assert p[k - 1] == SLASH; }
    assert LastSlash(p) == k - 1;
  }

  lemma LastOfTail(p: Path, k: int)
    requires 0 <= k < |p| && p[k] == SLASH
    ensures LastSlash(p) == k + LastSlash(p[k..])
  {
    hide LastSlash;
    var r := p[k..];
    var l := LastSlash(r);
    assert r[0] == SLASH;
    assert p[k + l] == r[l] == SLASH;
    forall i | k + l < i < |p| ensures p[i] != SLASH { assert p[i] == r[i - k]; }
  }

  lemma TailMore(p: Path, q: Path, n: int)
    requires |q| <= |p| && p[|p| - |q|..] == q && 0 <= n < |q| && q[n] == SLASH
    ensures p[LastSlash(p) + 1..] == q[n..][LastSlash(q[n..]) + 1..]
  {
    hide LastSlash;
    var r := q[n..];
    var k := |p| - |r|;
    assert p[k..] == r;
    assert r[0] == SLASH;
    LastOfTail(p, k);
    assert p[k + LastSlash(r) + 1..] == p[k..][LastSlash(r) + 1..];
  }

  lemma SplitRest(rest: Path)
    requires rest != [] && rest[|rest| - 1] != SLASH
    ensures Split(rest) != []
  {
    SkipTail(rest);
  }
}
