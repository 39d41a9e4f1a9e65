/** `search_file`, `sys_chdir` and `sys_getcwd` on the sectors. */
module PathCode {
  import opened Basics
  import opened Words
  import opened Ledgers
  import opened Volume
  import opened Entries
  import opened DirTable
  import opened FileCode
  import opened DirCode
  import opened Tree
  import opened Paths
  import opened TreePaths
  import opened FsCode

  ghost predicate AllNames(ns: seq<Name>) { forall i :: 0 <= i < |ns| ==> NameOk(ns[i]) }

  predicate RootPath(p: Path) { p == [SLASH] || p == [SLASH] + DOT || p == [SLASH] + DOTDOT }

  /** What `search_file` is called with: an absolute path with at least one name, or one of the root's. */
  ghost predicate PathOk(p: Path) {
    p != [] && p[0] == SLASH && |p| < 512 && AllNames(Split(p)) && (Split(p) != [] || p == [SLASH])
  }

  /** How far a search got: `k` names lead to directory `parent`, and name `k` is not there. */
  ghost predicate Missing(t: Tree, ns: seq<Name>, k: int, parent: int) {
    && 0 <= k < |ns| && Walk(t, 0, ns[..k]) == Some(Item(parent, DIRECTORY)) && parent in t && t[parent].Dir?
    && ns[k] !in t[parent].items
  }

  /** ... or name `k` is there. */
  ghost predicate Present(t: Tree, ns: seq<Name>, k: int, parent: int, x: Item) {
    && 0 <= k < |ns| && Walk(t, 0, ns[..k]) == Some(Item(parent, DIRECTORY)) && parent in t && t[parent].Dir?
    && ns[k] in t[parent].items && t[parent].items[ns[k]] == x
  }

  /** `search_file`: the inode and its type, the directory that holds its entry or, when nothing is found, the last
      directory on the way, and the part of the path that was looked at.  A regular file ends the search even when
      more names follow. */
  method SearchFile(fs: FileSystem, p: Path) returns (r: Option<Item>, parent: int, searched: Path, ghost k: int)
    requires fs.Valid() && PathOk(p)
    ensures r == if RootPath(p) then Some(Item(0, DIRECTORY)) else Walk(fs.tree, 0, Split(p))
    ensures r.None? ==> Missing(fs.tree, Split(p), k, parent) && searched == Slashed(Split(p)[..k + 1])
    ensures r.Some? && !RootPath(p) ==> Present(fs.tree, Split(p), k, parent, r.v)
    ensures r.Some? && !RootPath(p) && r.v.kind == DIRECTORY ==> k == |Split(p)| - 1
    ensures r.Some? && !RootPath(p) && r.v.kind != DIRECTORY ==> searched == Slashed(Split(p)[..k + 1])
  {
    hide Sound, Nodes, InodesOk, Split, Rooted, NameOk, Slashed;
    k := 0;
    parent := 0;
    searched := [];
    if RootPath(p) { return Some(Item(0, DIRECTORY)), parent, searched, k; }
    ghost var t, ns := fs.tree, Split(p);
    var dir := 0;
    var name, rest := PathParse(p);
    assert ns[..0] == [];
    SearchStart(t, fs.home, fs.depth);
    while name != []
      invariant 0 <= k <= |ns| && dir in t && t[dir].Dir? && Walk(t, 0, ns[..k]) == Some(Item(dir, DIRECTORY))
      invariant Walk(t, 0, ns) == Walk(t, dir, ns[k..])
      invariant k > 0 ==> Present(t, ns, k - 1, parent, Item(dir, DIRECTORY))
      invariant searched == Slashed(ns[..k]) && (name == [] <==> k == |ns|)
      invariant name != [] ==> ns[k] == name && ns[k + 1..] == if rest.Some? then Split(rest.v) else []
      decreases |ns| - k
    {
      searched := searched + [SLASH] + name;
      SlashedMore(ns, k);
      WalkOn(t, 0, ns[..k], [name], dir);
      var x := fs.Lookup(dir, name);
      if x.None? { return None, dir, searched, k; }
      if x.v.kind != DIRECTORY { return x, dir, searched, k; }
      ItemDir(t, fs.home, fs.depth, dir, name);
      assert ns[k..][1..] == ns[k + 1..];
      parent, dir := dir, x.v.ino;
      k := k + 1;
      name := [];
      if rest.Some? {
        assert ns[k..] == Split(rest.v);
        name, rest := PathParse(rest.v);
        if name != [] { NextName(ns, k, name, if rest.Some? then Split(rest.v) else []); }
      }
    }
    r, k := Some(Item(dir, DIRECTORY)), k - 1;
  }

  lemma ItemDir(t: Tree, home: map<int, Home>, depth: map<int, nat>, i: int, n: Name)
    requires Rooted(t, home, depth) && i in t && t[i].Dir? && n in t[i].items && t[i].items[n].kind == DIRECTORY
    ensures t[i].items[n].ino in t && t[t[i].items[n].ino].Dir?
    ensures Walk(t, i, [n]) == Some(t[i].items[n])
  {
    PathUp(t, home, depth, i);
    if !Dots(n) { PathDown(t, home, depth, i, n); }
    assert [n][1..] == [];
  }

  lemma NextName(ns: seq<Name>, k: int, n: Name, tail: seq<Name>)
    requires 0 <= k <= |ns| && ns[k..] == [n] + tail
    ensures k < |ns| && ns[k] == n && ns[k + 1..] == tail
  {
    assert ns[k..][0] == ns[k] && ns[k..][1..] == ns[k + 1..];
  }

  lemma SearchStart(t: Tree, home: map<int, Home>, depth: map<int, nat>)
    requires Rooted(t, home, depth)
    ensures 0 in t && t[0].Dir? && Slashed([]) == []
  {
  }

  lemma SlashedMore(ns: seq<Name>, k: int)
    requires 0 <= k < |ns|
    ensures ns[..k + 1] == ns[..k] + [ns[k]] && Slashed(ns[..k + 1]) == Slashed(ns[..k]) + [SLASH] + ns[k]
  {
    assert ns[..k + 1][..k] == ns[..k];
  }

  /** `sys_chdir`: the working directory changes exactly when the path names a directory. */
  method Chdir(fs: FileSystem, p: Path, cwd: int) returns (r: int, next: int)
    requires fs.Valid() && PathOk(p)
    ensures var x := if RootPath(p) then Some(Item(0, DIRECTORY)) else Walk(fs.tree, 0, Split(p));
            if x.Some? && x.v.kind == DIRECTORY then r == 0 && next == x.v.ino else r == -1 && next == cwd
  {
    var x, parent, searched, k := SearchFile(fs, p);
    if x.Some? && x.v.kind == DIRECTORY { return 0, x.v.ino; }
    r, next := -1, cwd;
  }

  // ---------------------------------------------------------------- sys_getcwd

  /** `get_parent_dir_inode_nr`: slot 1 of the first block; its assertions hold. */
  method ParentNr(fs: FileSystem, c: int) returns (d: int)
    requires fs.Valid() && c in fs.tree && fs.tree[c].Dir?
    ensures DOTDOT in fs.tree[c].items && d == fs.tree[c].items[DOTDOT].ino
  {
    hide Sound, Nodes, InodesOk, TableOk, TableOf, Total, Items, Slots;
    DirParts(fs.p.disk, fs.p.inodes, fs.p.refs, fs.spots, fs.tree, c);
    FirstBlockOf(fs.p.start, fs.p.disk, fs.p.inodes, fs.p.Book(), fs.spots[c], c, fs.tree[c].items[DOTDOT].ino);
    var lba := fs.p.inodes[c].sectors[0];
    assert lba >= fs.p.start;
    var x := EntryAt(fs.p.disk[lba], 1);
    assert x.kind == DIRECTORY;
    d := x.ino;
  }

  lemma FirstBlockOf(start: int, disk: Disk, inodes: map<int, Inode>, g: Ledger, spot: map<Name, Spot>, c: int, parent: int)
    requires Sound(start, disk, inodes, g) && c in inodes && c in g.refs && DirAt(disk, inodes[c], g.refs[c], spot, c, parent)
    ensures |inodes[c].sectors| == 13 && 0 < start <= inodes[c].sectors[0] < |disk| && |disk[inodes[c].sectors[0]]| == BLOCK
    ensures EntryAt(disk[inodes[c].sectors[0]], 1) == Entry(DOTDOT, parent, DIRECTORY)
  {
    InodeOf(start, disk, inodes, g, c, 0);
    BlockOf(start, disk, inodes, g, c, 0);
    OwnRefs(start, g, c);
  }

  /** Only the home entry of an inode has its number: not a dot, not an empty slot. */
  lemma OnlyHome(t: Table, spot: map<Name, Spot>, tree: Tree, home: map<int, Home>, depth: map<int, nat>, d: int, parent: int, c: int, b: int, e: int)
    requires DirOk(t, spot, d, parent) && Rooted(tree, home, depth) && d in tree && tree[d].Dir? && Items(t, spot) == tree[d].items
    requires DOTDOT in tree[d].items && parent == tree[d].items[DOTDOT].ino
    requires c in tree && c != 0 && c in home && home[c].dir == d && 0 <= b < |t| && 0 <= e < |t[b]| && t[b][e].ino == c
    ensures t[b][e].name == home[c].name
  {
    hide Items, Total;
    assert EntryOk(t, spot, b, e) && EntryOk(t, spot, 0, 0) && EntryOk(t, spot, 0, 1) by { DirTableOk(t, spot, d, parent); }
    var n := t[b][e].name;
    SpotHere(t, spot, d, parent, b, e);
    ItemsCount(t, spot, d, parent);
    ItemHere(t, spot, tree[d].items, n);
    NotDots(tree, home, depth, d, c);
    assert !Dots(n);
    assert ItemOk(tree, home, d, n);
  }

  lemma NotDots(tree: Tree, home: map<int, Home>, depth: map<int, nat>, d: int, c: int)
    requires Rooted(tree, home, depth) && c in tree && c != 0 && c in home && home[c].dir == d && d in tree && tree[d].Dir?
    ensures DOT in tree[d].items && DOTDOT in tree[d].items
    ensures tree[d].items[DOT].ino != c && tree[d].items[DOTDOT].ino != c
  {
    assert HomeOk(tree, home, depth, c) && DotsOk(tree, d) && ParentOk(tree, home, d);
    if d != 0 { assert HomeOk(tree, home, depth, d); }
  }

  /** The first slot of a sector with an inode number. */
  method FindNumber(s: Sector, c: int) returns (e: int)
    requires |s| == BLOCK
    ensures -1 <= e < PER_SECTOR && (e >= 0 ==> Slots(s)[e].ino == c)
    ensures e == -1 ==> forall f :: 0 <= f < PER_SECTOR ==> Slots(s)[f].ino != c
  {
    e := 0;
    ghost var xs: seq<Entry> := Slots(s);
    while e < PER_SECTOR
      invariant 0 <= e <= PER_SECTOR && forall f :: 0 <= f < e ==> xs[f].ino != c
    {
      assert EntryAt(s, e) == xs[e];
      if EntryAt(s, e).ino == c { return; }
      e := e + 1;
    }
    e := -1;
  }

  /** `get_child_dir_name`: the name under which directory `d` has child `c`. */
  method ChildName(fs: FileSystem, d: int, c: int) returns (n: Name)
    requires fs.Valid() && c in fs.tree && c != 0 && c in fs.home && fs.home[c].dir == d && d in fs.tree && fs.tree[d].Dir?
    ensures n == fs.home[c].name
  {
    hide Sound, Nodes, InodesOk, TableOk, TableOf, Total, Items, Slots, Rooted, DirAt, DirOk;
    DirParts(fs.p.disk, fs.p.inodes, fs.p.refs, fs.spots, fs.tree, d);
    ghost var t: Table := TableOf(fs.p.disk, fs.p.refs[d]);
    ghost var parent := fs.tree[d].items[DOTDOT].ino;
    DirOf(fs.p.disk, fs.p.inodes[d], fs.p.refs[d], fs.spots[d], d, parent);
    DirectOnly(fs.p.disk, fs.p.inodes[d], fs.p.refs[d], fs.spots[d], d, parent);
    var all := fs.p.AllBlocks(d);
    var b := 0;
    while b < DIRECT
      invariant 0 <= b <= DIRECT
      invariant forall a, e :: 0 <= a < b && 0 <= e < |t[a]| ==> t[a][e].ino != c
    {
      BlockOf(fs.p.start, fs.p.disk, fs.p.inodes, fs.p.Book(), d, b);
      if all[b] != 0 {
        var e := FindNumber(fs.p.disk[all[b]], c);
        if e >= 0 {
          OnlyHome(t, fs.spots[d], fs.tree, fs.home, fs.depth, d, parent, c, b, e);
          SlotIs(fs.p.disk[all[b]], e);
          return EntryAt(fs.p.disk[all[b]], e).name;
        }
      }
      b := b + 1;
    }
    HomeThere(t, fs.spots[d], fs.tree, fs.home, fs.depth, d, parent, c);
    assert false;
    n := [];
  }

  lemma DirectOnly(disk: Disk, n: Inode, refs: seq<int>, spot: map<Name, Spot>, self: int, parent: int)
    requires DirAt(disk, n, refs, spot, self, parent)
    ensures |refs| == REFS && forall k :: DIRECT <= k < REFS ==> refs[k] == 0
  {
  }

  lemma HomeThere(t: Table, spot: map<Name, Spot>, tree: Tree, home: map<int, Home>, depth: map<int, nat>, d: int, parent: int, c: int)
    requires DirOk(t, spot, d, parent) && Rooted(tree, home, depth) && d in tree && tree[d].Dir? && Items(t, spot) == tree[d].items
    requires c in tree && c != 0 && c in home && home[c].dir == d
    ensures exists b, e :: 0 <= b < |t| && 0 <= e < |t[b]| && t[b][e].ino == c
  {
    hide Items, Total;
    assert HomeOk(tree, home, depth, c);
    ItemsCount(t, spot, d, parent);
    ItemHere(t, spot, tree[d].items, home[c].name);
    assert t[spot[home[c].name].b][spot[home[c].name].e].ino == c;
  }

  function Rev(ns: seq<Name>): (r: seq<Name>)
    ensures |r| == |ns|
  {
    if ns == [] then [] else Rev(ns[1..]) + [ns[0]]
  }

  lemma {:induction false} RevPlain(ns: seq<Name>)
    requires AllPlain(ns)
    ensures AllPlain(Rev(ns))
  {
    if ns != [] { RevPlain(ns[1..]); }
  }

  lemma NamesPlain(fs: FileSystem, i: int, n: Name)
    requires fs.Valid() && i in fs.tree && fs.tree[i].Dir? && n in fs.tree[i].items
    ensures Plain(n)
  {
    hide Sound, Nodes, InodesOk, TableOf, Total, Items, Rooted;
    DirParts(fs.p.disk, fs.p.inodes, fs.p.refs, fs.spots, fs.tree, i);
    var t := TableOf(fs.p.disk, fs.p.refs[i]);
    ItemHere(t, fs.spots[i], fs.tree[i].items, n);
    var s := fs.spots[i][n];
    assert EntryOk(t, fs.spots[i], s.b, s.e);
  }

  /** `sys_getcwd`: names are collected from the working directory up, then put in order.  It ends because every
      step up lowers the depth, and its result is the path of the directory. */
  method GetCwd(fs: FileSystem, cwd: int, size: int) returns (r: Outcome<Path>)
    requires fs.Valid() && cwd in fs.tree && fs.tree[cwd].Dir?
    ensures r.Panic? <==> cwd != 0 && |Join(PathOf(fs.tree, fs.home, fs.depth, cwd))| > size
    ensures r.Go? ==> r.s == Join(PathOf(fs.tree, fs.home, fs.depth, cwd))
  {
    hide Sound, Nodes, InodesOk, PathOf;
    ghost var path := PathOf(fs.tree, fs.home, fs.depth, cwd);
    if cwd == 0 { return Go([SLASH]); }
    var rev, n := WalkUp(fs, cwd);
    RevLength(path);
    if |rev| > size { return Panic; }
    var buf := Reverse(rev, path);
    r := Go(buf);
  }

  lemma {:induction false} SlashedLength(ns: seq<Name>, n: Name)
    ensures |Slashed(ns + [n])| == |Slashed(ns)| + 1 + |n|
  {
    assert (ns + [n])[..|ns|] == ns;
  }

  lemma {:induction false} RevLength(ns: seq<Name>)
    ensures |Slashed(Rev(ns))| == |Slashed(ns)|
    decreases |ns|
  {
    if ns != [] {
      RevLength(ns[1..]);
      SlashedLength(Rev(ns[1..]), ns[0]);
      SlashedFront(ns[0], ns[1..]);
      assert [ns[0]] + ns[1..] == ns;
    }
  }

  /** The loop up to the root. */
  method WalkUp(fs: FileSystem, cwd: int) returns (rev: Path, ghost names: seq<Name>)
    requires fs.Valid() && cwd in fs.tree && fs.tree[cwd].Dir?
    ensures names == PathOf(fs.tree, fs.home, fs.depth, cwd) && rev == Slashed(Rev(names)) && AllPlain(names)
  {
    hide Sound, Nodes, InodesOk, Slashed;
    rev, names := [], [];
    var child := cwd;
    SlashedNothing();
    assert PathOf(fs.tree, fs.home, fs.depth, cwd) == PathOf(fs.tree, fs.home, fs.depth, cwd) + [];
    while child != 0
      invariant child in fs.tree && fs.tree[child].Dir? && AllPlain(names) && rev == Slashed(Rev(names))
      invariant PathOf(fs.tree, fs.home, fs.depth, cwd) == PathOf(fs.tree, fs.home, fs.depth, child) + names
      decreases if child in fs.depth then fs.depth[child] else 0
    {
      StepUp(fs.tree, fs.home, fs.depth, child, names);
      var parent := ParentNr(fs, child);
      var n := ChildName(fs, parent, child);
      NamesPlain(fs, parent, n);
      SlashedLast(Rev(names), n);
      rev := rev + [SLASH] + n;
      assert ([n] + names)[1..] == names;
      names := [n] + names;
      child := parent;
    }
    assert names == [] + names;
  }

  lemma SlashedNothing()
    ensures Slashed([]) == [] && Rev([]) == []
  {
  }

  lemma SlashedLast(ns: seq<Name>, n: Name)
    ensures Slashed(ns + [n]) == Slashed(ns) + [SLASH] + n
  {
    assert (ns + [n])[..|ns|] == ns;
  }

  lemma StepUp(t: Tree, home: map<int, Home>, depth: map<int, nat>, c: int, names: seq<Name>)
    requires Rooted(t, home, depth) && c in t && t[c].Dir? && c != 0
    ensures c in home && DOTDOT in t[c].items && t[c].items[DOTDOT].ino == home[c].dir
    ensures home[c].dir in t && t[home[c].dir].Dir? && home[c].name in t[home[c].dir].items
    ensures c in depth && home[c].dir in depth && depth[home[c].dir] < depth[c]
    ensures PathOf(t, home, depth, c) + names == PathOf(t, home, depth, home[c].dir) + ([home[c].name] + names)
  {
    assert HomeOk(t, home, depth, c) && DotsOk(t, c) && ParentOk(t, home, c);
  }

  /** The reversal: the part from the last slash on is moved over, until no slash is left. */
  method Reverse(rev0: Path, ghost path: seq<Name>) returns (buf: Path)
    requires rev0 == Slashed(Rev(path)) && AllPlain(path)
    ensures buf == Slashed(path)
  {
    hide Slashed, Rev, LastSlash;
    var rev := rev0;
    buf := [];
    ghost var j := 0;
    var last := StrRChr(rev);
    assert path[0..] == path && path[..0] == [];
    SlashedNothing();
    SlashLeft(path, 0);
    while last != -1
      invariant 0 <= j <= |path| && rev == Slashed(Rev(path[j..])) && buf == Slashed(path[..j]) && last == LastSlash(rev)
      invariant last == -1 <==> j == |path|
      decreases |path| - j
    {
      MoveOver(path, j);
      buf := buf + rev[last..];
      rev := rev[..last];
      j := j + 1;
      SlashLeft(path, j);
      last := StrRChr(rev);
    }
    assert path[..j] == path;
  }

  lemma SlashLeft(path: seq<Name>, j: int)
    requires 0 <= j <= |path|
    ensures LastSlash(Slashed(Rev(path[j..]))) == -1 <==> j == |path|
  {
    var ns := Rev(path[j..]);
    if j < |path| { assert Slashed(ns)[|Slashed(ns[..|ns| - 1])|] == SLASH; }
  }

  lemma RevFront(path: seq<Name>, j: int)
    requires 0 <= j < |path| && AllPlain(path)
    ensures Rev(path[j..]) == Rev(path[j + 1..]) + [path[j]] && AllPlain(Rev(path[j..]))
  {
    assert path[j..][1..] == path[j + 1..];
    RevPlain(path[j..]);
  }

  lemma MoveOver(path: seq<Name>, j: int)
    requires 0 <= j < |path| && AllPlain(path)
    ensures var r := Slashed(Rev(path[j..]));
            var l := LastSlash(r);
            l >= 0 && r[..l] == Slashed(Rev(path[j + 1..])) && Slashed(path[..j]) + r[l..] == Slashed(path[..j + 1])
  {
    hide LastSlash, Slashed, Rev, AllPlain;
    var ns := Rev(path[j..]);
    var m := Rev(path[j + 1..]);
    RevFront(path, j);
    CutLast(ns);
    assert ns[..|ns| - 1] == m;
    SlashedLast(m, path[j]);
    SlashedMore(path, j);
    assert (Slashed(m) + [SLASH] + path[j])[|Slashed(m)|..] == [SLASH] + path[j];
    assert Slashed(path[..j]) + ([SLASH] + path[j]) == Slashed(path[..j]) + [SLASH] + path[j];
  }

  // ---------------------------------------------------------------- the round trip

  lemma {:induction false} ResolveNames(ns: seq<Name>, stack: seq<Name>)
    requires AllNames(ns) && AllNames(stack)
    ensures AllNames(Resolve(ns, stack))
    decreases |ns|
  {
    if ns != [] { ResolveNames(ns[1..], Push(stack, ns[0])); }
  }

  lemma WashedPathOk(p: Path)
    requires AllNames(Split(p)) && |Washed(p)| < 512
    ensures PathOk(Washed(p)) && (RootPath(Washed(p)) ==> Split(Washed(p)) == [])
  {
    hide Split, NameOk;
    WashedNames(p);
    ResolveNames(Split(p), []);
    var ns := Resolve(Split(p), []);
    if ns != [] {
      WashedFirst(ns);
      OneName(ns);
    }
  }

  lemma WashedFirst(ns: seq<Name>)
    requires ns != []
    ensures Slashed(ns) != [] && Slashed(ns)[0] == SLASH
  {
    SlashedFront(ns[0], ns[1..]);
    assert [ns[0]] + ns[1..] == ns;
  }

  lemma RootSplits()
    ensures Split([SLASH]) == [] && Split([SLASH] + DOT) == [DOT] && Split([SLASH] + DOTDOT) == [DOTDOT]
  {
    SplitJoin([]);
    SplitFirst(DOT, []);
    SplitFirst(DOTDOT, []);
    assert [SLASH] + DOT + [] == [SLASH] + DOT && [SLASH] + DOTDOT + [] == [SLASH] + DOTDOT;
    assert Split([]) == [];
  }

  lemma OneName(ns: seq<Name>)
    requires Clean(ns) && ns != []
    ensures !RootPath(Slashed(ns))
  {
    SplitSlashed(ns);
    RootSplits();
    assert !Dots(ns[0]);
  }

  /** `cd p` and then `pwd`: when the directory exists, the string shown is the washed path. */
  method CdThenPwd(fs: FileSystem, p: Path, cwd: int) returns (r: int, washed: Path, shown: Outcome<Path>)
    requires fs.Valid() && p != [] && p[0] == SLASH && AllNames(Split(p)) && |Washed(p)| < 512
    ensures washed == Washed(p)
    ensures r == 0 <==> Walk(fs.tree, 0, Split(washed)).Some? && Walk(fs.tree, 0, Split(washed)).v.kind == DIRECTORY
    ensures r == 0 ==> shown == Go(washed)
  {
    hide Sound, Nodes, InodesOk, PathOf, Rooted, Split, NameOk;
    washed := WashPath(p);
    WashedPathOk(p);
    SearchStart(fs.tree, fs.home, fs.depth);
    var next;
    r, next := Chdir(fs, washed, cwd);
    shown := Panic;
    if r == 0 {
      CwdIsWashedPath(fs.tree, fs.home, fs.depth, p);
      WalkIsDir(fs.tree, fs.home, fs.depth, p);
      shown := GetCwd(fs, next, 512);
    }
  }

  lemma WalkIsDir(t: Tree, home: map<int, Home>, depth: map<int, nat>, p: Path)
    requires Rooted(t, home, depth)
    requires Walk(t, 0, Split(Washed(p))).Some? && Walk(t, 0, Split(Washed(p))).v.kind == DIRECTORY
    ensures var i := Walk(t, 0, Split(Washed(p))).v.ino; i in t && t[i].Dir?
  {
    WashedNames(p);
    WalkDown(t, home, depth, 0, Resolve(Split(p), []));
  }
}
