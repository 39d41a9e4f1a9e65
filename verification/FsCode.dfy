/** The file system calls over a partition: create, write, unlink, mkdir and rmdir, each against the tree. */
module FsCode {
  import opened Basics
  import opened Bitmaps
  import opened Words
  import opened Ledgers
  import opened Volume
  import opened Entries
  import opened DirTable
  import opened FileCode
  import opened DirCode
  import opened InodeArea
  import IT = InodeTable
  import opened Tree

  /** An inode's sectors stand for a node of the tree. */
  ghost predicate NodeOk(disk: Disk, n: Inode, refs: seq<int>, spot: map<Name, Spot>, i: int, x: Node) {
    match x
    case File(bytes) => FileShape(n.size, refs) && Content(disk, n.size, refs) == bytes
    case Dir(items) =>
      DOTDOT in items && DirAt(disk, n, refs, spot, i, items[DOTDOT].ino) && Items(TableOf(disk, refs), spot) == items
  }

  ghost predicate NodeAt(disk: Disk, inodes: map<int, Inode>, refs: map<int, seq<int>>,
                         spots: map<int, map<Name, Spot>>, tree: Tree, i: int)
    requires i in tree
  {
    i in inodes && i in refs && i in spots && NodeOk(disk, inodes[i], refs[i], spots[i], i, tree[i])
  }

  ghost predicate Nodes(disk: Disk, inodes: map<int, Inode>, refs: map<int, seq<int>>,
                        spots: map<int, map<Name, Spot>>, tree: Tree) {
    tree.Keys == inodes.Keys && forall i :: i in tree ==> NodeAt(disk, inodes, refs, spots, tree, i)
  }

  /** The inode bitmap has exactly the bits of the live inodes. */
  ghost predicate InodesOk(bits: seq<bool>, tree: Tree) {
    && |bits| == MAX_FILES
    && (forall i :: 0 <= i < MAX_FILES ==> (bits[i] <==> i in tree))
    && (forall i :: i in tree ==> 0 <= i < MAX_FILES)
  }

  // ---------------------------------------------------------------- frames

  lemma SameTable(start: int, g: Ledger, d0: Disk, d1: Disk, i: int, j: int)
    requires Owned(start, g) && start + |g.bits| <= |d0| && Apart(g.owner, d0, d1, i) && j in g.refs && j != i
    ensures |g.refs[j]| == REFS && TableOf(d1, g.refs[j]) == TableOf(d0, g.refs[j])
  {
    forall b | 0 <= b < DIR_BLOCKS ensures TableOf(d1, g.refs[j])[b] == TableOf(d0, g.refs[j])[b] {
      if g.refs[j][b] != 0 { SameSector(start, g, d0, d1, i, j, b); }
    }
  }

  lemma NodeSame(start: int, g: Ledger, d0: Disk, d1: Disk, i: int, j: int, n: Inode, spot: map<Name, Spot>, x: Node)
    requires Owned(start, g) && start + |g.bits| <= |d0| && Apart(g.owner, d0, d1, i) && j in g.refs && j != i
    requires NodeOk(d0, n, g.refs[j], spot, j, x)
    ensures NodeOk(d1, n, g.refs[j], spot, j, x)
  {
    hide Owned, TableOf, Content;
    if x.File? {
      OthersUnchanged(start, g, d0, d1, i, j, n.size);
    } else {
      SameTable(start, g, d0, d1, i, j);
    }
  }

  /** After work on inode `i` alone, every other inode stands for the same node. */
  lemma NodesAgain(start: int, d0: Disk, inodes0: map<int, Inode>, refs0: map<int, seq<int>>,
                   spots: map<int, map<Name, Spot>>, tree: Tree,
                   d1: Disk, inodes: map<int, Inode>, g: Ledger, i: int, spot: map<Name, Spot>, x: Node)
    requires Nodes(d0, inodes0, refs0, spots, tree) && i in tree && i in inodes && i in g.refs
    requires Owned(start, g) && start + |g.bits| <= |d0| && Apart(g.owner, d0, d1, i)
    requires inodes == inodes0[i := inodes[i]] && g.refs == refs0[i := g.refs[i]]
    requires NodeOk(d1, inodes[i], g.refs[i], spot, i, x)
    ensures Nodes(d1, inodes, g.refs, spots[i := spot], tree[i := x])
  {
    hide Owned, Apart, NodeOk;
    var t1, s1 := tree[i := x], spots[i := spot];
    forall j | j in t1 ensures NodeAt(d1, inodes, g.refs, s1, t1, j) {
      if j != i {
        assert NodeAt(d0, inodes0, refs0, spots, tree, j);
        NodeSame(start, g, d0, d1, i, j, inodes[j], spots[j], tree[j]);
      }
    }
  }

  lemma SoundParts(start: int, disk: Disk, inodes: map<int, Inode>, g: Ledger)
    requires Sound(start, disk, inodes, g)
    ensures Owned(start, g) && start + |g.bits| <= |disk| && inodes.Keys == g.refs.Keys
  {
  }

  lemma FreshRooted()
    ensures Rooted(map[0 := NewDir(0, 0)], map[], map[0 := 0])
  {
  }

  lemma FreshNodes(disk: Disk, inodes: map<int, Inode>, refs: map<int, seq<int>>, spot: map<Name, Spot>)
    requires inodes.Keys == {0} && 0 in refs && DirAt(disk, inodes[0], refs[0], spot, 0, 0)
    requires Items(TableOf(disk, refs[0]), spot) == NewDir(0, 0).items
    ensures Nodes(disk, inodes, refs, map[0 := spot], map[0 := NewDir(0, 0)])
  {
    assert NodeAt(disk, inodes, refs, map[0 := spot], map[0 := NewDir(0, 0)], 0);
  }

  const NEW_INODE: Inode := Inode(0, [0, 0, 0, 0, 0, 0, 0, 0, 0, 0, 0, 0, 0])

  /** The inode of a directory with two entries in one block. */
  function DotInode(l: int): (n: Inode) { Inode(2 * SLOT, NEW_INODE.sectors[0 := l]) }

  ghost predicate IsDotInode(n: Inode) { |n.sectors| == 13 && n == DotInode(n.sectors[0]) }

  /** The first sector is as it was. */
  ghost predicate SameFirst(n0: Inode, n: Inode) { |n0.sectors| == 13 && |n.sectors| == 13 && n.sectors[0] == n0.sectors[0] }

  /** Directory `d` changed, behind its first sector, and `c` is new. */
  ghost predicate InodeMade(m0: map<int, Inode>, m: map<int, Inode>, d: int, c: int, n: Inode) {
    d in m0 && d in m && c !in m0 && m == m0[d := m[d]][c := n] && SameFirst(m0[d], m[d])
  }

  /** Directory `d` changed, behind its first sector, and `c` is gone. */
  ghost predicate InodeCut(m0: map<int, Inode>, m: map<int, Inode>, d: int, c: int) {
    d in m0 && d in m && c in m0 && m == m0[d := m[d]] - {c} && SameFirst(m0[d], m[d])
  }

  /** A new inode without blocks. */
  lemma EnterSound(start: int, disk: Disk, inodes: map<int, Inode>, g: Ledger, c: int)
    requires Sound(start, disk, inodes, g) && c !in inodes
    ensures Sound(start, disk, inodes[c := NEW_INODE], g.(refs := g.refs[c := NoRefs()]))
  {
    EnterKeeps(start, g, c);
    var inodes1, refs1 := inodes[c := NEW_INODE], g.refs[c := NoRefs()];
    forall i | i in inodes1 ensures Linked(disk, inodes1[i], refs1[i]) {
      if i != c { assert Linked(disk, inodes[i], g.refs[i]); }
    }
  }

  lemma EnterNodes(disk: Disk, inodes: map<int, Inode>, refs: map<int, seq<int>>,
                   spots: map<int, map<Name, Spot>>, tree: Tree, c: int)
    requires Nodes(disk, inodes, refs, spots, tree) && c !in tree
    ensures Nodes(disk, inodes[c := NEW_INODE], refs[c := NoRefs()], spots[c := map[]], tree[c := File([])])
  {
    var i1, r1, s1, t1 := inodes[c := NEW_INODE], refs[c := NoRefs()], spots[c := map[]], tree[c := File([])];
    assert NodeOk(disk, NEW_INODE, NoRefs(), map[], c, File([]));
    hide NodeOk;
    forall i | i in t1 ensures NodeAt(disk, i1, r1, s1, t1, i) {
      if i != c { assert NodeAt(disk, inodes, refs, spots, tree, i); }
    }
  }

  lemma EnterBits(bits: seq<bool>, tree: Tree, c: int, x: Node)
    requires InodesOk(bits, tree) && 0 <= c < MAX_FILES
    ensures InodesOk(bits[c := true], tree[c := x])
  {
  }

  /** A further entry would need another block. */
  ghost predicate NeedsBlock(disk: Disk, refs: map<int, seq<int>>, d: int) {
    d in refs && |refs[d]| == REFS
    && FirstRoom(TableOf(disk, refs[d]), 0).Some? && TableOf(disk, refs[d])[FirstRoom(TableOf(disk, refs[d]), 0).v.b] == []
  }

  lemma NeedsSame(disk: Disk, refs0: map<int, seq<int>>, refs: map<int, seq<int>>, d: int)
    requires d in refs0 && d in refs && refs[d] == refs0[d]
    ensures NeedsBlock(disk, refs0, d) == NeedsBlock(disk, refs, d)
  {
  }

  ghost predicate AllTaken(t: Tree) { forall i :: 0 <= i < MAX_FILES ==> i in t }

  /** The least free inode number. */
  ghost predicate Least(t: Tree, c: int) { 0 <= c < MAX_FILES && c !in t && forall i :: 0 <= i < c ==> i in t }

  lemma NewNumber(disk: Disk, inodes: map<int, Inode>, refs: map<int, seq<int>>, spots: map<int, map<Name, Spot>>, tree: Tree, c: int)
    requires Nodes(disk, inodes, refs, spots, tree) && c !in tree
    ensures c !in inodes
  {
    hide NodeAt;
  }

  lemma MadeIs(m0: map<int, Inode>, m: map<int, Inode>, d: int, c: int, n: Inode)
    requires d in m0 && d in m && c !in m0 && d != c && m == m0[c := n][d := m[d]] && SameFirst(m0[c := n][d], m[d])
    ensures InodeMade(m0, m, d, c, n)
  {
    assert m == m0[d := m[d]][c := n];
  }

  lemma LeastMeans(t: Tree, c: int)
    requires Least(t, c)
    ensures 0 <= c < MAX_FILES && c !in t
  {
  }

  lemma GrowIs(t: Tree, d: int, n: Name, c: int, x: Node)
    requires d in t && t[d].Dir? && c != d
    ensures Grow(t, d, n, c, x) == t[c := x][d := Dir(t[d].items[n := Item(c, KindOf(x))])]
    ensures Grow(t, d, n, c, x).Keys == t[c := x].Keys
  {
  }

  lemma ItemsCount(t: Table, spot: map<Name, Spot>, self: int, parent: int)
    requires DirOk(t, spot, self, parent)
    ensures |Items(t, spot)| == Total(t) && Items(t, spot).Keys == spot.Keys && TableOk(t, spot)
  {
    assert |Items(t, spot)| == |Items(t, spot).Keys| == |spot.Keys|;
  }

  lemma NodeIn(disk: Disk, inodes: map<int, Inode>, refs: map<int, seq<int>>,
               spots: map<int, map<Name, Spot>>, tree: Tree, i: int)
    requires Nodes(disk, inodes, refs, spots, tree) && i in tree
    ensures i in inodes && i in refs && i in spots
  {
    assert NodeAt(disk, inodes, refs, spots, tree, i);
  }

  /** What a directory node of the tree is on disk. */
  lemma DirParts(disk: Disk, inodes: map<int, Inode>, refs: map<int, seq<int>>,
                 spots: map<int, map<Name, Spot>>, tree: Tree, d: int)
    requires Nodes(disk, inodes, refs, spots, tree) && d in tree && tree[d].Dir?
    ensures d in inodes && d in refs && d in spots && DOTDOT in tree[d].items
    ensures DirAt(disk, inodes[d], refs[d], spots[d], d, tree[d].items[DOTDOT].ino) && |refs[d]| == REFS
    ensures TableOk(TableOf(disk, refs[d]), spots[d]) && Items(TableOf(disk, refs[d]), spots[d]) == tree[d].items
    ensures |tree[d].items| == Total(TableOf(disk, refs[d])) && tree[d].items.Keys == spots[d].Keys
    ensures NodeOk(disk, inodes[d], refs[d], spots[d], d, tree[d])
  {
    assert NodeAt(disk, inodes, refs, spots, tree, d);
    ItemsCount(TableOf(disk, refs[d]), spots[d], d, tree[d].items[DOTDOT].ino);
  }

  /** The directory stands for its map with the new name, and everything else for what it did. */
  lemma EntryLinked(start: int, d0: Disk, inodes0: map<int, Inode>, g0: Ledger, d1: Disk, inodes: map<int, Inode>, g: Ledger,
                spots: map<int, map<Name, Spot>>, tree: Tree, d: int, parent: int, s: Spot, x: Entry)
    requires Sound(start, d0, inodes0, g0) && Nodes(d0, inodes0, g0.refs, spots, tree) && d in tree && tree[d].Dir?
    requires d in g0.refs && |g0.refs[d]| == REFS && d in inodes0 && d in spots && DOTDOT in tree[d].items
    requires NodeOk(d0, inodes0[d], g0.refs[d], spots[d], d, tree[d]) && parent == tree[d].items[DOTDOT].ino
    requires NewEntry(spots[d], x) && FirstRoom(TableOf(d0, g0.refs[d]), 0) == Some(s)
    requires Entered(start, d0, inodes0, g0, d1, inodes, g, d, Inserted(TableOf(d0, g0.refs[d]), s, x), inodes0[d].size + SLOT)
    ensures Sound(start, d1, inodes, g)
    ensures Nodes(d1, inodes, g.refs, spots[d := spots[d][x.name := s]], tree[d := Dir(tree[d].items[x.name := Item(x.ino, x.kind)])])
  {
    hide Sound, Owned, TableOk, Total, Items, TableOf, Nodes, Apart, FirstRoom, NewEntry, Inserted;
    var t := TableOf(d0, g0.refs[d]);
    InsertedKeeps(t, spots[d], d, parent, s, x);
    ItemsCount(t, spots[d], d, parent);
    NewMeans(spots[d], x);
    SoundParts(start, d0, inodes0, g0);
    SoundParts(start, d1, inodes, g);
    NodesAgain(start, d0, inodes0, g0.refs, spots, tree, d1, inodes, g, d, spots[d][x.name := s],
               Dir(tree[d].items[x.name := Item(x.ino, x.kind)]));
  }

  function DotSector(c: int, d: int): (s: Sector)
    ensures |s| == BLOCK
  {
    Splice(Splice(Zeros(BLOCK), 0, ToBytes(Entry(DOT, c, DIRECTORY))), SLOT, ToBytes(Entry(DOTDOT, d, DIRECTORY)))
  }

  lemma DotSectorSlots(c: int, d: int)
    requires 0 <= c < MAX_FILES && 0 <= d < MAX_FILES
    ensures Slots(DotSector(c, d)) == DotSlots(c, d)
  {
    var x, y := Entry(DOT, c, DIRECTORY), Entry(DOTDOT, d, DIRECTORY);
    EntryBytes(x);
    FromTo(y);
    SlotsSplice(Splice(Zeros(BLOCK), 0, ToBytes(x)), 1, ToBytes(y));
  }

  /** Every other inode keeps its blocks and their bytes. */
  ghost predicate Kept(d0: Disk, d1: Disk, refs0: map<int, seq<int>>, refs: map<int, seq<int>>, c: int) {
    forall j :: j in refs0 && j in refs && j != c ==>
                  refs[j] == refs0[j] && (|refs[j]| == REFS ==> TableOf(d1, refs[j]) == TableOf(d0, refs0[j]))
  }

  lemma NewLba(start: int, disk: Disk, inodes: map<int, Inode>, g: Ledger, c: int)
    requires Sound(start, disk, inodes, g) && c in g.refs && c != 0 && |g.refs[c]| == REFS && g.refs[c][0] != 0
    ensures 0 < g.refs[c][0] < |disk| && g.refs[c][0] != start
  {
    OwnRefs(start, g, c);
    NotRoot(start, disk, inodes, g, c, 0);
  }

  lemma NoRefsTable(disk: Disk, l: int, xs: seq<Entry>)
    ensures TableOf(disk, NoRefs()[0 := l])[0 := xs] == NoBlocks()[0 := xs]
  {
    var t := TableOf(disk, NoRefs()[0 := l]);
    forall b | 1 <= b < DIR_BLOCKS ensures t[b] == [] { }
  }

  /** The inode is a new directory, and everything else stands for what it did. */
  lemma DotsWritten(start: int, d0: Disk, inodes0: map<int, Inode>, refs0: map<int, seq<int>>, inodes1: map<int, Inode>,
                    g: Ledger, spots: map<int, map<Name, Spot>>, tree: Tree, c: int, d: int, s: Sector)
    requires Nodes(d0, inodes0, refs0, spots, tree) && c in tree && c in inodes0 && 0 < c < MAX_FILES && 0 <= d < MAX_FILES
    requires c in refs0 && c in inodes1 && c in g.refs && Sound(start, d0, inodes1, g)
    requires inodes1 == inodes0[c := inodes1[c]] && g.refs == refs0[c := g.refs[c]]
    requires |g.refs[c]| == REFS && g.refs[c][0] != 0 && g.refs[c] == NoRefs()[0 := g.refs[c][0]] && s == DotSector(c, d)
    ensures 0 < g.refs[c][0] < |d0|
    ensures var d1, inodes := d0[g.refs[c][0] := s], inodes1[c := inodes1[c].(size := 2 * SLOT)];
            && Sound(start, d1, inodes, g) && Nodes(d1, inodes, g.refs, spots[c := DotSpots()], tree[c := NewDir(c, d)])
            && Kept(d0, d1, refs0, g.refs, c) && LowSame(start, d0, d1)
  {
    hide Sound, Owned, Nodes, TableOf, TableOk, Items, Total;
    BlockWritten(start, d0, inodes1, g, c, 0, s, 2 * SLOT);
    DotSectorSlots(c, d);
    NoRefsTable(d0, g.refs[c][0], DotSlots(c, d));
    NewDirOk(c, d);
    var d1, inodes := d0[g.refs[c][0] := s], inodes1[c := inodes1[c].(size := 2 * SLOT)];
    SoundParts(start, d0, inodes1, g);
    ApartLow(start, g, d0, d1, c);
    NodesAgain(start, d0, inodes0, refs0, spots, tree, d1, inodes, g, c, DotSpots(), NewDir(c, d));
    forall j | j in refs0 && j in g.refs && j != c ensures |g.refs[j]| == REFS ==> TableOf(d1, g.refs[j]) == TableOf(d0, refs0[j]) {
      SameTable(start, g, d0, d1, c, j);
    }
  }

  lemma KeptNeeds(d0: Disk, d1: Disk, refs0: map<int, seq<int>>, refs: map<int, seq<int>>, d: int, c: int)
    requires d in refs0 && d in refs && d != c
    requires forall j :: j in refs0 && j != c ==> j in refs
    requires Kept(d0, d1, refs0[c := NoRefs()], refs, c)
    ensures NeedsBlock(d0, refs0, d) == NeedsBlock(d1, refs, d)
  {
    assert refs[d] == refs0[c := NoRefs()][d];
  }

  lemma DirOf(disk: Disk, n: Inode, refs: seq<int>, spot: map<Name, Spot>, self: int, parent: int)
    requires DirAt(disk, n, refs, spot, self, parent)
    ensures |refs| == REFS && DirOk(TableOf(disk, refs), spot, self, parent) && n.size == SLOT * Total(TableOf(disk, refs))
  {
  }

  /** A name of the tree's map is in its slot. */
  lemma ItemHere(t: Table, spot: map<Name, Spot>, items: map<Name, Item>, n: Name)
    requires TableOk(t, spot) && Items(t, spot) == items && n in items
    ensures n in spot && SpotOk(t, spot, n) && t[spot[n].b][spot[n].e].ino == items[n].ino
  {
    assert SpotOk(t, spot, n);
    assert items[n] == Item(Held(t, spot, n).ino, Held(t, spot, n).kind);
  }

  lemma ChildrenDistinct(t: Table, spot: map<Name, Spot>, tree: Tree, home: map<int, Home>, depth: map<int, nat>, d: int, parent: int)
    requires DirOk(t, spot, d, parent) && Rooted(tree, home, depth) && d in tree && tree[d].Dir? && Items(t, spot) == tree[d].items
    ensures InosDistinct(t)
  {
    hide TableOk, Items, Total;
    forall b, e, c, f | 0 <= b < |t| && 0 <= e < |t[b]| && 0 <= c < |t| && 0 <= f < |t[c]| && Twins(t[b][e], t[c][f])
      ensures b == c && e == f
    {
      var m, n := t[b][e].name, t[c][f].name;
      SpotHere(t, spot, d, parent, b, e);
      SpotHere(t, spot, d, parent, c, f);
      ItemsCount(t, spot, d, parent);
      ItemHere(t, spot, tree[d].items, m);
      ItemHere(t, spot, tree[d].items, n);
      assert ItemOk(tree, home, d, m) && ItemOk(tree, home, d, n);
    }
  }

  lemma ChildFound(t: Table, spot: map<Name, Spot>, tree: Tree, home: map<int, Home>, depth: map<int, nat>, d: int, parent: int,
                   n: Name, found: bool, m: Name)
    requires DirOk(t, spot, d, parent) && Rooted(tree, home, depth) && d in tree && tree[d].Dir? && Items(t, spot) == tree[d].items
    requires n in tree[d].items && !Dots(n)
    requires !found ==> NoChild(t, tree[d].items[n].ino, DIR_BLOCKS)
    requires found ==> m in spot && !Dots(m) && SpotOk(t, spot, m) && t[spot[m].b][spot[m].e].ino == tree[d].items[n].ino
    ensures found && m == n
  {
    hide Items, Total;
    ItemsCount(t, spot, d, parent);
    ItemHere(t, spot, tree[d].items, n);
    if found {
      ItemHere(t, spot, tree[d].items, m);
      assert ItemOk(tree, home, d, m) && ItemOk(tree, home, d, n);
    }
  }

  /** The directory stands for its map without the name, and everything else for what it did. */
  lemma Unlinked(start: int, d0: Disk, inodes0: map<int, Inode>, g0: Ledger, d1: Disk, inodes: map<int, Inode>, g: Ledger,
                 spots: map<int, map<Name, Spot>>, tree: Tree, d: int, parent: int, n: Name)
    requires Sound(start, d0, inodes0, g0) && Nodes(d0, inodes0, g0.refs, spots, tree) && d in tree && tree[d].Dir?
    requires d in g0.refs && |g0.refs[d]| == REFS && d in inodes0 && d in spots && DOTDOT in tree[d].items
    requires NodeOk(d0, inodes0[d], g0.refs[d], spots[d], d, tree[d]) && parent == tree[d].items[DOTDOT].ino
    requires n in spots[d] && !Dots(n) && SpotOk(TableOf(d0, g0.refs[d]), spots[d], n)
    requires Entered(start, d0, inodes0, g0, d1, inodes, g, d, Removed(TableOf(d0, g0.refs[d]), spots[d][n]), inodes0[d].size - SLOT)
    ensures Sound(start, d1, inodes, g)
    ensures Nodes(d1, inodes, g.refs, spots[d := spots[d] - {n}], tree[d := Dir(tree[d].items - {n})])
  {
    hide Sound, Owned, TableOk, Total, Items, TableOf, Nodes, Apart, Removed;
    var t := TableOf(d0, g0.refs[d]);
    RemovedKeeps(t, spots[d], d, parent, n);
    SoundParts(start, d0, inodes0, g0);
    SoundParts(start, d1, inodes, g);
    NodesAgain(start, d0, inodes0, g0.refs, spots, tree, d1, inodes, g, d, spots[d] - {n}, Dir(tree[d].items - {n}));
  }

  lemma ChildNotRoot(t: Tree, home: map<int, Home>, depth: map<int, nat>, d: int, n: Name)
    requires Rooted(t, home, depth) && d in t && t[d].Dir? && n in t[d].items && !Dots(n)
    ensures t[d].items[n].ino in t && t[d].items[n].ino != 0 && t[d].items[n].kind == KindOf(t[t[d].items[n].ino])
  {
    assert ItemOk(t, home, d, n);
  }

  lemma ReleasedNodes(disk: Disk, inodes: map<int, Inode>, refs: map<int, seq<int>>,
                      spots: map<int, map<Name, Spot>>, tree: Tree, c: int)
    requires Nodes(disk, inodes, refs, spots, tree)
    ensures Nodes(disk, inodes - {c}, refs - {c}, spots, tree - {c})
  {
    hide NodeOk;
    var i1, r1, t1 := inodes - {c}, refs - {c}, tree - {c};
    forall i | i in t1 ensures NodeAt(disk, i1, r1, spots, t1, i) { assert NodeAt(disk, inodes, refs, spots, tree, i); }
  }

  lemma ReleasedBits(bits: seq<bool>, t0: Tree, t: Tree, c: int)
    requires InodesOk(bits, t0) && c in t0 && t.Keys == t0.Keys - {c}
    ensures 0 <= c < |bits| && InodesOk(bits[c := false], t)
  {
    assert forall i :: i in t <==> i in t.Keys;
    assert forall i :: i in t0 <==> i in t0.Keys;
  }

  lemma SameSize<T>(a: set<T>, b: set<T>)
    requires a <= b && |a| == |b|
    ensures a == b
  {
    assert b == a + (b - a);
  }

  /** A directory of 48 bytes has only the dots, and then only its first block. */
  lemma EmptyDir(start: int, disk: Disk, inodes: map<int, Inode>, g: Ledger, spot: map<Name, Spot>,
                 tree: Tree, home: map<int, Home>, depth: map<int, nat>, c: int)
    requires Sound(start, disk, inodes, g) && c in inodes && c in g.refs && |g.refs[c]| == REFS
    requires Rooted(tree, home, depth) && c in tree && tree[c].Dir? && DOTDOT in tree[c].items
    requires DirAt(disk, inodes[c], g.refs[c], spot, c, tree[c].items[DOTDOT].ino)
    requires tree[c].items.Keys == spot.Keys && |tree[c].items| == Total(TableOf(disk, g.refs[c]))
    ensures inodes[c].size == 2 * SLOT <==> tree[c].items.Keys == {DOT, DOTDOT}
    ensures |inodes[c].sectors| == 13
    ensures inodes[c].size == 2 * SLOT ==> forall b :: 1 <= b < 13 ==> inodes[c].sectors[b] == 0
  {
    hide Sound, Owned, TableOf, TableOk, Total;
    var items := tree[c].items;
    assert DotsOk(tree, c);
    if |items| == 2 { SameSize({DOT, DOTDOT}, items.Keys); }
    InodeOf(start, disk, inodes, g, c, 0);
    if items.Keys == {DOT, DOTDOT} {
      assert |items.Keys| == 2;
      forall b | 1 <= b < 13 ensures inodes[c].sectors[b] == 0 {
        if b == 12 { TableSlot(start, disk, inodes, g, c); }
        else { OnlyFirst(start, disk, inodes, g, spot, c, items[DOTDOT].ino, b); }
      }
    }
  }

  lemma TableSlot(start: int, disk: Disk, inodes: map<int, Inode>, g: Ledger, c: int)
    requires Sound(start, disk, inodes, g) && c in inodes
    ensures c in g.refs && |g.refs[c]| == REFS && |inodes[c].sectors| == 13 && inodes[c].sectors[12] == g.refs[c][TABLE]
  {
    assert Linked(disk, inodes[c], g.refs[c]);
    assert g.refs[c][TABLE] == Ref(disk, inodes[c], TABLE);
  }

  lemma OnlyFirst(start: int, disk: Disk, inodes: map<int, Inode>, g: Ledger, spot: map<Name, Spot>, c: int, parent: int, b: int)
    requires Sound(start, disk, inodes, g) && c in inodes && c in g.refs && |g.refs[c]| == REFS && 1 <= b < DIR_BLOCKS
    requires DirAt(disk, inodes[c], g.refs[c], spot, c, parent) && spot.Keys == {DOT, DOTDOT}
    ensures |inodes[c].sectors| == 13 && inodes[c].sectors[b] == 0
  {
    hide Sound, TableOk, TableOf, Total, LiveIn;
    var t := TableOf(disk, g.refs[c]);
    InodeOf(start, disk, inodes, g, c, b);
    BlockOf(start, disk, inodes, g, c, b);
    if t[b] != [] {
      LiveNone(t[b]);
      var e :| 0 <= e < |t[b]| && Live(t[b][e]);
      DotsFirst(t, spot, c, parent, b, e);
      SpotHere(t, spot, c, parent, b, e);
      assert false;
    }
  }

  // ---------------------------------------------------------------- the inode table

  lemma {:induction false} TotalAtMost(t: Table)
    requires forall b :: 0 <= b < |t| ==> |t[b]| <= PER_SECTOR
    ensures Total(t) <= PER_SECTOR * |t|
    decreases |t|
  {
    if t != [] {
      LiveAll(t[|t| - 1]);
      TotalAtMost(t[..|t| - 1]);
    }
  }

  /** The size of a node fits in a word. */
  lemma SizeFits(disk: Disk, n: Inode, refs: seq<int>, spot: map<Name, Spot>, i: int, x: Node)
    requires NodeOk(disk, n, refs, spot, i, x)
    ensures 0 <= n.size < WORD_LIMIT
  {
    hide Content, Items;
    if x.Dir? {
      TableShape(TableOf(disk, refs), spot);
      TotalAtMost(TableOf(disk, refs));
    }
  }

  /** Work in the inode table leaves every node alone. */
  lemma HighNodes(start: int, d0: Disk, d1: Disk, inodes: map<int, Inode>, g: Ledger,
                  spots: map<int, map<Name, Spot>>, tree: Tree)
    requires Owned(start, g) && HighSame(start, d0, d1) && Nodes(d0, inodes, g.refs, spots, tree)
    ensures Nodes(d1, inodes, g.refs, spots, tree)
  {
    hide Owned, HighSame;
    forall i | i in tree ensures NodeAt(d1, inodes, g.refs, spots, tree, i) {
      assert NodeAt(d0, inodes, g.refs, spots, tree, i);
      HighNode(start, d0, d1, g, i, inodes[i], spots[i], tree[i]);
    }
  }

  lemma HighNode(start: int, d0: Disk, d1: Disk, g: Ledger, i: int, n: Inode, spot: map<Name, Spot>, x: Node)
    requires Owned(start, g) && HighSame(start, d0, d1) && i in g.refs && NodeOk(d0, n, g.refs[i], spot, i, x)
    ensures NodeOk(d1, n, g.refs[i], spot, i, x)
  {
    hide Owned, TableOf, Content, HighSame;
    if x.File? { HighContent(start, d0, d1, g, i, n.size); }
    else { HighTable(start, d0, d1, g, i); }
  }

  lemma HighTable(start: int, d0: Disk, d1: Disk, g: Ledger, i: int)
    requires Owned(start, g) && HighSame(start, d0, d1) && i in g.refs && |g.refs[i]| == REFS
    ensures TableOf(d1, g.refs[i]) == TableOf(d0, g.refs[i])
  {
    OwnRefs(start, g, i);
    forall b | 0 <= b < DIR_BLOCKS ensures TableOf(d1, g.refs[i])[b] == TableOf(d0, g.refs[i])[b] { }
  }

  /** Numbers that survive their way through eight bits. */
  ghost predicate Small(tree: Tree) { forall i :: i in tree ==> 0 <= i < 256 }

  // ---------------------------------------------------------------- the file table

  const MAX_OPEN: int := 32              // MAX_FILE_OPEN

  /** A slot of `file_table`: free, on an inode, or a pipe's. */
  datatype FileSlot = Unused | OnInode(ino: int) | OnPipe

  /** `get_free_slot_in_global` from slot `g` on: the length of the table when there is none. */
  function FreeFrom(files: seq<FileSlot>, g: int): (r: int)
    requires 0 <= g <= |files|
    ensures g <= r <= |files| && (r < |files| ==> files[r] == Unused) && forall h :: g <= h < r ==> files[h] != Unused
    decreases |files| - g
  {
    if g == |files| || files[g] == Unused then g else FreeFrom(files, g + 1)
  }

  /** The first free slot is now on the inode. */
  ghost predicate SlotTaken(files0: seq<FileSlot>, files: seq<FileSlot>, g: int, i: int) {
    |files0| == MAX_OPEN && 3 <= g < MAX_OPEN && g == FreeFrom(files0, 3) && files == files0[g := OnInode(i)]
  }

  ghost predicate HasSlot(files: seq<FileSlot>) { exists g :: 3 <= g < |files| && files[g] == Unused }

  /** The file is open somewhere. */
  ghost predicate IsOpen(files: seq<FileSlot>, i: int) { exists g :: 0 <= g < |files| && files[g] == OnInode(i) }

  /** Open files are files of the tree. */
  ghost predicate FilesOk(files: seq<FileSlot>, tree: Tree) {
    |files| == MAX_OPEN && forall g :: 0 <= g < |files| && files[g].OnInode? ==> files[g].ino in tree && tree[files[g].ino].File?
  }

  class FileSystem {
    const p: Partition
    const lba: int                       // inode_table_lba
    var inodeBits: seq<bool>
    var files: seq<FileSlot>             // file_table
    ghost var tree: Tree
    ghost var spots: map<int, map<Name, Spot>>
    ghost var home: map<int, Home>
    ghost var depth: map<int, nat>

    /** Sectors, bitmaps and inodes stand for the nodes. */
    ghost predicate Core()
      reads this, p
    {
      && p.Valid() && InodesOk(inodeBits, tree) && Nodes(p.disk, p.inodes, p.refs, spots, tree)
      && AreaOk(p.disk, lba, p.start)
    }

    /** And the nodes are a tree, whose inodes can all be read back from the table. */
    ghost predicate Valid()
      reads this, p
    {
      Core() && Rooted(tree, home, depth) && FilesOk(files, tree) && Small(tree) && TabledBut(p.disk, lba, p.inodes, {})
    }

    /** A partition that holds the root directory only, as `partition_format` leaves it. */
    constructor (q: Partition, lba: int, ghost spot: map<Name, Spot>)
      requires q.Valid() && q.inodes.Keys == {0} && IsDir(q, 0, spot, 0)
      requires Items(TableOf(q.disk, q.refs[0]), spot) == NewDir(0, 0).items
      requires AreaOk(q.disk, lba, q.start) && InSlot(q.disk, lba, 0, 0, q.inodes[0])
      ensures p == q && this.lba == lba && Valid() && tree == map[0 := NewDir(0, 0)] && files == seq(MAX_OPEN, g => Unused)
    {
      hide Sound, DirAt, Items, Rooted;
      FreshRooted();
      FreshNodes(q.disk, q.inodes, q.refs, spot);
      p := q;
      this.lba := lba;
      inodeBits := seq(MAX_FILES, i => i == 0);
      files := seq(MAX_OPEN, g => Unused);
      tree := map[0 := NewDir(0, 0)];
      spots := map[0 := spot];
      home := map[];
      depth := map[0 := 0];
    }

    // ---------------------------------------------------------------- inodes on disk

    /** One or two sectors are read, 76 bytes overwritten, and the sectors written back. */
    method PutSlot(s: int, bytes: seq<Byte>)
      requires Core() && 0 <= s < MAX_FILES && |bytes| == IT.INODE
      modifies p`disk
      ensures Core() && |p.disk| == |old(p.disk)|
      ensures forall m :: 0 <= m < MAX_FILES ==> IT.Slot(p.disk, lba, m) == if m == s then bytes else old(IT.Slot(p.disk, lba, m))
    {
      hide Sound, Owned, Nodes, InodesOk, HighSame, IT.Slot, DiskOk;
      ghost var d0 := p.disk;
      StoreArea(p.disk, lba, p.start, s, bytes);
      p.disk := IT.WriteSlot(p.disk, lba, s, bytes);
      SoundParts(p.start, d0, p.inodes, p.Book());
      AreaDisk(p.disk, lba, p.start);
      HighSound(p.start, d0, p.disk, p.inodes, p.Book());
      HighNodes(p.start, d0, p.disk, p.inodes, p.Book(), spots, tree);
    }

    /** `inode_sync`: the number is held in eight bits. */
    method InodeSync(i: int, ghost D: set<int>)
      requires Core() && i in tree
      modifies p`disk
      ensures Core() && i in p.inodes && InSlot(p.disk, lba, i % 256, i, p.inodes[i]) && |p.disk| == |old(p.disk)|
      ensures old(TabledBut(p.disk, lba, p.inodes, D)) && i < 256 ==> TabledBut(p.disk, lba, p.inodes, D - {i})
    {
      hide Sound, Nodes, InodesOk, AreaOk, NodeOk, IT.Slot, IT.FromSlot, IT.ToSlot, IT.Storable;
      InRange(inodeBits, tree, i);
      NodeFits(p.start, p.disk, p.inodes, p.Book(), spots, tree, i);
      var n := Stored(i, p.inodes[i]);
      IT.FromToSlot(n);
      AllInRange(inodeBits, tree, p.disk, p.inodes, p.refs, spots);
      PutSlot(i % 256, IT.ToSlot(n));
      if old(TabledBut(p.disk, lba, p.inodes, D)) && i < 256 {
        forall j | j in p.inodes && j !in D - {i} ensures InSlot(p.disk, lba, j, j, p.inodes[j]) {
          if j != i { assert old(InSlot(p.disk, lba, j, j, p.inodes[j])); }
        }
      }
    }

    /** `inode_delete`, with the whole number. */
    method InodeDelete(c: int)
      requires Core() && 0 <= c < MAX_FILES && c !in tree
      modifies p`disk
      ensures Core() && |p.disk| == |old(p.disk)|
      ensures old(TabledBut(p.disk, lba, p.inodes, {})) ==> TabledBut(p.disk, lba, p.inodes, {})
    {
      hide Sound, Nodes, InodesOk, AreaOk, IT.Slot, IT.FromSlot;
      AllInRange(inodeBits, tree, p.disk, p.inodes, p.refs, spots);
      PutSlot(c, seq<Byte>(IT.INODE, j => 0));
      if old(TabledBut(p.disk, lba, p.inodes, {})) {
        forall j | j in p.inodes ensures InSlot(p.disk, lba, j, j, p.inodes[j]) { assert old(InSlot(p.disk, lba, j, j, p.inodes[j])); }
      }
    }

    /** `inode_open` of an inode that nobody has open: the slot of its number holds exactly that inode. */
    method InodeFromDisk(i: int) returns (n: IT.Inode)
      requires Valid() && i in tree
      ensures i in p.inodes && n == Stored(i, p.inodes[i])
    {
      hide Sound, Rooted, InodesOk, NodeOk, IT.Slot, IT.FromSlot;
      NodeIn(p.disk, p.inodes, p.refs, spots, tree, i);
      assert InSlot(p.disk, lba, i, i, p.inodes[i]);
      n := IT.FromSlot(IT.Slot(p.disk, lba, i));
    }

    // ---------------------------------------------------------------- pieces of the calls

    /** `inode_bitmap_alloc`: the least free number. */
    method InodeAlloc() returns (r: Outcome<int>)
      requires Core()
      modifies `inodeBits
      ensures r.Panic? <==> AllTaken(tree)
      ensures r.Go? ==> Least(tree, r.s) && |old(inodeBits)| == MAX_FILES && inodeBits == old(inodeBits)[r.s := true]
    {
      hide Sound, Nodes;
      FitOne(inodeBits);
      match FirstFit(inodeBits, 1)
      case NoFit => r := Panic;
      case Start(c) =>
        inodeBits := inodeBits[c := true];
        r := Go(c);
    }

    /** `inode_init`: the number becomes an empty file outside the tree. */
    method InodeInit(c: int, ghost bits0: seq<bool>)
      requires p.Valid() && InodesOk(bits0, tree) && Nodes(p.disk, p.inodes, p.refs, spots, tree) && AreaOk(p.disk, lba, p.start)
      requires Least(tree, c) && inodeBits == bits0[c := true]
      modifies `tree, `spots, p`inodes, p`refs
      ensures Core() && p.inodes == old(p.inodes)[c := NEW_INODE] && p.refs == old(p.refs)[c := NoRefs()]
      ensures tree == old(tree)[c := File([])] && spots == old(spots)[c := map[]]
    {
      hide Sound, NodeAt;
      EnterSound(p.start, p.disk, p.inodes, p.Book(), c);
      EnterNodes(p.disk, p.inodes, p.refs, spots, tree, c);
      EnterBits(bits0, tree, c, File([]));
      p.inodes := p.inodes[c := NEW_INODE];
      p.refs := p.refs[c := NoRefs()];
      tree := tree[c := File([])];
      spots := spots[c := map[]];
    }

    /** The first block of a new directory, with the two dots. */
    method MakeDots(c: int, d: int) returns (panic: bool)
      requires p.Valid() && Nodes(p.disk, p.inodes, p.refs, spots, tree) && c in tree && 0 < c < MAX_FILES && 0 <= d < MAX_FILES
      requires c in p.inodes && c in p.refs && p.inodes[c] == NEW_INODE && p.refs[c] == NoRefs()
      modifies p, `spots, `tree
      ensures panic <==> Free(old(p.bits)) == 0
      ensures !panic ==>
                && p.Valid() && Nodes(p.disk, p.inodes, p.refs, spots, tree) && tree == old(tree)[c := NewDir(c, d)]
                && Free(p.bits) == Free(old(p.bits)) - 1 && c in p.inodes && p.inodes == old(p.inodes)[c := p.inodes[c]]
                && p.refs.Keys == old(p.refs).Keys && Kept(old(p.disk), p.disk, old(p.refs), p.refs, c)
                && LowSame(p.start, old(p.disk), p.disk)
                && p.inodes[c] == DotInode(FirstFree(p.start, old(p.bits)))
    {
      hide Sound, Nodes, Free, Kept, FirstFree;
      ghost var d0, inodes0, refs0 := p.disk, p.inodes, p.refs;
      panic := NewBlock(p, c, 0);
      if panic { return; }
      NewLba(p.start, p.disk, p.inodes, p.Book(), c);
      assert p.inodes[c].sectors[0] - p.start != 0;
      var s := DotSector(c, d);
      ghost var inodes1 := p.inodes;
      p.disk := p.disk[p.inodes[c].sectors[0] := s];
      p.inodes := p.inodes[c := p.inodes[c].(size := 2 * SLOT)];
      DotsWritten(p.start, d0, inodes0, refs0, inodes1, p.Book(), spots, tree, c, d, s);
      spots := spots[c := DotSpots()];
      tree := tree[c := NewDir(c, d)];
    }

    /** The new entry of a directory: `create_dir_entry` and `sync_dir_entry`. */
    method Link(d: int, n: Name, c: int, kind: int) returns (panic: bool)
      requires p.Valid() && Nodes(p.disk, p.inodes, p.refs, spots, tree) && d in tree && tree[d].Dir?
      requires NameOk(n) && n !in tree[d].items && |tree[d].items| < 252
      requires 0 <= c < MAX_FILES && 1 <= kind <= DIRECTORY
      modifies p, `spots, `tree
      ensures panic <==> NeedsBlock(old(p.disk), old(p.refs), d) && Free(old(p.bits)) == 0
      ensures !panic ==>
                && p.Valid() && Nodes(p.disk, p.inodes, p.refs, spots, tree)
                && tree == old(tree)[d := Dir(old(tree)[d].items[n := Item(c, kind)])]
                && Free(p.bits) == Free(old(p.bits)) - (if NeedsBlock(old(p.disk), old(p.refs), d) then 1 else 0)
                && d in p.inodes && p.inodes == old(p.inodes)[d := p.inodes[d]] && LowSame(p.start, old(p.disk), p.disk)
                && d in old(p.inodes) && SameFirst(old(p.inodes)[d], p.inodes[d])
    {
      hide Sound, DirAt, Items, Total, Entered, Nodes, TableOf, LowSame;
      DirParts(p.disk, p.inodes, p.refs, spots, tree, d);
      ghost var parent := tree[d].items[DOTDOT].ino;
      ghost var d0, inodes0, refs0 := p.disk, p.inodes, p.refs;
      var x := Entry(n, c, kind);
      ghost var s;
      panic, s := SyncDirEntry(p, d, x, spots[d], parent);
      if panic { return; }
      ghost var g0 := Ledger(old(p.bits), refs0, old(p.owner));
      EnteredLow(p.start, d0, inodes0, g0, p.disk, p.inodes, p.Book(), d, Inserted(TableOf(d0, refs0[d]), s, x), inodes0[d].size + SLOT);
      FirstStays(p.start, d0, inodes0, g0, p.disk, p.inodes, p.Book(), d, Inserted(TableOf(d0, refs0[d]), s, x), inodes0[d].size + SLOT, spots[d], parent);
      EntryLinked(p.start, d0, inodes0, g0, p.disk, p.inodes, p.Book(), spots, tree, d, parent, s, x);
      spots := spots[d := spots[d][n := s]];
      tree := tree[d := Dir(tree[d].items[n := Item(c, kind)])];
    }

    /** `delete_dir_entry` for the child `n` of directory `d`, up to the sync of the directory's inode. */
    method DropEntry(d: int, ghost n: Name, c: int)
      requires Core() && Rooted(tree, home, depth)
      requires d in tree && tree[d].Dir? && n in tree[d].items && !Dots(n) && tree[d].items[n].ino == c
      modifies p, `spots, `tree
      ensures p.Valid() && Nodes(p.disk, p.inodes, p.refs, spots, tree)
      ensures tree == old(tree)[d := Dir(old(tree)[d].items - {n})] && Free(p.bits) >= Free(old(p.bits))
      ensures d in p.inodes && p.inodes == old(p.inodes)[d := p.inodes[d]] && LowSame(p.start, old(p.disk), p.disk)
      ensures d in old(p.inodes) && SameFirst(old(p.inodes)[d], p.inodes[d])
    {
      hide Sound, Rooted, Nodes, DirAt, DirOk, InodesOk, Entered, Removed, Items, TableOf, InosDistinct, NoChild, LowSame, AreaOk;
      DirParts(p.disk, p.inodes, p.refs, spots, tree, d);
      ghost var parent := tree[d].items[DOTDOT].ino;
      ghost var t := TableOf(p.disk, p.refs[d]);
      DirOf(p.disk, p.inodes[d], p.refs[d], spots[d], d, parent);
      ChildrenDistinct(t, spots[d], tree, home, depth, d, parent);
      ghost var d0, inodes0, g0 := p.disk, p.inodes, p.Book();
      ghost var m;
      var found;
      found, m := DeleteDirEntry(p, d, c, spots[d], parent);
      ChildFound(t, spots[d], tree, home, depth, d, parent, n, found, m);
      EnteredLow(p.start, d0, inodes0, g0, p.disk, p.inodes, p.Book(), d, Removed(t, spots[d][n]), inodes0[d].size - SLOT);
      FirstStays(p.start, d0, inodes0, g0, p.disk, p.inodes, p.Book(), d, Removed(t, spots[d][n]), inodes0[d].size - SLOT, spots[d], parent);
      Unlinked(p.start, d0, inodes0, g0, p.disk, p.inodes, p.Book(), spots, tree, d, parent, n);
      spots := spots[d := spots[d] - {n}];
      tree := tree[d := Dir(tree[d].items - {n})];
    }

    /** `delete_dir_entry` for the child `n` of directory `d`. */
    method DeleteEntry(d: int, ghost n: Name, c: int)
      requires Core() && Rooted(tree, home, depth) && Small(tree) && TabledBut(p.disk, lba, p.inodes, {})
      requires d in tree && tree[d].Dir? && n in tree[d].items && !Dots(n) && tree[d].items[n].ino == c
      modifies p, `spots, `tree
      ensures Core() && TabledBut(p.disk, lba, p.inodes, {})
      ensures tree == old(tree)[d := Dir(old(tree)[d].items - {n})] && Free(p.bits) >= Free(old(p.bits))
      ensures d in old(p.inodes) && d in p.inodes && p.inodes == old(p.inodes)[d := p.inodes[d]] && SameFirst(old(p.inodes)[d], p.inodes[d])
    {
      hide Sound, Rooted, Nodes, InodesOk, AreaOk, TabledBut, Free, LowSame, Small;
      ghost var t0, d0, inodes0 := tree, p.disk, p.inodes;
      AllInRange(inodeBits, tree, p.disk, p.inodes, p.refs, spots);
      SmallIs(tree, d);
      DropEntry(d, n, c);
      SameInodes(inodeBits, t0, tree);
      TabledStays(d0, p.disk, lba, p.start, inodes0, p.inodes, {d});
      AreaStays(d0, p.disk, lba, p.start, p.inodes, p.Book());
      InodeSync(d, {d});
      assert {d} - {d} == {};
    }

    /** `delete_dir_entry` and `inode_release` for the child `n` of directory `d`. */
    method Remove(d: int, ghost n: Name, c: int)
      requires Valid() && d in tree && tree[d].Dir? && n in tree[d].items && !Dots(n) && tree[d].items[n].ino == c
      requires c in tree && (tree[c].File? || tree[c].items.Keys == {DOT, DOTDOT}) && !IsOpen(files, c)
      modifies p, `inodeBits, `spots, `tree
      ensures Valid() && tree == Prune(old(tree), d, n) && Free(p.bits) >= Free(old(p.bits)) && InodeCut(old(p.inodes), p.inodes, d, c)
    {
      hide Sound, Rooted, Nodes, InodesOk, AreaOk, TabledBut, Free, Small, FilesOk, IsOpen;
      ghost var t0 := tree;
      PruneRooted(tree, home, depth, d, n);
      assert c != 0 by { ChildNotRoot(t0, home, depth, d, n); }
      DeleteEntry(d, n, c);
      ReleasedFiles(files, t0, tree - {c}, d, c);
      Release(c);
    }

    /** `inode_release` of an inode that nothing in the tree names any more. */
    method Release(c: int)
      requires Core() && TabledBut(p.disk, lba, p.inodes, {}) && c in tree && c != 0
      modifies p, `inodeBits, `tree
      ensures Core() && TabledBut(p.disk, lba, p.inodes, {}) && tree == old(tree) - {c} && Free(p.bits) >= Free(old(p.bits))
      ensures c !in p.inodes && |inodeBits| == MAX_FILES && 0 <= c < MAX_FILES && !inodeBits[c]
      ensures c in old(p.inodes) && p.inodes == old(p.inodes) - {c}
    {
      hide Sound, Nodes, AreaOk, TabledBut, Free;
      ghost var t0 := tree;
      NodeIn(p.disk, p.inodes, p.refs, spots, tree, c);
      ReleasedNodes(p.disk, p.inodes, p.refs, spots, tree, c);
      assert (tree - {c}).Keys == t0.Keys - {c};
      ReleasedBits(inodeBits, t0, tree - {c}, c);
      ReleasedTable(p.disk, lba, p.inodes, c);
      p.InodeRelease(c);
      inodeBits := inodeBits[c := false];
      tree := tree - {c};
      InodeDelete(c);
    }

    /** `search_dir_entry`: the directory's map. */
    method Lookup(d: int, n: Name) returns (r: Option<Item>)
      requires Valid() && d in tree && tree[d].Dir? && NameOk(n)
      ensures r == if n in tree[d].items then Some(tree[d].items[n]) else None
    {
      hide Sound, Rooted, Nodes, DirAt, InodesOk, TableOf, TableOk, AreaOk, TabledBut;
      DirParts(p.disk, p.inodes, p.refs, spots, tree, d);
      var x := SearchDirEntry(p, d, n, spots[d], tree[d].items[DOTDOT].ino);
      r := if x.Some? then Some(Item(x.v.ino, x.v.kind)) else None;
    }

    // ---------------------------------------------------------------- the calls

    /** `file_write` on an inode: its bytes in the tree, and nothing else, get the buffer appended. */
    method Write(i: int, buf: seq<Byte>) returns (r: Outcome<int>)
      requires Valid() && i in tree && tree[i].File? && |tree[i].bytes| + |buf| < WORD_LIMIT
      modifies this, p
      ensures r == Go(-1) <==> |old(tree)[i].bytes| + |buf| > MAX_BYTES
      ensures r.Panic? <==> || |old(tree)[i].bytes| + |buf| == MAX_BYTES
                            || (|old(tree)[i].bytes| + |buf| < MAX_BYTES && Free(old(p.bits)) < Needed(old(p.inodes[i]), |buf|))
      ensures r.Go? ==> Valid() && inodeBits == old(inodeBits) && files == old(files)
      ensures r == Go(-1) ==> tree == old(tree) && p.inodes == old(p.inodes)
      ensures r.Go? ==> i in p.inodes && p.inodes == old(p.inodes)[i := p.inodes[i]]
      ensures r.Go? && r.s != -1 ==> r.s == |buf| && tree == old(tree)[i := File(old(tree)[i].bytes + buf)]
      ensures r.Go? ==> i in old(p.inodes) && |old(p.inodes)[i].sectors| == 13
                        && Free(p.bits) == Free(old(p.bits)) - (if r.s == -1 then 0 else Needed(old(p.inodes[i]), |buf|))
    {
      hide Sound, Content, Rooted, InodesOk, AreaOk, TabledBut, LowSame, Small, FilesOk, Free, Needed;
      NodeFile(p.disk, p.inodes, p.refs, spots, tree, i);
      assert i != 0 by { RootIsDir(tree, home, depth); }
      InodeOf(p.start, p.disk, p.inodes, p.Book(), i, 0);
      AllInRange(inodeBits, tree, p.disk, p.inodes, p.refs, spots);
      SmallIs(tree, i);
      ghost var inodes0, refs0, d0, t0 := p.inodes, p.refs, p.disk, tree;
      var pos;
      r, pos := p.FileWrite(i, buf);
      if r.Go? && r.s != -1 {
        WriteDone(d0, inodes0, refs0, t0, i, buf);
        tree := tree[i := File(tree[i].bytes + buf)];
        InodeSync(i, {i});
        assert {i} - {i} == {};
      }
    }

    /** What `file_write` leaves to be synced. */
    lemma WriteDone(d0: Disk, inodes0: map<int, Inode>, refs0: map<int, seq<int>>, t0: Tree, i: int, buf: seq<Byte>)
      requires p.Valid() && InodesOk(inodeBits, t0) && Nodes(d0, inodes0, refs0, spots, t0) && Rooted(t0, home, depth)
      requires FilesOk(files, t0) && Small(t0) && TabledBut(d0, lba, inodes0, {}) && AreaOk(d0, lba, p.start)
      requires i in t0 && t0[i].File? && i in p.inodes && i in p.refs && p.inodes == inodes0[i := p.inodes[i]] && p.refs == refs0[i := p.refs[i]]
      requires FileShape(p.inodes[i].size, p.refs[i]) && Content(p.disk, p.inodes[i].size, p.refs[i]) == t0[i].bytes + buf
      requires Apart(p.owner, d0, p.disk, i) && i in spots
      ensures var t := t0[i := File(t0[i].bytes + buf)];
              && InodesOk(inodeBits, t) && Nodes(p.disk, p.inodes, p.refs, spots, t) && AreaOk(p.disk, lba, p.start)
              && Rooted(t, home, depth) && FilesOk(files, t) && Small(t) && TabledBut(p.disk, lba, p.inodes, {i})
    {
      hide Sound, Content, Rooted, InodesOk, AreaOk, TabledBut, LowSame, FilesOk, Nodes, FileShape;
      var x := File(t0[i].bytes + buf);
      var t := t0[i := x];
      AllInRange(inodeBits, t0, d0, inodes0, refs0, spots);
      SoundParts(p.start, p.disk, p.inodes, p.Book());
      NodesAgain(p.start, d0, inodes0, refs0, spots, t0, p.disk, p.inodes, p.Book(), i, spots[i], x);
      WriteRooted(t0, home, depth, i, x);
      assert spots[i := spots[i]] == spots;
      SameInodes(inodeBits, t0, t);
      SameFiles(files, t0, t);
      ApartLow(p.start, p.Book(), d0, p.disk, i);
      TabledStays(d0, p.disk, lba, p.start, inodes0, p.inodes, {i});
      AreaStays(d0, p.disk, lba, p.start, p.inodes, p.Book());
    }

    /** `file_read` on an inode: the bytes of the tree. */
    method Read(i: int, pos: int, count: int) returns (r: Outcome<Option<seq<Byte>>>, next: int)
      requires Valid() && i in tree && tree[i].File? && PosOk(|tree[i].bytes|, pos, count)
      ensures r == Go(None) <==> pos == |tree[i].bytes| && count > 0
      ensures r.Panic? <==> pos == Cursor(0) || (r != Go(None) && ReadEnd(|tree[i].bytes|, pos, count) / BLOCK >= 139)
      ensures r.Go? && r.s.Some? ==> next == ReadEnd(|tree[i].bytes|, pos, count) && r.s.v == tree[i].bytes[pos..next]
    {
      hide Sound, Rooted, InodesOk, AreaOk, TabledBut, Small, FilesOk;
      assert NodeAt(p.disk, p.inodes, p.refs, spots, tree, i);
      r, next := p.FileRead(i, pos, count);
    }

    /** `get_free_slot_in_global`: -1 when there is none. */
    method GetFreeSlot() returns (g: int)
      requires |files| == MAX_OPEN
      ensures g == -1 <==> !HasSlot(files)
      ensures g != -1 ==> 3 <= g < MAX_OPEN && g == FreeFrom(files, 3) && files[g] == Unused
    {
      g := 3;
      while g < MAX_OPEN
        invariant 3 <= g <= MAX_OPEN && FreeFrom(files, 3) == FreeFrom(files, g) && forall h :: 3 <= h < g ==> files[h] != Unused
      {
        if files[g] == Unused { return; }
        g := g + 1;
      }
      g := -1;
    }

    /** `file_open` for reading. */
    method Open(i: int) returns (g: int)
      requires Valid() && i in tree && tree[i].File?
      modifies `files
      ensures Valid() && (g == -1 <==> !HasSlot(old(files)))
      ensures if g == -1 then files == old(files) else SlotTaken(old(files), files, g, i)
    {
      hide Sound, Rooted, InodesOk, AreaOk, TabledBut, Small, Nodes;
      g := GetFreeSlot();
      if g != -1 { files := files[g := OnInode(i)]; }
    }

    /** `file_close` of a file's slot. */
    method Close(g: int)
      requires Valid() && 0 <= g < MAX_OPEN && files[g].OnInode?
      modifies `files
      ensures Valid() && files == old(files)[g := Unused]
    {
      hide Sound, Rooted, InodesOk, AreaOk, TabledBut, Small, Nodes;
      files := files[g := Unused];
    }

    /** The syncs of the directory's inode and of a new one. */
    method SyncBoth(d: int, c: int)
      requires Core() && d in tree && c in tree && 0 <= d < 256 && d != c && TabledBut(p.disk, lba, p.inodes, {d, c})
      modifies p`disk
      ensures Core() && c in p.inodes && InSlot(p.disk, lba, c % 256, c, p.inodes[c])
      ensures c < 256 ==> TabledBut(p.disk, lba, p.inodes, {})
    {
      hide Sound, Nodes, InodesOk, AreaOk, TabledBut, InSlot;
      InodeSync(d, {d, c});
      assert {d, c} - {d} == {c};
      InodeSync(c, {c});
      assert {c} - {c} == {};
    }

    /** What a new inode `c` in directory `d` leaves to be synced. */
    lemma NewDone(d0: Disk, inodes0: map<int, Inode>, refs0: map<int, seq<int>>, bits0: seq<bool>, t0: Tree, d: int, n: Name, c: int, x: Node)
      requires p.Valid() && Nodes(p.disk, p.inodes, p.refs, spots, tree) && InodesOk(inodeBits, t0[c := x])
      requires InodesOk(bits0, t0) && (exists s0 :: Nodes(d0, inodes0, refs0, s0, t0)) && Rooted(t0, home, depth)
      requires FilesOk(files, t0) && TabledBut(d0, lba, inodes0, {}) && AreaOk(d0, lba, p.start) && LowSame(p.start, d0, p.disk)
      requires d in t0 && t0[d].Dir? && n !in t0[d].items && Least(t0, c) && (x.File? || x == NewDir(c, d))
      requires tree == t0[c := x][d := Dir(t0[d].items[n := Item(c, KindOf(x))])]
      requires forall i :: i in p.inodes && i !in {d, c} ==> i in inodes0 && p.inodes[i] == inodes0[i]
      ensures tree == Grow(t0, d, n, c, x) && d in depth && Rooted(tree, home[c := Home(d, n)], depth[c := depth[d] + 1])
      ensures Core() && FilesOk(files, tree) && TabledBut(p.disk, lba, p.inodes, {d, c}) && d != c && d in tree && c in tree
    {
      hide Sound, Nodes, Rooted, InodesOk, AreaOk, TabledBut, LowSame, FilesOk, Grow;
      LeastMeans(t0, c);
      GrowRooted(t0, home, depth, d, n, c, x);
      GrowIs(t0, d, n, c, x);
      SameInodes(inodeBits, t0[c := x], tree);
      SameFiles(files, t0, tree);
      var s0 :| Nodes(d0, inodes0, refs0, s0, t0);
      AllInRange(bits0, t0, d0, inodes0, refs0, s0);
      TabledStays(d0, p.disk, lba, p.start, inodes0, p.inodes, {d, c});
      AreaStays(d0, p.disk, lba, p.start, p.inodes, p.Book());
    }

    /** `file_create` once it has a number and a slot of the file table. */
    method CreateWith(d: int, n: Name, c: int, ghost bits0: seq<bool>) returns (panic: bool)
      requires p.Valid() && InodesOk(bits0, tree) && Nodes(p.disk, p.inodes, p.refs, spots, tree) && AreaOk(p.disk, lba, p.start)
      requires Rooted(tree, home, depth) && FilesOk(files, tree) && Small(tree) && TabledBut(p.disk, lba, p.inodes, {})
      requires d in tree && tree[d].Dir? && NameOk(n) && n !in tree[d].items && |tree[d].items| < 252
      requires Least(tree, c) && inodeBits == bits0[c := true]
      modifies p, `spots, `tree, `home, `depth
      ensures panic <==> NeedsBlock(old(p.disk), old(p.refs), d) && Free(old(p.bits)) == 0
      ensures !panic ==>
                && tree == Grow(old(tree), d, n, c, File([])) && c in tree && tree[c] == File([])
                && Core() && Rooted(tree, home, depth) && FilesOk(files, tree) && (Small(tree) <==> c < 256)
                && (c < 256 ==> TabledBut(p.disk, lba, p.inodes, {}))
                && (c >= 256 ==> c % 256 in tree && c in p.inodes && InSlot(p.disk, lba, c % 256, c, p.inodes[c]))
                && Free(p.bits) == Free(old(p.bits)) - (if NeedsBlock(old(p.disk), old(p.refs), d) then 1 else 0)
                && InodeMade(old(p.inodes), p.inodes, d, c, NEW_INODE)
    {
      hide Sound, Rooted, Nodes, NameOk, InodesOk, NeedsBlock, Least, Grow, AreaOk, TabledBut, LowSame, Small, FilesOk, InSlot, Free, InodeMade, SameFirst;
      ghost var t0, refs0, d0, inodes0 := tree, p.refs, p.disk, p.inodes;
      NodeIn(p.disk, p.inodes, p.refs, spots, tree, d);
      SmallIs(tree, d);
      LeastMeans(t0, c);
      NewNumber(p.disk, p.inodes, p.refs, spots, tree, c);
      InodeInit(c, bits0);
      NeedsSame(p.disk, refs0, p.refs, d);
      panic := Link(d, n, c, REGULAR);
      if panic { return; }
      MadeIs(inodes0, p.inodes, d, c, NEW_INODE);
      NewDone(d0, inodes0, refs0, bits0, t0, d, n, c, File([]));
      home, depth := home[c := Home(d, n)], depth[c := depth[d] + 1];
      SyncBoth(d, c);
      SmallGrown(t0, tree, c);
    }

    /** `file_create` in directory `d`: with no slot left in the file table it gives the number back.  The new file's
        inode is stored under the low byte of its number; the file system is valid exactly when that is the number. */
    method Create(d: int, n: Name) returns (r: Outcome<int>, g: int)
      requires Valid() && d in tree && tree[d].Dir? && NameOk(n) && n !in tree[d].items && |tree[d].items| < 252
      modifies this, p
      ensures r.Panic? <==> || AllTaken(old(tree))
                            || (HasSlot(old(files)) && NeedsBlock(old(p.disk), old(p.refs), d) && Free(old(p.bits)) == 0)
      ensures r == Go(-1) <==> !AllTaken(old(tree)) && !HasSlot(old(files))
      ensures r == Go(-1) ==> Valid() && tree == old(tree) && files == old(files) && p.bits == old(p.bits) && p.inodes == old(p.inodes)
      ensures r.Go? && r.s != -1 ==> InodeMade(old(p.inodes), p.inodes, d, r.s, NEW_INODE)
      ensures r.Go? && r.s != -1 ==>
                && Least(old(tree), r.s) && tree == Grow(old(tree), d, n, r.s, File([])) && (Valid() <==> r.s < 256)
                && SlotTaken(old(files), files, g, r.s)
                && Free(p.bits) == Free(old(p.bits)) - (if NeedsBlock(old(p.disk), old(p.refs), d) then 1 else 0)
      ensures r.Go? && r.s >= 256 ==> r.s % 256 in tree && r.s in p.inodes && InSlot(p.disk, lba, r.s % 256, r.s, p.inodes[r.s])
    {
      hide Sound, Rooted, Nodes, NameOk, InodesOk, NeedsBlock, AllTaken, Least, Grow, AreaOk, TabledBut, LowSame, Small, FilesOk, InSlot;
      ghost var t0, bits0 := tree, inodeBits;
      g := -1;
      FilesLength(files, tree);
      r := InodeAlloc();
      if r.Panic? { return; }
      var c := r.s;
      LeastMeans(t0, c);
      BitClear(bits0, t0, c);
      g := GetFreeSlot();
      if g == -1 {
        inodeBits := inodeBits[c := false];
        return Go(-1), -1;
      }
      var panic := CreateWith(d, n, c, bits0);
      if panic { return Panic, g; }
      OpenFile(files, tree, g, c);
      files := files[g := OnInode(c)];
    }

    /** The inode and the first block of a new directory below `d`. */
    method NewDirectory(d: int) returns (r: Outcome<int>)
      requires Core() && d in tree && d in p.refs && 0 in tree
      modifies p, `inodeBits, `spots, `tree
      ensures r.Panic? <==> AllTaken(old(tree)) || Free(old(p.bits)) == 0
      ensures r.Go? ==>
                && Least(old(tree), r.s) && tree == old(tree)[r.s := NewDir(r.s, d)]
                && p.Valid() && InodesOk(inodeBits, tree) && Nodes(p.disk, p.inodes, p.refs, spots, tree)
                && Free(p.bits) == Free(old(p.bits)) - 1 && LowSame(p.start, old(p.disk), p.disk)
                && r.s in p.inodes && p.inodes == old(p.inodes)[r.s := p.inodes[r.s]]
                && p.inodes[r.s] == DotInode(FirstFree(p.start, old(p.bits)))
                && NeedsBlock(p.disk, p.refs, d) == NeedsBlock(old(p.disk), old(p.refs), d)
    {
      hide Sound, Nodes, NeedsBlock, Kept, Free, InodesOk, AllTaken, Least, NewDir, AreaOk, LowSame, FirstFree, DotInode;
      ghost var t0, refs0, bits0 := tree, p.refs, inodeBits;
      InRange(inodeBits, tree, d);
      r := InodeAlloc();
      if r.Panic? { return; }
      var c := r.s;
      LeastMeans(t0, c);
      InodeInit(c, bits0);
      ghost var t1 := tree;
      var panic := MakeDots(c, d);
      if panic { return Panic; }
      KeptNeeds(old(p.disk), p.disk, refs0, p.refs, d, c);
      SameInodes(inodeBits, t1, tree);
    }

    /** `sys_mkdir` in directory `d`; as for a file, the new number has to fit in eight bits. */
    method Mkdir(d: int, n: Name) returns (r: Outcome<int>)
      requires Valid() && d in tree && tree[d].Dir? && NameOk(n) && n !in tree[d].items && |tree[d].items| < 252
      modifies this, p
      ensures r.Panic? <==> || AllTaken(old(tree)) || Free(old(p.bits)) == 0
                            || (NeedsBlock(old(p.disk), old(p.refs), d) && Free(old(p.bits)) == 1)
      ensures r.Go? ==> Least(old(tree), r.s) && tree == Grow(old(tree), d, n, r.s, NewDir(r.s, d)) && (Valid() <==> r.s < 256)
      ensures r.Go? ==> Free(p.bits) == Free(old(p.bits)) - (if NeedsBlock(old(p.disk), old(p.refs), d) then 2 else 1)
      ensures r.Go? ==> files == old(files)
      ensures r.Go? ==> InodeMade(old(p.inodes), p.inodes, d, r.s, DotInode(FirstFree(p.start, old(p.bits))))
      ensures r.Go? && r.s >= 256 ==> r.s % 256 in tree && r.s in p.inodes && InSlot(p.disk, lba, r.s % 256, r.s, p.inodes[r.s])
    {
      hide Sound, Rooted, Nodes, NameOk, NeedsBlock, Free, InodesOk, AllTaken, Least, Grow, AreaOk, TabledBut, LowSame, Small, FilesOk, InSlot, NewDir, InodeMade, SameFirst, FirstFree, DotInode;
      ghost var t0, bits0, d0, inodes0, refs0, spots0 := tree, inodeBits, p.disk, p.inodes, p.refs, spots;
      NodeIn(p.disk, p.inodes, p.refs, spots, tree, d);
      SmallIs(tree, d);
      RootIsDir(tree, home, depth);
      r := NewDirectory(d);
      if r.Panic? { return; }
      var c := r.s;
      assert c !in inodes0 by { LeastMeans(t0, c); NewNumber(d0, inodes0, refs0, spots0, t0, c); }
      LeastMeans(t0, c);
      ghost var d1, new1 := p.disk, p.inodes[c];
      var panic := Link(d, n, c, DIRECTORY);
      if panic { return Panic; }
      LowTrans(p.start, d0, d1, p.disk);
      KindOfNew(c, d);
      MadeIs(inodes0, p.inodes, d, c, new1);
      NewDone(d0, inodes0, refs0, bits0, t0, d, n, c, NewDir(c, d));
      home, depth := home[c := Home(d, n)], depth[c := depth[d] + 1];
      SyncBoth(d, c);
      SmallGrown(t0, tree, c);
    }

    /** The search of `sys_unlink` in the file table. */
    method InUse(c: int) returns (b: bool)
      requires |files| == MAX_OPEN
      ensures b <==> IsOpen(files, c)
    {
      var g := 0;
      while g < MAX_OPEN
        invariant 0 <= g <= MAX_OPEN && forall h :: 0 <= h < g ==> files[h] != OnInode(c)
      {
        if files[g] == OnInode(c) { return true; }
        g := g + 1;
      }
      b := false;
    }

    /** The end of `sys_unlink`: an open file is not deleted. */
    method Unlink(d: int, ghost n: Name, c: int) returns (r: int)
      requires Valid() && d in tree && tree[d].Dir? && n in tree[d].items && !Dots(n) && tree[d].items[n] == Item(c, REGULAR)
      modifies this, p
      ensures Valid() && r == (if IsOpen(files, c) then -1 else 0) && files == old(files) && Free(p.bits) >= Free(old(p.bits))
      ensures tree == if r == 0 then Prune(old(tree), d, n) else old(tree)
      ensures if r == 0 then InodeCut(old(p.inodes), p.inodes, d, c) else p.inodes == old(p.inodes)
    {
      hide Sound, Rooted, Nodes, InodesOk, AreaOk, TabledBut, Small, IsOpen;
      var used := InUse(c);
      if used { return -1; }
      assert c in tree && tree[c].File? by { ChildNotRoot(tree, home, depth, d, n); }
      Remove(d, n, c);
      r := 0;
    }

    /** `dir_is_empty`, and the loop of `dir_remove` over the block slots, whose assertion holds. */
    method IsEmptyDir(c: int) returns (empty: bool)
      requires Valid() && c in tree && tree[c].Dir?
      ensures empty <==> tree[c].items.Keys == {DOT, DOTDOT}
      ensures empty ==> c in p.inodes && IsDotInode(p.inodes[c])
    {
      hide Sound, Rooted, Nodes, InodesOk, DirAt, AreaOk, TabledBut, Small, FilesOk;
      DirParts(p.disk, p.inodes, p.refs, spots, tree, c);
      EmptyDir(p.start, p.disk, p.inodes, p.Book(), spots[c], tree, home, depth, c);
      if p.inodes[c].size != 2 * SLOT { return false; }
      var b := 1;
      while b < 13
        invariant 1 <= b <= 13
      {
        assert p.inodes[c].sectors[b] == 0;
        b := b + 1;
      }
      empty := true;
    }

    /** `dir_is_empty` and `dir_remove` with the directory that names the child. */
    method Rmdir(d: int, ghost n: Name, c: int) returns (r: int)
      requires Valid() && d in tree && tree[d].Dir? && n in tree[d].items && !Dots(n) && tree[d].items[n] == Item(c, DIRECTORY)
      modifies this, p
      ensures Valid() && c in old(tree) && old(tree)[c].Dir? && files == old(files)
      ensures r == (if old(tree)[c].items.Keys == {DOT, DOTDOT} then 0 else -1) && Free(p.bits) >= Free(old(p.bits))
      ensures tree == if r == 0 then Prune(old(tree), d, n) else old(tree)
      ensures if r == 0 then InodeCut(old(p.inodes), p.inodes, d, c) && IsDotInode(old(p.inodes)[c]) else p.inodes == old(p.inodes)
    {
      hide Sound, Rooted, Nodes, InodesOk, AreaOk, TabledBut, Small;
      ChildNotRoot(tree, home, depth, d, n);
      var empty := IsEmptyDir(c);
      if !empty { return -1; }
      Remove(d, n, c);
      r := 0;
    }

    /** `dir_remove` with the directory itself as the parent, as a path that ends in `.` gives it: the deletion of the
        entry finds nothing, and the inode is released all the same. */
    method RmdirSelf(c: int) returns (r: int)
      requires Valid() && c in tree && tree[c].Dir? && c != 0
      modifies this, p
      ensures r == (if old(tree)[c].items.Keys == {DOT, DOTDOT} then 0 else -1)
      ensures r == -1 ==> Valid() && tree == old(tree) && files == old(files) && p.inodes == old(p.inodes)
      ensures r == 0 ==> Core() && tree == old(tree) - {c} && home == old(home) && depth == old(depth)
    {
      hide Sound, Rooted, Nodes, InodesOk, AreaOk, TabledBut, Small, FilesOk, DirAt, DirOk, Items, TableOf, InosDistinct, NoChild, Entered, Removed;
      var empty := IsEmptyDir(c);
      if !empty { return -1; }
      DirParts(p.disk, p.inodes, p.refs, spots, tree, c);
      ghost var parent := tree[c].items[DOTDOT].ino;
      ghost var t := TableOf(p.disk, p.refs[c]);
      DirOf(p.disk, p.inodes[c], p.refs[c], spots[c], c, parent);
      ChildrenDistinct(t, spots[c], tree, home, depth, c, parent);
      ghost var m;
      var found;
      assert forall n :: n in spots[c] ==> Dots(n);
      found, m := DeleteDirEntry(p, c, c, spots[c], parent);
      assert !found;
      Release(c);
      r := 0;
    }
  }

  lemma AllInRange(bits: seq<bool>, tree: Tree, disk: Disk, inodes: map<int, Inode>, refs: map<int, seq<int>>,
                   spots: map<int, map<Name, Spot>>)
    requires InodesOk(bits, tree) && Nodes(disk, inodes, refs, spots, tree)
    ensures forall i :: i in inodes ==> 0 <= i < MAX_FILES && i in tree
  {
    hide NodeOk;
  }

  lemma NodeFits(start: int, disk: Disk, inodes: map<int, Inode>, g: Ledger, spots: map<int, map<Name, Spot>>, tree: Tree, i: int)
    requires Sound(start, disk, inodes, g) && Nodes(disk, inodes, g.refs, spots, tree) && i in tree && 0 <= i < MAX_FILES
    ensures i in inodes && IT.Storable(Stored(i, inodes[i]))
  {
    hide Sound, NodeOk, IT.Storable;
    assert NodeAt(disk, inodes, g.refs, spots, tree, i);
    SizeFits(disk, inodes[i], g.refs[i], spots[i], i, tree[i]);
    Fits(start, disk, inodes, g, i);
  }

  lemma EnteredLow(start: int, d0: Disk, inodes0: map<int, Inode>, g0: Ledger, d1: Disk, inodes: map<int, Inode>, g: Ledger,
                   i: int, t: Table, size: int)
    requires Entered(start, d0, inodes0, g0, d1, inodes, g, i, t, size)
    ensures LowSame(start, d0, d1) && i in inodes && inodes == inodes0[i := inodes[i]]
  {
    SoundParts(start, d1, inodes, g);
    ApartLow(start, g, d0, d1, i);
  }

  /** A directory keeps its first block. */
  lemma FirstStays(start: int, d0: Disk, inodes0: map<int, Inode>, g0: Ledger, d1: Disk, inodes: map<int, Inode>, g: Ledger,
                   i: int, t: Table, size: int, spot: map<Name, Spot>, parent: int)
    requires Entered(start, d0, inodes0, g0, d1, inodes, g, i, t, size) && Sound(start, d0, inodes0, g0)
    requires i in g0.refs && DirAt(d0, inodes0[i], g0.refs[i], spot, i, parent)
    ensures i in inodes && i in inodes0 && SameFirst(inodes0[i], inodes[i])
  {
    hide Sound;
    InodeOf(start, d0, inodes0, g0, i, 0);
    InodeOf(start, d1, inodes, g, i, 0);
    BlockThere(d0, inodes0[i], g0.refs[i], spot, i, parent);
  }

  lemma BlockThere(disk: Disk, n: Inode, refs: seq<int>, spot: map<Name, Spot>, self: int, parent: int)
    requires DirAt(disk, n, refs, spot, self, parent)
    ensures |refs| == REFS && refs[0] != 0
  {
    assert |TableOf(disk, refs)[0]| == PER_SECTOR;
  }

  lemma AreaStays(d0: Disk, d1: Disk, lba: int, start: int, inodes: map<int, Inode>, g: Ledger)
    requires AreaOk(d0, lba, start) && LowSame(start, d0, d1) && Sound(start, d1, inodes, g)
    ensures AreaOk(d1, lba, start)
  {
  }

  lemma SmallIs(tree: Tree, i: int)
    requires Small(tree) && i in tree
    ensures 0 <= i < 256
  {
  }

  lemma NodeFile(disk: Disk, inodes: map<int, Inode>, refs: map<int, seq<int>>, spots: map<int, map<Name, Spot>>, tree: Tree, i: int)
    requires Nodes(disk, inodes, refs, spots, tree) && i in tree && tree[i].File?
    ensures i in inodes && i in refs && i in spots && FileShape(inodes[i].size, refs[i])
    ensures Content(disk, inodes[i].size, refs[i]) == tree[i].bytes && inodes[i].size == |tree[i].bytes|
  {
    hide Content;
    assert NodeAt(disk, inodes, refs, spots, tree, i);
  }

  lemma SameFiles(files: seq<FileSlot>, t0: Tree, t: Tree)
    requires FilesOk(files, t0) && forall i :: i in t0 && t0[i].File? ==> i in t && t[i].File?
    ensures FilesOk(files, t)
  {
  }

  lemma ReleasedFiles(files: seq<FileSlot>, t0: Tree, t: Tree, d: int, c: int)
    requires FilesOk(files, t0) && Small(t0) && !IsOpen(files, c) && d in t0 && t0[d].Dir?
    requires t.Keys == t0.Keys - {c} && forall i :: i in t && i != d ==> t[i] == t0[i]
    ensures FilesOk(files, t) && Small(t)
  {
    assert forall i :: i in t <==> i in t.Keys;
    forall g | 0 <= g < |files| && files[g].OnInode? ensures files[g].ino in t && t[files[g].ino].File? {
      assert files[g] == OnInode(files[g].ino);
    }
  }

  lemma ReleasedTable(disk: Disk, lba: int, inodes: map<int, Inode>, c: int)
    requires TabledBut(disk, lba, inodes, {})
    ensures TabledBut(disk, lba, inodes - {c}, {})
  {
    forall i | i in inodes - {c} ensures InSlot(disk, lba, i, i, (inodes - {c})[i]) { assert InSlot(disk, lba, i, i, inodes[i]); }
  }

  lemma FilesLength(files: seq<FileSlot>, tree: Tree)
    requires FilesOk(files, tree)
    ensures |files| == MAX_OPEN
  {
  }

  lemma BitClear(bits: seq<bool>, tree: Tree, c: int)
    requires InodesOk(bits, tree) && 0 <= c < MAX_FILES && c !in tree
    ensures |bits| == MAX_FILES && !bits[c] && bits[c := true][c := false] == bits
  {
  }

  lemma OpenFile(files: seq<FileSlot>, tree: Tree, g: int, i: int)
    requires FilesOk(files, tree) && 0 <= g < |files| && i in tree && tree[i].File?
    ensures FilesOk(files[g := OnInode(i)], tree)
  {
  }

  /** A number from 256 on is beyond eight bits, and then the number with the same low byte is taken. */
  lemma SmallGrown(t0: Tree, t: Tree, c: int)
    requires Small(t0) && Least(t0, c) && t.Keys == t0.Keys + {c}
    ensures Small(t) <==> c < 256
    ensures c >= 256 ==> c % 256 in t
  {
    assert forall i :: i in t <==> i in t.Keys;
    assert forall i :: i in t0 <==> i in t0.Keys;
  }

  lemma KindOfNew(c: int, d: int)
    ensures NewDir(c, d).Dir? && KindOf(NewDir(c, d)) == DIRECTORY
  {
  }

  lemma AreaDisk(disk: Disk, lba: int, start: int)
    requires AreaOk(disk, lba, start)
    ensures DiskOk(disk)
  {
  }

  lemma RootIsDir(t: Tree, home: map<int, Home>, depth: map<int, nat>)
    requires Rooted(t, home, depth)
    ensures 0 in t && t[0].Dir?
  {
  }

  lemma InRange(bits: seq<bool>, t: Tree, i: int)
    requires InodesOk(bits, t) && i in t
    ensures 0 <= i < MAX_FILES
  {
  }

  lemma SameInodes(bits: seq<bool>, t0: Tree, t: Tree)
    requires InodesOk(bits, t0) && t.Keys == t0.Keys
    ensures InodesOk(bits, t)
  {
    assert forall i :: i in t <==> i in t.Keys;
    assert forall i :: i in t0 <==> i in t0.Keys;
  }
}
