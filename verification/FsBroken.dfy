/** When sectors, bitmaps and inodes stand for a tree at all, whichever witnesses one picks. */
module FsBroken {
  import opened Basics
  import opened Words
  import opened Ledgers
  import opened Volume
  import opened Entries
  import opened DirTable
  import opened FileCode
  import opened DirCode
  import opened Tree
  import opened FsCode

  /** These witnesses make a tree of the inodes. */
  ghost predicate Stands(start: int, disk: Disk, inodes: map<int, Inode>, g: Ledger,
                         spots: map<int, map<Name, Spot>>, t: Tree, home: map<int, Home>, depth: map<int, nat>) {
    Sound(start, disk, inodes, g) && Nodes(disk, inodes, g.refs, spots, t) && Rooted(t, home, depth)
  }

  /** Some witnesses do. */
  ghost predicate Consistent(start: int, disk: Disk, inodes: map<int, Inode>, bits: seq<bool>) {
    exists refs, owner, spots, t, home, depth :: Stands(start, disk, inodes, Ledger(bits, refs, owner), spots, t, home, depth)
  }

  /** A valid file system is consistent. */
  lemma ValidStands(fs: FileSystem)
    requires fs.Valid()
    ensures Consistent(fs.p.start, fs.p.disk, fs.p.inodes, fs.p.bits)
  {
    hide Sound, Nodes, Rooted, InodesOk;
    assert Stands(fs.p.start, fs.p.disk, fs.p.inodes, Ledger(fs.p.bits, fs.p.refs, fs.p.owner), fs.spots, fs.tree, fs.home, fs.depth);
  }

  // ---------------------------------------------------------------- the sectors decide

  lemma SpotThere(t: Table, s1: map<Name, Spot>, s2: map<Name, Spot>, n: Name)
    requires TableOk(t, s1) && TableOk(t, s2) && n in s1
    ensures n in s2 && s2[n] == s1[n]
  {
    assert SpotOk(t, s1, n);
    assert EntryOk(t, s2, s1[n].b, s1[n].e);
  }

  lemma SpotsSame(t: Table, s1: map<Name, Spot>, s2: map<Name, Spot>)
    requires TableOk(t, s1) && TableOk(t, s2)
    ensures s1 == s2
  {
    forall n | n in s1 ensures n in s2 && s2[n] == s1[n] { SpotThere(t, s1, s2, n); }
    forall n | n in s2 ensures n in s1 { SpotThere(t, s2, s1, n); }
  }

  /** A directory's sectors decide its map. */
  lemma SameDir(disk: Disk, n: Inode, refs: seq<int>, s1: map<Name, Spot>, s2: map<Name, Spot>, i: int, x1: Node, x2: Node)
    requires NodeOk(disk, n, refs, s1, i, x1) && NodeOk(disk, n, refs, s2, i, x2) && x1.Dir? && x2.Dir?
    ensures x1 == x2
  {
    hide TableOk, TableOf, Items, Total;
    DirTableOk(TableOf(disk, refs), s1, i, x1.items[DOTDOT].ino);
    DirTableOk(TableOf(disk, refs), s2, i, x2.items[DOTDOT].ino);
    SpotsSame(TableOf(disk, refs), s1, s2);
  }

  /** Inodes and sectors decide the references. */
  lemma RefsSame(start: int, disk: Disk, inodes: map<int, Inode>, g1: Ledger, g2: Ledger)
    requires Sound(start, disk, inodes, g1) && Sound(start, disk, inodes, g2)
    ensures g1.refs == g2.refs
  {
    hide Owned, DiskOk;
    assert g1.refs.Keys == inodes.Keys == g2.refs.Keys;
    forall i | i in g1.refs ensures i in g2.refs && g1.refs[i] == g2.refs[i] {
      assert i in g2.refs.Keys && i in inodes.Keys;
      assert Linked(disk, inodes[i], g1.refs[i]) && Linked(disk, inodes[i], g2.refs[i]);
      forall k | 0 <= k < REFS ensures g1.refs[i][k] == g2.refs[i][k] { assert g1.refs[i][k] == Ref(disk, inodes[i], k); }
    }
  }

  // ---------------------------------------------------------------- an entry without its inode

  /** `t0` was a tree; its empty directory `c` is gone, and the entry that names it is not. */
  ghost predicate Orphaned(t0: Tree, home: map<int, Home>, depth: map<int, nat>, c: int) {
    Rooted(t0, home, depth) && c in t0 && c != 0 && t0[c].Dir? && t0[c].items.Keys == {DOT, DOTDOT}
  }

  lemma HomeLives(t0: Tree, home: map<int, Home>, depth: map<int, nat>, c: int, i: int)
    requires Orphaned(t0, home, depth, c) && i in t0 && i != 0
    ensures i in home && i in depth && home[i].dir in depth && depth[home[i].dir] < depth[i]
    ensures var h := home[i]; h.dir in t0 && h.dir != c && t0[h.dir].Dir? && h.name in t0[h.dir].items && !Dots(h.name)
    ensures t0[home[i].dir].items[home[i].name].ino == i && t0[home[i].dir].items[home[i].name].kind == KindOf(t0[i])
  {
    assert HomeOk(t0, home, depth, i);
    assert ItemOk(t0, home, home[i].dir, home[i].name);
  }

  lemma RootDepth(t: Tree, home: map<int, Home>, depth: map<int, nat>)
    requires Rooted(t, home, depth)
    ensures 0 in t && t[0].Dir? && 0 in depth && depth[0] == 0
  {
  }

  lemma ItemThere(t: Tree, home: map<int, Home>, depth: map<int, nat>, i: int, n: Name)
    requires Rooted(t, home, depth) && i in t && t[i].Dir? && n in t[i].items && !Dots(n)
    ensures t[i].items[n].ino in t && t[i].items[n].kind == KindOf(t[t[i].items[n].ino])
  {
    assert ItemOk(t, home, i, n);
  }

  /** Any tree that the inodes stand for has the same directories. */
  lemma {:induction false} DirsAgree(disk: Disk, inodes: map<int, Inode>, refs: map<int, seq<int>>,
                  t0: Tree, home: map<int, Home>, depth: map<int, nat>, c: int, s1: map<int, map<Name, Spot>>,
                  s2: map<int, map<Name, Spot>>, t2: Tree, home2: map<int, Home>, depth2: map<int, nat>, i: int)
    requires Orphaned(t0, home, depth, c) && Nodes(disk, inodes, refs, s1, t0 - {c})
    requires Nodes(disk, inodes, refs, s2, t2) && Rooted(t2, home2, depth2)
    requires i in t0 && i != c && t0[i].Dir? && i in depth
    ensures i in t2 && t2[i] == t0[i]
    decreases depth[i]
  {
    hide NodeOk, Rooted;
    var t1 := t0 - {c};
    assert i in t1;
    assert i in t2 by { assert i in t1.Keys && t1.Keys == t2.Keys; }
    RootDepth(t2, home2, depth2);
    if i != 0 {
      HomeLives(t0, home, depth, c, i);
      var h := home[i];
      DirsAgree(disk, inodes, refs, t0, home, depth, c, s1, s2, t2, home2, depth2, h.dir);
      ItemThere(t2, home2, depth2, h.dir, h.name);
    }
    assert NodeAt(disk, inodes, refs, s1, t1, i) && NodeAt(disk, inodes, refs, s2, t2, i);
    SameDir(disk, inodes[i], refs[i], s1[i], s2[i], i, t1[i], t2[i]);
  }

  /** So no witnesses make a tree of the inodes without `c`: the entry of `c` names nothing. */
  lemma NoTree(start: int, disk: Disk, inodes: map<int, Inode>, g: Ledger, spots: map<int, map<Name, Spot>>,
               t0: Tree, home: map<int, Home>, depth: map<int, nat>, c: int)
    requires Orphaned(t0, home, depth, c) && Sound(start, disk, inodes, g) && Nodes(disk, inodes, g.refs, spots, t0 - {c})
    ensures !Consistent(start, disk, inodes, g.bits)
  {
    hide Sound, Nodes, Rooted;
    forall refs, owner, s2, t2, h2, d2
      ensures !Stands(start, disk, inodes, Ledger(g.bits, refs, owner), s2, t2, h2, d2)
    {
      if Stands(start, disk, inodes, Ledger(g.bits, refs, owner), s2, t2, h2, d2) {
        RefsSame(start, disk, inodes, g, Ledger(g.bits, refs, owner));
        NoSuchTree(disk, inodes, refs, t0, home, depth, c, spots, s2, t2, h2, d2);
      }
    }
  }

  lemma NoSuchTree(disk: Disk, inodes: map<int, Inode>, refs: map<int, seq<int>>,
                   t0: Tree, home: map<int, Home>, depth: map<int, nat>, c: int, s1: map<int, map<Name, Spot>>,
                   s2: map<int, map<Name, Spot>>, t2: Tree, home2: map<int, Home>, depth2: map<int, nat>)
    requires Orphaned(t0, home, depth, c) && Nodes(disk, inodes, refs, s1, t0 - {c}) && Nodes(disk, inodes, refs, s2, t2)
    ensures !Rooted(t2, home2, depth2)
  {
    hide NodeOk, Rooted;
    assert t2.Keys == (t0 - {c}).Keys;
    assert c !in t2;
    if Rooted(t2, home2, depth2) {
      HomeLives(t0, home, depth, c, c);
      var h := home[c];
      DirsAgree(disk, inodes, refs, t0, home, depth, c, s1, s2, t2, home2, depth2, h.dir);
      ItemThere(t2, home2, depth2, h.dir, h.name);
    }
  }
}
