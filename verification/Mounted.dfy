/** The mounted partition: the file system of the tree together with `open_inodes`. */
module Mounts {
  import opened Basics
  import opened Bitmaps
  import opened Words
  import opened Volume

  import opened Entries
  import opened DirTable
  import opened FileCode
  import opened InodeArea
  import opened Tree
  import opened FsCode
  import opened OpenInodes
  import C = InodeCache
  import IT = InodeTable

  // ---------------------------------------------------------------- parts of the proofs

  lemma FsParts(fs: FileSystem)
    requires fs.Valid()
    ensures FilesOk(fs.files, fs.tree) && 0 in fs.tree && fs.tree[0].Dir?
  {
    RootIsDir(fs.tree, fs.home, fs.depth);
  }

  lemma NumberLives(fs: FileSystem, no: int)
    requires fs.Valid() && no in fs.tree
    ensures no in fs.p.inodes
  {
    hide Sound, Nodes, Rooted, InodesOk, TabledBut, AreaOk, Small, FilesOk;
    NodeIn(fs.p.disk, fs.p.inodes, fs.p.refs, fs.spots, fs.tree, no);
  }

  /** The child of a directory is another inode, and of the kind that its entry says. */
  lemma ChildApart(fs: FileSystem, d: int, n: Name, c: int)
    requires fs.Valid() && d in fs.tree && fs.tree[d].Dir? && n in fs.tree[d].items && !Dots(n) && fs.tree[d].items[n].ino == c
    ensures c != d && c != 0 && c in fs.tree && fs.tree[d].items[n].kind == KindOf(fs.tree[c])
  {
    assert ItemOk(fs.tree, fs.home, d, n);
    assert HomeOk(fs.tree, fs.home, fs.depth, c);
  }

  lemma RootListed(fs: FileSystem, n: IT.Inode)
    requires fs.Valid() && fs.tree == map[0 := NewDir(0, 0)] && fs.files == seq(MAX_OPEN, g => Unused)
    requires 0 in fs.p.inodes && n == Stored(0, fs.p.inodes[0])
    ensures |fs.p.inodes[0].sectors| == 13
    ensures var first := map[0 := fs.p.inodes[0].sectors[0]];
            && Copies([C.Cell(0, 1, n)], fs.p.inodes, Uses(fs.files, multiset{}), first)
            && HeldDirs(fs.tree, multiset{}) && Firsts(first, fs.tree, fs.p.inodes)
  {
    hide Sound, Nodes, Rooted, InodesOk, TabledBut, AreaOk, Small, FilesOk, SlotNos;
    InodeLength(fs, 0);
    NoSlots(fs.files);
    HasAt([C.Cell(0, 1, n)], 0);
  }

  lemma InodeLength(fs: FileSystem, i: int)
    requires fs.Valid() && i in fs.p.inodes
    ensures |fs.p.inodes[i].sectors| == 13
  {
    hide Nodes, Rooted, InodesOk, TabledBut, AreaOk, Small, FilesOk;
    assert Volume.Linked(fs.p.disk, fs.p.inodes[i], fs.p.refs[i]);
  }

  lemma {:induction false} NoSlots(files: seq<FileSlot>)
    requires forall g :: 0 <= g < |files| ==> files[g] == Unused
    ensures SlotNos(files) == multiset{}
    decreases |files|
  {
    if files != [] { NoSlots(files[..|files| - 1]); }
  }

  lemma CopyIs(list: Cells, inodes: map<int, Inode>, u: multiset<int>, first: map<int, int>, k: int)
    requires Copies(list, inodes, u, first) && 0 <= k < |list| && list[k].node.no in inodes
    ensures list[k].node == Stored(list[k].node.no, inodes[list[k].node.no])
  {
    assert CellOk(list[k], inodes, u, first);
  }

  lemma CalledOff(l0: Cells, m0: map<int, Inode>, u: multiset<int>, first: map<int, int>, d: int, h0: int)
    requires Copies(l0, m0, u, first) && d in m0
    ensures Copies(Closed(Opened(l0, d, h0, Stored(d, m0[d])), d), m0, u, first)
  {
    hide Copies, Opened, Closed;
    OpenedOk(l0, m0, u, first, d, h0, Stored(d, m0[d]));
    ClosedOk(Opened(l0, d, h0, Stored(d, m0[d])), m0, u + multiset{d}, first, d);
    BackAgain(u, d, d);
  }

  lemma MadeThere(m0: map<int, Inode>, m: map<int, Inode>, d: int, c: int, n: Inode)
    requires InodeMade(m0, m, d, c, n)
    ensures d in m0 && d in m && c in m && m[c] == n && c !in m0
  {
  }

  lemma UsedIsHeld(t0: Tree, files: seq<FileSlot>, held: multiset<int>, c: int)
    requires FilesOk(files, t0) && 0 in t0 && c !in t0
    ensures c in Uses(files, held) <==> c in held
  {
    SlotIn(files, c);
  }

  lemma SlotUses(f0: seq<FileSlot>, f1: seq<FileSlot>, held: multiset<int>, g: int, i: int)
    requires SlotTaken(f0, f1, g, i)
    ensures Uses(f1, held) == Uses(f0, held) + multiset{i}
  {
    SlotSet(f0, g, OnInode(i));
    assert SlotNos(f1) == SlotNos(f0) + multiset{i};
  }

  lemma SlotGone(files: seq<FileSlot>, held: multiset<int>, g: int)
    requires 0 <= g < |files| && files[g].OnInode?
    ensures files[g].ino in Uses(files, held) && Uses(files[g := Unused], held) == Uses(files, held) - multiset{files[g].ino}
  {
    SlotIn(files, files[g].ino);
    assert IsOpen(files, files[g].ino);
    SlotSet(files, g, Unused);
    var a, b, i := SlotNos(files[g := Unused]), SlotNos(files), files[g].ino;
    assert a + multiset{i} == b;
    assert b - multiset{i} == a;
  }

  lemma CreateLinks(first: map<int, int>, t0: Tree, t: Tree, m0: map<int, Inode>, m: map<int, Inode>, held: multiset<int>, d: int, n: Name, c: int)
    requires Firsts(first, t0, m0) && HeldDirs(t0, held) && d in t0 && t0[d].Dir? && t == Grow(t0, d, n, c, File([]))
    requires InodeMade(m0, m, d, c, NEW_INODE) && c !in t0
    ensures Firsts(first, t, m) && (c !in held ==> HeldDirs(t, held)) && c in t
  {
    FirstsMade(first, t0, t, m0, m, d, n, c, File([]), NEW_INODE);
  }

  lemma MkdirLinks(first: map<int, int>, t0: Tree, t: Tree, m0: map<int, Inode>, m: map<int, Inode>, held: multiset<int>, d: int, n: Name, c: int, b: int)
    requires Firsts(first, t0, m0) && HeldDirs(t0, held) && d in t0 && t0[d].Dir? && t == Grow(t0, d, n, c, NewDir(c, d))
    requires InodeMade(m0, m, d, c, DotInode(b)) && c !in t0
    ensures Firsts(first[c := b], t, m) && HeldDirs(t, held) && c in t
  {
    FirstsMade(first, t0, t, m0, m, d, n, c, NewDir(c, d), DotInode(b));
  }

  lemma CutThere(m0: map<int, Inode>, m: map<int, Inode>, d: int, c: int)
    requires InodeCut(m0, m, d, c)
    ensures d in m0 && d in m && c in m0
  {
  }

  lemma FileUnused(t0: Tree, files: seq<FileSlot>, held: multiset<int>, c: int)
    requires HeldDirs(t0, held) && c in t0 && t0[c].File? && c != 0 && !IsOpen(files, c)
    ensures c !in Uses(files, held)
  {
    SlotIn(files, c);
  }

  lemma CutAfter(list: Cells, m0: map<int, Inode>, m: map<int, Inode>, u: multiset<int>, first: map<int, int>, d: int, c: int)
    requires InodeCut(m0, m, d, c) && c != d && Copies(list, m0[d := m[d]], u, first)
    requires c in u ==> c in first && m0[c] == DotInode(first[c])
    ensures Copies(list, m, u, first)
  {
    hide Copies;
    CutOk(list, m0[d := m[d]], u, first, c);
  }

  lemma CutAround(l0: Cells, m0: map<int, Inode>, m: map<int, Inode>, u: multiset<int>, first: map<int, int>, d: int, h0: int, c: int)
    requires Copies(l0, m0, u, first) && InodeCut(m0, m, d, c) && c != d && c !in u
    ensures Copies(Around(l0, d, h0, Stored(d, m0[d]), Stored(d, m[d])), m, u, first)
  {
    hide Copies, Around;
    AroundOk(l0, m0, m0[d := m[d]], u, first, d, h0);
    CutAfter(Around(l0, d, h0, Stored(d, m0[d]), Stored(d, m[d])), m0, m, u, first, d, c);
  }

  lemma HeldCut(t0: Tree, t: Tree, held: multiset<int>, d: int, n: Name)
    requires HeldDirs(t0, held) && d in t0 && t0[d].Dir? && n in t0[d].items && t == Prune(t0, d, n)
    ensures HeldDirs(t, held)
  {
  }

  lemma DeadFirst(first: map<int, int>, t0: Tree, m0: map<int, Inode>, c: int)
    requires Firsts(first, t0, m0) && c in t0 && t0[c].Dir? && c in m0 && IsDotInode(m0[c])
    ensures c in first && m0[c] == DotInode(first[c])
  {
    assert FirstOf(first, m0, c);
  }

  lemma WriteLinks(first: map<int, int>, t0: Tree, t: Tree, m0: map<int, Inode>, m: map<int, Inode>, held: multiset<int>, i: int)
    requires Firsts(first, t0, m0) && HeldDirs(t0, held) && i in t0 && t0[i].File? && i in m && m == m0[i := m[i]]
    requires i in t && t[i].File? && t == t0[i := t[i]]
    ensures Firsts(first, t, m) && HeldDirs(t, held)
  {
    forall d | d in t && t[d].Dir? ensures FirstOf(first, m, d) { assert d in t0 && t0[d].Dir? && FirstOf(first, m0, d); }
  }

  class Mounted {
    const fs: FileSystem
    var list: Cells                      // open_inodes
    var heap: int                        // the address of the next block of `sys_malloc`
    ghost var held: multiset<int>        // directories left open, once for each time
    ghost var first: map<int, int>       // the first sector of a directory
    ghost var seen: seq<int>             // the first free sector before each call

    /** The copies in memory and the tree. */
    ghost predicate Linked()
      reads `list, `held, `first, fs, fs.p
    {
      && Copies(list, fs.p.inodes, Uses(fs.files, held), first) && HeldDirs(fs.tree, held) && Firsts(first, fs.tree, fs.p.inodes)
    }

    /** The file system is valid, and every copy in memory is of a live inode and equal to it, or of a dead number. */
    ghost predicate Valid()
      reads `list, `held, `first, fs, fs.p
    {
      fs.Valid() && Linked()
    }

    /** `open_root_dir` on a formatted partition. */
    constructor (f: FileSystem)
      requires f.Valid() && f.tree == map[0 := NewDir(0, 0)] && f.files == seq(MAX_OPEN, g => Unused)
      ensures fs == f && Valid() && held == multiset{} && seen == []
      ensures 0 in f.p.inodes && |f.p.inodes[0].sectors| == 13 && first == map[0 := f.p.inodes[0].sectors[0]]
    {
      hide FileSystem.Valid;
      var n := f.InodeFromDisk(0);
      RootListed(f, n);
      fs := f;
      list := [C.Cell(0, 1, n)];
      heap := 1;
      held, seen := multiset{}, [];
      first := map[0 := f.p.inodes[0].sectors[0]];
    }

    // ---------------------------------------------------------------- inode_open and inode_close

    /** `inode_open` of a live inode: the copy in memory, or the slot on disk pushed to the front; either way the inode. */
    method InodeOpen(no: int, ghost u: multiset<int>) returns (n: IT.Inode)
      requires fs.Valid() && no in fs.tree && Copies(list, fs.p.inodes, u, first)
      modifies `list, `heap
      ensures no in fs.p.inodes && n == Stored(no, fs.p.inodes[no]) && list == Opened(old(list), no, old(heap), n)
      ensures Copies(list, fs.p.inodes, u + multiset{no}, first)
    {
      hide FileSystem.Valid, Copies;
      NumberLives(fs, no);
      OpenedOk(list, fs.p.inodes, u, first, no, heap, Stored(no, fs.p.inodes[no]));
      var k := C.FindCopy(list, no);
      if k < |list| {
        CopyIs(list, fs.p.inodes, u, first, k);
        n := list[k].node;
        list := list[k := list[k].(cnt := list[k].cnt + 1)];
      } else {
        n := fs.InodeFromDisk(no);
        list := [C.Cell(heap, 1, n)] + list;
        heap := heap + 1;
      }
    }

    /** `inode_close` of the copy that a search finds. */
    method InodeClose(no: int)
      modifies `list
      ensures list == Closed(old(list), no)
    {
      var k := C.FindCopy(list, no);
      if k < |list| {
        list := list[k := list[k].(cnt := list[k].cnt - 1)];
        if list[k].cnt == 0 {
          assert list[..k] + list[k + 1..] == old(list)[..k] + old(list)[k + 1..];
          list := list[..k] + list[k + 1..];
        }
      }
    }

    /** The inode that a call worked on is the copy in the list. */
    method WriteBack(no: int)
      requires no in fs.p.inodes
      modifies `list
      ensures list == Wrote(old(list), no, Stored(no, fs.p.inodes[no]))
    {
      var k := C.FindCopy(list, no);
      if k < |list| { list := list[k := list[k].(node := Stored(no, fs.p.inodes[no]))]; }
    }

    // ---------------------------------------------------------------- the calls

    /** `file_create` in directory `d`.  Everything stays right exactly when the number fits in eight bits and no copy of it
        is in memory; if one is, it is the dead directory, and it stays in the list behind the new inode. */
    method Create(d: int, n: Name) returns (r: Outcome<int>, g: int)
      requires Valid() && d in fs.tree && fs.tree[d].Dir? && NameOk(n) && n !in fs.tree[d].items && |fs.tree[d].items| < 252
      modifies this, fs, fs.p
      ensures r.Panic? <==> || AllTaken(old(fs.tree))
                            || (HasSlot(old(fs.files)) && NeedsBlock(old(fs.p.disk), old(fs.p.refs), d) && Free(old(fs.p.bits)) == 0)
      ensures r == Go(-1) <==> !AllTaken(old(fs.tree)) && !HasSlot(old(fs.files))
      ensures r == Go(-1) ==> Valid() && fs.tree == old(fs.tree) && fs.files == old(fs.files) && fs.p.bits == old(fs.p.bits)
      ensures r.Go? ==> held == old(held) && first == old(first) && seen == old(seen)
      ensures r.Go? && r.s != -1 ==>
                && Least(old(fs.tree), r.s) && fs.tree == Grow(old(fs.tree), d, n, r.s, File([])) && SlotTaken(old(fs.files), fs.files, g, r.s)
                && Free(fs.p.bits) == Free(old(fs.p.bits)) - (if NeedsBlock(old(fs.p.disk), old(fs.p.refs), d) then 1 else 0)
                && (Valid() <==> r.s < 256 && r.s !in held) && (fs.Valid() <==> r.s < 256)
      ensures r.Go? && r.s != -1 && r.s in held ==> Stale(r.s) && Behind(list, r.s, first)
      ensures r.Go? && r.s >= 256 ==> Misplaced(r.s)
    {
      hide FileSystem.Valid, Copies, HeldDirs, Firsts, Uses, NeedsBlock, AllTaken, Least, Grow, Free, HasSlot, NameOk, InodeMade, SlotTaken, Opened, Closed, Wrote, InSlot, Behind, Differs;
      ghost var u, l0, m0, t0, f0, h0 := Uses(fs.files, held), list, fs.p.inodes, fs.tree, fs.files, heap;
      FsParts(fs);
      ghost var n0 := InodeOpen(d, u);
      r, g := fs.Create(d, n);
      if r.Panic? { return; }
      if r.s == -1 {
        InodeClose(d);
        CalledOff(l0, m0, u, first, d, h0);
        return;
      }
      MadeThere(m0, fs.p.inodes, d, r.s, NEW_INODE);
      LeastMeans(t0, r.s);
      ghost var h1 := heap;
      WriteBack(d);
      list := [C.Cell(heap, 1, Stored(r.s, NEW_INODE))] + list;
      heap := heap + 1;
      InodeClose(d);
      CreateExactlyWhen(l0, m0, fs.p.inodes, u, first, d, h0, r.s, h1);
      if r.s in u { BehindDiffers(list, r.s, first); }
      SlotUses(f0, fs.files, held, g, r.s);
      UsedIsHeld(t0, f0, held, r.s);
      CreateLinks(first, t0, fs.tree, m0, fs.p.inodes, held, d, n, r.s);
    }

    /** `sys_mkdir` in directory `d`.  A copy of the number in memory is harmless exactly when the new directory gets the
        sector that the dead one had. */
    method Mkdir(d: int, n: Name) returns (r: Outcome<int>)
      requires Valid() && d in fs.tree && fs.tree[d].Dir? && NameOk(n) && n !in fs.tree[d].items && |fs.tree[d].items| < 252
      modifies this, fs, fs.p
      ensures r.Panic? <==> || AllTaken(old(fs.tree)) || Free(old(fs.p.bits)) == 0
                            || (NeedsBlock(old(fs.p.disk), old(fs.p.refs), d) && Free(old(fs.p.bits)) == 1)
      ensures r.Go? ==> held == old(held) && seen == old(seen) && first == old(first)[r.s := FirstFree(fs.p.start, old(fs.p.bits))]
      ensures r.Go? ==> Least(old(fs.tree), r.s) && fs.tree == Grow(old(fs.tree), d, n, r.s, NewDir(r.s, d)) && fs.files == old(fs.files)
      ensures r.Go? ==> Free(fs.p.bits) == Free(old(fs.p.bits)) - (if NeedsBlock(old(fs.p.disk), old(fs.p.refs), d) then 2 else 1)
      ensures r.Go? ==> (fs.Valid() <==> r.s < 256)
      ensures r.Go? ==> (Valid() <==> r.s < 256 && !Haunts(held, old(first), r.s, FirstFree(fs.p.start, old(fs.p.bits))))
      ensures r.Go? && Haunts(held, old(first), r.s, FirstFree(fs.p.start, old(fs.p.bits))) ==> Stale(r.s)
      ensures r.Go? && r.s >= 256 ==> Misplaced(r.s)
    {
      hide FileSystem.Valid, Copies, HeldDirs, Firsts, Uses, NeedsBlock, AllTaken, Least, Grow, Free, NameOk, InodeMade, Opened, Closed, Wrote, InSlot, NewDir, FirstFree, DotInode, Differs;
      ghost var u, l0, m0, t0, h0, b := Uses(fs.files, held), list, fs.p.inodes, fs.tree, heap, FirstFree(fs.p.start, fs.p.bits);
      FsParts(fs);
      ghost var n0 := InodeOpen(d, u);
      r := fs.Mkdir(d, n);
      if r.Panic? { return; }
      MadeThere(m0, fs.p.inodes, d, r.s, DotInode(b));
      LeastMeans(t0, r.s);
      WriteBack(d);
      InodeClose(d);
      MkdirExactlyWhen(l0, m0, fs.p.inodes, u, first, d, h0, r.s, b);
      UsedIsHeld(t0, fs.files, held, r.s);
      MkdirLinks(first, t0, fs.tree, m0, fs.p.inodes, held, d, n, r.s, b);
      ghost var haunted := Haunts(held, first, r.s, b);
      first := first[r.s := b];
      if haunted {
        ghost var k :| 0 <= k < |list| && Differs(list[k], r.s, DotInode(b));
        assert Differs(list[k], r.s, fs.p.inodes[r.s]);
        assert Stale(r.s);
      }
    }

    /** A copy of the number in memory is not the inode. */
    ghost predicate Stale(c: int)
      reads `list, `held, `first, fs, fs.p
    {
      c in fs.tree && c in fs.p.inodes && exists k :: 0 <= k < |list| && Differs(list[k], c, fs.p.inodes[c])
    }

    /** The slot of a live inode with a lower number holds this one. */
    ghost predicate Misplaced(c: int)
      reads `list, `held, `first, fs, fs.p
    {
      c >= 256 && c % 256 in fs.tree && c in fs.tree && c in fs.p.inodes && InSlot(fs.p.disk, fs.lba, c % 256, c, fs.p.inodes[c])
    }

    /** A test for either on the inode that a call made. */
    method IsSpoilt(c: int) returns (b: bool)
      requires c in fs.tree && if c < 256 then fs.Valid() else Misplaced(c)
      ensures if c < 256 then b <==> Stale(c) else b
      ensures Valid() ==> !b
    {
      hide Rooted, Nodes, Sound, InodesOk, TabledBut, AreaOk, Firsts, HeldDirs, Uses;
      if c >= 256 { return true; }
      NumberLives(fs, c);
      var k := 0;
      while k < |list|
        invariant 0 <= k <= |list| && forall j :: 0 <= j < k ==> !Differs(list[j], c, fs.p.inodes[c])
      {
        if list[k].node.no == c && list[k].node != Stored(c, fs.p.inodes[c]) {
          assert Differs(list[k], c, fs.p.inodes[c]);
          assert Linked() ==> CellOk(list[k], fs.p.inodes, Uses(fs.files, held), first);
          return true;
        }
        k := k + 1;
      }
      b := false;
    }

    /** `sys_unlink`'s end: a file with a slot in the file table stays; another one has no copy in memory, and leaves none. */
    method Unlink(d: int, ghost n: Name, c: int) returns (r: int)
      requires Valid() && d in fs.tree && fs.tree[d].Dir? && n in fs.tree[d].items && !Dots(n) && fs.tree[d].items[n] == Item(c, REGULAR)
      modifies this, fs, fs.p
      ensures Valid() && r == (if IsOpen(fs.files, c) then -1 else 0) && fs.files == old(fs.files) && Free(fs.p.bits) >= Free(old(fs.p.bits))
      ensures fs.tree == (if r == 0 then Prune(old(fs.tree), d, n) else old(fs.tree))
      ensures held == old(held) && first == old(first) && seen == old(seen)
    {
      hide FileSystem.Valid, Copies, HeldDirs, Firsts, Uses, Free, IsOpen, InodeCut, Opened, Closed, Wrote, Prune;
      ghost var u, l0, m0, t0, h0 := Uses(fs.files, held), list, fs.p.inodes, fs.tree, heap;
      ChildApart(fs, d, n, c);
      ghost var n0 := InodeOpen(d, u);
      r := fs.Unlink(d, n, c);
      if r == -1 {
        InodeClose(d);
        CalledOff(l0, m0, u, first, d, h0);
        return;
      }
      CutThere(m0, fs.p.inodes, d, c);
      WriteBack(d);
      InodeClose(d);
      FileUnused(t0, fs.files, held, c);
      CutAround(l0, m0, fs.p.inodes, u, first, d, h0, c);
      FirstsCut(first, t0, fs.tree, m0, fs.p.inodes, d, n, c);
      HeldCut(t0, fs.tree, held, d, n);
    }

    /** `dir_is_empty` and `dir_remove`: a copy that somebody else has open stays in memory, of a number that is free. */
    method Rmdir(d: int, ghost n: Name, c: int) returns (r: int)
      requires Valid() && d in fs.tree && fs.tree[d].Dir? && n in fs.tree[d].items && !Dots(n) && fs.tree[d].items[n] == Item(c, DIRECTORY)
      modifies this, fs, fs.p
      ensures Valid() && c in old(fs.tree) && old(fs.tree)[c].Dir? && fs.files == old(fs.files)
      ensures r == (if old(fs.tree)[c].items.Keys == {DOT, DOTDOT} then 0 else -1) && Free(fs.p.bits) >= Free(old(fs.p.bits))
      ensures fs.tree == (if r == 0 then Prune(old(fs.tree), d, n) else old(fs.tree))
      ensures held == old(held) && first == old(first) && seen == old(seen)
    {
      hide FileSystem.Valid, Copies, HeldDirs, Firsts, Uses, Free, InodeCut, Opened, Closed, Wrote, Prune, IsDotInode, DotInode;
      ghost var u, m0, t0 := Uses(fs.files, held), fs.p.inodes, fs.tree;
      ChildApart(fs, d, n, c);
      ghost var n0 := InodeOpen(d, u);
      ghost var n1 := InodeOpen(c, u + multiset{d});
      r := fs.Rmdir(d, n, c);
      ghost var u2 := u + multiset{d} + multiset{c};
      if r == 0 {
        CutThere(m0, fs.p.inodes, d, c);
        DeadFirst(first, t0, m0, c);
        WroteOk(list, m0, m0[d := fs.p.inodes[d]], u2, first, d);
        WriteBack(d);
        CutAfter(list, m0, fs.p.inodes, u2, first, d, c);
        FirstsCut(first, t0, fs.tree, m0, fs.p.inodes, d, n, c);
        HeldCut(t0, fs.tree, held, d, n);
      }
      ClosedOk(list, fs.p.inodes, u2, first, c);
      InodeClose(c);
      BackAgain(u, d, c);
      ClosedOk(list, fs.p.inodes, u + multiset{d}, first, d);
      InodeClose(d);
    }

    /** `dir_remove` with the directory as its own parent. */
    method RmdirSelf(c: int) returns (r: int)
      requires Valid() && c in fs.tree && fs.tree[c].Dir? && c != 0
      modifies this, fs, fs.p
      ensures r == (if old(fs.tree)[c].items.Keys == {DOT, DOTDOT} then 0 else -1)
      ensures r == -1 ==> Valid() && fs.tree == old(fs.tree) && fs.files == old(fs.files)
      ensures r == 0 ==> fs.Core() && fs.tree == old(fs.tree) - {c} && fs.home == old(fs.home) && fs.depth == old(fs.depth)
      ensures held == old(held) && first == old(first) && seen == old(seen)
    {
      hide FileSystem.Valid, FileSystem.Core, Copies, HeldDirs, Firsts, Uses, Opened, Closed, Wrote;
      ghost var u, l0, m0, h0 := Uses(fs.files, held), list, fs.p.inodes, heap;
      ghost var n0 := InodeOpen(c, u);
      r := fs.RmdirSelf(c);
      InodeClose(c);
      if r == -1 { CalledOff(l0, m0, u, first, c, h0); }
    }

    /** `file_write` through the copy in memory. */
    method Write(i: int, buf: seq<Byte>) returns (r: Outcome<int>)
      requires Valid() && i in fs.tree && fs.tree[i].File? && |fs.tree[i].bytes| + |buf| < WORD_LIMIT
      modifies this, fs, fs.p
      ensures r == Go(-1) <==> |old(fs.tree)[i].bytes| + |buf| > MAX_BYTES
      ensures r.Panic? <==> || |old(fs.tree)[i].bytes| + |buf| == MAX_BYTES
                            || (|old(fs.tree)[i].bytes| + |buf| < MAX_BYTES && Free(old(fs.p.bits)) < Needed(old(fs.p.inodes[i]), |buf|))
      ensures r.Go? ==> Valid() && fs.files == old(fs.files) && held == old(held) && first == old(first) && seen == old(seen)
      ensures r == Go(-1) ==> fs.tree == old(fs.tree)
      ensures r.Go? && r.s != -1 ==> r.s == |buf| && fs.tree == old(fs.tree)[i := File(old(fs.tree)[i].bytes + buf)]
      ensures r.Go? ==> i in old(fs.p.inodes) && |old(fs.p.inodes)[i].sectors| == 13
                        && Free(fs.p.bits) == Free(old(fs.p.bits)) - (if r.s == -1 then 0 else Needed(old(fs.p.inodes[i]), |buf|))
    {
      hide FileSystem.Valid, Copies, HeldDirs, Firsts, Uses, Free, Needed, Wrote;
      ghost var u, m0, t0 := Uses(fs.files, held), fs.p.inodes, fs.tree;
      NumberLives(fs, i);
      r := fs.Write(i, buf);
      if r.Panic? { return; }
      WroteOk(list, m0, fs.p.inodes, u, first, i);
      WriteBack(i);
      WriteLinks(first, t0, fs.tree, m0, fs.p.inodes, held, i);
    }

    /** `sys_open` of an existing file: the directory that the search left open, if there is one, is never closed. */
    method Open(i: int, d: Option<int>) returns (g: int)
      requires Valid() && i in fs.tree && fs.tree[i].File? && (d.Some? ==> d.v in fs.tree && fs.tree[d.v].Dir?)
      modifies this, fs`files
      ensures Valid() && (g == -1 <==> !HasSlot(old(fs.files))) && held == old(held) + (if d.Some? then multiset{d.v} else multiset{})
      ensures if g == -1 then fs.files == old(fs.files) else SlotTaken(old(fs.files), fs.files, g, i)
      ensures first == old(first) && seen == old(seen)
    {
      hide FileSystem.Valid, Copies, HeldDirs, Firsts, Uses, Opened, HasSlot;
      if d.Some? { Opendir(d.v); }
      ghost var u, f0 := Uses(fs.files, held), fs.files;
      g := fs.Open(i);
      if g == -1 { return; }
      var n := InodeOpen(i, u);
      SlotUses(f0, fs.files, held, g, i);
    }

    /** `file_close` */
    method Close(g: int)
      requires Valid() && |fs.files| == MAX_OPEN && 0 <= g < MAX_OPEN && fs.files[g].OnInode?
      modifies this, fs`files
      ensures Valid() && fs.files == old(fs.files)[g := Unused] && held == old(held) && first == old(first) && seen == old(seen)
    {
      hide FileSystem.Valid, Copies, HeldDirs, Firsts, Uses, Closed;
      ghost var u, f0 := Uses(fs.files, held), fs.files;
      var i := fs.files[g].ino;
      SlotGone(fs.files, held, g);
      ClosedOk(list, fs.p.inodes, u, first, i);
      InodeClose(i);
      fs.Close(g);
    }

    /** `sys_opendir` */
    method Opendir(d: int)
      requires Valid() && d in fs.tree && fs.tree[d].Dir?
      modifies this
      ensures Valid() && held == old(held) + multiset{d} && first == old(first) && seen == old(seen)
    {
      hide FileSystem.Valid, Copies, Firsts, Opened;
      ghost var u := Uses(fs.files, held);
      var n := InodeOpen(d, u);
      assert u + multiset{d} == Uses(fs.files, held + multiset{d});
      held := held + multiset{d};
    }

    /** `sys_closedir` */
    method Closedir(c: int)
      requires Valid() && c in held
      modifies this
      ensures Valid() && held == old(held) - multiset{c} && first == old(first) && seen == old(seen)
    {
      hide FileSystem.Valid, Copies, Firsts, Closed;
      ghost var u := Uses(fs.files, held);
      ClosedOk(list, fs.p.inodes, u, first, c);
      InodeClose(c);
      assert u - multiset{c} == Uses(fs.files, held - multiset{c});
      held := held - multiset{c};
    }
  }

  /** A copy of the number is in memory, of a directory that was elsewhere. */
  ghost predicate Haunts(held: multiset<int>, first: map<int, int>, c: int, b: int) { c in held && !(c in first && first[c] == b) }
}
