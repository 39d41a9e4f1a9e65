/** Paths on which `sys_unlink` and `sys_rmdir` do not do what they are meant to do. */
module PathInputs {
  import opened Basics
  import opened Words
  import opened Volume
  import opened Entries
  import opened DirTable
  import opened FileCode
  import opened InodeArea
  import opened Tree
  import opened Paths
  import opened TreePaths
  import opened FsCode
  import opened Mounts
  import opened FsRuns
  import opened FsBroken
  import opened FsInputs
  import opened PathCode
  import opened SysCalls

  const D_E: Path := [SLASH, 100, SLASH, 101]          // "/d/e"
  const D_DOT: Path := [SLASH, 100, SLASH, 46]         // "/d/."

  lemma TwoNames(p: Path, a: Name, b: Name)
    requires Plain(a) && Plain(b) && p == [SLASH] + a + [SLASH] + b && |p| < 512 && NameOk(a) && NameOk(b)
    ensures Split(p) == [a, b] && PathOk(p)
  {
    hide NameOk;
    var ns := [a, b];
    SplitFirst(b, []);
    SplitFirst(a, [SLASH] + b + []);
    assert [SLASH] + b + [] == [SLASH] + b && Split([]) == [];
    assert p == [SLASH] + a + ([SLASH] + b + []);
    assert Split(p) == [a] + ([b] + []) == ns;
  }

  // ---------------------------------------------------------------- unlink behind a file

  /** The root with one empty file, which is closed. */
  ghost function Closed(): (w: World) { World(OneFile([]).tree, NoFiles(), multiset{}) }

  lemma CreateAndClose()
    ensures var ops := [OpCreate(0, D), OpClose(3)];
            && SensibleRun(Empty(), ops) && SafeRun(Empty(), ops) && !TightRun(Empty(), ops) && Demand(ops) == 1
            && Replay(Empty(), ops) == Closed()
  {
    hide Sensible, Do, Tight, Safe;
    CreateOne();
    CloseOne();
    var ops := [OpCreate(0, D), OpClose(3)];
    assert ops[1..] == [OpClose(3)];
    OneCall(OneFile([]), OpClose(3));
  }

  lemma CloseOne()
    ensures var w, op := OneFile([]), OpClose(3); Sensible(w, op) && !Tight(w, op) && Safe(w, op) && Do(w, op) == Closed()
  {
    var w := OneFile([]);
    assert w.files[3] == OnInode(1);
    assert Do(w, OpClose(3)).files == Closed().files;
  }

  lemma FoundBehind()
    ensures Split(D_E) == [D, E] && PathOk(D_E) && !RootPath(D_E)
    ensures Walk(Closed().tree, 0, [D, E]) == Some(Item(1, REGULAR)) && ThroughFile(Closed().tree, [D, E])
    ensures !IsOpen(Closed().files, 1)
    ensures forall k, d :: Present(Closed().tree, [D, E], k, d, Item(1, REGULAR)) ==> k == 0 && d == 0
  {
    var t, ns := Closed().tree, [D, E];
    NamesOk();
    TwoNames(D_E, D, E);
    assert 0 in t && t[0].Dir? && D in t[0].items;
    assert ns[..1] == [D];
    assert Walk(t, 0, [D]) == Some(Item(1, REGULAR));
    assert ToFile(t, ns[..1]);
    assert Present(t, ns, 0, 0, Item(1, REGULAR)) by { assert ns[..0] == []; }
    forall k, d | Present(t, ns, k, d, Item(1, REGULAR)) ensures k == 0 && d == 0 {
      if k == 1 { assert false; }
      assert ns[..0] == [];
    }
  }

  lemma PruneOne()
    ensures var w, op := Closed(), OpUnlink(0, D); Sensible(w, op) && Do(w, op) == Empty()
  {
    NamesOk();
    var w := Closed();
    assert forall g :: 0 <= g < |w.files| ==> w.files[g] == Unused;
    assert !IsOpen(w.files, 1);
    var items := NewDir(0, 0).items;
    assert w.tree[0] == Dir(items[D := Item(1, REGULAR)]) && items[D := Item(1, REGULAR)] - {D} == items;
    assert Prune(w.tree, 0, D) == Empty().tree;
  }

  /** A file `d` in the root, and `unlink("/d/e")`: there is no `e`, and the call succeeds and deletes `d`. */
  method UnlinkBehindFile(p: Partition, lba: int, n: int) returns (m: Mounted, r: Outcome<int>, ghost before: World)
    requires DiskOk(p.disk) && 0 <= lba && lba + AREA <= p.start && 2 < n && p.start + n <= |p.disk|
    modifies p
    ensures before == Closed() && r == Go(0) && m.Valid() && WorldOf(m) == Empty()
  {
    hide Sensible, Do, Walk, Split, OneFile, ThroughFile, Present, FileSystem.Valid, Mounted.Linked, NameOk, SensibleRun, SafeRun, TightRun, Replay;
    m := Format(p, lba, n);
    FreeFresh(n);
    CreateAndClose();
    RunSafe(m, [OpCreate(0, D), OpClose(3)]);
    before := WorldOf(m);
    FoundBehind();
    PruneOne();
    ghost var d, k;
    r, d, k := SysUnlink(m, D_E);
  }

  // ---------------------------------------------------------------- rmdir of a directory by its dot

  lemma OneDirectory()
    ensures var ops := [OpMkdir(0, D)];
            && SensibleRun(Empty(), ops) && SafeRun(Empty(), ops) && !TightRun(Empty(), ops) && Demand(ops) == 2
            && Replay(Empty(), ops) == Nested(1)
  {
    hide Sensible, Do, Tight, Safe, Nested;
    NestStart();
    NestStep(0);
    OneCall(Empty(), OpMkdir(0, D));
  }

  lemma ItselfNamed()
    ensures PathOk(D_DOT) && NamesItself(Nested(1).tree, D_DOT)
  {
    var t, ns := Nested(1).tree, [D, DOT];
    NamesOk();
    TwoNames(D_DOT, D, DOT);
    assert ns[1..] == [DOT] && [DOT][1..] == [];
    assert 0 in t && t[0] == Holding(0) && 1 in t && t[1] == NewDir(1, 0);
    assert t[1].items[DOT] == Item(1, DIRECTORY);
    assert Walk(t, 1, [DOT]) == Some(Item(1, DIRECTORY));
    assert t[0].items[D] == Item(1, DIRECTORY);
    assert Walk(t, 0, ns) == Some(Item(1, DIRECTORY));
  }

  /** A tree with one empty directory `d`, and `rmdir("/d/.")`: the call succeeds, and what it leaves is no tree. */
  method RmdirByDot(p: Partition, lba: int, n: int) returns (m: Mounted, r: Outcome<int>, ghost before: World)
    requires DiskOk(p.disk) && 0 <= lba && lba + AREA <= p.start && 3 < n && p.start + n <= |p.disk|
    modifies p
    ensures before == Nested(1) && r == Go(0) && !Consistent(m.fs.p.start, m.fs.p.disk, m.fs.p.inodes, m.fs.p.bits)
  {
    hide Sensible, Do, Walk, Split, Nested, FileSystem.Valid, Mounted.Linked, NameOk, SensibleRun, SafeRun, TightRun, Replay, Consistent;
    m := Format(p, lba, n);
    FreeFresh(n);
    OneDirectory();
    RunSafe(m, [OpMkdir(0, D)]);
    before := WorldOf(m);
    ItselfNamed();
    ghost var d;
    r, d := SysRmdir(m, D_DOT);
  }
}
