/** Runs from a formatted partition on which the code does not do what it is meant to do. */
module FsInputs {
  import opened Basics
  import opened Bitmaps
  import opened Words
  import opened Volume
  import opened Entries
  import opened DirTable
  import opened FileCode
  import opened InodeArea
  import opened Tree
  import opened FsCode
  import opened OpenInodes
  import opened Mounts
  import opened FsRuns
  import C = InodeCache
  import IT = InodeTable

  const D: Name := [100]                 // "d"
  const E: Name := [101]                 // "e"

  ghost function Empty(): (w: World) { World(map[0 := NewDir(0, 0)], NoFiles(), multiset{}) }

  function NoFiles(): (f: seq<FileSlot>) { seq(MAX_OPEN, g => Unused) }

  // ---------------------------------------------------------------- runs that lose nothing

  /** The call makes no inode, or one whose number is below 256 and not in memory. */
  ghost predicate Safe(w: World, op: Op)
    requires Sensible(w, op)
  {
    Makes(w, op) ==> LeastFrom(w.tree, 0) < 256 && LeastFrom(w.tree, 0) !in w.held
  }

  ghost predicate SafeRun(w: World, ops: seq<Op>)
    requires SensibleRun(w, ops)
    decreases |ops|
  {
    ops == [] || (Safe(w, ops[0]) && SafeRun(Do(w, ops[0]), ops[1..]))
  }

  lemma SafeKeeps(w: World, at: map<int, int>, op: Op, b: int)
    requires Sensible(w, op) && Safe(w, op)
    ensures !Loses(w, at, op, b)
  {
  }

  lemma {:induction false} SafePrefix(w: World, at: map<int, int>, ops: seq<Op>, bs: seq<int>, n: nat)
    requires SensibleRun(w, ops) && SafeRun(w, ops) && n <= |ops| && |bs| == n
    ensures SensibleRun(w, ops[..n]) && !LosingRun(w, at, ops[..n], bs)
    decreases n
  {
    hide Sensible, Do, Safe, Loses, Seat;
    if n > 0 {
      SafeKeeps(w, at, ops[0], bs[0]);
      assert ops[..n][0] == ops[0] && ops[..n][1..] == ops[1..][..n - 1];
      SafePrefix(Do(w, ops[0]), Seat(w, at, ops[0], bs[0]), ops[1..], bs[1..], n - 1);
    }
  }

  /** Such a run, with blocks enough and no tight spot, is done. */
  method RunSafe(m: Mounted, ops: seq<Op>)
    requires m.Valid() && SensibleRun(WorldOf(m), ops) && SafeRun(WorldOf(m), ops) && !TightRun(WorldOf(m), ops)
    requires Demand(ops) <= Free(m.fs.p.bits)
    modifies m, m.fs, m.fs.p
    ensures m.Valid() && WorldOf(m) == Replay(old(WorldOf(m)), ops) && Free(m.fs.p.bits) >= Free(old(m.fs.p.bits)) - Demand(ops)
  {
    hide Mounted.Valid, Sensible, Do, SensibleRun, SafeRun, TightRun, LosingRun, Replay, Free, Spoilt;
    ghost var w0, at0, n0 := WorldOf(m), m.first, |m.seen|;
    var end := Run(m, ops);
    if end.Lost? {
      SafePrefix(w0, at0, ops, Met(m, n0), end.at + 1);
      assert false;
    }
  }


  lemma {:induction false} FreeFresh(n: nat)
    requires n > 0
    ensures Free(seq(n, b => b == 0)) == n - 1
    decreases n
  {
    var s := seq(n, b => b == 0);
    if n == 1 {
      assert s[..0] == [];
    } else {
      assert s[..n - 1] == seq(n - 1, b => b == 0);
      FreeFresh(n - 1);
    }
  }

  lemma NamesOk()
    ensures NameOk(D) && !Dots(D) && NameOk(E) && !Dots(E)
  {
  }

  // ---------------------------------------------------------------- the 256th directory

  /** Directories 0 to `k`, each in the one before. */
  ghost function Nested(k: nat): (w: World) {
    World(map i | 0 <= i <= k :: if i < k then Holding(i) else NewDir(i, Up(i)), NoFiles(), multiset{})
  }

  function Up(i: int): (d: int) { if i == 0 then 0 else i - 1 }

  ghost function Holding(i: int): (x: Node) { Dir(NewDir(i, Up(i)).items[D := Item(i + 1, DIRECTORY)]) }

  /** The calls from the one that makes directory `k + 1` on: up to number 255 each directory goes into the one before,
      and number 256 into the root. */
  function NestFrom(k: nat): (ops: seq<Op>)
    requires k <= 255
    ensures |ops| == 256 - k
    decreases 255 - k
  {
    if k == 255 then [OpMkdir(0, E)] else [OpMkdir(k, D)] + NestFrom(k + 1)
  }

  lemma NestLeast(k: nat)
    requires k < 256
    ensures LeastFrom(Nested(k).tree, 0) == k + 1 && !AllTaken(Nested(k).tree)
  {
    var t := Nested(k).tree;
    var c := LeastFrom(t, 0);
    assert forall i :: i in t <==> 0 <= i <= k;
    assert 4000 !in t;
    assert c < MAX_FILES;
    assert c !in t && k + 1 !in t;
  }

  lemma NestStep(k: nat)
    requires k < 255
    ensures Sensible(Nested(k), OpMkdir(k, D)) && Do(Nested(k), OpMkdir(k, D)) == Nested(k + 1)
    ensures !Tight(Nested(k), OpMkdir(k, D)) && Safe(Nested(k), OpMkdir(k, D))
  {
    hide LeastFrom, AllTaken;
    NamesOk();
    NestLeast(k);
    var t := Nested(k).tree;
    assert k in t && t[k] == NewDir(k, Up(k));
    assert D !in t[k].items && |t[k].items| <= 2;
    assert Grow(t, k, D, k + 1, NewDir(k + 1, k)) == Nested(k + 1).tree;
  }

  lemma NestEnd()
    ensures var w, op := Nested(255), OpMkdir(0, E); Sensible(w, op) && !Tight(w, op) && forall at, b :: Loses(w, at, op, b)
  {
    hide LeastFrom, AllTaken;
    NamesOk();
    NestLeast(255);
    var t := Nested(255).tree;
    assert 0 in t && t[0] == Holding(0);
    assert E !in t[0].items && |t[0].items| <= 3;
  }

  lemma {:induction false} NestRuns(k: nat)
    requires k <= 255
    ensures SensibleRun(Nested(k), NestFrom(k)) && !TightRun(Nested(k), NestFrom(k)) && Demand(NestFrom(k)) == 2 * (256 - k)
    decreases 255 - k
  {
    hide Sensible, Do, Tight, Loses, Nested, Safe;
    if k == 255 {
      NestEnd();
      OneCall(Nested(255), OpMkdir(0, E));
    } else {
      NestStep(k);
      NestRuns(k + 1);
      assert NestFrom(k)[0] == OpMkdir(k, D) && NestFrom(k)[1..] == NestFrom(k + 1);
    }
  }

  /** Whatever sectors are free, the last call is the one that loses an inode. */
  lemma {:induction false} NestLoses(k: nat, at: map<int, int>, bs: seq<int>)
    requires k <= 255 && |bs| <= 256 - k
    ensures SensibleRun(Nested(k), NestFrom(k)[..|bs|]) && (LosingRun(Nested(k), at, NestFrom(k)[..|bs|], bs) <==> |bs| == 256 - k)
    decreases 255 - k
  {
    hide Sensible, Do, Loses, Seat, Nested, Safe;
    var ops := NestFrom(k)[..|bs|];
    if bs == [] {
      assert ops == [];
    } else if k == 255 {
      NestEnd();
      assert ops == [OpMkdir(0, E)] && bs == [bs[0]];
      OneCall(Nested(255), OpMkdir(0, E));
      assert Loses(Nested(255), at, OpMkdir(0, E), bs[0]);
    } else {
      NestStep(k);
      SafeKeeps(Nested(k), at, OpMkdir(k, D), bs[0]);
      assert ops[0] == OpMkdir(k, D) && ops[1..] == NestFrom(k + 1)[..|bs| - 1];
      NestLoses(k + 1, Seat(Nested(k), at, OpMkdir(k, D), bs[0]), bs[1..]);
    }
  }

  /** On any formatted partition with room for it, the run that makes 256 directories loses an inode with its last call:
      number 256 does not lie in a slot of its own. */
  method TooManyInodes(p: Partition, lba: int, n: int) returns (m: Mounted, end: End)
    requires DiskOk(p.disk) && 0 <= lba && lba + AREA <= p.start && 513 <= n && p.start + n <= |p.disk|
    modifies p
    ensures end == Lost(255) && !m.Valid() && Spoilt(m)
  {
    hide Nested, NestFrom, Spoilt, Mounted.Valid, LosingRun, SensibleRun, Free;
    m := Format(p, lba, n);
    FreeFresh(n);
    NestStart();
    NestRuns(0);
    ghost var at, n0 := m.first, |m.seen|;
    end := Run(m, NestFrom(0));
    if !end.Stopped? {
      NestLoses(0, at, Met(m, n0));
      assert NestFrom(0)[..256] == NestFrom(0);
      if end.Lost? { NestLoses(0, at, Met(m, n0)[..end.at]); }
    }
  }

  lemma NestStart()
    ensures Nested(0) == Empty()
  {
    assert Nested(0).tree == map[0 := NewDir(0, 0)];
  }

  // ---------------------------------------------------------------- full files

  function Bytes(n: nat): (b: seq<Byte>)
    ensures |b| == n
  {
    seq(n, x => 0)
  }

  /** The root with one file, which is open. */
  ghost function OneFile(bytes: seq<Byte>): (w: World) {
    World(map[0 := Dir(NewDir(0, 0).items[D := Item(1, REGULAR)]), 1 := File(bytes)], NoFiles()[3 := OnInode(1)], multiset{})
  }

  lemma CreateOne()
    ensures Sensible(Empty(), OpCreate(0, D)) && Do(Empty(), OpCreate(0, D)) == OneFile([])
    ensures !Tight(Empty(), OpCreate(0, D)) && Safe(Empty(), OpCreate(0, D))
  {
    hide LeastFrom;
    NamesOk();
    NestStart();
    NestLeast(0);
    var w := Empty();
    assert |w.tree[0].items| <= 2;
    assert w.files[3] == Unused;
    assert FreeFrom(w.files, 3) == 3;
    var r := Do(w, OpCreate(0, D));
    assert r.tree == OneFile([]).tree;
    assert r.files == OneFile([]).files;
  }

  lemma FillOne(n: nat)
    requires n <= MAX_BYTES
    ensures var ops := [OpCreate(0, D), OpWrite(1, Bytes(n))];
            && SensibleRun(Empty(), ops) && SafeRun(Empty(), ops) && (TightRun(Empty(), ops) <==> n == MAX_BYTES)
            && Replay(Empty(), ops).tree == OneFile(Bytes(n)).tree && Demand(ops) == n / BLOCK + 4
  {
    hide Sensible, Do, Tight, Safe;
    CreateOne();
    WriteOne(n);
    var ops := [OpCreate(0, D), OpWrite(1, Bytes(n))];
    assert ops[1..] == [OpWrite(1, Bytes(n))];
    OneCall(OneFile([]), OpWrite(1, Bytes(n)));
    assert Cost(OpWrite(1, Bytes(n))) == n / BLOCK + 3;
  }

  lemma OneCall(w: World, op: Op)
    requires Sensible(w, op)
    ensures SensibleRun(w, [op]) && Replay(w, [op]) == Do(w, op) && Demand([op]) == Cost(op)
    ensures (SafeRun(w, [op]) <==> Safe(w, op)) && (TightRun(w, [op]) <==> Tight(w, op))
    ensures forall at, b :: LosingRun(w, at, [op], [b]) <==> Loses(w, at, op, b)
  {
    hide Sensible, Do, Safe, Loses, Tight, Seat;
    assert [op][1..] == [];
    assert SensibleRun(Do(w, op), []) && Replay(Do(w, op), []) == Do(w, op) && Demand([]) == 0;
    assert SafeRun(Do(w, op), []) && !TightRun(Do(w, op), []);
    forall at, b ensures LosingRun(w, at, [op], [b]) <==> Loses(w, at, op, b) {
      assert [b][1..] == [] && !LosingRun(Do(w, op), Seat(w, at, op, b), [], []);
    }
  }

  lemma WriteOne(n: nat)
    requires n <= MAX_BYTES
    ensures var w, op := OneFile([]), OpWrite(1, Bytes(n));
            Sensible(w, op) && Do(w, op).tree == OneFile(Bytes(n)).tree && (Tight(w, op) <==> n == MAX_BYTES) && Safe(w, op)
  {
    var w := OneFile([]);
    assert w.tree[1].bytes + Bytes(n) == Bytes(n);
    assert w.tree[1 := File(Bytes(n))] == OneFile(Bytes(n)).tree;
  }

  /** A new file into which 71680 bytes are written: the first test of `file_write` lets them pass, and an assertion
      stops the kernel, although there is room on the disk. */
  method FullFileStops(p: Partition, lba: int, n: int) returns (end: End)
    requires DiskOk(p.disk) && 0 <= lba && lba + AREA <= p.start && 146 <= n && p.start + n <= |p.disk|
    modifies p
    ensures end.Stopped?
  {
    hide Mounted.Valid, SensibleRun, LosingRun, SafeRun, TightRun, Replay, Demand, Free;
    var m := Format(p, lba, n);
    FreeFresh(n);
    FillOne(MAX_BYTES);
    ghost var at, n0 := m.first, |m.seen|;
    var ops := [OpCreate(0, D), OpWrite(1, Bytes(MAX_BYTES))];
    end := Run(m, ops);
    if end.Lost? {
      SafePrefix(Empty(), at, ops, Met(m, n0), end.at + 1);
      assert false;
    }
  }

  /** A file of 71169 bytes, one in its block 139: that byte cannot be read. */
  method LastBlockUnread(p: Partition, lba: int, n: int) returns (m: Mounted, r: Outcome<Option<seq<Byte>>>)
    requires DiskOk(p.disk) && 0 <= lba && lba + AREA <= p.start && 146 <= n && p.start + n <= |p.disk|
    modifies p
    ensures m.Valid() && 1 in m.fs.tree && m.fs.tree[1] == File(Bytes(71169)) && r.Panic?
  {
    hide Bytes, OneFile, Mounted.Linked, FileSystem.Valid, SensibleRun, SafeRun, TightRun, Replay, Demand, Free;
    m := Format(p, lba, n);
    FreeFresh(n);
    FillOne(71169);
    RunSafe(m, [OpCreate(0, D), OpWrite(1, Bytes(71169))]);
    OneIs(71169);
    var next;
    r, next := m.fs.Read(1, 71168, 1);
  }

  lemma OneIs(n: nat)
    ensures 1 in OneFile(Bytes(n)).tree && OneFile(Bytes(n)).tree[1] == File(Bytes(n)) && |Bytes(n)| == n
  {
  }

  // ---------------------------------------------------------------- a directory that died in memory

  /** The root, and `d` below it with the file `e`. */
  ghost function InDir(files: seq<FileSlot>, held: multiset<int>): (w: World) {
    World(map[0 := Holding(0), 1 := Dir(NewDir(1, 0).items[E := Item(2, REGULAR)]), 2 := File([])], files, held)
  }

  function OneSlot(): (f: seq<FileSlot>) { NoFiles()[3 := OnInode(2)] }

  /** mkdir /d, create /d/e, close it; open /d/e again, which leaves /d open; close it, unlink it, and rmdir /d. */
  const DYING: seq<Op> := [OpMkdir(0, D), OpCreate(1, E), OpClose(3), OpOpen(2, Some(1)), OpClose(3), OpUnlink(1, E), OpRmdir(0, D)]

  ghost predicate Leads(w: World, op: Op, v: World) { Sensible(w, op) && Safe(w, op) && !Tight(w, op) && Do(w, op) == v }

  lemma FirstSlot(i: int)
    ensures HasSlot(NoFiles()) && Taken(NoFiles(), i) == NoFiles()[3 := OnInode(i)]
    ensures NoFiles()[3 := OnInode(i)][3 := Unused] == NoFiles() && !IsOpen(NoFiles(), i)
  {
    assert NoFiles()[3] == Unused;
    assert FreeFrom(NoFiles(), 3) == 3;
  }

  lemma CreatesInDir()
    ensures Leads(Nested(1), OpCreate(1, E), InDir(OneSlot(), multiset{}))
  {
    hide LeastFrom, AllTaken, HasSlot, Taken;
    NamesOk();
    NestLeast(1);
    FirstSlot(2);
    var t := Nested(1).tree;
    assert 0 in t && t[0] == Holding(0) && 1 in t && t[1] == NewDir(1, 0);
    assert E !in t[1].items && |t[1].items| <= 2;
    assert Grow(t, 1, E, 2, File([])) == InDir(OneSlot(), multiset{}).tree;
  }

  lemma ClosesSlot(held: multiset<int>)
    ensures Leads(InDir(OneSlot(), held), OpClose(3), InDir(NoFiles(), held))
  {
    FirstSlot(2);
  }

  lemma LeavesOpen()
    ensures Leads(InDir(NoFiles(), multiset{}), OpOpen(2, Some(1)), InDir(OneSlot(), multiset{1}))
  {
    hide HasSlot, Taken;
    FirstSlot(2);
    assert multiset{} + multiset{1} == multiset{1};
  }

  lemma UnlinksFile()
    ensures Leads(InDir(NoFiles(), multiset{1}), OpUnlink(1, E), World(Nested(1).tree, NoFiles(), multiset{1}))
  {
    NamesOk();
    FirstSlot(2);
    var w, items := InDir(NoFiles(), multiset{1}), NewDir(1, 0).items;
    assert items[E := Item(2, REGULAR)] - {E} == items;
    assert Prune(w.tree, 1, E) == Nested(1).tree;
  }

  lemma RemovesDir()
    ensures Leads(World(Nested(1).tree, NoFiles(), multiset{1}), OpRmdir(0, D), World(Empty().tree, NoFiles(), multiset{1}))
  {
    NamesOk();
    var t, items := Nested(1).tree, NewDir(0, 0).items;
    assert 0 in t && t[0] == Holding(0) && 1 in t && t[1] == NewDir(1, 0);
    assert t[1].items.Keys == {DOT, DOTDOT};
    assert items[D := Item(1, DIRECTORY)] - {D} == items;
    assert Prune(t, 0, D) == Empty().tree;
  }

  lemma Chain(w: World, op: Op, v: World, ops: seq<Op>)
    requires Leads(w, op, v) && SensibleRun(v, ops) && SafeRun(v, ops) && !TightRun(v, ops)
    ensures SensibleRun(w, [op] + ops) && SafeRun(w, [op] + ops) && !TightRun(w, [op] + ops)
    ensures Replay(w, [op] + ops) == Replay(v, ops) && Demand([op] + ops) == Cost(op) + Demand(ops)
  {
    hide Sensible, Safe, Tight, Do;
    assert ([op] + ops)[0] == op && ([op] + ops)[1..] == ops;
  }

  lemma Dies()
    ensures SensibleRun(Empty(), DYING) && SafeRun(Empty(), DYING) && !TightRun(Empty(), DYING) && Demand(DYING) == 3
    ensures Replay(Empty(), DYING) == World(Empty().tree, NoFiles(), multiset{1})
  {
    hide Leads, SensibleRun, SafeRun, TightRun, Replay, InDir, Nested;
    var w7 := World(Empty().tree, NoFiles(), multiset{1});
    var t1 := World(Nested(1).tree, NoFiles(), multiset{1});
    NoCalls(w7);
    RemovesDir();
    Chain(t1, OpRmdir(0, D), w7, []);
    UnlinksFile();
    Chain(InDir(NoFiles(), multiset{1}), OpUnlink(1, E), t1, [OpRmdir(0, D)] + []);
    ClosesSlot(multiset{1});
    var r5 := [OpUnlink(1, E)] + ([OpRmdir(0, D)] + []);
    Chain(InDir(OneSlot(), multiset{1}), OpClose(3), InDir(NoFiles(), multiset{1}), r5);
    LeavesOpen();
    var r4 := [OpClose(3)] + r5;
    Chain(InDir(NoFiles(), multiset{}), OpOpen(2, Some(1)), InDir(OneSlot(), multiset{1}), r4);
    ClosesSlot(multiset{});
    var r3 := [OpOpen(2, Some(1))] + r4;
    Chain(InDir(OneSlot(), multiset{}), OpClose(3), InDir(NoFiles(), multiset{}), r3);
    CreatesInDir();
    var r2 := [OpClose(3)] + r3;
    Chain(Nested(1), OpCreate(1, E), InDir(OneSlot(), multiset{}), r2);
    MakesDir();
    var r1 := [OpCreate(1, E)] + r2;
    Chain(Empty(), OpMkdir(0, D), Nested(1), r1);
    assert [OpMkdir(0, D)] + r1 == DYING;
  }

  lemma MakesDir()
    ensures Leads(Empty(), OpMkdir(0, D), Nested(1))
  {
    NestStart();
    NestStep(0);
  }

  lemma NoCalls(w: World)
    ensures SensibleRun(w, []) && SafeRun(w, []) && !TightRun(w, []) && Replay(w, []) == w && Demand([]) == 0
  {
  }

  lemma NextIsOne()
    ensures forall c :: Least(Empty().tree, c) ==> c == 1
    ensures !AllTaken(Empty().tree) && E !in Empty().tree[0].items && |Empty().tree[0].items| <= 2
  {
    NestStart();
    NestLeast(0);
    forall c | Least(Empty().tree, c) ensures c == 1 { LeastIs(Empty().tree, c); }
  }

  /** Once the new inode is written to and closed, the dead directory is the copy that a search finds. */
  lemma ClosedBehind(list: Cells, c: int, first: map<int, int>, n: IT.Inode)
    requires Behind(list, c, first) && n.no == c
    ensures var l := Closed(Wrote(list, c, n), c); Has(l, c) && l[C.Copy(l, c, 0)].node == Stored(c, DotInode(first[c]))
  {
    assert C.Copy(list, c, 0) == 0;
    var l2 := Wrote(list, c, n);
    assert C.Copy(l2, c, 0) == 0 && l2[..0] + l2[1..] == list[1..];
  }

  /** A file of number 1 is made while the dead copy of that number is in memory. */
  method MakeOverDead(m: Mounted) returns (g: int)
    requires m.Valid() && WorldOf(m) == World(Empty().tree, NoFiles(), multiset{1}) && Free(m.fs.p.bits) > 0
    modifies m, m.fs, m.fs.p
    ensures m.fs.Valid() && 1 in m.fs.tree && m.fs.tree[1] == File([]) && 0 <= g < |m.fs.files| == MAX_OPEN && m.fs.files[g] == OnInode(1)
    ensures Behind(m.list, 1, m.first) && Free(m.fs.p.bits) >= Free(old(m.fs.p.bits)) - 1
  {
    hide FileSystem.Valid, Mounted.Linked, Free, NeedsBlock, AllTaken, Least, Behind, NameOk, Mounted.Stale;
    NextIsOne();
    NamesOk();
    FirstSlot(1);
    var r;
    r, g := m.Create(0, E);
  }

  lemma SizeIs(fs: FileSystem, i: int)
    requires fs.Valid() && i in fs.tree && fs.tree[i].File?
    ensures i in fs.p.inodes && fs.p.inodes[i].size == |fs.tree[i].bytes|
  {
    hide Sound, Rooted, InodesOk, AreaOk, TabledBut, Small, FilesOk;
    assert NodeAt(fs.p.disk, fs.p.inodes, fs.p.refs, fs.spots, fs.tree, i);
  }

  lemma NotACopy(m: Mounted, k: int)
    requires 0 <= k < |m.list| && m.list[k].node.no in m.fs.p.inodes && m.list[k].node.size != m.fs.p.inodes[m.list[k].node.no].size
    ensures !m.Valid()
  {
    hide FileSystem.Valid, HeldDirs, Firsts;
    assert !CellOk(m.list[k], m.fs.p.inodes, Uses(m.fs.files, m.held), m.first);
  }

  /** After that run inode 1 is free, and its copy is in memory.  A new file gets number 1, 600 bytes are written to it and
      it is closed; whoever opens it then gets the inode of the dead directory, with 48 bytes. */
  method StaleInode(p: Partition, lba: int, n: int) returns (m: Mounted, got: IT.Inode)
    requires DiskOk(p.disk) && 0 <= lba && lba + AREA <= p.start && 20 <= n && p.start + n <= |p.disk|
    modifies p
    ensures m.fs.Valid() && !m.Valid() && 1 in m.fs.tree && m.fs.tree[1] == File(Bytes(600)) && got.no == 1 && got.size == 48
  {
    hide FileSystem.Valid, Mounted.Linked, Free, Needed, Behind, SensibleRun, SafeRun, TightRun, Replay, Demand, Bytes, Closed, Wrote, NewDir;
    m := Format(p, lba, n);
    FreeFresh(n);
    Dies();
    RunSafe(m, DYING);
    var g := MakeOverDead(m);
    NumberLives(m.fs, 1);
    InodeLength(m.fs, 1);
    NeededIsSmall(m.fs.p.inodes[1], 600);
    SixHundred();
    var r := m.fs.Write(1, Bytes(600));
    ClosedBehind(m.list, 1, m.first, Stored(1, m.fs.p.inodes[1]));
    m.WriteBack(1);
    m.InodeClose(1);
    m.fs.Close(g);
    var k := C.FindCopy(m.list, 1);
    got := m.list[k].node;
    SizeIs(m.fs, 1);
    NotACopy(m, k);
  }

  lemma SixHundred()
    ensures |Bytes(600)| == 600 && [] + Bytes(600) == Bytes(600)
  {
  }
}
