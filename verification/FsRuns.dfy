/** Whole runs of file system calls: sectors, bitmaps, inodes and the file table refine the tree. */
module FsRuns {
  import opened Basics
  import opened Bitmaps
  import opened Words
  import opened Ledgers
  import opened Volume
  import opened Entries
  import opened DirTable
  import opened FileCode
  import opened DirCode
  import opened InodeArea
  import opened Tree
  import opened FsCode
  import opened Mounts
  import IT = InodeTable

  /** The calls, after their path was resolved to a directory `d` and a name, and their descriptor to a slot `g`.  Opening a
      file names the directory that the search for it left open. */
  datatype Op = OpCreate(d: int, n: Name) | OpMkdir(d: int, n: Name) | OpUnlink(d: int, n: Name) | OpRmdir(d: int, n: Name)
              | OpOpen(i: int, left: Option<int>) | OpClose(g: int) | OpWrite(i: int, buf: seq<Byte>)
              | OpOpendir(d: int) | OpClosedir(c: int)

  /** The tree, the file table, and the numbers of the directories that are left open. */
  datatype World = World(tree: Tree, files: seq<FileSlot>, held: multiset<int>)

  /** The least free inode number from `k` on. */
  ghost function LeastFrom(t: Tree, k: int): (c: int)
    requires 0 <= k <= MAX_FILES
    ensures k <= c <= MAX_FILES && (forall i :: k <= i < c ==> i in t) && (c < MAX_FILES ==> c !in t)
    decreases MAX_FILES - k
  {
    if k == MAX_FILES || k !in t then k else LeastFrom(t, k + 1)
  }

  /** Directories stay below 252 entries, names have 1 to 15 characters, only files are opened and written, and only
      open slots are closed. */
  ghost predicate Sensible(w: World, op: Op) {
    var t := w.tree;
    |w.files| == MAX_OPEN &&
    match op
    case OpWrite(i, buf) => i in t && t[i].File? && |t[i].bytes| + |buf| < WORD_LIMIT
    case OpOpen(i, left) => i in t && t[i].File? && (left.Some? ==> left.v in t && t[left.v].Dir?)
    case OpOpendir(d) => d in t && t[d].Dir?
    case OpClosedir(c) => c in w.held
    case OpClose(g) => 0 <= g < MAX_OPEN && w.files[g].OnInode?
    case OpCreate(d, n) => Named(t, d, n) && |t[d].items| < 252
    case OpMkdir(d, n) => Named(t, d, n) && |t[d].items| < 252
    case OpUnlink(d, n) => Named(t, d, n)
    case OpRmdir(d, n) => Named(t, d, n)
  }

  ghost predicate Named(t: Tree, d: int, n: Name) { d in t && t[d].Dir? && NameOk(n) && !Dots(n) }

  /** What a call does; a call that is refused does nothing. */
  ghost function Do(w: World, op: Op): (r: World)
    requires Sensible(w, op)
  {
    var t := w.tree;
    match op
    case OpCreate(d, n) =>
      if n in t[d].items || !HasSlot(w.files) then w
      else w.(tree := Grow(t, d, n, LeastFrom(t, 0), File([])), files := Taken(w.files, LeastFrom(t, 0)))
    case OpMkdir(d, n) => if n in t[d].items then w else w.(tree := Grow(t, d, n, LeastFrom(t, 0), NewDir(LeastFrom(t, 0), d)))
    case OpUnlink(d, n) =>
      if n in t[d].items && t[d].items[n].kind == REGULAR && !IsOpen(w.files, t[d].items[n].ino) then w.(tree := Prune(t, d, n)) else w
    case OpRmdir(d, n) =>
      if n in t[d].items && t[d].items[n].kind == DIRECTORY && Bare(t, t[d].items[n].ino) then w.(tree := Prune(t, d, n)) else w
    case OpOpen(i, left) =>
      var v := w.(held := w.held + if left.Some? then multiset{left.v} else multiset{});
      if HasSlot(w.files) then v.(files := Taken(w.files, i)) else v
    case OpOpendir(d) => w.(held := w.held + multiset{d})
    case OpClosedir(c) => w.(held := w.held - multiset{c})
    case OpClose(g) => w.(files := w.files[g := Unused])
    case OpWrite(i, buf) => if |t[i].bytes| + |buf| > MAX_BYTES then w else w.(tree := t[i := File(t[i].bytes + buf)])
  }

  /** The first free slot is taken. */
  ghost function Taken(files: seq<FileSlot>, i: int): (r: seq<FileSlot>)
    requires |files| == MAX_OPEN && HasSlot(files)
  {
    files[FreeFrom(files, 3) := OnInode(i)]
  }

  /** An empty directory. */
  ghost predicate Bare(t: Tree, c: int) { c in t && t[c].Dir? && t[c].items.Keys == {DOT, DOTDOT} }

  /** The call makes a new inode. */
  ghost predicate Makes(w: World, op: Op)
    requires Sensible(w, op)
  {
    (op.OpCreate? && op.n !in w.tree[op.d].items && HasSlot(w.files)) || (op.OpMkdir? && op.n !in w.tree[op.d].items)
  }

  /** The call makes an inode whose number does not fit in eight bits, or of which a copy is in memory: for a file any, for a
      directory one that was in another sector.  `at` has the first sectors of directories, and `b` is the first free sector. */
  ghost predicate Loses(w: World, at: map<int, int>, op: Op, b: int)
    requires Sensible(w, op)
  {
    var c := LeastFrom(w.tree, 0);
    Makes(w, op) && (c >= 256 || if op.OpCreate? then c in w.held else Haunts(w.held, at, c, b))
  }

  /** The first sectors after the call. */
  ghost function Seat(w: World, at: map<int, int>, op: Op, b: int): (r: map<int, int>)
    requires Sensible(w, op)
  {
    if op.OpMkdir? && Makes(w, op) then at[LeastFrom(w.tree, 0) := b] else at
  }

  /** A run in which every call is sensible where it happens. */
  ghost predicate SensibleRun(w: World, ops: seq<Op>)
    decreases |ops|
  {
    ops == [] || (Sensible(w, ops[0]) && SensibleRun(Do(w, ops[0]), ops[1..]))
  }

  ghost function Replay(w: World, ops: seq<Op>): (r: World)
    requires SensibleRun(w, ops)
    decreases |ops|
  {
    if ops == [] then w else Replay(Do(w, ops[0]), ops[1..])
  }

  ghost function Seats(w: World, at: map<int, int>, ops: seq<Op>, bs: seq<int>): (r: map<int, int>)
    requires SensibleRun(w, ops) && |bs| == |ops|
    decreases |ops|
  {
    if ops == [] then at else Seats(Do(w, ops[0]), Seat(w, at, ops[0], bs[0]), ops[1..], bs[1..])
  }

  /** Some call of the run loses an inode; `bs` are the first free sectors before each call. */
  ghost predicate LosingRun(w: World, at: map<int, int>, ops: seq<Op>, bs: seq<int>)
    requires SensibleRun(w, ops) && |bs| == |ops|
    decreases |ops|
  {
    ops != [] && (Loses(w, at, ops[0], bs[0]) || LosingRun(Do(w, ops[0]), Seat(w, at, ops[0], bs[0]), ops[1..], bs[1..]))
  }

  /** One call more. */
  lemma {:induction false} Longer(w: World, at: map<int, int>, ops: seq<Op>, bs: seq<int>, op: Op, b: int)
    requires SensibleRun(w, ops) && |bs| == |ops| && Sensible(Replay(w, ops), op)
    ensures SensibleRun(w, ops + [op]) && Replay(w, ops + [op]) == Do(Replay(w, ops), op)
    ensures var v, s := Replay(w, ops), Seats(w, at, ops, bs);
            && Seats(w, at, ops + [op], bs + [b]) == Seat(v, s, op, b)
            && (LosingRun(w, at, ops + [op], bs + [b]) <==> LosingRun(w, at, ops, bs) || Loses(v, s, op, b))
    decreases |ops|
  {
    hide Sensible, Do, Loses, Seat;
    if ops == [] {
      assert [] + [op] == [op] && [op][1..] == [] && (bs + [b])[0] == b && (bs + [b])[1..] == [];
      assert SensibleRun(Do(w, op), []) && Replay(Do(w, op), []) == Do(w, op);
      assert Seats(Do(w, op), Seat(w, at, op, b), [], []) == Seat(w, at, op, b) && !LosingRun(Do(w, op), Seat(w, at, op, b), [], []);
    } else {
      assert (ops + [op])[1..] == ops[1..] + [op] && (bs + [b])[1..] == bs[1..] + [b];
      Longer(Do(w, ops[0]), Seat(w, at, ops[0], bs[0]), ops[1..], bs[1..], op, b);
    }
  }

  /** Blocks that a call may take at most. */
  function Cost(op: Op): (n: nat) {
    match op
    case OpCreate(_, _) => 1
    case OpMkdir(_, _) => 2
    case OpWrite(_, buf) => |buf| / BLOCK + 3
    case _ => 0
  }

  function Demand(ops: seq<Op>): (n: nat) { if ops == [] then 0 else Cost(ops[0]) + Demand(ops[1..]) }

  /** No inode left for a new name, or a file of exactly 71680 bytes. */
  ghost predicate Tight(w: World, op: Op)
    requires Sensible(w, op)
  {
    match op
    case OpWrite(i, buf) => |w.tree[i].bytes| + |buf| == MAX_BYTES
    case OpCreate(d, n) => n !in w.tree[d].items && AllTaken(w.tree)
    case OpMkdir(d, n) => n !in w.tree[d].items && AllTaken(w.tree)
    case _ => false
  }

  ghost predicate TightRun(w: World, ops: seq<Op>)
    requires SensibleRun(w, ops)
    decreases |ops|
  {
    ops != [] && (Tight(w, ops[0]) || TightRun(Do(w, ops[0]), ops[1..]))
  }

  lemma LeastIs(t: Tree, c: int)
    requires Least(t, c)
    ensures c == LeastFrom(t, 0) && c >= 0 && !AllTaken(t)
  {
  }

  lemma NeededIsSmall(n: Inode, count: nat)
    requires |n.sectors| == 13
    ensures Needed(n, count) <= count / BLOCK + 3
  {
    assert (n.size + count) / BLOCK <= n.size / BLOCK + count / BLOCK + 1;
  }

  ghost function WorldOf(m: Mounted): (w: World)
    reads m`held, m.fs
  {
    World(m.fs.tree, m.fs.files, m.held)
  }

  /** A live inode cannot be read back: it lies in the slot of another one, or a copy in memory is in its place. */
  ghost predicate Spoilt(m: Mounted)
    reads m`list, m`held, m`first, m.fs, m.fs.p
  {
    exists c :: m.Misplaced(c) || m.Stale(c)
  }

  /** One call.  It fails an assertion only for want of blocks or inodes, or for a file of 71680 bytes.  Afterwards the tree,
      the file table and the directories left open are what the call describes, and everything is valid exactly when the
      call did not lose an inode. */
  method Perform(m: Mounted, op: Op) returns (panic: bool, lost: bool)
    requires m.Valid() && Sensible(WorldOf(m), op)
    modifies m, m.fs, m.fs.p
    ensures !panic ==> WorldOf(m) == Do(old(WorldOf(m)), op) && Free(m.fs.p.bits) >= Free(old(m.fs.p.bits)) - Cost(op)
    ensures !panic ==> m.seen == old(m.seen) + [FirstFree(m.fs.p.start, old(m.fs.p.bits))]
    ensures var b := FirstFree(m.fs.p.start, old(m.fs.p.bits));
            !panic ==> && m.first == Seat(old(WorldOf(m)), old(m.first), op, b)
                       && (m.Valid() <==> !Loses(old(WorldOf(m)), old(m.first), op, b)) && (lost <==> !m.Valid()) && (lost ==> Spoilt(m))
    ensures Tight(old(WorldOf(m)), op) ==> panic
    ensures panic ==> Tight(old(WorldOf(m)), op) || Free(old(m.fs.p.bits)) < Cost(op)
  {
    hide Mounted.Valid, Sensible, Do, Tight, Cost, Free, FirstFree, Seat, Loses, Spoilt;
    panic, lost := false, false;
    ghost var w, at, b := WorldOf(m), m.first, FirstFree(m.fs.p.start, m.fs.p.bits);
    match op {
      case OpCreate(d, n) => panic, lost := PerformNew(m, op);
      case OpMkdir(d, n) => panic, lost := PerformNew(m, op);
      case _ => panic := PerformOld(m, op); NoneMade(w, at, op, b);
    }
    m.seen := m.seen + [b];
  }

  lemma NoneMade(w: World, at: map<int, int>, op: Op, b: int)
    requires Sensible(w, op) && !op.OpCreate? && !op.OpMkdir?
    ensures Seat(w, at, op, b) == at && !Loses(w, at, op, b)
  {
  }

  method PerformOld(m: Mounted, op: Op) returns (panic: bool)
    requires m.Valid() && Sensible(WorldOf(m), op) && !op.OpCreate? && !op.OpMkdir?
    modifies m, m.fs, m.fs.p
    ensures !panic ==> m.Valid() && WorldOf(m) == Do(old(WorldOf(m)), op) && Free(m.fs.p.bits) >= Free(old(m.fs.p.bits)) - Cost(op)
    ensures !panic ==> m.seen == old(m.seen) && m.first == old(m.first)
    ensures Tight(old(WorldOf(m)), op) ==> panic
    ensures panic ==> Tight(old(WorldOf(m)), op) || Free(old(m.fs.p.bits)) < Cost(op)
  {
    hide Mounted.Valid, Prune, Free, HasSlot, IsOpen, NameOk;
    panic := false;
    match op {
      case OpWrite(i, buf) => panic := PerformWrite(m, i, buf);
      case OpOpen(i, left) => var g := m.Open(i, left);
      case OpClose(g) => m.Close(g);
      case OpOpendir(d) => m.Opendir(d);
      case OpClosedir(c) => m.Closedir(c);
      case OpUnlink(d, n) => PerformCut(m, op);
      case OpRmdir(d, n) => PerformCut(m, op);
    }
  }

  method PerformWrite(m: Mounted, i: int, buf: seq<Byte>) returns (panic: bool)
    requires m.Valid() && Sensible(WorldOf(m), OpWrite(i, buf))
    modifies m, m.fs, m.fs.p
    ensures !panic ==> m.Valid() && WorldOf(m) == Do(old(WorldOf(m)), OpWrite(i, buf)) && m.seen == old(m.seen) && m.first == old(m.first)
    ensures !panic ==> Free(m.fs.p.bits) >= Free(old(m.fs.p.bits)) - Cost(OpWrite(i, buf))
    ensures Tight(old(WorldOf(m)), OpWrite(i, buf)) ==> panic
    ensures panic ==> Tight(old(WorldOf(m)), OpWrite(i, buf)) || Free(old(m.fs.p.bits)) < Cost(OpWrite(i, buf))
  {
    hide FileSystem.Valid, Mounted.Linked, Free, Needed;
    NumberLives(m.fs, i);
    InodeLength(m.fs, i);
    NeededIsSmall(m.fs.p.inodes[i], |buf|);
    var r := m.Write(i, buf);
    panic := r.Panic?;
  }

  method PerformNew(m: Mounted, op: Op) returns (panic: bool, lost: bool)
    requires m.Valid() && Sensible(WorldOf(m), op) && (op.OpCreate? || op.OpMkdir?)
    modifies m, m.fs, m.fs.p
    ensures !panic ==> WorldOf(m) == Do(old(WorldOf(m)), op) && Free(m.fs.p.bits) >= Free(old(m.fs.p.bits)) - Cost(op) && m.seen == old(m.seen)
    ensures var b := FirstFree(m.fs.p.start, old(m.fs.p.bits));
            !panic ==> && m.first == Seat(old(WorldOf(m)), old(m.first), op, b)
                       && (m.Valid() <==> !Loses(old(WorldOf(m)), old(m.first), op, b)) && (lost <==> !m.Valid()) && (lost ==> Spoilt(m))
    ensures Tight(old(WorldOf(m)), op) ==> panic
    ensures panic ==> Tight(old(WorldOf(m)), op) || Free(old(m.fs.p.bits)) < Cost(op)
  {
    hide FileSystem.Valid, Mounted.Linked, Grow, NewDir, Free, NeedsBlock, AllTaken, HasSlot, NameOk, Spoilt, FirstFree;
    panic, lost := false, false;
    var x := m.fs.Lookup(op.d, op.n);
    if x.Some? { return; }
    if op.OpCreate? { panic, lost := PerformCreate(m, op.d, op.n); } else { panic, lost := PerformMkdir(m, op.d, op.n); }
  }

  method PerformCreate(m: Mounted, d: int, n: Name) returns (panic: bool, lost: bool)
    requires m.Valid() && Sensible(WorldOf(m), OpCreate(d, n)) && n !in m.fs.tree[d].items
    modifies m, m.fs, m.fs.p
    ensures !panic ==> WorldOf(m) == Do(old(WorldOf(m)), OpCreate(d, n)) && Free(m.fs.p.bits) >= Free(old(m.fs.p.bits)) - 1 && m.seen == old(m.seen)
    ensures var b := FirstFree(m.fs.p.start, old(m.fs.p.bits));
            !panic ==> && m.first == old(m.first)
                       && (m.Valid() <==> !Loses(old(WorldOf(m)), old(m.first), OpCreate(d, n), b)) && (lost <==> !m.Valid()) && (lost ==> Spoilt(m))
    ensures panic <==> || AllTaken(old(m.fs.tree))
                       || (HasSlot(old(m.fs.files)) && NeedsBlock(old(m.fs.p.disk), old(m.fs.p.refs), d) && Free(old(m.fs.p.bits)) == 0)
  {
    hide FileSystem.Valid, Mounted.Linked, Grow, Least, Free, NeedsBlock, AllTaken, HasSlot, NameOk, Mounted.Stale, Mounted.Misplaced, FirstFree;
    panic, lost := false, false;
    ghost var t := m.fs.tree;
    var r, g := m.Create(d, n);
    if r.Panic? { return true, false; }
    if r.s == -1 { return; }
    LeastIs(t, r.s);
    MadeIn(t, d, n, r.s, m.fs.tree);
    lost := m.IsSpoilt(r.s);
  }

  method PerformMkdir(m: Mounted, d: int, n: Name) returns (panic: bool, lost: bool)
    requires m.Valid() && Sensible(WorldOf(m), OpMkdir(d, n)) && n !in m.fs.tree[d].items
    modifies m, m.fs, m.fs.p
    ensures !panic ==> WorldOf(m) == Do(old(WorldOf(m)), OpMkdir(d, n)) && Free(m.fs.p.bits) >= Free(old(m.fs.p.bits)) - 2 && m.seen == old(m.seen)
    ensures var b := FirstFree(m.fs.p.start, old(m.fs.p.bits));
            !panic ==> && m.first == Seat(old(WorldOf(m)), old(m.first), OpMkdir(d, n), b)
                       && (m.Valid() <==> !Loses(old(WorldOf(m)), old(m.first), OpMkdir(d, n), b)) && (lost <==> !m.Valid()) && (lost ==> Spoilt(m))
    ensures panic <==> || AllTaken(old(m.fs.tree)) || Free(old(m.fs.p.bits)) == 0
                       || (NeedsBlock(old(m.fs.p.disk), old(m.fs.p.refs), d) && Free(old(m.fs.p.bits)) == 1)
  {
    hide FileSystem.Valid, Mounted.Linked, Grow, Least, NewDir, Free, NeedsBlock, AllTaken, NameOk, Mounted.Stale, Mounted.Misplaced, FirstFree;
    panic, lost := false, false;
    ghost var t := m.fs.tree;
    var r := m.Mkdir(d, n);
    if r.Panic? { return true, false; }
    LeastIs(t, r.s);
    MadeIn(t, d, n, r.s, m.fs.tree);
    lost := m.IsSpoilt(r.s);
  }

  lemma MadeIn(t: Tree, d: int, n: Name, c: int, r: Tree)
    requires d in t && t[d].Dir? && (r == Grow(t, d, n, c, File([])) || r == Grow(t, d, n, c, NewDir(c, d)))
    ensures c in r
  {
  }

  method PerformCut(m: Mounted, op: Op)
    requires m.Valid() && Sensible(WorldOf(m), op) && (op.OpUnlink? || op.OpRmdir?)
    modifies m, m.fs, m.fs.p
    ensures m.Valid() && WorldOf(m) == Do(old(WorldOf(m)), op) && Free(m.fs.p.bits) >= Free(old(m.fs.p.bits))
    ensures m.seen == old(m.seen) && m.first == old(m.first)
  {
    hide FileSystem.Valid, Mounted.Linked, Prune, Free, NameOk, IsOpen;
    var x := m.fs.Lookup(op.d, op.n);
    if op.OpUnlink? && x.Some? && x.v.kind == REGULAR {
      var r := m.Unlink(op.d, op.n, x.v.ino);
    } else if op.OpRmdir? && x.Some? && x.v.kind == DIRECTORY {
      var r := m.Rmdir(op.d, op.n, x.v.ino);
    }
  }

  /** How a run ends: all calls done, an assertion failed in call `at`, or call `at` lost an inode. */
  datatype End = Done | Stopped(at: nat) | Lost(at: nat)

  /** The first free sectors that a run has met. */
  ghost function Met(m: Mounted, n: nat): (bs: seq<int>)
    requires n <= |m.seen|
    reads m
  {
    m.seen[n..]
  }

  /** All calls were made, none of them lost an inode, and `v` is what they describe. */
  ghost predicate DoneAll(w: World, at: map<int, int>, ops: seq<Op>, bs: seq<int>, v: World) {
    |bs| == |ops| && SensibleRun(w, ops) && !LosingRun(w, at, ops, bs) && v == Replay(w, ops)
  }

  /** Call `k` is the first one that lost an inode, and `v` is what the calls up to it describe. */
  ghost predicate LostAt(w: World, at: map<int, int>, ops: seq<Op>, k: int, bs: seq<int>, v: World) {
    && 0 <= k < |ops| && |bs| == k + 1 && SensibleRun(w, ops[..k]) && SensibleRun(w, ops[..k + 1]) && v == Replay(w, ops[..k + 1])
    && LosingRun(w, at, ops[..k + 1], bs) && !LosingRun(w, at, ops[..k], bs[..k])
  }

  /** Every run of create, write, open, close, unlink, mkdir, rmdir, opendir and closedir keeps everything valid up to the
      first call that loses an inode: every sector owned at most once, its bit set exactly when it is owned, every inode
      readable from the table, and every copy in memory equal to its inode; and it leaves the tree, the file table and the
      open directories that the calls describe.  With blocks enough for all calls and no tight spot on the way, no
      assertion fails. */
  method Run(m: Mounted, ops: seq<Op>) returns (end: End)
    requires m.Valid() && SensibleRun(WorldOf(m), ops)
    modifies m, m.fs, m.fs.p
    ensures !end.Done? ==> end.at < |ops|
    ensures !end.Stopped? ==> |m.seen| == |old(m.seen)| + (if end.Done? then |ops| else end.at + 1) && old(m.seen) <= m.seen
    ensures end.Done? ==> m.Valid() && DoneAll(old(WorldOf(m)), old(m.first), ops, Met(m, |old(m.seen)|), WorldOf(m))
    ensures end.Done? ==> Free(m.fs.p.bits) >= Free(old(m.fs.p.bits)) - Demand(ops)
    ensures end.Lost? ==> !m.Valid() && Spoilt(m) && LostAt(old(WorldOf(m)), old(m.first), ops, end.at, Met(m, |old(m.seen)|), WorldOf(m))
    ensures end.Stopped? ==> TightRun(old(WorldOf(m)), ops) || Free(old(m.fs.p.bits)) < Demand(ops)
    ensures TightRun(old(WorldOf(m)), ops) ==> !end.Done?
  {
    hide Mounted.Valid, Do, Sensible, Free, Tight, Cost, Loses, Seat, Spoilt, FirstFree;
    var k := 0;
    ghost var w0, at0, bs: seq<int> := WorldOf(m), m.first, [];
    assert ops[0..] == ops && ops[..0] == [];
    assert m.seen == m.seen + bs;
    while k < |ops|
      invariant 0 <= k <= |ops| && |bs| == k && m.seen == old(m.seen) + bs && m.Valid() && SensibleRun(WorldOf(m), ops[k..])
      invariant SensibleRun(w0, ops[..k]) && WorldOf(m) == Replay(w0, ops[..k]) && m.first == Seats(w0, at0, ops[..k], bs)
      invariant !LosingRun(w0, at0, ops[..k], bs)
      invariant TightRun(WorldOf(m), ops[k..]) <==> TightRun(w0, ops)
      invariant Free(m.fs.p.bits) - Demand(ops[k..]) >= Free(old(m.fs.p.bits)) - Demand(ops)
    {
      assert ops[k..][0] == ops[k] && ops[k..][1..] == ops[k + 1..];
      ghost var b := FirstFree(m.fs.p.start, m.fs.p.bits);
      Longer(w0, at0, ops[..k], bs, ops[k], b);
      assert ops[..k] + [ops[k]] == ops[..k + 1];
      var panic, lost := Perform(m, ops[k]);
      if panic { return Stopped(k); }
      assert (bs + [b])[..k] == bs && m.seen == old(m.seen) + (bs + [b]);
      bs := bs + [b];
      assert m.seen[|old(m.seen)|..] == bs;
      if lost { return Lost(k); }
      k := k + 1;
    }
    assert ops[..k] == ops && m.seen[|old(m.seen)|..] == bs;
    end := Done;
  }

  // ---------------------------------------------------------------- formatting

  ghost function RootBook(start: int, n: int): (g: Ledger)
    requires n >= 0
  {
    Ledger(seq(n, b => b == 0), map[0 := NoRefs()[0 := start]], map[start := Place(0, 0)])
  }

  function RootInode(start: int): (n: Inode) { Inode(2 * SLOT, [start, 0, 0, 0, 0, 0, 0, 0, 0, 0, 0, 0, 0]) }

  lemma RootOwned(start: int, n: int)
    requires start > 0 && n > 0
    ensures Owned(start, RootBook(start, n))
  {
    var g := RootBook(start, n);
    forall i, k | i in g.refs && 0 <= k < |g.refs[i]| ensures RefOk(g, i, k) { }
    forall l | l in g.owner ensures OwnOk(start, g, l) { }
  }

  lemma RootSound(start: int, disk: Disk, n: int)
    requires DiskOk(disk) && 0 < start && 0 < n && start + n <= |disk|
    ensures Sound(start, disk, map[0 := RootInode(start)], RootBook(start, n))
  {
    RootOwned(start, n);
    var refs := NoRefs()[0 := start];
    forall k | 0 <= k < REFS ensures refs[k] == Ref(disk, RootInode(start), k) { }
  }

  lemma RootDir(start: int, disk: Disk)
    requires 0 < start < |disk| && |disk[start]| == BLOCK && disk[start] == DotSector(0, 0)
    ensures DirAt(disk, RootInode(start), NoRefs()[0 := start], DotSpots(), 0, 0)
    ensures Items(TableOf(disk, NoRefs()[0 := start]), DotSpots()) == NewDir(0, 0).items
  {
    DotSectorSlots(0, 0);
    NewDirOk(0, 0);
    var t := TableOf(disk, NoRefs()[0 := start]);
    NoRefsTable(disk, start, DotSlots(0, 0));
    assert t[0] == DotSlots(0, 0);
    assert t == t[0 := DotSlots(0, 0)];
  }

  /** The table with the root's inode in slot 0 and zeros behind it. */
  function RootTable(start: int): (t: seq<Byte>)
    ensures |t| == AREA * BLOCK
  {
    IT.ToSlot(Stored(0, RootInode(start))) + Zeros(AREA * BLOCK - IT.INODE)
  }

  /** The table's sectors with these bytes. */
  function WithTable(disk: Disk, lba: int, t: seq<Byte>): (d: Disk)
    requires 0 <= lba && lba + AREA <= |disk| && |t| == AREA * BLOCK
    ensures |d| == |disk|
  {
    disk[..lba] + seq(AREA, k requires 0 <= k < AREA => t[BLOCK * k..BLOCK * k + BLOCK]) + disk[lba + AREA..]
  }

  lemma WithTableAt(disk: Disk, lba: int, t: seq<Byte>, l: int)
    requires 0 <= lba && lba + AREA <= |disk| && |t| == AREA * BLOCK && 0 <= l < |disk|
    ensures WithTable(disk, lba, t)[l] == if lba <= l < lba + AREA then t[BLOCK * (l - lba)..BLOCK * (l - lba) + BLOCK] else disk[l]
  {
  }

  lemma RootStart(start: int)
    ensures RootTable(start)[..IT.INODE] == IT.ToSlot(Stored(0, RootInode(start)))
  {
  }

  lemma FirstSlot(disk: Disk, lba: int, t: seq<Byte>)
    requires 0 <= lba < |disk| && |t| >= BLOCK && disk[lba] == t[..BLOCK]
    ensures IT.Slot(disk, lba, 0) == t[..IT.INODE]
  {
    var s := IT.Slot(disk, lba, 0);
    forall j | 0 <= j < IT.INODE ensures s[j] == t[j] { assert IT.ByteAt(disk, lba, j) == disk[lba][j]; }
  }

  lemma RootStored(disk: Disk, lba: int, start: int)
    requires 0 < start < WORD_LIMIT && 0 <= lba && lba + AREA <= |disk|
    ensures InSlot(WithTable(disk, lba, RootTable(start)), lba, 0, 0, RootInode(start))
  {
    hide WithTable, RootTable, IT.ToSlot, IT.FromSlot;
    var t, n := RootTable(start), Stored(0, RootInode(start));
    WithTableAt(disk, lba, t, lba);
    RootStart(start);
    FirstSlot(WithTable(disk, lba, t), lba, t);
    IT.FromToSlot(n);
  }

  /** What `partition_format` leaves for a partition of `n` data blocks, and mounting finds: bit 0, the root's inode in
      slot 0 of the table, and the root directory with its two dots. */
  method Format(p: Partition, lba: int, n: int) returns (m: Mounted)
    requires DiskOk(p.disk) && 0 <= lba && lba + AREA <= p.start && 1 < n && p.start + n <= |p.disk|
    modifies p
    ensures m.Valid() && fresh(m) && fresh(m.fs) && m.fs.p == p && m.fs.lba == lba && |p.bits| == n && p.bits == seq(n, b => b == 0)
    ensures WorldOf(m) == World(map[0 := NewDir(0, 0)], seq(MAX_OPEN, g => Unused), multiset{}) && m.first == map[0 := p.start] && m.seen == []
  {
    hide Sound, DirAt, Items, InSlot, IT.Slot, IT.FromSlot, IT.ToSlot;
    p.bits := seq(n, b => b == 0);
    p.inodes := map[0 := RootInode(p.start)];
    RootStored(p.disk, lba, p.start);
    ghost var d0 := p.disk;
    p.disk := WithTable(p.disk, lba, RootTable(p.start));
    FormatSizes(d0, lba, RootTable(p.start));
    ghost var d1 := p.disk;
    p.disk := p.disk[p.start := DotSector(0, 0)];
    SlotStays(d1, p.disk, lba, p.start, 0, RootInode(p.start));
    p.refs := map[0 := NoRefs()[0 := p.start]];
    p.owner := map[p.start := Place(0, 0)];
    RootSound(p.start, p.disk, n);
    RootDir(p.start, p.disk);
    var fs := new FileSystem(p, lba, DotSpots());
    m := new Mounted(fs);
  }

  lemma SlotStays(d0: Disk, d1: Disk, lba: int, start: int, i: int, n: Inode)
    requires AreaOk(d0, lba, start) && LowSame(start, d0, d1) && 0 <= i < MAX_FILES && InSlot(d0, lba, i, i, n)
    ensures InSlot(d1, lba, i, i, n)
  {
    LowSlot(d0, d1, lba, start, i);
  }

  lemma FormatSizes(disk: Disk, lba: int, t: seq<Byte>)
    requires DiskOk(disk) && 0 <= lba && lba + AREA <= |disk| && |t| == AREA * BLOCK
    ensures DiskOk(WithTable(disk, lba, t))
  {
    var d := WithTable(disk, lba, t);
    forall l | 0 <= l < |d| ensures |d[l]| == BLOCK { WithTableAt(disk, lba, t, l); }
  }
}
