/** Frames of the user pool and the processes that map them. */
module UserFrames {
  import opened Basics
  import opened Bitmaps
  import opened Paging

  const USER_PDES: int := 768            // directory entries of user space
  const PAGES: int := 786432             // user pages: 768 * 1024
  const FIRST: int := 0x8048             // USER_VADDR_START / PG_SIZE

  /** The user half of a process: its virtual page bitmap, and the tables and the flags of its present directory entries. */
  datatype Proc = Proc(virt: seq<bool>, tables: map<int, seq<int>>, flags: map<int, int>)

  datatype Place = Place(pid: int, page: int)

  /** The frame of a user page, or -1. */
  function Fr(p: Proc, q: int): (f: int) {
    var d, t := q / 1024, q % 1024;
    if d in p.tables && |p.tables[d]| == 1024 && Present(p.tables[d][t]) then Frame(p.tables[d][t]) else -1
  }

  /** The processor lets the process write to a user page. */
  predicate MayWrite(p: Proc, q: int) {
    var d, t := q / 1024, q % 1024;
    d in p.tables && d in p.flags && |p.tables[d]| == 1024 && Granted(p.flags[d]) && Granted(p.tables[d][t])
  }

  ghost predicate TablesOk(p: Proc) {
    && p.flags.Keys == p.tables.Keys
    && forall d :: d in p.tables ==> 0 <= d < USER_PDES && d in p.flags && Granted(p.flags[d]) && WordsOk(p.tables[d])
  }

  ghost predicate WordsOk(s: seq<int>) { |s| == 1024 && forall t :: 0 <= t < 1024 ==> s[t] >= 0 && (Present(s[t]) ==> Granted(s[t])) }

  /** A page can be written exactly when it is mapped. */
  lemma MappedMayWrite(p: Proc, q: int)
    requires TablesOk(p) && 0 <= q < PAGES
    ensures MayWrite(p, q) <==> Fr(p, q) != -1
  {
    if q / 1024 in p.tables { FrameIs(p.tables[q / 1024][q % 1024]); }
  }

  lemma FrameIs(w: int)
    requires w >= 0
    ensures Frame(w) != -1
  {
  }

  /** Of every process, exactly the mapped pages can be written. */
  ghost predicate AllWritable(procs: Procs) {
    forall i, q :: i in procs && 0 <= q < PAGES ==> (MayWrite(procs[i], q) <==> Fr(procs[i], q) != -1)
  }

  lemma OwnedWritable(pool: seq<bool>, procs: Procs, owner: map<int, Place>, base: int)
    requires Owned(pool, procs, owner, base)
    ensures AllWritable(procs)
  {
    hide Fr, MayWrite;
    forall i, q | i in procs && 0 <= q < PAGES ensures MayWrite(procs[i], q) <==> Fr(procs[i], q) != -1 {
      TablesOf(pool, procs, owner, base, i);
      MappedMayWrite(procs[i], q);
    }
  }

  /** What `page_table_add` does to the process whose directory is loaded. */
  function Mapped(p: Proc, q: int, f: int): (r: Proc) {
    var d, t := q / 1024, q % 1024;
    var table := if d in p.tables && |p.tables[d]| == 1024 then p.tables[d] else Zeroes();
    p.(tables := p.tables[d := table[t := Entry(f)]], flags := if d in p.tables then p.flags else p.flags[d := USER_RW])
  }

  /** What `page_table_pte_remove` does. */
  function Unmapped(p: Proc, q: int): (r: Proc)
    requires Fr(p, q) != -1
  {
    var d, t := q / 1024, q % 1024;
    p.(tables := p.tables[d := p.tables[d][t := p.tables[d][t] - 1]])
  }

  lemma MappedExactly(p: Proc, q: int, f: int, u: int)
    requires TablesOk(p) && 0 <= q < PAGES && 0 <= u < PAGES && f >= 0
    ensures TablesOk(Mapped(p, q, f)) && Fr(Mapped(p, q, f), u) == if u == q then f else Fr(p, u)
  {
    EntryMeans(f);
    assert Granted(USER_RW);
    assert u == q <==> u / 1024 == q / 1024 && u % 1024 == q % 1024;
  }

  lemma UnmappedExactly(p: Proc, q: int, u: int)
    requires TablesOk(p) && 0 <= q < PAGES && 0 <= u < PAGES && Fr(p, q) != -1
    ensures TablesOk(Unmapped(p, q)) && Fr(Unmapped(p, q), u) == if u == q then -1 else Fr(p, u)
  {
    assert u == q <==> u / 1024 == q / 1024 && u % 1024 == q % 1024;
  }

  // ---------------------------------------------------------------- ownership

  type Procs = map<int, Proc>

  ghost predicate RefOk(procs: Procs, owner: map<int, Place>, i: int, q: int)
    requires i in procs
  {
    var f := Fr(procs[i], q);
    f == -1 || (f in owner && owner[f] == Place(i, q))
  }

  ghost predicate OwnOk(pool: seq<bool>, procs: Procs, owner: map<int, Place>, base: int, f: int)
    requires f in owner
  {
    var o := owner[f];
    && 0 <= f - base < |pool| && pool[f - base]
    && o.pid in procs && 0 <= o.page < PAGES && Fr(procs[o.pid], o.page) == f
  }

  /** Each set bit of the user pool is the target of exactly one present user entry over all processes. */
  ghost predicate Owned(pool: seq<bool>, procs: Procs, owner: map<int, Place>, base: int) {
    && base >= 0
    && (forall i :: i in procs ==> TablesOk(procs[i]))
    && (forall i, q :: i in procs && 0 <= q < PAGES ==> RefOk(procs, owner, i, q))
    && (forall f :: f in owner ==> OwnOk(pool, procs, owner, base, f))
    && (forall b :: 0 <= b < |pool| && pool[b] ==> base + b in owner)
  }

  /** A set bit is the target of an entry. */
  lemma BitHasEntry(pool: seq<bool>, procs: Procs, owner: map<int, Place>, base: int, b: int) returns (i: int, q: int)
    requires Owned(pool, procs, owner, base) && 0 <= b < |pool| && pool[b]
    ensures i in procs && 0 <= q < PAGES && Fr(procs[i], q) == base + b
  {
    hide Fr;
    assert OwnOk(pool, procs, owner, base, base + b);
    i, q := owner[base + b].pid, owner[base + b].page;
  }

  /** A present entry targets a set bit. */
  lemma EntryHasBit(pool: seq<bool>, procs: Procs, owner: map<int, Place>, base: int, i: int, q: int)
    requires Owned(pool, procs, owner, base) && i in procs && 0 <= q < PAGES && Fr(procs[i], q) != -1
    ensures 0 <= Fr(procs[i], q) - base < |pool| && pool[Fr(procs[i], q) - base]
  {
    hide Fr;
    assert RefOk(procs, owner, i, q);
    assert OwnOk(pool, procs, owner, base, Fr(procs[i], q));
  }

  /** No frame is mapped twice, in one process or in two. */
  lemma EntryAlone(pool: seq<bool>, procs: Procs, owner: map<int, Place>, base: int, i: int, q: int, j: int, u: int)
    requires Owned(pool, procs, owner, base) && i in procs && j in procs && 0 <= q < PAGES && 0 <= u < PAGES
    requires Fr(procs[i], q) == Fr(procs[j], u) != -1
    ensures i == j && q == u
  {
    hide Fr;
    assert RefOk(procs, owner, i, q) && RefOk(procs, owner, j, u);
  }

  lemma MapKeeps(pool: seq<bool>, procs: Procs, owner: map<int, Place>, base: int, i: int, q: int, f: int)
    requires Owned(pool, procs, owner, base) && i in procs && 0 <= q < PAGES && Fr(procs[i], q) == -1
    requires 0 <= f - base < |pool| && !pool[f - base]
    ensures Owned(pool[f - base := true], procs[i := Mapped(procs[i], q, f)], owner[f := Place(i, q)], base)
  {
    hide Fr, Mapped;
    var p1, o1, b1 := procs[i := Mapped(procs[i], q, f)], owner[f := Place(i, q)], pool[f - base := true];
    MappedExactly(procs[i], q, f, q);
    forall j, u | j in p1 && 0 <= u < PAGES ensures RefOk(p1, o1, j, u) {
      assert RefOk(procs, owner, j, u);
      if j == i { MappedExactly(procs[i], q, f, u); }
    }
    forall g | g in o1 ensures OwnOk(b1, p1, o1, base, g) {
      if g != f {
        assert OwnOk(pool, procs, owner, base, g);
        if owner[g].pid == i { MappedExactly(procs[i], q, f, owner[g].page); }
      }
    }
  }

  lemma UnmapKeeps(pool: seq<bool>, procs: Procs, owner: map<int, Place>, base: int, i: int, q: int)
    requires Owned(pool, procs, owner, base) && i in procs && 0 <= q < PAGES && Fr(procs[i], q) != -1
    ensures 0 <= Fr(procs[i], q) - base < |pool|
    ensures Owned(pool[Fr(procs[i], q) - base := false], procs[i := Unmapped(procs[i], q)], owner - {Fr(procs[i], q)}, base)
  {
    hide Fr, Unmapped;
    var f := Fr(procs[i], q);
    assert RefOk(procs, owner, i, q) && OwnOk(pool, procs, owner, base, f);
    var p1, o1, b1 := procs[i := Unmapped(procs[i], q)], owner - {f}, pool[f - base := false];
    UnmappedExactly(procs[i], q, q);
    forall j, u | j in p1 && 0 <= u < PAGES ensures RefOk(p1, o1, j, u) {
      assert RefOk(procs, owner, j, u);
      if j == i { UnmappedExactly(procs[i], q, u); }
    }
    forall g | g in o1 ensures OwnOk(b1, p1, o1, base, g) {
      assert OwnOk(pool, procs, owner, base, g);
      if owner[g].pid == i { UnmappedExactly(procs[i], q, owner[g].page); }
    }
  }

  /** The bitmap has exactly the mapped pages from USER_VADDR_START on, and nothing is mapped below. */
  ghost predicate VirtOk(p: Proc) {
    |p.virt| == PAGES - FIRST
    && forall q :: 0 <= q < PAGES ==> (Fr(p, q) != -1 <==> q >= FIRST && p.virt[q - FIRST])
  }

  ghost predicate AllVirt(procs: Procs) { forall i :: i in procs ==> VirtOk(procs[i]) }

  lemma MapVirt(p: Proc, q: int, f: int)
    requires VirtOk(p) && TablesOk(p) && FIRST <= q < PAGES && f >= 0
    ensures VirtOk(Mapped(p, q, f).(virt := p.virt[q - FIRST := true]))
  {
    hide Fr, Mapped;
    var r := Mapped(p, q, f).(virt := p.virt[q - FIRST := true]);
    forall u | 0 <= u < PAGES ensures Fr(r, u) != -1 <==> u >= FIRST && r.virt[u - FIRST] {
      MappedExactly(p, q, f, u);
      SameTables(Mapped(p, q, f), r, u);
    }
  }

  lemma SameTables(p: Proc, r: Proc, u: int)
    requires p.tables == r.tables
    ensures Fr(p, u) == Fr(r, u)
  {
  }

  /** Changing a bitmap does not concern ownership. */
  lemma VirtKeeps(pool: seq<bool>, procs: Procs, owner: map<int, Place>, base: int, i: int, virt: seq<bool>)
    requires Owned(pool, procs, owner, base) && i in procs
    ensures Owned(pool, procs[i := procs[i].(virt := virt)], owner, base)
  {
    hide Fr;
    var p1 := procs[i := procs[i].(virt := virt)];
    forall j, u | j in p1 && 0 <= u < PAGES ensures RefOk(p1, owner, j, u) {
      assert RefOk(procs, owner, j, u);
      SameTables(procs[j], p1[j], u);
    }
    forall f | f in owner ensures OwnOk(pool, p1, owner, base, f) {
      assert OwnOk(pool, procs, owner, base, f);
      SameTables(procs[owner[f].pid], p1[owner[f].pid], owner[f].page);
    }
  }

  /** The bitmap is ahead of the tables: pages `lo` to `hi - 1` whose bits are set are still to be mapped. */
  ghost predicate Pending(p: Proc, lo: int, hi: int) {
    |p.virt| == PAGES - FIRST
    && forall q :: 0 <= q < PAGES ==> (Fr(p, q) != -1 <==> q >= FIRST && p.virt[q - FIRST] && !(lo <= q < hi))
  }

  lemma PendingDone(p: Proc, lo: int)
    ensures VirtOk(p) <==> Pending(p, lo, lo)
  {
    hide Fr;
  }

  lemma MapPending(p: Proc, q: int, f: int, hi: int)
    requires TablesOk(p) && Pending(p, q, hi) && FIRST <= q < hi <= PAGES && p.virt[q - FIRST] && f >= 0
    ensures Fr(p, q) == -1 && Pending(Mapped(p, q, f), q + 1, hi)
  {
    hide Fr, Mapped;
    SameVirt(p, q, f);
    forall u | 0 <= u < PAGES
      ensures Fr(Mapped(p, q, f), u) != -1 <==> u >= FIRST && p.virt[u - FIRST] && !(q + 1 <= u < hi)
    {
      MappedExactly(p, q, f, u);
    }
  }

  lemma SameVirt(p: Proc, q: int, f: int)
    ensures Mapped(p, q, f).virt == p.virt
  {
  }

  lemma SkipPending(p: Proc, q: int, hi: int)
    requires Pending(p, q, hi) && FIRST <= q < hi <= PAGES && !p.virt[q - FIRST]
    ensures Pending(p, q + 1, hi)
  {
    hide Fr;
  }

  /** A page that is still to be mapped is not mapped. */
  lemma PendingFree(p: Proc, q: int, hi: int)
    requires Pending(p, q, hi) && 0 <= q < hi <= PAGES
    ensures Fr(p, q) == -1
  {
    hide Fr;
  }

  /** A process without mapped pages owns nothing and can come and go. */
  ghost predicate Bare(p: Proc) { TablesOk(p) && forall q :: 0 <= q < PAGES ==> Fr(p, q) == -1 }

  lemma EnterKeeps(pool: seq<bool>, procs: Procs, owner: map<int, Place>, base: int, i: int, p: Proc)
    requires Owned(pool, procs, owner, base) && i !in procs && Bare(p)
    ensures Owned(pool, procs[i := p], owner, base)
  {
    hide Fr;
    var p1 := procs[i := p];
    forall j, u | j in p1 && 0 <= u < PAGES ensures RefOk(p1, owner, j, u) { if j != i { assert RefOk(procs, owner, j, u); } }
    forall f | f in owner ensures OwnOk(pool, p1, owner, base, f) { assert OwnOk(pool, procs, owner, base, f); }
  }

  lemma LeaveKeeps(pool: seq<bool>, procs: Procs, owner: map<int, Place>, base: int, i: int)
    requires Owned(pool, procs, owner, base) && i in procs && Bare(procs[i])
    ensures Owned(pool, procs - {i}, owner, base) && forall f :: f in owner ==> owner[f].pid != i
  {
    hide Fr;
    forall f | f in owner ensures owner[f].pid != i && OwnOk(pool, procs - {i}, owner, base, f) {
      assert OwnOk(pool, procs, owner, base, f);
      assert base >= 0;
    }
    forall j, u | j in procs - {i} && 0 <= u < PAGES ensures RefOk(procs - {i}, owner, j, u) { assert RefOk(procs, owner, j, u); }
  }

  // ---------------------------------------------------------------- page tables

  /** How many of these directory entries the process has no table for. */
  ghost function Lacks(p: Proc, ds: set<int>): (n: nat) { |ds - p.tables.Keys| }

  /** Process `i` has tables for these entries besides those it had. */
  ghost predicate Gains(p0: Procs, p1: Procs, i: int, ds: set<int>) {
    i in p0 && i in p1 && p1[i].tables.Keys == p0[i].tables.Keys + ds
  }

  /** The directory entries of `n` pages from `q` on. */
  ghost function Dirs(q: int, n: int): (ds: set<int>) { set u | q <= u < q + n :: u / 1024 }

  /** The directory entries of the pages of the first `n` bits that are set. */
  ghost function SetDirs(virt: seq<bool>, n: nat): (ds: set<int>)
    requires n <= |virt|
  {
    set k | 0 <= k < n && virt[k] :: (FIRST + k) / 1024
  }

  lemma Fewer(a: set<int>, b: set<int>)
    requires a <= b
    ensures |a| <= |b|
  {
    assert b == a + (b - a);
  }

  lemma OneMore(a: set<int>, t: set<int>, d: int)
    ensures |(a + {d}) - t| == |a - t| + if d in t + a then 0 else 1
  {
    if d in t + a { assert (a + {d}) - t == a - t; } else { assert (a + {d}) - t == (a - t) + {d}; }
  }

  lemma MapGains(p: Proc, q: int, f: int)
    requires TablesOk(p) && 0 <= q < PAGES
    ensures Mapped(p, q, f).tables.Keys == p.tables.Keys + {q / 1024}
    ensures Lacks(p, {q / 1024}) == if q / 1024 in p.tables then 0 else 1
  {
    LacksOne(p, q / 1024);
  }

  lemma SameLacks(p: Proc, virt: seq<bool>, ds: set<int>)
    ensures Lacks(p.(virt := virt), ds) == Lacks(p, ds)
  {
  }

  lemma LacksOne(p: Proc, d: int)
    ensures Lacks(p, {d}) == if d in p.tables then 0 else 1
  {
    if d in p.tables { assert {d} - p.tables.Keys == {}; } else { assert {d} - p.tables.Keys == {d}; }
  }

  /** Process `i` got tables for `k` pages from `q` on, and `taken` frames were taken for them. */
  ghost predicate Took(p0: Procs, p: Procs, i: int, q: int, k: int, taken: int) {
    Gains(p0, p, i, Dirs(q, k)) && taken == Lacks(p0[i], Dirs(q, k))
  }

  lemma TookNone(p: Procs, i: int, q: int)
    requires i in p
    ensures Took(p, p, i, q, 0, 0)
  {
    assert Dirs(q, 0) == {} && Dirs(q, 0) - p[i].tables.Keys == {};
    assert p[i].tables.Keys == p[i].tables.Keys + {};
  }

  lemma DirsMore(q: int, k: int, n: int)
    requires 0 <= k < n
    ensures Dirs(q, k + 1) == Dirs(q, k) + {(q + k) / 1024} <= Dirs(q, n)
  {
  }

  lemma TookMore(p0: Procs, p: Procs, i: int, q: int, k: int, n: int, taken: int)
    requires Took(p0, p, i, q, k, taken) && 0 <= k < n
    ensures taken + Lacks(p[i], {(q + k) / 1024}) == Lacks(p0[i], Dirs(q, k + 1)) <= Lacks(p0[i], Dirs(q, n))
  {
    hide Dirs;
    var t, d := p0[i].tables.Keys, (q + k) / 1024;
    DirsMore(q, k, n);
    LacksOne(p[i], d);
    OneMore(Dirs(q, k), t, d);
    assert d in p[i].tables <==> d in p[i].tables.Keys;
    Fewer(Dirs(q, k + 1) - t, Dirs(q, n) - t);
  }

  lemma TookNext(p0: Procs, p: Procs, r: Procs, i: int, q: int, k: int, n: int, taken: int)
    requires Took(p0, p, i, q, k, taken) && 0 <= k < n && Gains(p, r, i, {(q + k) / 1024})
    ensures Took(p0, r, i, q, k + 1, taken + Lacks(p[i], {(q + k) / 1024}))
  {
    hide Dirs;
    DirsMore(q, k, n);
    TookMore(p0, p, i, q, k, n, taken);
  }

  lemma TookAll(p0: Procs, p: Procs, i: int, q: int, n: int, taken: int)
    requires Took(p0, p, i, q, n, taken)
    ensures Gains(p0, p, i, Dirs(q, n)) && taken == Lacks(p0[i], Dirs(q, n))
  {
  }

  /** The child has exactly the tables for the first `n` bits, and `taken` frames were taken for them. */
  ghost predicate HasDirs(procs: Procs, c: int, virt: seq<bool>, n: nat, taken: int) {
    n <= |virt| && c in procs && procs[c].tables.Keys == SetDirs(virt, n) && taken == |SetDirs(virt, n)|
  }

  lemma DirsStart(procs: Procs, c: int, virt: seq<bool>)
    requires c in procs && procs[c].tables == map[]
    ensures HasDirs(procs, c, virt, 0, 0)
  {
    assert SetDirs(virt, 0) == {};
  }

  lemma DirsEnd(procs: Procs, c: int, virt: seq<bool>, taken: int)
    requires HasDirs(procs, c, virt, |virt|, taken)
    ensures taken == |procs[c].tables| == |SetDirs(virt, |virt|)|
  {
    assert |procs[c].tables| == |procs[c].tables.Keys|;
  }

  lemma SetDirsMore(virt: seq<bool>, n: nat)
    requires n < |virt| && virt[n]
    ensures SetDirs(virt, n + 1) == SetDirs(virt, n) + {(FIRST + n) / 1024} <= SetDirs(virt, |virt|)
  {
  }

  lemma DirsMost(procs: Procs, c: int, virt: seq<bool>, n: nat, taken: int)
    requires HasDirs(procs, c, virt, n, taken) && n < |virt| && virt[n]
    ensures taken + Lacks(procs[c], {(FIRST + n) / 1024}) == |SetDirs(virt, n + 1)| <= |SetDirs(virt, |virt|)|
  {
    hide SetDirs;
    SetDirsMore(virt, n);
    LacksOne(procs[c], (FIRST + n) / 1024);
    Fewer(SetDirs(virt, n + 1), SetDirs(virt, |virt|));
  }

  lemma DirsNext(procs: Procs, r: Procs, c: int, virt: seq<bool>, n: nat, taken: int)
    requires HasDirs(procs, c, virt, n, taken) && n < |virt| && virt[n] && Gains(procs, r, c, {(FIRST + n) / 1024})
    ensures HasDirs(r, c, virt, n + 1, taken + Lacks(procs[c], {(FIRST + n) / 1024}))
  {
    hide SetDirs;
    SetDirsMore(virt, n);
    DirsMost(procs, c, virt, n, taken);
  }

  lemma DirsSkip(procs: Procs, c: int, virt: seq<bool>, n: nat, m: nat, taken: int)
    requires HasDirs(procs, c, virt, n, taken) && n + m <= |virt| && forall k :: n <= k < n + m ==> !virt[k]
    ensures HasDirs(procs, c, virt, n + m, taken)
  {
    assert SetDirs(virt, n + m) == SetDirs(virt, n);
  }

  /** The tables of the directory entries before `d`. */
  ghost function Below(p: Proc, d: int): (ds: set<int>) { set e | e in p.tables && e < d }

  lemma BelowNext(p: Proc, d: int)
    ensures |Below(p, d + 1)| == |Below(p, d)| + if d in p.tables then 1 else 0
  {
    if d in p.tables { assert Below(p, d + 1) == Below(p, d) + {d}; } else { assert Below(p, d + 1) == Below(p, d); }
  }

  lemma BelowEnds(p: Proc)
    requires TablesOk(p)
    ensures Below(p, 0) == {} && |Below(p, USER_PDES)| == |p.tables|
  {
    assert Below(p, USER_PDES) == p.tables.Keys;
  }

  lemma {:induction false} AllClear(bits: seq<bool>)
    requires forall b :: 0 <= b < |bits| ==> !bits[b]
    ensures Free(bits) == |bits|
    decreases |bits|
  {
    if bits != [] { AllClear(bits[..|bits| - 1]); }
  }

  /** The bytes of a frame that nobody has written. */
  function Blank(f: int): (s: seq<int>) { seq(4096, x => 0) }

  class Machine {
    const base: int                      // the first frame of the user pool
    var pool: seq<bool>                  // user_pool.pool_bitmap
    var room: nat                        // free frames of the kernel pool, from which page tables are taken
    var procs: Procs
    var mem: map<int, seq<int>>          // the bytes of each user frame
    ghost var owner: map<int, Place>

    ghost predicate Valid()
      reads this
    {
      Owned(pool, procs, owner, base) && AllVirt(procs)
    }

    /** No process yet: `n` free frames from `base` on, and `room` free frames of the kernel pool. */
    constructor (base: int, n: nat, room: nat)
      requires base >= 0
      ensures Valid() && this.base == base && |pool| == n && Free(pool) == n && procs == map[] && this.room == room && FramesIn(mem, n, base)
    {
      this.base, this.room := base, room;
      pool := seq(n, b => false);
      procs := map[];
      mem := map f | base <= f < base + n :: Blank(f);
      owner := map[];
      new;
      AllClear(pool);
    }

    /** `palloc` on the user pool and `page_table_add`, for a page that is not mapped: a frame, and another one of the
        kernel pool when the process has no table for the page. */
    method Install(i: int, q: int) returns (panic: bool)
      requires Owned(pool, procs, owner, base) && i in procs && 0 <= q < PAGES && Fr(procs[i], q) == -1
      modifies `pool, `procs, `owner, `room
      ensures panic <==> Free(old(pool)) == 0 || (q / 1024 !in old(procs)[i].tables && old(room) == 0)
      ensures !panic ==> room == old(room) - Lacks(old(procs)[i], {q / 1024}) && Gains(old(procs), procs, i, {q / 1024})
      ensures !panic ==>
                && Owned(pool, procs, owner, base) && i in procs && |pool| == |old(pool)| && Free(pool) == Free(old(pool)) - 1
                && var f := Fr(procs[i], q);
                && 0 <= f - base < |pool| && !old(pool)[f - base] && pool == old(pool)[f - base := true]
                && procs == old(procs)[i := Mapped(old(procs)[i], q, f)] && owner == old(owner)[f := Place(i, q)]
      ensures !panic ==> FirstFit(old(pool), 1).Start? && Fr(procs[i], q) == base + FirstFit(old(pool), 1).at
    {
      hide Fr, Mapped, Owned, Free, Lacks, FirstFit;
      panic := false;
      FitOne(pool);
      FreeNone(pool);
      match FirstFit(pool, 1)
      case NoFit => panic := true;
      case Start(b) =>
        if q / 1024 !in procs[i].tables {
          if room == 0 { return true; }
          room := room - 1;
        }
        MapKeeps(pool, procs, owner, base, i, q, base + b);
        TablesOf(pool, procs, owner, base, i);
        MapGains(procs[i], q, base + b);
        MappedExactly(procs[i], q, base + b, q);
        FreeUpdate(pool, b, true);
        pool := pool[b := true];
        procs := procs[i := Mapped(procs[i], q, base + b)];
        owner := owner[base + b := Place(i, q)];
    }

    /** `get_a_page` for a user process: its assertion fails exactly when the page is mapped already. */
    method GetAPage(i: int, q: int) returns (panic: bool)
      requires Valid() && i in procs && FIRST <= q < PAGES
      modifies `pool, `procs, `owner, `room
      ensures panic <==> || Fr(old(procs)[i], q) != -1 || Free(old(pool)) == 0
                         || (q / 1024 !in old(procs)[i].tables && old(room) == 0)
      ensures !panic ==> room == old(room) - Lacks(old(procs)[i], {q / 1024}) && Gains(old(procs), procs, i, {q / 1024})
      ensures !panic ==> Valid() && i in procs && OnlyMapped(old(procs), procs, i, q) && MayWrite(procs[i], q) && AllWritable(procs)
      ensures !panic ==> FirstFit(old(pool), 1).Start? && Fr(procs[i], q) == base + FirstFit(old(pool), 1).at
    {
      hide Fr, Mapped, Owned, Free, VirtOk, MayWrite, FirstFit;
      if Fr(procs[i], q) != -1 { return true; }
      TablesOf(pool, procs, owner, base, i);
      ghost var p0 := procs;
      panic := Install(i, q);
      if panic { return; }
      EntryHasBit(pool, procs, owner, base, i, q);
      BaseOf(pool, procs, owner, base);
      MapVirt(p0[i], q, Fr(procs[i], q));
      VirtSize(p0[i]);
      MappedSame(p0, procs, i, q, Fr(procs[i], q), p0[i].virt[q - FIRST := true]);
      VirtKeeps(pool, procs, owner, base, i, p0[i].virt[q - FIRST := true]);
      SameTables(procs[i], procs[i].(virt := procs[i].virt[q - FIRST := true]), q);
      procs := procs[i := procs[i].(virt := procs[i].virt[q - FIRST := true])];
      OwnedWritable(pool, procs, owner, base);
    }

    /** `malloc_page` for a user process: first fit in its bitmap, with the bit after the map set, and a frame for each
        page.  The last page of user space is the stack's: an assertion fails when the run starts there. */
    method MallocUser(i: int, n: int) returns (r: Outcome<int>)
      requires Valid() && i in procs
      modifies `pool, `procs, `owner, `room
      ensures r.Panic? <==> || !(0 < n < 3840) || FirstFit(old(procs)[i].virt, 1).NoFit?
                            || (FirstFit(old(procs)[i].virt, n).Start?
                                && var q := FIRST + FirstFit(old(procs)[i].virt, n).at;
                                   q >= PAGES - 1 || Free(old(pool)) < n || old(room) < Lacks(old(procs)[i], Dirs(q, n)))
      ensures r.Go? ==> Valid() && i in procs && (r.s == -1 <==> FirstFit(old(procs)[i].virt, n).NoFit?)
      ensures r == Go(-1) ==> procs == old(procs) && pool == old(pool) && room == old(room)
      ensures r.Go? && r.s != -1 ==>
                && FirstFit(old(procs)[i].virt, n).Start? && r.s == FIRST + FirstFit(old(procs)[i].virt, n).at
                && MappedRange(old(procs), procs, i, r.s, n) && (forall u :: r.s <= u < r.s + n ==> MayWrite(procs[i], u)) && AllWritable(procs)
                && room == old(room) - Lacks(old(procs)[i], Dirs(r.s, n)) && Gains(old(procs), procs, i, Dirs(r.s, n))
    {
      hide Fr, Owned, Free, VirtOk, Pending, MappedRange, Lacks, Dirs, MayWrite, AllWritable;
      if !(0 < n < 3840) { return Panic; }
      var virt := procs[i].virt;
      var scan := ScanSpec(virt, true, n);
      if scan.Halt? { return Panic; }
      ScanIsFirstFitExactlyWhen(virt, true, n);
      if scan.Fail? { return Go(-1); }
      FitFromIsLeast(virt, n, 0);
      var q := FIRST + scan.start;
      VirtSize(procs[i]);
      var marked := MarkRun(virt, q - FIRST, n, true);
      MarkedPending(procs[i], marked, q, n);
      VirtKeeps(pool, procs, owner, base, i, marked);
      SameRange(procs, i, marked, q);
      SameLacks(procs[i], marked, Dirs(q, n));
      procs := procs[i := procs[i].(virt := marked)];
      if q >= PAGES - 1 { return Panic; }
      var panic := InstallRun(i, q, n, old(procs));
      if panic { return Panic; }
      PendingDone(procs[i], q + n);
      VirtAgain(old(procs), procs, i, q, n);
      OwnedWritable(pool, procs, owner, base);
      RangeWritable(old(procs), procs, i, q, n);
      r := Go(q);
    }

    /** The loop of `malloc_page`. */
    method InstallRun(i: int, q: int, n: int, ghost p0: Procs) returns (panic: bool)
      requires Owned(pool, procs, owner, base) && i in procs && FIRST <= q && 0 <= n && q + n <= PAGES
      requires Pending(procs[i], q, q + n) && MappedRange(p0, procs, i, q, 0)
      requires forall k :: q - FIRST <= k < q - FIRST + n ==> k < |procs[i].virt| && procs[i].virt[k]
      modifies `pool, `procs, `owner, `room
      ensures panic <==> Free(old(pool)) < n || old(room) < Lacks(old(procs)[i], Dirs(q, n))
      ensures !panic ==> room == old(room) - Lacks(old(procs)[i], Dirs(q, n)) && Gains(old(procs), procs, i, Dirs(q, n))
      ensures !panic ==> i in procs && Owned(pool, procs, owner, base) && Pending(procs[i], q + n, q + n) && MappedRange(p0, procs, i, q, n)
    {
      hide Fr, Owned, Free, Mapped, Pending, MappedRange, Took, Lacks, Dirs, Gains;
      PendingSize(procs[i], q, q + n);
      TookNone(procs, i, q);
      panic := false;
      var k := 0;
      while k < n
        invariant 0 <= k <= n && i in procs && Owned(pool, procs, owner, base) && Free(pool) == Free(old(pool)) - k
        invariant Pending(procs[i], q + k, q + n) && MappedRange(p0, procs, i, q, k) && procs[i].virt == old(procs)[i].virt
        invariant Took(old(procs), procs, i, q, k, old(room) - room)
      {
        ghost var p1, taken := procs, old(room) - room;
        TookMore(old(procs), procs, i, q, k, n, taken);
        LacksOne(procs[i], (q + k) / 1024);
        PendingFree(procs[i], q + k, q + n);
        TablesOf(pool, procs, owner, base, i);
        panic := Install(i, q + k);
        if panic { return; }
        TookNext(old(procs), p1, procs, i, q, k, n, taken);
        MapPending(p1[i], q + k, Fr(procs[i], q + k), q + n);
        SameVirt(p1[i], q + k, Fr(procs[i], q + k));
        RangeMore(p0, p1, i, q, k, Fr(procs[i], q + k));
        k := k + 1;
      }
      TookAll(old(procs), procs, i, q, n, old(room) - room);
    }

    /** `mfree_page` for a user process. */
    method MfreeUser(i: int, q: int, n: int)
      requires Valid() && i in procs && FIRST <= q && 1 <= n && q + n <= PAGES && forall u :: q <= u < q + n ==> Fr(procs[i], u) != -1
      modifies `pool, `procs, `owner
      ensures Valid() && i in procs && |pool| == |old(pool)| && MappedRange(procs, old(procs), i, q, n)
      ensures forall u :: q <= u < q + n ==> Fr(procs[i], u) == -1 && !MayWrite(procs[i], u)
      ensures AllWritable(procs) && forall u :: 0 <= u < PAGES && !(q <= u < q + n) ==> MayWrite(procs[i], u) == MayWrite(old(procs)[i], u)
      ensures Free(pool) == Free(old(pool)) + n
    {
      hide Fr, Owned, Free, VirtOk, Pending, MappedRange, Unmapped, MayWrite, AllWritable;
      OwnedWritable(pool, procs, owner, base);
      PendingDone(procs[i], q);
      VirtSize(procs[i]);
      RangeNone(procs, i, q);
      var k := 0;
      while k < n
        invariant 0 <= k <= n && i in procs && Owned(pool, procs, owner, base) && |pool| == |old(pool)| && Free(pool) == Free(old(pool)) + k
        invariant Pending(procs[i], q, q + k) && MappedRange(procs, old(procs), i, q, k) && procs[i].virt == old(procs)[i].virt
      {
        ghost var p1 := procs;
        StillMapped(procs, old(procs), i, q, k, q + k);
        TablesOf(pool, procs, owner, base, i);
        UnmapKeeps(pool, procs, owner, base, i, q + k);
        EntryHasBit(pool, procs, owner, base, i, q + k);
        var f := Fr(procs[i], q + k);
        FreeUpdate(pool, f - base, false);
        UnmapPending(procs[i], q, q + k);
        RangeLess(procs, old(procs), i, q, k);
        pool := pool[f - base := false];
        procs := procs[i := Unmapped(procs[i], q + k)];
        owner := owner - {f};
        k := k + 1;
      }
      var cleared := MarkRun(procs[i].virt, q - FIRST, n, false);
      ClearedVirt(procs[i], cleared, q, n);
      VirtKeeps(pool, procs, owner, base, i, cleared);
      RangeVirt(procs, old(procs), i, q, n, cleared);
      procs := procs[i := procs[i].(virt := cleared)];
      VirtBack(old(procs), procs, i, q, n);
      OwnedWritable(pool, procs, owner, base);
      RangeClosed(procs, old(procs), i, q, n);
    }

    /** One page of `copy_body_stack3`: a frame for the child at the same address, with the parent's bytes. */
    method CopyPage(i: int, c: int, q: int) returns (panic: bool)
      requires Owned(pool, procs, owner, base) && i in procs && c in procs && i != c && 0 <= q < PAGES && FramesIn(mem, |pool|, base)
      requires Fr(procs[i], q) != -1 && Fr(procs[c], q) == -1
      modifies `pool, `procs, `owner, `mem, `room
      ensures panic <==> Free(old(pool)) == 0 || (q / 1024 !in old(procs)[c].tables && old(room) == 0)
      ensures !panic ==> room == old(room) - Lacks(old(procs)[c], {q / 1024}) && Gains(old(procs), procs, c, {q / 1024})
      ensures !panic ==> c in procs && Forked(old(pool), old(procs), old(owner), old(mem), pool, procs, owner, mem, base, i, c, q)
      ensures !panic ==> Free(pool) == Free(old(pool)) - 1
    {
      hide Fr, Mapped, Owned, Free, Lacks, Gains;
      EntryHasBit(pool, procs, owner, base, i, q);
      var buf := mem[Fr(procs[i], q)];
      panic := Install(c, q);
      if panic { return; }
      mem := mem[Fr(procs[c], q) := buf];
    }

    /** The page-copying part of `fork`: the child gets a copy of the bitmap, and for every set bit a fresh frame with equal
        bytes; nobody else's pages or bytes change. */
    method Fork(i: int, c: int) returns (panic: bool)
      requires Valid() && i in procs && c !in procs && FramesIn(mem, |pool|, base)
      modifies `pool, `procs, `owner, `mem, `room
      ensures panic <==> || Free(old(pool)) < SetIn(old(procs)[i].virt, |old(procs)[i].virt|)
                         || old(room) < |SetDirs(old(procs)[i].virt, |old(procs)[i].virt|)|
      ensures !panic ==> c in procs && room == old(room) - |procs[c].tables|
      ensures !panic ==> Valid() && c in procs && procs == old(procs)[c := procs[c]] && procs[c].virt == procs[i].virt
      ensures !panic ==> forall q :: 0 <= q < PAGES ==>
                           (Fr(procs[c], q) != -1 <==> Fr(procs[i], q) != -1) && Copied(old(mem), mem, procs[i], procs[c], q)
      ensures !panic ==> forall q :: 0 <= q < PAGES && Fr(procs[i], q) != -1 ==> MayWrite(procs[c], q)
      ensures !panic ==> BytesKept(old(mem), mem, old(owner)) && FramesIn(mem, |pool|, base) && AllWritable(procs)
      ensures !panic ==> forall q :: 0 <= q < PAGES && Fr(procs[c], q) != -1 ==> Fr(procs[c], q) !in old(owner)
    {
      hide Fr, Mapped, Owned, Free, Pending, VirtOk, Copying, SetIn, SetDirs, Lacks, Gains, Forked, MayWrite;
      panic := false;
      var virt := procs[i].virt;
      VirtSize(procs[i]);
      ghost var s0 := Snap(pool, procs, owner, mem);
      CopyStart(s0, base, i, c);
      procs := procs[c := Proc(virt, map[], map[])];
      var byte := 0;
      while byte < |virt| / 8
        invariant 0 <= byte <= |virt| / 8
        invariant Copying(s0, Snap(pool, procs, owner, mem), base, i, c, 8 * byte, Free(s0.pool) - Free(pool), old(room) - room)
      {
        if ByteSet(virt, byte) {
          var bit := 0;
          while bit < 8
            invariant 0 <= bit <= 8
            invariant Copying(s0, Snap(pool, procs, owner, mem), base, i, c, 8 * byte + bit, Free(s0.pool) - Free(pool), old(room) - room)
          {
            var k := 8 * byte + bit;
            ghost var s, used, taken := Snap(pool, procs, owner, mem), Free(s0.pool) - Free(pool), old(room) - room;
            if virt[k] {
              CopyNext(s0, s, base, i, c, k, used, taken);
              panic := CopyPage(i, c, FIRST + k);
              if panic { return; }
              CopyDone(s0, s, Snap(pool, procs, owner, mem), base, i, c, k, used, taken);
            } else {
              CopySkip(s0, s, base, i, c, k, 1, used, taken);
            }
            bit := bit + 1;
          }
        } else {
          CopySkip(s0, Snap(pool, procs, owner, mem), base, i, c, 8 * byte, 8, Free(s0.pool) - Free(pool), old(room) - room);
        }
        byte := byte + 1;
      }
      CopyEnd(s0, Snap(pool, procs, owner, mem), base, i, c, Free(s0.pool) - Free(pool), old(room) - room);
      OwnedWritable(pool, procs, owner, base);
    }

    /** The two loops of `release_prog_resource` over directory and table entries: exactly the frames of the exiting
        process become free, and its tables go back to the kernel pool. */
    method Exit(i: int)
      requires Valid() && i in procs
      modifies `pool, `procs, `owner, `room
      ensures room == old(room) + |old(procs)[i].tables|
      ensures Valid() && procs == old(procs) - {i} && |pool| == |old(pool)|
      ensures forall b :: 0 <= b < |pool| ==>
                            (pool[b] <==> old(pool)[b] && base + b in old(owner) && old(owner)[base + b].pid != i)
    {
      hide Fr, Owned, VirtOk, Left;
      ghost var left := procs;
      LeftStart(pool, procs, owner, base, i);
      TablesOf(pool, procs, owner, base, i);
      BelowEnds(procs[i]);
      var d := 0;
      while d < USER_PDES
        invariant 0 <= d <= USER_PDES && procs == old(procs)
        invariant Left(old(pool), old(procs), old(owner), pool, left, owner, base, i, 1024 * d)
        invariant room == old(room) + |Below(procs[i], d)|
      {
        BelowNext(procs[i], d);
        if d in procs[i].tables {
          var t := 0;
          while t < 1024
            invariant 0 <= t <= 1024 && procs == old(procs) && room == old(room) + |Below(procs[i], d)|
            invariant Left(old(pool), old(procs), old(owner), pool, left, owner, base, i, 1024 * d + t)
          {
            var q := 1024 * d + t;
            LeftNext(old(pool), old(procs), old(owner), pool, left, owner, base, i, q);
            var pte := procs[i].tables[d][t];
            EntryOf(procs[i], d, t);
            if Present(pte) {
              LeftFreed(old(pool), old(procs), old(owner), pool, left, owner, base, i, q);
              var f := Frame(pte);
              pool := pool[f - base := false];
              left := left[i := Unmapped(left[i], q)];
              owner := owner - {f};
            } else {
              LeftSkipped(old(pool), old(procs), old(owner), pool, left, owner, base, i, q, 1);
            }
            t := t + 1;
          }
          room := room + 1;
        } else {
          NoTableNoPage(procs[i], d);
          LeftSkipped(old(pool), old(procs), old(owner), pool, left, owner, base, i, 1024 * d, 1024);
        }
        d := d + 1;
      }
      LeftEnd(old(pool), old(procs), old(owner), pool, left, owner, base, i);
      procs := procs - {i};
    }
  }

  /** The entries of process `i` before page `q` have been given back: `left` is the state of the tables without them. */
  ghost predicate Left(pool0: seq<bool>, p0: Procs, o0: map<int, Place>, pool: seq<bool>, left: Procs, owner: map<int, Place>,
                       base: int, i: int, q: int) {
    && i in p0 && i in left && left == p0[i := left[i]] && |pool| == |pool0|
    && Owned(pool0, p0, o0, base) && Owned(pool, left, owner, base)
    && (forall u :: 0 <= u < PAGES ==> Fr(left[i], u) == if u < q then -1 else Fr(p0[i], u))
    && (forall f :: f in owner ==> f in o0 && owner[f] == o0[f])
    && (forall f :: f in o0 && o0[f].pid != i ==> f in owner)
  }

  lemma LeftStart(pool: seq<bool>, procs: Procs, owner: map<int, Place>, base: int, i: int)
    requires Owned(pool, procs, owner, base) && i in procs
    ensures Left(pool, procs, owner, pool, procs, owner, base, i, 0)
  {
    hide Owned, Fr;
  }

  lemma LeftNext(pool0: seq<bool>, p0: Procs, o0: map<int, Place>, pool: seq<bool>, left: Procs, owner: map<int, Place>, base: int, i: int, q: int)
    requires Left(pool0, p0, o0, pool, left, owner, base, i, q) && 0 <= q < PAGES
    ensures i in left && i in p0 && Fr(left[i], q) == Fr(p0[i], q) && TablesOk(p0[i]) && Owned(pool, left, owner, base)
  {
    hide Owned, Fr;
    TablesOf(pool0, p0, o0, base, i);
  }

  lemma EntryOf(p: Proc, d: int, t: int)
    requires TablesOk(p) && d in p.tables && 0 <= t < 1024
    ensures |p.tables[d]| == 1024 && Fr(p, 1024 * d + t) == if Present(p.tables[d][t]) then Frame(p.tables[d][t]) else -1
    ensures Frame(p.tables[d][t]) >= 0
  {
    assert (1024 * d + t) / 1024 == d && (1024 * d + t) % 1024 == t;
  }

  lemma NoTableNoPage(p: Proc, d: int)
    requires d !in p.tables
    ensures forall q :: 1024 * d <= q < 1024 * d + 1024 ==> Fr(p, q) == -1
  {
  }

  lemma LeftSkipped(pool0: seq<bool>, p0: Procs, o0: map<int, Place>, pool: seq<bool>, left: Procs, owner: map<int, Place>,
                    base: int, i: int, q: int, n: nat)
    requires Left(pool0, p0, o0, pool, left, owner, base, i, q) && forall u :: q <= u < q + n ==> Fr(p0[i], u) == -1
    ensures Left(pool0, p0, o0, pool, left, owner, base, i, q + n)
  {
    hide Owned, Fr;
  }

  lemma LeftFreed(pool0: seq<bool>, p0: Procs, o0: map<int, Place>, pool: seq<bool>, left: Procs, owner: map<int, Place>,
                  base: int, i: int, q: int)
    requires Left(pool0, p0, o0, pool, left, owner, base, i, q) && 0 <= q < PAGES && Fr(p0[i], q) != -1
    ensures i in left && Fr(left[i], q) == Fr(p0[i], q) && 0 <= Fr(p0[i], q) - base < |pool|
    ensures Left(pool0, p0, o0, pool[Fr(p0[i], q) - base := false], left[i := Unmapped(left[i], q)], owner - {Fr(p0[i], q)}, base, i, q + 1)
  {
    hide Owned, Fr, Unmapped;
    var f := Fr(p0[i], q);
    TablesOf(pool, left, owner, base, i);
    UnmapKeeps(pool, left, owner, base, i, q);
    EntryOwned(pool0, p0, o0, base, i, q);
    forall u | 0 <= u < PAGES ensures Fr(Unmapped(left[i], q), u) == if u < q + 1 then -1 else Fr(p0[i], u) {
      UnmappedExactly(left[i], q, u);
    }
  }

  lemma LeftEnd(pool0: seq<bool>, p0: Procs, o0: map<int, Place>, pool: seq<bool>, left: Procs, owner: map<int, Place>, base: int, i: int)
    requires Left(pool0, p0, o0, pool, left, owner, base, i, PAGES)
    ensures Owned(pool, p0 - {i}, owner, base) && |pool| == |pool0|
    ensures forall b :: 0 <= b < |pool| ==> (pool[b] <==> pool0[b] && base + b in o0 && o0[base + b].pid != i)
  {
    hide Fr, Owned;
    TablesOf(pool, left, owner, base, i);
    assert Bare(left[i]);
    LeaveKeeps(pool, left, owner, base, i);
    assert left - {i} == p0 - {i};
    forall b | 0 <= b < |pool| ensures pool[b] <==> pool0[b] && base + b in o0 && o0[base + b].pid != i {
      BitIffOwned(pool, left, owner, base, b);
      BitIffOwned(pool0, p0, o0, base, b);
    }
  }

  lemma BitIffOwned(pool: seq<bool>, procs: Procs, owner: map<int, Place>, base: int, b: int)
    requires Owned(pool, procs, owner, base) && 0 <= b < |pool|
    ensures pool[b] <==> base + b in owner
  {
    hide Fr;
    if base + b in owner { assert OwnOk(pool, procs, owner, base, base + b); }
  }

  /** The bit loops of `vaddr_get` and `vaddr_remove`. */
  method MarkRun(virt: seq<bool>, at: int, n: int, value: bool) returns (r: seq<bool>)
    requires 0 <= at && 0 <= n && at + n <= |virt|
    ensures |r| == |virt| && forall k :: 0 <= k < |virt| ==> r[k] == if at <= k < at + n then value else virt[k]
  {
    r := virt;
    var k := 0;
    while k < n
      invariant 0 <= k <= n && |r| == |virt| && forall j :: 0 <= j < |virt| ==> r[j] == if at <= j < at + k then value else virt[j]
    {
      r := r[at + k := value];
      k := k + 1;
    }
  }

  /** From `p0` to `p1`, exactly pages `q` to `q + n - 1` of process `i` became mapped, if they were not. */
  ghost predicate MappedRange(p0: Procs, p1: Procs, i: int, q: int, n: int) {
    && i in p0 && i in p1 && p1 == p0[i := p1[i]]
    && (forall u :: 0 <= u < PAGES && q <= u < q + n ==> Fr(p1[i], u) != -1)
    && (forall u :: 0 <= u < PAGES && !(q <= u < q + n) ==> Fr(p1[i], u) == Fr(p0[i], u))
  }

  lemma RangeWritable(p0: Procs, p1: Procs, i: int, q: int, n: int)
    requires MappedRange(p0, p1, i, q, n) && AllWritable(p1) && 0 <= q && q + n <= PAGES
    ensures forall u :: q <= u < q + n ==> MayWrite(p1[i], u)
  {
    hide Fr, MayWrite;
  }

  /** Pages that are not released can be written exactly as before. */
  lemma RangeClosed(p1: Procs, p0: Procs, i: int, q: int, n: int)
    requires MappedRange(p1, p0, i, q, n) && AllWritable(p0) && AllWritable(p1) && 0 <= q && q + n <= PAGES
    requires forall u :: q <= u < q + n ==> Fr(p1[i], u) == -1
    ensures forall u :: q <= u < q + n ==> !MayWrite(p1[i], u)
    ensures forall u :: 0 <= u < PAGES && !(q <= u < q + n) ==> MayWrite(p1[i], u) == MayWrite(p0[i], u)
  {
    hide Fr, MayWrite;
  }

  lemma MarkedPending(p: Proc, marked: seq<bool>, q: int, n: int)
    requires VirtOk(p) && FIRST <= q && 0 <= n && q + n <= PAGES && |marked| == |p.virt|
    requires forall k :: q - FIRST <= k < q - FIRST + n ==> !p.virt[k]
    requires forall k :: 0 <= k < |p.virt| ==> marked[k] == if q - FIRST <= k < q - FIRST + n then true else p.virt[k]
    ensures Pending(p.(virt := marked), q, q + n)
  {
    hide Fr;
    var r := p.(virt := marked);
    forall u | 0 <= u < PAGES ensures Fr(r, u) != -1 <==> u >= FIRST && marked[u - FIRST] && !(q <= u < q + n) { SameTables(p, r, u); }
  }

  lemma SameRange(procs: Procs, i: int, virt: seq<bool>, q: int)
    requires i in procs
    ensures MappedRange(procs, procs[i := procs[i].(virt := virt)], i, q, 0)
  {
    hide Fr;
    var r := procs[i].(virt := virt);
    forall u | 0 <= u < PAGES ensures Fr(r, u) == Fr(procs[i], u) { SameTables(procs[i], r, u); }
  }

  lemma VirtAgain(p0: Procs, p1: Procs, i: int, q: int, n: int)
    requires AllVirt(p0) && MappedRange(p0, p1, i, q, n) && VirtOk(p1[i])
    ensures AllVirt(p1)
  {
    hide Fr;
  }

  lemma VirtBack(p0: Procs, p1: Procs, i: int, q: int, n: int)
    requires AllVirt(p0) && MappedRange(p1, p0, i, q, n) && VirtOk(p1[i])
    ensures AllVirt(p1)
  {
    hide Fr;
    forall j | j in p1 ensures VirtOk(p1[j]) { if j != i { assert j in p0 && p0[j] == p1[j]; } }
  }

  lemma PendingSize(p: Proc, lo: int, hi: int)
    requires Pending(p, lo, hi)
    ensures |p.virt| == PAGES - FIRST
  {
  }

  lemma RangeMore(p0: Procs, p1: Procs, i: int, q: int, k: int, f: int)
    requires MappedRange(p0, p1, i, q, k) && 0 <= q && 0 <= k && q + k < PAGES && TablesOk(p1[i]) && f >= 0
    ensures MappedRange(p0, p1[i := Mapped(p1[i], q + k, f)], i, q, k + 1)
  {
    hide Fr, Mapped;
    var r := p1[i := Mapped(p1[i], q + k, f)];
    assert r == p0[i := r[i]];
    forall u | 0 <= u < PAGES ensures Fr(r[i], u) == if u == q + k then f else Fr(p1[i], u) {
      MappedExactly(p1[i], q + k, f, u);
    }
  }

  lemma RangeNone(procs: Procs, i: int, q: int)
    requires i in procs
    ensures MappedRange(procs, procs, i, q, 0)
  {
    assert procs == procs[i := procs[i]];
  }

  lemma StillMapped(p1: Procs, p0: Procs, i: int, q: int, k: int, u: int)
    requires MappedRange(p1, p0, i, q, k) && 0 <= u < PAGES && !(q <= u < q + k)
    ensures Fr(p1[i], u) == Fr(p0[i], u)
  {
    hide Fr;
  }

  lemma RangeLess(p1: Procs, p0: Procs, i: int, q: int, k: int)
    requires MappedRange(p1, p0, i, q, k) && 0 <= q && 0 <= k && q + k < PAGES && TablesOk(p1[i]) && Fr(p1[i], q + k) != -1
    ensures MappedRange(p1[i := Unmapped(p1[i], q + k)], p0, i, q, k + 1)
  {
    hide Fr, Unmapped;
    forall u | 0 <= u < PAGES ensures Fr(Unmapped(p1[i], q + k), u) == if u == q + k then -1 else Fr(p1[i], u) {
      UnmappedExactly(p1[i], q + k, u);
    }
  }

  lemma UnmapPending(p: Proc, lo: int, q: int)
    requires TablesOk(p) && Pending(p, lo, q) && 0 <= lo <= q < PAGES && Fr(p, q) != -1
    ensures Pending(Unmapped(p, q), lo, q + 1) && Unmapped(p, q).virt == p.virt
  {
    hide Fr;
    forall u | 0 <= u < PAGES ensures Fr(Unmapped(p, q), u) == if u == q then -1 else Fr(p, u) { UnmappedExactly(p, q, u); }
  }

  lemma ClearedVirt(p: Proc, cleared: seq<bool>, q: int, n: int)
    requires Pending(p, q, q + n) && FIRST <= q && 0 <= n && q + n <= PAGES && |cleared| == |p.virt| == PAGES - FIRST
    requires forall k :: 0 <= k < |p.virt| ==> cleared[k] == if q - FIRST <= k < q - FIRST + n then false else p.virt[k]
    ensures VirtOk(p.(virt := cleared)) && forall u :: q <= u < q + n ==> Fr(p.(virt := cleared), u) == -1
  {
    hide Fr;
    var r := p.(virt := cleared);
    forall u | 0 <= u < PAGES ensures Fr(r, u) == Fr(p, u) { SameTables(p, r, u); }
  }

  lemma RangeVirt(p1: Procs, p0: Procs, i: int, q: int, n: int, virt: seq<bool>)
    requires MappedRange(p1, p0, i, q, n)
    ensures MappedRange(p1[i := p1[i].(virt := virt)], p0, i, q, n)
  {
    hide Fr;
    var r := p1[i].(virt := virt);
    forall u | 0 <= u < PAGES ensures Fr(r, u) == Fr(p1[i], u) { SameTables(p1[i], r, u); }
  }

  /** Every frame of the pool has its bytes. */
  ghost predicate FramesIn(mem: map<int, seq<int>>, n: int, base: int) { forall f :: base <= f < base + n ==> f in mem }

  /** Page `q` of the child was mapped to a free frame that got the parent's bytes. */
  ghost predicate Forked(pool0: seq<bool>, p0: Procs, o0: map<int, Place>, m0: map<int, seq<int>>,
                         pool: seq<bool>, procs: Procs, owner: map<int, Place>, mem: map<int, seq<int>>, base: int, i: int, c: int, q: int)
  {
    && i in p0 && c in p0 && c in procs && Owned(pool, procs, owner, base) && |pool| == |pool0|
    && var f := Fr(procs[c], q);
    && 0 <= f - base < |pool| && !pool0[f - base] && procs == p0[c := Mapped(p0[c], q, f)] && owner == o0[f := Place(c, q)]
    && Fr(p0[i], q) in m0 && mem == m0[f := m0[Fr(p0[i], q)]]
  }

  /** How many of the first `n` bits are set. */
  ghost function SetIn(v: seq<bool>, n: nat): (k: nat)
    requires n <= |v|
  {
    if n == 0 then 0 else SetIn(v, n - 1) + (if v[n - 1] then 1 else 0)
  }

  lemma SetStep(v: seq<bool>, n: nat)
    requires n < |v|
    ensures SetIn(v, 0) == 0 && SetIn(v, n + 1) == SetIn(v, n) + (if v[n] then 1 else 0) && SetIn(v, n + 1) <= SetIn(v, |v|)
  {
    SetMore(v, n + 1, |v|);
  }

  lemma {:induction false} SetMore(v: seq<bool>, n: nat, m: nat)
    requires n <= m <= |v|
    ensures SetIn(v, n) <= SetIn(v, m)
    decreases m
  {
    if n < m { SetMore(v, n, m - 1); }
  }

  lemma {:induction false} SetNone(v: seq<bool>, n: nat, m: nat)
    requires n + m <= |v| && forall k :: n <= k < n + m ==> !v[k]
    ensures SetIn(v, n + m) == SetIn(v, n)
    decreases m
  {
    if m > 0 { SetNone(v, n, m - 1); }
  }

  datatype Snapshot = Snap(pool: seq<bool>, procs: Procs, owner: map<int, Place>, mem: map<int, seq<int>>)

  predicate ByteSet(virt: seq<bool>, byte: int)
    requires 0 <= byte && 8 * byte + 8 <= |virt|
  {
    exists k :: 8 * byte <= k < 8 * byte + 8 && virt[k]
  }

  /** The pages before `q` have been copied. */
  ghost predicate ForkDone(s0: Snapshot, s: Snapshot, base: int, i: int, c: int, q: int) {
    && i in s0.procs && c !in s0.procs && c in s.procs && s.procs == s0.procs[c := s.procs[c]]
    && VirtOk(s0.procs[i]) && Owned(s0.pool, s0.procs, s0.owner, base) && Owned(s.pool, s.procs, s.owner, base)
    && s.procs[c].virt == s0.procs[i].virt && Pending(s.procs[c], q, PAGES) && |s.pool| == |s0.pool| && FramesIn(s.mem, |s.pool|, base)
    && (forall f :: f in s0.owner ==> f in s.owner && s.owner[f] == s0.owner[f])
    && (forall f :: f in s.owner && f !in s0.owner ==> s.owner[f].pid == c)
    && BytesKept(s0.mem, s.mem, s0.owner)
    && FramesIn(s0.mem, |s0.pool|, base)
    && (forall u :: 0 <= u < q && u < PAGES ==> Copied(s0.mem, s.mem, s0.procs[i], s.procs[c], u))
  }

  /** The bytes of the frames that were owned are as they were. */
  ghost predicate BytesKept(mem0: map<int, seq<int>>, mem: map<int, seq<int>>, owner: map<int, Place>) {
    forall f :: f in owner && f in mem0 ==> f in mem && mem[f] == mem0[f]
  }

  /** Page `u` of the child has a frame of its own with the bytes of the parent's page. */
  ghost predicate Copied(mem0: map<int, seq<int>>, mem: map<int, seq<int>>, parent: Proc, child: Proc, u: int) {
    Fr(parent, u) != -1 ==> Fr(child, u) in mem && Fr(parent, u) in mem0 && mem[Fr(child, u)] == mem0[Fr(parent, u)]
  }

  /** Only page `q` of process `i` has changed, from unmapped to mapped. */
  ghost predicate OnlyMapped(p0: Procs, p1: Procs, i: int, q: int) {
    && i in p0 && i in p1 && p1 == p0[i := p1[i]] && Fr(p1[i], q) != -1
    && forall u :: 0 <= u < PAGES && u != q ==> Fr(p1[i], u) == Fr(p0[i], u)
  }

  lemma MappedSame(p0: Procs, p1: Procs, i: int, q: int, f: int, virt: seq<bool>)
    requires i in p0 && TablesOk(p0[i]) && 0 <= q < PAGES && f >= 0 && p1 == p0[i := Mapped(p0[i], q, f)]
    ensures Mapped(p0[i], q, f).virt == p0[i].virt
    ensures OnlyMapped(p0, p1[i := p1[i].(virt := virt)], i, q)
  {
    hide Fr;
    var p2 := p1[i := p1[i].(virt := virt)];
    forall u | 0 <= u < PAGES ensures Fr(p2[i], u) == if u == q then f else Fr(p0[i], u) {
      MappedExactly(p0[i], q, f, u);
      SameTables(p1[i], p2[i], u);
    }
  }

  lemma TablesOf(pool: seq<bool>, procs: Procs, owner: map<int, Place>, base: int, i: int)
    requires Owned(pool, procs, owner, base) && i in procs
    ensures TablesOk(procs[i]) && base >= 0
  {
  }

  lemma BaseOf(pool: seq<bool>, procs: Procs, owner: map<int, Place>, base: int)
    requires Owned(pool, procs, owner, base)
    ensures base >= 0
  {
  }

  lemma VirtSize(p: Proc)
    requires VirtOk(p)
    ensures |p.virt| == PAGES - FIRST
  {
  }

  // ---------------------------------------------------------------- the steps of fork

  lemma ForkStart(s0: Snapshot, base: int, i: int, c: int)
    requires Owned(s0.pool, s0.procs, s0.owner, base) && i in s0.procs && c !in s0.procs && VirtOk(s0.procs[i]) && FramesIn(s0.mem, |s0.pool|, base)
    ensures ForkDone(s0, s0.(procs := s0.procs[c := Proc(s0.procs[i].virt, map[], map[])]), base, i, c, FIRST)
  {
    var p := Proc(s0.procs[i].virt, map[], map[]);
    assert Bare(p);
    EnterKeeps(s0.pool, s0.procs, s0.owner, base, c, p);
    assert Pending(p, FIRST, PAGES);
    hide Owned;
    var s := s0.(procs := s0.procs[c := p]);
    forall u | 0 <= u < FIRST ensures Copied(s0.mem, s.mem, s0.procs[i], s.procs[c], u) { assert Fr(s0.procs[i], u) == -1; }
  }

  lemma ForkNext(s0: Snapshot, s: Snapshot, base: int, i: int, c: int, q: int)
    requires ForkDone(s0, s, base, i, c, q) && FIRST <= q < PAGES
    ensures i in s.procs && c in s.procs && i != c && |s0.procs[i].virt| == PAGES - FIRST && s.procs[i] == s0.procs[i] && Fr(s.procs[c], q) == -1
    ensures Owned(s.pool, s.procs, s.owner, base) && FramesIn(s.mem, |s.pool|, base)
    ensures s0.procs[i].virt[q - FIRST] <==> Fr(s.procs[i], q) != -1
  {
    hide Owned, Fr;
    PendingFree(s.procs[c], q, PAGES);
  }

  lemma ForkSkipped(s0: Snapshot, s: Snapshot, base: int, i: int, c: int, q: int)
    requires ForkDone(s0, s, base, i, c, q) && FIRST <= q < PAGES && |s0.procs[i].virt| == PAGES - FIRST && !s0.procs[i].virt[q - FIRST]
    ensures ForkDone(s0, s, base, i, c, q + 1)
  {
    hide Owned, Fr;
    SkipPending(s.procs[c], q, PAGES);
  }

  lemma {:induction false} ForkSkips(s0: Snapshot, s: Snapshot, base: int, i: int, c: int, q: int, n: nat)
    requires ForkDone(s0, s, base, i, c, q) && FIRST <= q && q + n <= PAGES && |s0.procs[i].virt| == PAGES - FIRST
    requires forall k :: q - FIRST <= k < q - FIRST + n ==> !s0.procs[i].virt[k]
    ensures ForkDone(s0, s, base, i, c, q + n)
    decreases n
  {
    hide ForkDone;
    if n > 0 {
      ForkSkipped(s0, s, base, i, c, q);
      ForkSkips(s0, s, base, i, c, q + 1, n - 1);
    }
  }

  lemma ForkCopied(s0: Snapshot, s: Snapshot, s1: Snapshot, base: int, i: int, c: int, q: int)
    requires ForkDone(s0, s, base, i, c, q) && FIRST <= q < PAGES && |s0.procs[i].virt| == PAGES - FIRST && s0.procs[i].virt[q - FIRST]
    requires Forked(s.pool, s.procs, s.owner, s.mem, s1.pool, s1.procs, s1.owner, s1.mem, base, i, c, q)
    ensures ForkDone(s0, s1, base, i, c, q + 1)
  {
    hide Owned, Fr, Mapped, Pending;
    var f := Fr(s1.procs[c], q);
    TablesOf(s.pool, s.procs, s.owner, base, c);
    MapPendingHere(s.procs[c], q, f);
    FreeNotOwned(s.pool, s.procs, s.owner, base, f);
    SameVirt(s.procs[c], q, f);
    forall u | 0 <= u < q + 1 ensures Copied(s0.mem, s1.mem, s0.procs[i], s1.procs[c], u) {
      CopiedOn(s0, s, s1, base, i, c, q, u);
    }
  }

  lemma MapPendingHere(p: Proc, q: int, f: int)
    requires TablesOk(p) && Pending(p, q, PAGES) && FIRST <= q < PAGES && |p.virt| == PAGES - FIRST && p.virt[q - FIRST] && f >= 0
    ensures Pending(Mapped(p, q, f), q + 1, PAGES)
  {
    MapPending(p, q, f, PAGES);
  }

  /** A frame whose bit is clear belongs to nobody. */
  lemma FreeNotOwned(pool: seq<bool>, procs: Procs, owner: map<int, Place>, base: int, f: int)
    requires Owned(pool, procs, owner, base) && 0 <= f - base < |pool| && !pool[f - base]
    ensures f !in owner
  {
    hide Fr;
  }

  lemma CopiedOn(s0: Snapshot, s: Snapshot, s1: Snapshot, base: int, i: int, c: int, q: int, u: int)
    requires ForkDone(s0, s, base, i, c, q) && FIRST <= q < PAGES && 0 <= u <= q
    requires Forked(s.pool, s.procs, s.owner, s.mem, s1.pool, s1.procs, s1.owner, s1.mem, base, i, c, q)
    ensures Copied(s0.mem, s1.mem, s0.procs[i], s1.procs[c], u)
  {
    hide Owned, Fr, Mapped, Pending, VirtOk;
    var f := Fr(s1.procs[c], q);
    TablesOf(s.pool, s.procs, s.owner, base, c);
    MappedExactly(s.procs[c], q, f, u);
    if Fr(s0.procs[i], u) != -1 {
      if u == q {
        EntryOwned(s0.pool, s0.procs, s0.owner, base, i, q);
        EntryHasBit(s0.pool, s0.procs, s0.owner, base, i, q);
        assert s.procs[i] == s0.procs[i];
      } else {
        assert Copied(s0.mem, s.mem, s0.procs[i], s.procs[c], u);
        ChildMapped(s0, s, base, i, c, q, u);
        EntryHasBit(s.pool, s.procs, s.owner, base, c, u);
      }
    }
  }

  lemma ChildMapped(s0: Snapshot, s: Snapshot, base: int, i: int, c: int, q: int, u: int)
    requires ForkDone(s0, s, base, i, c, q) && 0 <= u < q < PAGES && Fr(s0.procs[i], u) != -1
    ensures Fr(s.procs[c], u) != -1
  {
    hide Fr, Owned;
  }

  lemma EntryOwned(pool: seq<bool>, procs: Procs, owner: map<int, Place>, base: int, i: int, q: int)
    requires Owned(pool, procs, owner, base) && i in procs && 0 <= q < PAGES && Fr(procs[i], q) != -1
    ensures Fr(procs[i], q) in owner && owner[Fr(procs[i], q)] == Place(i, q)
  {
    hide Fr;
    assert RefOk(procs, owner, i, q);
  }

  lemma ForkEnd(s0: Snapshot, s: Snapshot, base: int, i: int, c: int)
    requires ForkDone(s0, s, base, i, c, PAGES) && AllVirt(s0.procs)
    ensures AllVirt(s.procs) && c in s.procs && s.procs == s0.procs[c := s.procs[c]] && s.procs[c].virt == s.procs[i].virt
    ensures Owned(s.pool, s.procs, s.owner, base) && BytesKept(s0.mem, s.mem, s0.owner) && FramesIn(s.mem, |s.pool|, base)
    ensures forall q :: 0 <= q < PAGES ==> (Fr(s.procs[c], q) != -1 <==> Fr(s.procs[i], q) != -1) && Copied(s0.mem, s.mem, s.procs[i], s.procs[c], q)
    ensures forall q :: 0 <= q < PAGES && Fr(s.procs[c], q) != -1 ==> Fr(s.procs[c], q) !in s0.owner
  {
    hide Fr, Owned;
    PendingDone(s.procs[c], PAGES);
    forall q | 0 <= q < PAGES && Fr(s.procs[c], q) != -1 ensures Fr(s.procs[c], q) !in s0.owner {
      EntryOwned(s.pool, s.procs, s.owner, base, c, q);
      NoPlaceOf(s0.pool, s0.procs, s0.owner, base, c);
    }
  }

  lemma NoPlaceOf(pool: seq<bool>, procs: Procs, owner: map<int, Place>, base: int, c: int)
    requires Owned(pool, procs, owner, base) && c !in procs
    ensures forall f :: f in owner ==> owner[f].pid != c
  {
    hide Fr;
    forall f | f in owner ensures owner[f].pid != c { assert OwnOk(pool, procs, owner, base, f); }
  }

  // ---------------------------------------------------------------- fork with its frames

  /** The pages of the first `n` bits have been copied, with `used` frames for them and `taken` for their tables. */
  ghost predicate Copying(s0: Snapshot, s: Snapshot, base: int, i: int, c: int, n: nat, used: int, taken: int) {
    && i in s0.procs && n <= |s0.procs[i].virt| && ForkDone(s0, s, base, i, c, FIRST + n)
    && used == SetIn(s0.procs[i].virt, n) && HasDirs(s.procs, c, s0.procs[i].virt, n, taken)
  }

  lemma CopyStart(s0: Snapshot, base: int, i: int, c: int)
    requires Owned(s0.pool, s0.procs, s0.owner, base) && i in s0.procs && c !in s0.procs && VirtOk(s0.procs[i]) && FramesIn(s0.mem, |s0.pool|, base)
    ensures Copying(s0, s0.(procs := s0.procs[c := Proc(s0.procs[i].virt, map[], map[])]), base, i, c, 0, 0, 0)
  {
    hide ForkDone, Owned, HasDirs;
    ForkStart(s0, base, i, c);
    VirtSize(s0.procs[i]);
    DirsStart(s0.procs[c := Proc(s0.procs[i].virt, map[], map[])], c, s0.procs[i].virt);
  }

  lemma CopyNext(s0: Snapshot, s: Snapshot, base: int, i: int, c: int, n: nat, used: int, taken: int)
    requires Copying(s0, s, base, i, c, n, used, taken) && n < |s0.procs[i].virt| == PAGES - FIRST && s0.procs[i].virt[n]
    ensures i in s.procs && c in s.procs && i != c && Fr(s.procs[c], FIRST + n) == -1 && Fr(s.procs[i], FIRST + n) != -1
    ensures Owned(s.pool, s.procs, s.owner, base) && FramesIn(s.mem, |s.pool|, base)
    ensures used + 1 <= SetIn(s0.procs[i].virt, |s0.procs[i].virt|)
    ensures taken + Lacks(s.procs[c], {(FIRST + n) / 1024}) <= |SetDirs(s0.procs[i].virt, |s0.procs[i].virt|)|
    ensures Lacks(s.procs[c], {(FIRST + n) / 1024}) == if (FIRST + n) / 1024 in s.procs[c].tables then 0 else 1
  {
    hide ForkDone, Owned, Fr, SetIn, SetDirs, HasDirs, Lacks;
    ForkNext(s0, s, base, i, c, FIRST + n);
    SetStep(s0.procs[i].virt, n);
    DirsMost(s.procs, c, s0.procs[i].virt, n, taken);
    LacksOne(s.procs[c], (FIRST + n) / 1024);
  }

  lemma CopyDone(s0: Snapshot, s: Snapshot, s1: Snapshot, base: int, i: int, c: int, n: nat, used: int, taken: int)
    requires Copying(s0, s, base, i, c, n, used, taken) && n < |s0.procs[i].virt| == PAGES - FIRST && s0.procs[i].virt[n]
    requires Forked(s.pool, s.procs, s.owner, s.mem, s1.pool, s1.procs, s1.owner, s1.mem, base, i, c, FIRST + n)
    requires Gains(s.procs, s1.procs, c, {(FIRST + n) / 1024})
    ensures c in s.procs && Copying(s0, s1, base, i, c, n + 1, used + 1, taken + Lacks(s.procs[c], {(FIRST + n) / 1024}))
  {
    hide ForkDone, Owned, Fr, SetIn, SetDirs, HasDirs, Lacks, Forked, Gains;
    ForkCopied(s0, s, s1, base, i, c, FIRST + n);
    SetStep(s0.procs[i].virt, n);
    DirsNext(s.procs, s1.procs, c, s0.procs[i].virt, n, taken);
    ChildThere(s0, s, base, i, c, FIRST + n);
  }

  lemma ChildThere(s0: Snapshot, s: Snapshot, base: int, i: int, c: int, q: int)
    requires ForkDone(s0, s, base, i, c, q)
    ensures c in s.procs
  {
  }

  lemma CopySkip(s0: Snapshot, s: Snapshot, base: int, i: int, c: int, n: nat, m: nat, used: int, taken: int)
    requires Copying(s0, s, base, i, c, n, used, taken) && n + m <= |s0.procs[i].virt| == PAGES - FIRST
    requires forall k :: n <= k < n + m ==> !s0.procs[i].virt[k]
    ensures Copying(s0, s, base, i, c, n + m, used, taken)
  {
    hide ForkDone, Owned, SetIn, SetDirs, HasDirs;
    ForkSkips(s0, s, base, i, c, FIRST + n, m);
    SetNone(s0.procs[i].virt, n, m);
    DirsSkip(s.procs, c, s0.procs[i].virt, n, m, taken);
  }

  lemma CopyEnd(s0: Snapshot, s: Snapshot, base: int, i: int, c: int, used: int, taken: int)
    requires i in s0.procs && Copying(s0, s, base, i, c, |s0.procs[i].virt|, used, taken) && |s0.procs[i].virt| == PAGES - FIRST
    requires AllVirt(s0.procs)
    ensures used == SetIn(s0.procs[i].virt, |s0.procs[i].virt|)
    ensures c in s.procs && taken == |s.procs[c].tables| == |SetDirs(s0.procs[i].virt, |s0.procs[i].virt|)|
    ensures AllVirt(s.procs) && i in s.procs && s.procs == s0.procs[c := s.procs[c]] && s.procs[c].virt == s.procs[i].virt
    ensures Owned(s.pool, s.procs, s.owner, base) && BytesKept(s0.mem, s.mem, s0.owner) && FramesIn(s.mem, |s.pool|, base)
    ensures forall q :: 0 <= q < PAGES ==> (Fr(s.procs[c], q) != -1 <==> Fr(s.procs[i], q) != -1) && Copied(s0.mem, s.mem, s.procs[i], s.procs[c], q)
    ensures forall q :: 0 <= q < PAGES && Fr(s.procs[c], q) != -1 ==> Fr(s.procs[c], q) !in s0.owner
  {
    hide ForkDone, Owned, Fr, SetIn, SetDirs, HasDirs, Copied;
    ForkEnd(s0, s, base, i, c);
    DirsEnd(s.procs, c, s0.procs[i].virt, taken);
  }
}
