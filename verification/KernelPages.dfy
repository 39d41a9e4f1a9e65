/** Kernel pages: virtual pages of the kernel heap, frames of the kernel pool and the page tables between them. */
module KernelPages {
  import opened Basics
  import opened Bitmaps
  import opened Paging

  const HEAP_START: int := 0xc0100000    // K_HEAP_START
  const LIMIT: int := 0x3fb00            // pages between the heap's start and the window

  function Va(i: int): (v: int) { HEAP_START + i * PAGE }

  /** The frame of heap page `i`, or -1. */
  function Fr(m: Memory, dir: int, i: int): (f: int) {
    var t := Translate(m, dir, Va(i));
    if t.Some? then t.v else -1
  }

  /** The flags of heap page `i` let everybody write to it (`page_table_add` sets the same flags for every page). */
  predicate Gr(m: Memory, dir: int, i: int) { UserMayWrite(m, dir, Va(i)) }

  /** The loader has installed a table of its own for every kernel directory entry. */
  ghost predicate KernelTables(m: Memory, dir: int) {
    && SelfMapped(m, dir) && TablesOk(m, dir) && DirGranted(m, dir)
    && (forall d :: KERNEL_PDI <= d < LAST ==> Present(m[dir][d]))
    && (forall d, e :: KERNEL_PDI <= d < e < LAST ==> Frame(m[dir][d]) != Frame(m[dir][e]))
  }

  lemma HeapAddress(i: int)
    requires 0 <= i < LIMIT
    ensures KERNEL <= Va(i) < WINDOW && KERNEL_PDI <= Pdi(Va(i)) < LAST && Va(i) / PAGE == HEAP_START / PAGE + i
  {
  }

  /** Different heap pages have different table entries. */
  lemma HeapEntries(m: Memory, dir: int, i: int, j: int)
    requires KernelTables(m, dir) && 0 <= i < LIMIT && 0 <= j < LIMIT
    ensures EntryLoc(m, dir, Va(i)).Some? && (EntryLoc(m, dir, Va(i)) == EntryLoc(m, dir, Va(j)) <==> i == j)
  {
    HeapAddress(i);
    HeapAddress(j);
    SamePage(Va(i), Va(j));
  }

  lemma PageAdded(m: Memory, dir: int, i: int, f: int)
    requires KernelTables(m, dir) && 0 <= i < LIMIT && f >= 0
    ensures 0 <= Va(i) < WINDOW && KernelTables(Added(m, dir, Va(i), f, 0), dir)
    ensures forall j :: 0 <= j < LIMIT ==> Fr(Added(m, dir, Va(i), f, 0), dir, j) == if j == i then f else Fr(m, dir, j)
    ensures forall j :: 0 <= j < LIMIT ==> (Gr(Added(m, dir, Va(i), f, 0), dir, j) <==> j == i || Gr(m, dir, j))
  {
    hide Translate, EntryLoc, UserMayWrite;
    HeapAddress(i);
    HeapEntries(m, dir, i, i);
    var r := Added(m, dir, Va(i), f, 0);
    assert Present(Dirent(m, dir, Va(i)));
    AddedHere(m, dir, i, f);
    forall j | 0 <= j < LIMIT
      ensures Fr(r, dir, j) == if j == i then f else Fr(m, dir, j)
      ensures Gr(r, dir, j) <==> j == i || Gr(m, dir, j)
    {
      HeapAddress(j);
      HeapEntries(m, dir, i, j);
      HeapEntries(m, dir, j, i);
      AddedInTable(m, dir, Va(i), f, 0, Va(j));
      AddedGrants(m, dir, Va(i), f, 0, Va(j));
    }
  }

  lemma AddedHere(m: Memory, dir: int, i: int, f: int)
    requires KernelTables(m, dir) && 0 <= i < LIMIT && Va(i) < WINDOW && Present(Dirent(m, dir, Va(i)))
    ensures KernelTables(Added(m, dir, Va(i), f, 0), dir)
  {
    HeapAddress(i);
    var r := Added(m, dir, Va(i), f, 0);
    assert TableAt(m, Frame(At(m, Loc(dir, Pdi(Va(i))))));
    assert r[dir] == m[dir];
    forall k | 0 <= k < 1024 && Present(At(r, Loc(dir, k))) ensures TableAt(r, Frame(At(r, Loc(dir, k)))) {
      assert TableAt(m, Frame(At(m, Loc(dir, k))));
    }
  }

  lemma PageCleared(m: Memory, dir: int, i: int)
    requires KernelTables(m, dir) && 0 <= i < LIMIT && Fr(m, dir, i) >= 0
    ensures 0 <= Va(i) < WINDOW && Translate(m, dir, Va(i)).Some? && KernelTables(Cleared(m, dir, Va(i)), dir)
    ensures forall j :: 0 <= j < LIMIT ==> Fr(Cleared(m, dir, Va(i)), dir, j) == if j == i then -1 else Fr(m, dir, j)
    ensures forall j :: 0 <= j < LIMIT ==> (Gr(Cleared(m, dir, Va(i)), dir, j) <==> j != i && Gr(m, dir, j))
  {
    hide Granted, UserMayWrite;
    HeapAddress(i);
    var r := Cleared(m, dir, Va(i));
    ClearedExactly(m, dir, Va(i), Va(i));
    assert TableAt(m, Frame(At(m, Loc(dir, Pdi(Va(i))))));
    assert r[dir] == m[dir];
    forall j | 0 <= j < LIMIT
      ensures Fr(r, dir, j) == if j == i then -1 else Fr(m, dir, j)
      ensures Gr(r, dir, j) <==> j != i && Gr(m, dir, j)
    {
      ClearedGrants(m, dir, Va(i), Va(j));
      HeapAddress(j);
      HeapEntries(m, dir, i, j);
      HeapEntries(m, dir, j, i);
      ClearedExactly(m, dir, Va(i), Va(j));
    }
  }

  /** The heap's bitmap has exactly the mapped pages; each can be written and has a frame of its own, taken in the pool. */
  ghost predicate PagesOk(m: Memory, dir: int, virt: seq<bool>, pool: seq<bool>, base: int) {
    && |virt| <= LIMIT
    && (forall i :: 0 <= i < |virt| ==> (virt[i] <==> Fr(m, dir, i) != -1))
    && (forall i :: 0 <= i < |virt| && Fr(m, dir, i) != -1 ==> Gr(m, dir, i))
    && (forall i :: 0 <= i < |virt| && Fr(m, dir, i) != -1 ==> 0 <= Fr(m, dir, i) - base < |pool| && pool[Fr(m, dir, i) - base])
    && (forall i, j :: 0 <= i < j < |virt| && Fr(m, dir, i) != -1 ==> Fr(m, dir, i) != Fr(m, dir, j))
  }

  /** Part way through: page `v` to `v + n - 1` are reserved but not mapped. */
  ghost predicate Reserved(m: Memory, dir: int, virt: seq<bool>, pool: seq<bool>, base: int, v: int, n: int) {
    && |virt| <= LIMIT && 0 <= v && 0 <= n && v + n <= |virt|
    && (forall i :: 0 <= i < |virt| ==> (virt[i] <==> Fr(m, dir, i) != -1 || v <= i < v + n))
    && (forall i :: v <= i < v + n ==> Fr(m, dir, i) == -1)
    && (forall i :: 0 <= i < |virt| && Fr(m, dir, i) != -1 ==> Gr(m, dir, i))
    && (forall i :: 0 <= i < |virt| && Fr(m, dir, i) != -1 ==> 0 <= Fr(m, dir, i) - base < |pool| && pool[Fr(m, dir, i) - base])
    && (forall i, j :: 0 <= i < j < |virt| && Fr(m, dir, i) != -1 ==> Fr(m, dir, i) != Fr(m, dir, j))
  }

  lemma MapOne(m: Memory, dir: int, virt: seq<bool>, pool: seq<bool>, base: int, v: int, n: int, f: int)
    requires KernelTables(m, dir) && base >= 0 && Reserved(m, dir, virt, pool, base, v, n) && n > 0
    requires 0 <= f - base < |pool| && !pool[f - base]
    ensures 0 <= Va(v) < WINDOW && SelfMapped(m, dir) && TablesOk(m, dir)
    ensures KernelTables(Added(m, dir, Va(v), f, 0), dir)
    ensures Reserved(Added(m, dir, Va(v), f, 0), dir, virt, pool[f - base := true], base, v + 1, n - 1)
    ensures forall i :: 0 <= i < LIMIT ==> Fr(Added(m, dir, Va(v), f, 0), dir, i) == if i == v then f else Fr(m, dir, i)
  {
    hide Fr, Gr;
    PageAdded(m, dir, v, f);
  }

  lemma UnmapOne(m: Memory, dir: int, virt: seq<bool>, pool: seq<bool>, base: int, v: int, n: int)
    requires KernelTables(m, dir) && base >= 0 && 0 <= v - n && n >= 0 && v < |virt| && Fr(m, dir, v) != -1
    requires Reserved(m, dir, virt, pool, base, v - n, n)
    ensures 0 <= Va(v) < WINDOW && Translate(m, dir, Va(v)).Some? && SelfMapped(m, dir) && TablesOk(m, dir)
    ensures KernelTables(Cleared(m, dir, Va(v)), dir) && 0 <= Fr(m, dir, v) - base < |pool| && pool[Fr(m, dir, v) - base]
    ensures Reserved(Cleared(m, dir, Va(v)), dir, virt, pool[Fr(m, dir, v) - base := false], base, v - n, n + 1)
    ensures forall i :: 0 <= i < LIMIT ==> Fr(Cleared(m, dir, Va(v)), dir, i) == if i == v then -1 else Fr(m, dir, i)
  {
    hide Fr, Gr;
    PageCleared(m, dir, v);
  }

  // ---------------------------------------------------------------- what allocation and release do

  /** Pages `v` on were given the frames `fs`; nothing else changed. */
  ghost predicate Given(m0: Memory, virt0: seq<bool>, pool0: seq<bool>, m: Memory, virt: seq<bool>, pool: seq<bool>,
                        dir: int, base: int, v: int, fs: seq<int>) {
    && 0 <= v && v + |fs| <= |virt0| == |virt| && |pool| == |pool0|
    && (forall i :: 0 <= i < |virt| ==> (virt[i] <==> virt0[i] || v <= i < v + |fs|))
    && (forall i :: v <= i < v + |fs| ==> !virt0[i])
    && Mapped(m0, pool0, m, pool, dir, base, v, fs)
  }

  /** ... in the page tables and in the pool. */
  ghost predicate Mapped(m0: Memory, pool0: seq<bool>, m: Memory, pool: seq<bool>, dir: int, base: int, v: int, fs: seq<int>) {
    && |pool| == |pool0|
    && (forall i :: 0 <= i < LIMIT ==> Fr(m, dir, i) == if v <= i < v + |fs| then fs[i - v] else Fr(m0, dir, i))
    && (forall b :: 0 <= b < |pool| ==> (pool[b] <==> pool0[b] || base + b in fs))
    && (forall f :: f in fs ==> 0 <= f - base < |pool0| && !pool0[f - base])
  }

  lemma MappedMore(m0: Memory, pool0: seq<bool>, m: Memory, pool: seq<bool>, m1: Memory, dir: int, base: int, v: int, fs: seq<int>, f: int)
    requires Mapped(m0, pool0, m, pool, dir, base, v, fs) && 0 <= f - base < |pool| && !pool[f - base]
    requires forall i :: 0 <= i < LIMIT ==> Fr(m1, dir, i) == if i == v + |fs| then f else Fr(m, dir, i)
    ensures Mapped(m0, pool0, m1, pool[f - base := true], dir, base, v, fs + [f])
  {
    hide Fr, Gr;
  }

  ghost function Frames(m: Memory, dir: int, v: int, n: int): (fs: seq<int>)
    requires n >= 0
    ensures |fs| == n
  {
    seq(n, k requires 0 <= k < n => Fr(m, dir, v + k))
  }

  /** Release is allocation backwards: both bitmaps and the present map are what they were. */
  lemma FreedIsRestored(m0: Memory, virt0: seq<bool>, pool0: seq<bool>, m1: Memory, virt1: seq<bool>, pool1: seq<bool>,
                        m2: Memory, virt2: seq<bool>, pool2: seq<bool>, dir: int, base: int, v: int, fs: seq<int>)
    requires PagesOk(m0, dir, virt0, pool0, base) && PagesOk(m2, dir, virt2, pool2, base)
    requires Given(m0, virt0, pool0, m1, virt1, pool1, dir, base, v, fs)
    requires Given(m2, virt2, pool2, m1, virt1, pool1, dir, base, v, fs)
    ensures virt2 == virt0 && pool2 == pool0
    ensures forall i :: 0 <= i < |virt0| ==> Fr(m2, dir, i) == Fr(m0, dir, i)
  {
    hide Fr, Gr;
    forall b | 0 <= b < |pool0| ensures pool2[b] == pool0[b] { }
    forall i | 0 <= i < |virt0| ensures virt2[i] == virt0[i] { }
    forall i | 0 <= i < |virt0| ensures Fr(m2, dir, i) == Fr(m0, dir, i) { }
  }

  lemma GivenFrames(m0: Memory, virt0: seq<bool>, pool0: seq<bool>, m: Memory, virt: seq<bool>, pool: seq<bool>,
                    dir: int, base: int, v: int, fs: seq<int>)
    requires Given(m0, virt0, pool0, m, virt, pool, dir, base, v, fs) && |virt| <= LIMIT
    ensures Frames(m, dir, v, |fs|) == fs
  {
    hide Fr, Gr;
  }

  lemma AllMapped(m: Memory, dir: int, virt: seq<bool>, pool: seq<bool>, base: int, v: int, n: int)
    requires PagesOk(m, dir, virt, pool, base) && 0 <= v && 0 <= n && v + n <= |virt| && forall i :: v <= i < v + n ==> virt[i]
    ensures Reserved(m, dir, virt, pool, base, v, 0) && |virt| <= LIMIT && forall i :: v <= i < v + n ==> Fr(m, dir, i) != -1
  {
    hide Fr, Gr;
  }

  lemma StillThere(m: Memory, pool: seq<bool>, m0: Memory, pool0: seq<bool>, dir: int, base: int, v: int, fs: seq<int>, i: int)
    requires Mapped(m, pool, m0, pool0, dir, base, v, fs) && 0 <= i < LIMIT && !(v <= i < v + |fs|)
    ensures Fr(m, dir, i) == Fr(m0, dir, i)
  {
    hide Fr, Gr;
  }

  lemma MappedLess(m: Memory, pool: seq<bool>, m1: Memory, m0: Memory, pool0: seq<bool>, dir: int, base: int, v: int, fs: seq<int>, f: int)
    requires Mapped(m, pool, m0, pool0, dir, base, v, fs) && 0 <= v && v + |fs| < LIMIT
    requires 0 <= f - base < |pool| && pool[f - base] && Fr(m, dir, v + |fs|) == f
    requires forall i :: 0 <= i < LIMIT ==> Fr(m1, dir, i) == if i == v + |fs| then -1 else Fr(m, dir, i)
    ensures Mapped(m1, pool[f - base := false], m0, pool0, dir, base, v, fs + [f])
  {
    hide Fr, Gr;
  }

  // ---------------------------------------------------------------- after the loader

  const BOOT_DIR: int := 0x100           // PAGE_DIR_TABLE_POS / PG_SIZE

  /** The directory: entries 0 and 768 lead to one table, 769 to 1022 to tables of their own, and the last one to itself. */
  function BootEntry(i: int): (w: int) {
    if i == 0 then Entry(BOOT_DIR + 1) else if KERNEL_PDI <= i < LAST then Entry(BOOT_DIR + 1 + (i - KERNEL_PDI)) else if i == LAST then Entry(BOOT_DIR) else 0
  }

  /** The first table maps the low megabyte; the others are empty. */
  function BootWords(f: int): (s: seq<int>)
    ensures |s| == 1024
  {
    if f == BOOT_DIR then seq(1024, i => BootEntry(i)) else if f == BOOT_DIR + 1 then seq(1024, i => if i < 256 then Entry(i) else 0) else Zeroes()
  }

  function BootMemory(): (m: Memory) { map f | BOOT_DIR <= f < BOOT_DIR + 256 :: BootWords(f) }

  lemma BootAt(f: int, i: int)
    requires BOOT_DIR <= f < BOOT_DIR + 256 && 0 <= i < 1024
    ensures f in BootMemory() && |BootMemory()[f]| == 1024 && BootMemory()[f][i] == BootWords(f)[i] == At(BootMemory(), Loc(f, i))
    ensures f == BOOT_DIR ==> BootMemory()[f][i] == BootEntry(i)
  {
  }

  lemma BootTable(i: int)
    requires 0 <= i < 1024
    ensures Present(BootEntry(i)) <==> i == 0 || i >= KERNEL_PDI
    ensures Present(BootEntry(i)) ==> Granted(BootEntry(i))
    ensures KERNEL_PDI <= i < LAST ==> Frame(BootEntry(i)) == BOOT_DIR + 1 + (i - KERNEL_PDI)
    ensures Present(BootEntry(i)) ==> TableAt(BootMemory(), Frame(BootEntry(i))) && (Frame(BootEntry(i)) == BOOT_DIR <==> i == LAST)
  {
    hide Granted;
    EntryMeans(BOOT_DIR);
    EntryMeans(BOOT_DIR + 1);
    if KERNEL_PDI <= i < LAST { EntryMeans(BOOT_DIR + 1 + (i - KERNEL_PDI)); }
    if Present(BootEntry(i)) { BootAt(Frame(BootEntry(i)), 0); }
  }

  lemma BootTables()
    ensures KernelTables(BootMemory(), BOOT_DIR)
  {
    hide BootMemory, BootEntry, Present, Frame, Granted;
    var m := BootMemory();
    forall i | 0 <= i < 1024 ensures m[BOOT_DIR][i] == BootEntry(i) == At(m, Loc(BOOT_DIR, i)) { BootAt(BOOT_DIR, i); BootTable(i); }
    forall i | 0 <= i < 1024 && Present(At(m, Loc(BOOT_DIR, i))) ensures Granted(At(m, Loc(BOOT_DIR, i))) { BootTable(i); }
    forall i | 0 <= i < 1024 && Present(At(m, Loc(BOOT_DIR, i))) ensures TableAt(m, Frame(At(m, Loc(BOOT_DIR, i)))) { BootTable(i); }
    forall i | 0 <= i < LAST && Present(m[BOOT_DIR][i]) ensures Frame(m[BOOT_DIR][i]) != BOOT_DIR { BootTable(i); }
    forall d | KERNEL_PDI <= d < LAST ensures Present(m[BOOT_DIR][d]) && Frame(m[BOOT_DIR][d]) == BOOT_DIR + 1 + (d - KERNEL_PDI) { BootTable(d); }
    BootTable(LAST);
    BootAt(BOOT_DIR, LAST);
  }

  lemma BootUnmapped(i: int)
    requires 0 <= i < LIMIT
    ensures Fr(BootMemory(), BOOT_DIR, i) == -1
  {
    hide BootMemory, BootEntry;
    var v := Va(i);
    HeapAddress(i);
    var d, t := Pdi(v), Pti(v);
    var f := BOOT_DIR + 1 + (d - KERNEL_PDI);
    BootAt(BOOT_DIR, d);
    BootTable(d);
    assert v / PAGE == 1024 * d + t;
    BootAt(f, t);
    assert BootWords(f)[t] == 0;
  }

  /** Where a scan that succeeds ends. */
  lemma FoundWhere(b: seq<bool>, after: bool, n: int)
    requires n >= 1 && ScanSpec(b, after, n).Found?
    ensures var v := ScanSpec(b, after, n).start;
            if FirstFit(b, n).Start? then FirstFit(b, n) == Start(v) && ClearRun(b, v, n)
            else !after && n >= 2 && v + n == |b| + 1 && ClearRun(b, v, n - 1)
  {
    var v := ScanSpec(b, after, n).start;
    FitFromIsLeast(b, n, 0);
    ScanIsFirstFitExactlyWhen(b, after, n);
    if FirstFit(b, n).NoFit? {
      FitFromIsLeast(b + [after], n, 0);
      RunWithGuard(b, after, n, v);
    }
  }

  class KernelMemory {
    const base: int                      // the first frame of the kernel pool
    const userBase: int                  // the first frame of the user pool
    var mem: Memory
    var dir: int
    var virt: seq<bool>                  // kernel_vaddr.vaddr_bitmap
    var pool: seq<bool>                  // kernel_pool.pool_bitmap

    ghost predicate Valid()
      reads this
    {
      && 0x102 <= base && base + |pool| <= userBase
      && KernelTables(mem, dir) && PagesOk(mem, dir, virt, pool, base)
    }

    /** What the loader and `mem_pool_init` leave in a memory of `all` frames: half of the frames behind the page tables, in
        whole bytes of the bitmaps, and no page of the kernel heap. */
    constructor (all: int)
      requires 0x200 < all
      ensures Valid() && mem == BootMemory() && dir == BOOT_DIR && base == 0x200 && userBase == base + (all - 0x200) % 0x10000 / 2
      ensures |virt| == |pool| == (all - 0x200) % 0x10000 / 2 / 8 * 8
      ensures (forall i :: 0 <= i < |virt| ==> !virt[i]) && (forall i :: 0 <= i < |pool| ==> !pool[i])
    {
      var pages := (all - 0x200) % 0x10000 / 2;
      base, userBase := 0x200, 0x200 + pages;
      mem, dir := BootMemory(), BOOT_DIR;
      virt, pool := seq(pages / 8 * 8, i => false), seq(pages / 8 * 8, i => false);
      new;
      hide Fr, KernelTables, BootMemory;
      BootTables();
      forall i | 0 <= i < |virt| ensures Fr(mem, dir, i) == -1 { BootUnmapped(i); }
    }

    /** `vaddr_get`: the bits of the run that the scan finds are set; `after` is the bit behind the map.  The run is the
        first fit, unless that bit is clear, the map has no run of `n` bits and its last `n - 1` are free: then the run
        ends with the bit behind the map. */
    method VaddrGet(n: int, after: bool) returns (r: Outcome<int>)
      requires n >= 1
      modifies `virt
      ensures match ScanSpec(old(virt), after, n)
              case Halt => r.Panic? && virt == old(virt)
              case Fail => r == Go(-1) && virt == old(virt) && FirstFit(virt, n).NoFit?
              case Found(v) =>
                && r == Go(v) && |virt| == |old(virt)| && forall i :: 0 <= i < |virt| ==> (virt[i] <==> old(virt)[i] || v <= i < v + n)
      ensures r.Go? && r.s != -1 && FirstFit(old(virt), n).Start? ==>
                && ClearRun(old(virt), r.s, n) && FirstFit(old(virt), n) == Start(r.s) && Free(virt) == Free(old(virt)) - n
      ensures r.Go? && r.s != -1 && FirstFit(old(virt), n).NoFit? ==>
                && !after && n >= 2 && r.s + n == |virt| + 1 && ClearRun(old(virt), r.s, n - 1) && Free(virt) == Free(old(virt)) - (n - 1)
    {
      var scan := ScanSpec(virt, after, n);
      if scan.Halt? { return Panic; }
      ScanIsFirstFitExactlyWhen(virt, after, n);
      if scan.Fail? { return Go(-1); }
      FoundWhere(virt, after, n);
      var v := scan.start;
      var k := 0;
      while k < n
        invariant 0 <= k <= n && |virt| == |old(virt)| && Free(virt) == Free(old(virt)) - (if v + k <= |virt| then k else k - 1)
        invariant forall i :: 0 <= i < |virt| ==> (virt[i] <==> old(virt)[i] || v <= i < v + k)
      {
        if v + k < |virt| {
          FreeUpdate(virt, v + k, true);
          virt := virt[v + k := true];
        }
        k := k + 1;
      }
      r := Go(v);
    }

    /** `palloc` on the kernel pool. */
    method Palloc() returns (r: Outcome<int>)
      modifies `pool
      ensures r.Panic? <==> Free(old(pool)) == 0
      ensures r.Go? ==> 0 <= r.s - base < |old(pool)| && FirstFit(old(pool), 1) == Start(r.s - base)
      ensures r.Go? ==> !old(pool)[r.s - base] && pool == old(pool)[r.s - base := true] && Free(pool) == Free(old(pool)) - 1
    {
      FitOne(pool);
      FreeNone(pool);
      match FirstFit(pool, 1)
      case NoFit => r := Panic;
      case Start(b) =>
        FreeUpdate(pool, b, true);
        pool := pool[b := true];
        r := Go(base + b);
    }

    /** `malloc_page` for the kernel: consecutive pages, each with a frame of its own. */
    method MallocPage(n: int) returns (r: Outcome<int>, ghost fs: seq<int>)
      requires Valid()
      modifies `virt, `pool, `mem
      ensures r.Panic? <==> || !(0 < n < 3840) || FirstFit(old(virt), 1).NoFit?
                            || (FirstFit(old(virt), n).Start? && Free(old(pool)) < n)
      ensures r == Go(-1) ==> mem == old(mem) && virt == old(virt) && pool == old(pool)
      ensures r.Go? ==> Valid() && (r.s == -1 <==> FirstFit(old(virt), n).NoFit?)
      ensures r.Go? && r.s != -1 ==>
                && FirstFit(old(virt), n).Start? && FirstFit(old(virt), n).at == r.s && |fs| == n
                && Given(old(mem), old(virt), old(pool), mem, virt, pool, dir, base, r.s, fs)
                && Free(virt) == Free(old(virt)) - n && Free(pool) == Free(old(pool)) - n
    {
      hide KernelTables, Fr, Gr, Free;
      fs := [];
      if !(0 < n < 3840) { return Panic, fs; }
      r := VaddrGet(n, true);
      if r.Panic? || r.s == -1 {
        return;
      }
      var v := r.s;
      var panic;
      panic, fs := MapPages(v, n);
      if panic { r := Panic; }
    }

    /** `mfree_page` for the kernel; its assertions on the frames hold.  What it does is `malloc_page` backwards. */
    method MfreePage(v: int, n: int)
      requires Valid() && 0 <= v && 1 <= n && v + n <= |virt| && forall i :: v <= i < v + n ==> virt[i]
      modifies `virt, `pool, `mem
      ensures Valid()
      ensures Given(mem, virt, pool, old(mem), old(virt), old(pool), dir, base, v, Frames(old(mem), dir, v, n))
      ensures Free(virt) == Free(old(virt)) + n && Free(pool) == Free(old(pool)) + n
    {
      hide KernelTables, Fr, Gr, Free, Mapped;
      UnmapPages(v, n);
      VaddrRemove(v, n);
    }

    /** Pages that are allocated and released again leave no trace. */
    method AllocateAndRelease(n: int) returns (r: Outcome<int>)
      requires Valid()
      modifies `virt, `pool, `mem
      ensures r.Panic? <==> || !(0 < n < 3840) || FirstFit(old(virt), 1).NoFit?
                            || (FirstFit(old(virt), n).Start? && Free(old(pool)) < n)
      ensures r.Go? ==> Valid() && virt == old(virt) && pool == old(pool)
      ensures r.Go? ==> forall i :: 0 <= i < |virt| ==> Fr(mem, dir, i) == Fr(old(mem), dir, i)
    {
      hide KernelTables, Fr, Gr, Free, Mapped, FirstFit;
      ghost var fs;
      r, fs := MallocPage(n);
      if r.Panic? || r.s == -1 { return; }
      ghost var m1, virt1, pool1 := mem, virt, pool;
      GivenFrames(old(mem), old(virt), old(pool), mem, virt, pool, dir, base, r.s, fs);
      MfreePage(r.s, n);
      FreedIsRestored(old(mem), old(virt), old(pool), m1, virt1, pool1, mem, virt, pool, dir, base, r.s, fs);
    }

    /** The loop of `mfree_page`. */
    method UnmapPages(v: int, n: int)
      requires Valid() && 0 <= v && 1 <= n && v + n <= |virt| && forall i :: v <= i < v + n ==> virt[i]
      modifies `pool, `mem
      ensures KernelTables(mem, dir) && Reserved(mem, dir, virt, pool, base, v, n) && |pool| == |old(pool)|
      ensures Mapped(mem, pool, old(mem), old(pool), dir, base, v, Frames(old(mem), dir, v, n))
      ensures Free(pool) == Free(old(pool)) + n
    {
      hide KernelTables, Fr, Gr, Mapped, Free, PagesOk, Reserved;
      MappedNone(mem, pool, dir, base, v);
      AllMapped(mem, dir, virt, pool, base, v, n);
      ghost var fs := Frames(mem, dir, v, n);
      var k := 0;
      while k < n
        invariant 0 <= k <= n && KernelTables(mem, dir) && Reserved(mem, dir, virt, pool, base, v, k) && |pool| == |old(pool)|
        invariant Mapped(mem, pool, old(mem), old(pool), dir, base, v, fs[..k]) && Free(pool) == Free(old(pool)) + k
      {
        ghost var pool0, mem0 := pool, mem;
        StillThere(mem, pool, old(mem), old(pool), dir, base, v, fs[..k], v + k);
        UnmapOne(mem, dir, virt, pool, base, v + k, k);
        var f := Fr(mem, dir, v + k);
        assert f >= 0x102 && base <= f < userBase;
        FreeUpdate(pool, f - base, false);
        pool := pool[f - base := false];
        mem := Cleared(mem, dir, Va(v + k));
        MappedLess(mem0, pool0, mem, old(mem), old(pool), dir, base, v, fs[..k], f);
        assert fs[..k] + [f] == fs[..k + 1];
        k := k + 1;
      }
      assert fs[..k] == fs;
    }

    /** `vaddr_remove` */
    method VaddrRemove(v: int, n: int)
      requires 0 <= v && 0 <= n && v + n <= |virt|
      modifies `virt
      ensures |virt| == |old(virt)| && forall i :: 0 <= i < |virt| ==> (virt[i] <==> old(virt)[i] && !(v <= i < v + n))
      ensures (forall i :: v <= i < v + n ==> old(virt)[i]) ==> Free(virt) == Free(old(virt)) + n
    {
      var k := 0;
      while k < n
        invariant 0 <= k <= n && |virt| == |old(virt)|
        invariant forall i :: 0 <= i < |virt| ==> (virt[i] <==> old(virt)[i] && !(v <= i < v + k))
        invariant (forall i :: v <= i < v + n ==> old(virt)[i]) ==> Free(virt) == Free(old(virt)) + k
      {
        FreeUpdate(virt, v + k, false);
        virt := virt[v + k := false];
        k := k + 1;
      }
    }

    /** The loop of `malloc_page`. */
    method MapPages(v: int, n: int) returns (panic: bool, ghost fs: seq<int>)
      requires base >= 0 && n >= 0 && KernelTables(mem, dir) && Reserved(mem, dir, virt, pool, base, v, n)
      modifies `pool, `mem
      ensures panic <==> Free(old(pool)) < n
      ensures !panic ==> |fs| == n && KernelTables(mem, dir) && Reserved(mem, dir, virt, pool, base, v + n, 0)
                         && Mapped(old(mem), old(pool), mem, pool, dir, base, v, fs) && Free(pool) == Free(old(pool)) - n
    {
      hide KernelTables, Fr, Gr, Free, Reserved, Mapped;
      panic, fs := false, [];
      var k := 0;
      MappedNone(mem, pool, dir, base, v);
      while k < n
        invariant 0 <= k <= n && |fs| == k && Free(pool) == Free(old(pool)) - k
        invariant KernelTables(mem, dir) && Reserved(mem, dir, virt, pool, base, v + k, n - k)
        invariant Mapped(old(mem), old(pool), mem, pool, dir, base, v, fs)
      {
        ghost var pool0, mem0 := pool, mem;
        var f := Palloc();
        if f.Panic? { return true, fs; }
        MapOne(mem, dir, virt, pool0, base, v + k, n - k, f.s);
        mem := Added(mem, dir, Va(v + k), f.s, 0);
        MappedMore(old(mem), old(pool), mem0, pool0, mem, dir, base, v, fs, f.s);
        fs := fs + [f.s];
        k := k + 1;
      }
    }
  }

  lemma MappedNone(m: Memory, pool: seq<bool>, dir: int, base: int, v: int)
    ensures Mapped(m, pool, m, pool, dir, base, v, [])
  {
  }
}
