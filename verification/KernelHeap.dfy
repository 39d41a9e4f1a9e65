/** The kernel heap as an object: `sys_malloc` and `sys_free` keep its books and its pages in step. */
module KernelHeap {
  import opened Basics
  import opened Lists
  import opened Bitmaps
  import opened Paging
  import opened KernelPages
  import opened HeapBlocks
  import opened Heap
  import opened HeapPages

  /** A page outside every arena holds nothing of the heap. */
  lemma PagesUnused(h: Book, where: map<int, int>, v: int)
    requires LivesOk(h) && PlacesOk(h.arenas, where) && v !in where
    ensures Unused(h, v)
  {
    forall a | a in h.live ensures PageOf(a) != v { assert LiveAt(h, a); }
  }

  lemma InWhere(where: map<int, int>, m: Memory, virt: seq<bool>, m0: Memory, virt0: seq<bool>, dir: int)
    requires MorePages(where, m, virt, m0, virt0, dir)
    ensures |virt| <= LIMIT && forall i :: i in where ==> 0 <= i < |virt| && virt[i]
  {
  }

  /** Both bitmaps lost `n` clear bits. */
  ghost predicate Took(virt0: seq<bool>, pool0: seq<bool>, virt: seq<bool>, pool: seq<bool>, n: int) {
    Free(virt) == Free(virt0) - n && Free(pool) == Free(pool0) - n
  }

  /** The pages that a request takes at most. */
  function PagesFor(size: int): (n: int) { if size <= 0 then 0 else if size > 1024 then LargePages(size) else 1 }

  /** Which block a request gets: pages of its own where they first fit; otherwise the block of its class that has been free
      longest, or, when none is free, the first of a new page, whose others are free in their order. */
  ghost predicate HandedOut(free0: seq<seq<int>>, free: seq<seq<int>>, virt0: seq<bool>, a: int, size: int) {
    if size > 1024 then
      free == free0 && FirstFit(virt0, LargePages(size)).Start? && a == Va(FirstFit(virt0, LargePages(size)).at) + HEADER
    else
      var k := ClassOf(size);
      && 0 <= k < |free0|
      && if free0[k] != [] then a == free0[k][0] && free == free0[k := free0[k][1..]]
         else && FirstFit(virt0, 1).Start?
              && var v := FirstFit(virt0, 1).at;
                 Blocks(v, k) != [] && a == Blocks(v, k)[0] == BlockAt(v, 0, k) && free == free0[k := Blocks(v, k)[1..]]
  }

  /** ... and how many pages that takes. */
  ghost function PagesTaken(free0: seq<seq<int>>, size: int): (n: int) {
    if size > 1024 then LargePages(size) else if 0 <= ClassOf(size) < |free0| && free0[ClassOf(size)] == [] then 1 else 0
  }

  /** What a release does to the arenas and the free lists: a large arena goes; a small block goes to the end of the list of
      its class, unless with it all blocks of its page are free: then they all leave the list and the page goes. */
  ghost predicate GivenBack(arenas0: map<int, Arena>, free0: seq<seq<int>>, arenas: map<int, Arena>, free: seq<seq<int>>, a: int) {
    var p := PageOf(a);
    p in arenas0 &&
    match arenas0[p]
    case Large(_) => arenas == arenas0 - {p} && free == free0
    case Small(k, cnt) =>
      && 0 <= k < |free0|
      && if cnt + 1 == Per(k) then arenas == arenas0 - {p} && free == free0[k := Outside(free0[k] + [a], p)]
         else arenas == arenas0[p := Small(k, cnt + 1)] && free == free0[k := free0[k] + [a]]
  }

  /** ... and how many pages that gives. */
  ghost function PagesGiven(x: Arena): (n: int) {
    match x
    case Large(pages) => pages
    case Small(k, cnt) => if cnt + 1 == Per(k) then 1 else 0
  }

  lemma EmptyHeap()
    ensures var h := Book(map[], [[], [], [], [], [], [], []], map[]); BookOk(h) && Busy(h) && PlacesOk(h.arenas, map[])
  {
  }

  class Allocator {
    const pages: KernelMemory
    const poolBytes: int                 // kernel_pool.pool_size
    var arenas: map<int, Arena>
    var free: seq<seq<int>>
    ghost var live: map<int, int>
    ghost var where: map<int, int>
    ghost const mem0: Memory             // pages and frames when the heap was empty
    ghost const virt0: seq<bool>
    ghost const pool0: seq<bool>

    ghost function Books(): (h: Book)
      reads this
    {
      Book(arenas, free, live)
    }

    ghost predicate PagesValid()
      reads this, pages
    {
      && pages.Valid() && PagesOk(mem0, pages.dir, virt0, pool0, pages.base)
      && PlacesOk(arenas, where)
      && MorePages(where, pages.mem, pages.virt, mem0, virt0, pages.dir)
      && MoreFrames(where, pages.mem, pages.pool, pool0, pages.dir, pages.base)
    }

    ghost predicate Valid()
      reads this, pages
    {
      PagesValid() && BookOk(Books()) && Busy(Books())
    }

    /** `block_desc_init` on a kernel that has just set up its pages. */
    constructor (p: KernelMemory, bytes: int)
      requires p.Valid()
      ensures Valid() && pages == p && poolBytes == bytes && live == map[]
      ensures virt0 == p.virt && pool0 == p.pool && mem0 == p.mem
    {
      hide PagesOk, KernelTables, Fr, Gr, BookOk, Busy, PlacesOk, MorePages, MoreFrames;
      pages := p;
      poolBytes := bytes;
      arenas := map[];
      free := [[], [], [], [], [], [], []];
      live := map[];
      where := map[];
      mem0 := p.mem;
      virt0 := p.virt;
      pool0 := p.pool;
      EmptyHeap();
      NoneHeld(p.mem, p.virt, p.pool, p.dir, p.base);
    }

    /** Pages for a new arena: `malloc_page`; -1 when there is no run of free pages. */
    method TakePages(n: int, ghost a: Arena) returns (r: Outcome<int>)
      requires PagesValid() && LivesOk(Books()) && Span(a) == n
      modifies pages`virt, pages`pool, pages`mem, `where
      ensures r.Panic? <==> || !(0 < n < 3840) || FirstFit(old(pages.virt), 1).NoFit?
                            || (FirstFit(old(pages.virt), n).Start? && Free(old(pages.pool)) < n)
      ensures r.Go? ==> (r.s == -1 <==> FirstFit(old(pages.virt), n).NoFit?)
      ensures r == Go(-1) ==> PagesValid() && where == old(where)
      ensures r.Go? ==> Took(old(pages.virt), old(pages.pool), pages.virt, pages.pool, if r.s == -1 then 0 else n)
      ensures r.Go? && r.s != -1 ==>
                && 0 <= r.s && Unused(Books(), r.s) && FirstFit(old(pages.virt), n) == Start(r.s)
                && pages.Valid() && PlacesOk(arenas[r.s := a], where)
                && MorePages(where, pages.mem, pages.virt, mem0, virt0, pages.dir)
                && MoreFrames(where, pages.mem, pages.pool, pool0, pages.dir, pages.base)
    {
      hide KernelTables, PagesOk, Fr, Given, FirstFit, Free, MorePages, MoreFrames, PlacesOk, LivesOk, Unused, Widen;
      ghost var m, virt, pool := pages.mem, pages.virt, pages.pool;
      InWhere(where, m, virt, mem0, virt0, pages.dir);
      ghost var fs;
      r, fs := pages.MallocPage(n);
      if r.Panic? || r.s == -1 { return; }
      var v := r.s;
      NewPages(Books(), where, m, virt, pool, pages.mem, pages.virt, pages.pool, pages.dir, pages.base, v, fs);
      WidenPlaces(arenas, where, v, a);
      WidenPages(where, m, virt, pool, mem0, virt0, pages.dir, pages.base, pages.mem, pages.virt, pages.pool, v, fs);
      WidenFrames(where, m, virt, pool, pool0, pages.dir, pages.base, pages.mem, pages.virt, pages.pool, v, fs);
      where := Widen(where, v, n);
    }

    /** The pages of arena `p` go back: `mfree_page`. */
    method ReturnPages(p: int, n: int)
      requires PagesValid() && p in arenas && n == Span(arenas[p])
      modifies pages`virt, pages`pool, pages`mem, `where
      ensures pages.Valid() && PlacesOk(arenas - {p}, where)
      ensures MorePages(where, pages.mem, pages.virt, mem0, virt0, pages.dir)
      ensures MoreFrames(where, pages.mem, pages.pool, pool0, pages.dir, pages.base)
      ensures Took(old(pages.virt), old(pages.pool), pages.virt, pages.pool, -n)
    {
      hide KernelTables, PagesOk, Fr, Given, MorePages, MoreFrames, Narrow, Frames, Free;
      ghost var m, virt, pool := pages.mem, pages.virt, pages.pool;
      InWhere(where, m, virt, mem0, virt0, pages.dir);
      assert p in where && p + n - 1 in where;
      pages.MfreePage(p, n);
      ghost var fs := Frames(m, pages.dir, p, n);
      NarrowPlaces(arenas, where, p);
      NarrowPages(where, m, virt, pool, mem0, virt0, pool0, pages.dir, pages.base, pages.mem, pages.virt, pages.pool, p, fs);
      NarrowFrames(where, m, virt, pool, pool0, pages.dir, pages.base, pages.mem, pages.virt, pages.pool, p, fs);
      where := Narrow(where, p, n);
    }

    /** A request above 1024 bytes gets pages of its own. */
    method MallocLarge(size: int) returns (r: Outcome<int>)
      requires Valid() && size > 1024
      modifies this, pages`virt, pages`pool, pages`mem
      ensures r.Panic? <==> || LargePages(size) >= 3840 || FirstFit(old(pages.virt), 1).NoFit?
                            || (FirstFit(old(pages.virt), LargePages(size)).Start? && Free(old(pages.pool)) < LargePages(size))
      ensures r.Go? ==> Valid() && (r.s == 0 <==> FirstFit(old(pages.virt), LargePages(size)).NoFit?)
      ensures r.Go? ==> live == if r.s == 0 then old(live) else old(live)[r.s := size]
      ensures r.Go? && r.s != 0 ==> r.s !in old(live) && HandedOut(old(free), free, old(pages.virt), r.s, size)
      ensures r.Go? ==> Took(old(pages.virt), old(pages.pool), pages.virt, pages.pool, if r.s == 0 then 0 else LargePages(size))
    {
      hide BookOk, Busy, FirstFit, Free, PlacesOk, MorePages, MoreFrames, PagesOk, KernelTables, LargePages;
      LargeFits(size);
      BookParts(Books());
      ghost var h := Books();
      var n := LargePages(size);
      r := TakePages(n, Large(n));
      if r.Panic? { return; }
      if r.s == -1 { return Go(0); }
      var v := r.s;
      PlaceKeeps(h, v, n, size);
      PlaceBusy(h, v, n, size);
      NotLive(h, v);
      arenas := arenas[v := Large(n)];
      live := live[Va(v) + HEADER := size];
      r := Go(Va(v) + HEADER);
    }

    /** A new arena of class `k`: its blocks are appended to the empty free list one by one. */
    method NewArena(k: int) returns (panic: bool)
      requires Valid() && 0 <= k < CLASSES && free[k] == []
      modifies this, pages`virt, pages`pool, pages`mem
      ensures panic <==> FirstFit(old(pages.virt), 1).NoFit? || Free(old(pages.pool)) < 1
      ensures !panic ==> PagesValid() && BookOk(Books()) && live == old(live) && free[k] != []
      ensures !panic ==> FirstFit(old(pages.virt), 1).Start? && |old(free)| == CLASSES
      ensures !panic ==> var v := FirstFit(old(pages.virt), 1).at; Unused(old(Books()), v) && Books() == Opened(old(Books()), v, k)
      ensures !panic ==> Took(old(pages.virt), old(pages.pool), pages.virt, pages.pool, 1)
    {
      hide BookOk, Busy, Free, PlacesOk, MorePages, MoreFrames, PagesOk, KernelTables, Unused;
      panic := false;
      BookParts(Books());
      ghost var h := Books();
      var r := TakePages(1, Small(k, Per(k)));
      if r.Panic? { return true; }
      var v := r.s;
      OpenKeeps(h, v, k);
      var j := 0;
      PerFits(k);
      while j < Per(k)
        invariant 0 <= j <= Per(k) && |free| == CLASSES && free == h.free[k := free[k]]
        invariant free[k] == seq(j, i => BlockAt(v, i, k))
        invariant arenas == h.arenas && live == h.live
        invariant pages.Valid() && PlacesOk(arenas[v := Small(k, Per(k))], where)
        invariant MorePages(where, pages.mem, pages.virt, mem0, virt0, pages.dir)
        invariant MoreFrames(where, pages.mem, pages.pool, pool0, pages.dir, pages.base)
        invariant PagesOk(mem0, pages.dir, virt0, pool0, pages.base)
        invariant Took(old(pages.virt), old(pages.pool), pages.virt, pages.pool, 1)
      {
        free := free[k := free[k] + [BlockAt(v, j, k)]];
        j := j + 1;
      }
      arenas := arenas[v := Small(k, Per(k))];
      assert Books() == Opened(h, v, k);
    }

    /** The first block of a free list is handed out. */
    method PopBlock(k: int, size: int) returns (a: int)
      requires PagesValid() && BookOk(Books()) && 0 <= k < CLASSES && free[k] != [] && 0 < size <= Size(k)
      requires BusyBut(Books(), PageOf(free[k][0]))
      modifies `arenas, `free, `live
      ensures Valid() && a !in old(live) && live == old(live)[a := size] && a > 0
      ensures 0 <= k < |old(free)| && a == old(free)[k][0] && free == old(free)[k := old(free)[k][1..]]
    {
      hide BookOk, PlacesOk, MorePages, MoreFrames, PagesOk, KernelTables;
      BookParts(Books());
      HeadOk(Books(), k);
      PopKeeps(Books(), k, size);
      PopBusy(Books(), k, size);
      PopPlaces(Books(), where, k);
      BlockPositive(Books(), where, pages.mem, pages.virt, mem0, virt0, pages.dir, free[k][0]);
      a := free[k][0];
      var p := PageOf(a);
      free := free[k := free[k][1..]];
      arenas := arenas[p := arenas[p].(cnt := arenas[p].cnt - 1)];
      live := live[a := size];
    }

    /** `sys_malloc` for a kernel thread: NULL (0), or a block that was not handed out and is large enough. */
    method SysMalloc(size: int) returns (r: Outcome<int>)
      requires Valid()
      modifies this, pages`virt, pages`pool, pages`mem
      ensures r.Panic? <==> 0 < size < poolBytes
                            && if size > 1024
                               then || LargePages(size) >= 3840 || FirstFit(old(pages.virt), 1).NoFit?
                                    || (FirstFit(old(pages.virt), LargePages(size)).Start? && Free(old(pages.pool)) < LargePages(size))
                               else old(free)[ClassOf(size)] == [] && (FirstFit(old(pages.virt), 1).NoFit? || Free(old(pages.pool)) < 1)
      ensures r.Go? ==> Valid() && live == if r.s == 0 then old(live) else old(live)[r.s := size]
      ensures r.Go? && r.s != 0 ==> r.s !in old(live) && HandedOut(old(free), free, old(pages.virt), r.s, size)
      ensures r.Go? && r.s != 0 ==> Took(old(pages.virt), old(pages.pool), pages.virt, pages.pool, PagesTaken(old(free), size))
      ensures r.Go? ==> exists n :: 0 <= n <= PagesFor(size) && Took(old(pages.virt), old(pages.pool), pages.virt, pages.pool, n)
      ensures r == Go(0) <==> !(0 < size < poolBytes) || (size > 1024 && !r.Panic? && FirstFit(old(pages.virt), LargePages(size)).NoFit?)
    {
      hide BookOk, Busy, PagesValid, FirstFit, Free, LargePages;
      assert Took(pages.virt, pages.pool, pages.virt, pages.pool, 0);
      LargeFits(if size > 0 then size else 1);
      if !(0 < size < poolBytes) { return Go(0); }
      if size > 1024 {
        r := MallocLarge(size);
        return;
      }
      BookParts(Books());
      var k := PickClass(size);
      if free[k] == [] {
        ghost var h := Books();
        var panic := NewArena(k);
        if panic { return Panic; }
        ghost var v := FirstFit(old(pages.virt), 1).at;
        OpenedBusy(h, v, k);
      } else {
        BusyAll(Books(), PageOf(free[k][0]));
      }
      var a := PopBlock(k, size);
      r := Go(a);
    }

    /** `sys_free` of a block that was handed out: a large arena's pages go back; a small block goes to the end of its
        free list, and with the last one the arena's page goes back. */
    method SysFree(a: int)
      requires Valid() && a in live
      modifies this, pages`virt, pages`pool, pages`mem
      ensures Valid() && live == old(live) - {a} && GivenBack(old(arenas), old(free), arenas, free, a)
      ensures exists n :: n <= 0 && Took(old(pages.virt), old(pages.pool), pages.virt, pages.pool, n)
      ensures PageOf(a) in old(arenas) && Took(old(pages.virt), old(pages.pool), pages.virt, pages.pool, -PagesGiven(old(arenas)[PageOf(a)]))
    {
      hide BookOk, Busy, PlacesOk, MorePages, MoreFrames, PagesOk, KernelTables, Took;
      BookParts(Books());
      LiveArena(Books(), a);
      var p := PageOf(a);
      if arenas[p].Large? {
        LargeBlock(Books(), a);
        LiftKeeps(Books(), p);
        LiftBusy(Books(), p);
        ReturnPages(p, arenas[p].cnt);
        arenas := arenas - {p};
        live := live - {a};
      } else {
        FreeSmall(a);
      }
    }

    method FreeSmall(a: int)
      requires Valid() && a in live && SmallLive(Books(), a)
      modifies this, pages`virt, pages`pool, pages`mem
      ensures Valid() && live == old(live) - {a} && GivenBack(old(arenas), old(free), arenas, free, a)
      ensures PageOf(a) in old(arenas) && Took(old(pages.virt), old(pages.pool), pages.virt, pages.pool, -PagesGiven(old(arenas)[PageOf(a)]))
    {
      hide BookOk, Busy, PlacesOk, MorePages, MoreFrames, PagesOk, KernelTables, Free, Outside, Per, LivesOk, Fr, Gr;
      assert Took(pages.virt, pages.pool, pages.virt, pages.pool, 0);
      ghost var h := Books();
      BookParts(h);
      PushKeeps(h, a);
      PushBusy(h, a);
      var p := PageOf(a);
      var k := arenas[p].k;
      SamePlaces(arenas, where, p, arenas[p].(cnt := arenas[p].cnt + 1));
      free := free[k := free[k] + [a]];
      arenas := arenas[p := arenas[p].(cnt := arenas[p].cnt + 1)];
      live := live - {a};
      assert Books() == Pushed(h, a);
      if arenas[p].cnt == Per(k) {
        CloseArena(p, k);
      } else {
        FullBusy(Books(), p);
      }
    }

    /** All blocks of an arena are free: they leave the free list and its page goes back. */
    method CloseArena(p: int, k: int)
      requires PagesValid() && BookOk(Books()) && BusyBut(Books(), p)
      requires p in arenas && arenas[p] == Small(k, Per(k))
      modifies this, pages`virt, pages`pool, pages`mem
      ensures Valid() && live == old(live) && Took(old(pages.virt), old(pages.pool), pages.virt, pages.pool, -1)
      ensures 0 <= k < |old(free)| && arenas == old(arenas) - {p} && free == old(free)[k := Outside(old(free)[k], p)]
    {
      hide BookOk, PlacesOk, MorePages, MoreFrames, PagesOk, KernelTables, Took;
      ghost var h := Books();
      BookParts(h);
      AllFree(h, p);
      CloseKeeps(h, p);
      ListOfPage(h, p, k);
      var list := RemoveBlocks(free[k], p, k);
      free := free[k := list];
      ReturnPages(p, 1);
      arenas := arenas - {p};
      assert Books() == Closed(h, p);
    }
  }

  lemma LiveArena(h: Book, a: int)
    requires BookOk(h) && a in h.live
    ensures PageOf(a) in h.arenas && |h.free| == CLASSES && (h.arenas[PageOf(a)].Small? ==> 0 <= h.arenas[PageOf(a)].k < CLASSES)
  {
    assert LiveAt(h, a);
  }

  lemma LargeBlock(h: Book, a: int)
    requires BookOk(h) && a in h.live && PageOf(a) in h.arenas && h.arenas[PageOf(a)].Large?
    ensures a == Va(PageOf(a)) + HEADER
  {
    assert LiveAt(h, a);
  }

  lemma LiftBusy(h: Book, p: int)
    requires Busy(h)
    ensures Busy(Lifted(h, p))
  {
  }

  lemma PushBusy(h: Book, a: int)
    requires Busy(h) && SmallLive(h, a)
    ensures BusyBut(Pushed(h, a), PageOf(a))
  {
  }

  lemma FullBusy(h: Book, p: int)
    requires BookOk(h) && BusyBut(h, p) && p in h.arenas && h.arenas[p].Small? && h.arenas[p].cnt != Per(h.arenas[p].k)
    ensures Busy(h)
  {
    hide CountIn, LiveIn;
    assert ArenaAt(h, p);
  }

  lemma ListOfPage(h: Book, p: int, k: int)
    requires FreesOk(h) && 0 <= k < CLASSES
    ensures Distinct(h.free[k]) && forall a :: a in h.free[k] && PageOf(a) == p ==> IsBlock(a, p, k)
  {
    forall a | a in h.free[k] && PageOf(a) == p ensures IsBlock(a, p, k) { assert FreeAt(h, k, a); }
  }

  // ---------------------------------------------------------------- whole runs

  /** Every arena has a block handed out that lies in its own pages. */
  lemma ArenaHasLive(h: Book, p: int)
    requires BookOk(h) && Busy(h) && p in h.arenas
    ensures exists a :: a in h.live && PageOf(a) == p
  {
    assert ArenaAt(h, p);
    if h.arenas[p].Small? {
      assert LiveIn(h.live, p) != {};
      var a :| a in LiveIn(h.live, p);
      assert a in h.live;
    } else {
      LargePage(p);
    }
  }

  /** Without blocks handed out there are no arenas. */
  lemma NoArenas(h: Book)
    requires BookOk(h) && Busy(h) && h.live == map[]
    ensures h.arenas == map[]
  {
    forall p | p in h.arenas ensures false { ArenaHasLive(h, p); }
  }

  /** No leak: whenever every block has been freed, both page bitmaps and the present map are as they were at first. */
  lemma NoLeak(heap: Allocator)
    requires heap.Valid() && heap.live == map[]
    ensures heap.pages.virt == heap.virt0 && heap.pages.pool == heap.pool0 && heap.arenas == map[]
    ensures forall i :: 0 <= i < |heap.virt0| ==> Fr(heap.pages.mem, heap.pages.dir, i) == Fr(heap.mem0, heap.pages.dir, i)
  {
    hide Fr, PagesOk, KernelTables, BookOk, Busy, MorePages, MoreFrames;
    NoArenas(heap.Books());
    assert forall i :: i !in heap.where;
    assert heap.where == map[];
    NothingLeft(heap.pages.mem, heap.pages.virt, heap.pages.pool, heap.mem0, heap.virt0, heap.pool0, heap.pages.dir, heap.pages.base);
  }

  /** Blocks handed out never overlap, whatever arenas they are in. */
  lemma NoOverlap(heap: Allocator, a: int, b: int)
    requires heap.Valid() && a in heap.live && b in heap.live && a != b
    ensures a + heap.live[a] <= b || b + heap.live[b] <= a
  {
    hide PagesOk, KernelTables, Busy, MorePages, MoreFrames;
    if PageOf(a) == PageOf(b) {
      LiveBlocksDisjoint(heap.Books(), a, b);
    } else if PageOf(a) < PageOf(b) {
      PagesApart(heap.Books(), heap.where, a, b);
    } else {
      PagesApart(heap.Books(), heap.where, b, a);
    }
  }

  lemma PagesApart(h: Book, where: map<int, int>, a: int, b: int)
    requires BookOk(h) && PlacesOk(h.arenas, where) && a in h.live && b in h.live && PageOf(a) < PageOf(b)
    ensures a + h.live[a] <= b
  {
    hide BookOk, PlacesOk, Va, PageOf, FreesOk, LivesOk, ArenasOk, Span;
    var p, q := PageOf(a), PageOf(b);
    BookParts(h);
    LiveArena(h, a);
    LiveArena(h, b);
    SpansApart(h.arenas, where, p, q);
    LiveEnds(h, a);
    InPage(b);
    PageOrder(p + Span(h.arenas[p]), q);
  }

  lemma SpansApart(arenas: map<int, Arena>, where: map<int, int>, p: int, q: int)
    requires PlacesOk(arenas, where) && p in arenas && q in arenas && p < q
    ensures p + Span(arenas[p]) <= q
  {
    assert q in where && where[q] == q;
  }

  /** A live block ends within its arena. */
  lemma LiveEnds(h: Book, a: int)
    requires LivesOk(h) && a in h.live && PageOf(a) in h.arenas
    ensures a + h.live[a] <= Va(PageOf(a) + Span(h.arenas[PageOf(a)]))
  {
    assert LiveAt(h, a);
    if h.arenas[PageOf(a)].Small? { BlockPage(a, PageOf(a), h.arenas[PageOf(a)].k); }
  }

  lemma PageOrder(i: int, j: int)
    requires i <= j
    ensures Va(i) <= Va(j)
  {
  }

  lemma InPage(b: int)
    ensures Va(PageOf(b)) <= b < Va(PageOf(b)) + PAGE
  {
  }

  datatype Op = Ask(size: int) | Give(index: nat)

  function Demand(ops: seq<Op>): (n: int) {
    if ops == [] then 0 else (if ops[0].Ask? then PagesFor(ops[0].size) else 0) + Demand(ops[1..])
  }

  /** A request of 3840 pages or more fails an assertion. */
  predicate Huge(op: Op) { op.Ask? && PagesFor(op.size) >= 3840 }

  /** Any run of requests and releases, after which everything still held is released: no block leaks a page. */
  method Exercise(heap: Allocator, ops: seq<Op>) returns (panic: bool)
    requires heap.Valid() && heap.live == map[]
    modifies heap, heap.pages`virt, heap.pages`pool, heap.pages`mem
    ensures !panic ==> heap.Valid() && heap.live == map[] && heap.pages.virt == heap.virt0 && heap.pages.pool == heap.pool0
    ensures panic ==> || (exists k :: 0 <= k < |ops| && Huge(ops[k]))
                      || Free(old(heap.pages.virt)) < Demand(ops) || Free(old(heap.pages.pool)) < Demand(ops)
  {
    hide PagesOk, KernelTables, BookOk, Busy, MorePages, MoreFrames, PlacesOk, Free, PagesFor, LargePages, FirstFit;
    assert ops[0..] == ops;
    panic := false;
    var held: seq<int> := [];
    var k := 0;
    while k < |ops|
      invariant 0 <= k <= |ops| && heap.Valid() && Held(held, heap.live)
      invariant Free(heap.pages.virt) - Demand(ops[k..]) >= Free(old(heap.pages.virt)) - Demand(ops)
      invariant Free(heap.pages.pool) - Demand(ops[k..]) >= Free(old(heap.pages.pool)) - Demand(ops)
    {
      assert ops[k..][0] == ops[k] && ops[k..][1..] == ops[k + 1..];
      DemandPositive(ops[k + 1..]);
      if ops[k].Ask? {
        NoClearBit(heap.pages.virt);
        PagesForMeans(ops[k].size);
        assert Huge(ops[k]) <==> PagesFor(ops[k].size) >= 3840;
        var r := heap.SysMalloc(ops[k].size);
        if r.Panic? { return true; }
        if r.s != 0 { held := held + [r.s]; }
      } else if ops[k].index < |held| {
        HeldLess(held, heap.live, ops[k].index);
        heap.SysFree(held[ops[k].index]);
        held := held[..ops[k].index] + held[ops[k].index + 1..];
      }
      k := k + 1;
    }
    while held != []
      invariant heap.Valid() && Held(held, heap.live)
      decreases |held|
    {
      HeldLess(held, heap.live, 0);
      heap.SysFree(held[0]);
      held := held[1..];
    }
    assert forall a :: a !in heap.live;
    assert heap.live == map[];
    NoLeak(heap);
  }

  lemma {:induction false} DemandPositive(ops: seq<Op>)
    ensures Demand(ops) >= 0
    decreases |ops|
  {
    if ops != [] {
      DemandPositive(ops[1..]);
      if ops[0].Ask? { PagesForMeans(ops[0].size); }
    }
  }

  lemma PagesForMeans(size: int)
    ensures PagesFor(size) >= 0 && (size > 0 ==> PagesFor(size) == (if size > 1024 then LargePages(size) else 1) && PagesFor(size) >= 1)
  {
    if size > 0 { LargeFits(size); }
  }

  lemma NoClearBit(virt: seq<bool>)
    ensures FirstFit(virt, 1).NoFit? <==> Free(virt) == 0
  {
    FitOne(virt);
    FreeNone(virt);
  }

  /** The caller holds exactly the blocks handed out. */
  ghost predicate Held(held: seq<int>, live: map<int, int>) {
    Distinct(held) && forall a :: a in held <==> a in live
  }

  /** Every small arena but one has a block handed out. */
  ghost predicate BusyBut(h: Book, q: int) {
    forall p :: p in h.arenas && p != q && h.arenas[p].Small? ==> h.arenas[p].cnt < Per(h.arenas[p].k)
  }

  lemma BusyAll(h: Book, q: int)
    requires Busy(h)
    ensures BusyBut(h, q)
  {
  }

  lemma OpenedBusy(h: Book, v: int, k: int)
    requires Busy(h) && Unused(h, v) && 0 <= k < CLASSES && |h.free| == CLASSES
    ensures Opened(h, v, k).free[k] != [] && BusyBut(Opened(h, v, k), PageOf(Opened(h, v, k).free[k][0]))
  {
    PerFits(k);
    BlockInside(v, 0, k);
    assert Opened(h, v, k).free[k][0] == BlockAt(v, 0, k);
  }

  lemma PopBusy(h: Book, k: int, size: int)
    requires BookOk(h) && 0 <= k < CLASSES && h.free[k] != [] && FreeAt(h, k, h.free[k][0]) && BusyBut(h, PageOf(h.free[k][0]))
    ensures Busy(Popped(h, k, size))
  {
    hide IsBlock, CountIn, LiveIn;
    assert ArenaAt(h, PageOf(h.free[k][0]));
  }

  lemma PopPlaces(h: Book, where: map<int, int>, k: int)
    requires PlacesOk(h.arenas, where) && 0 <= k < CLASSES && |h.free| == CLASSES && h.free[k] != [] && FreeAt(h, k, h.free[k][0])
    ensures PlacesOk(Popped(h, k, 1).arenas, where)
  {
    var p := PageOf(h.free[k][0]);
    SamePlaces(h.arenas, where, p, h.arenas[p].(cnt := h.arenas[p].cnt - 1));
  }

  lemma BlockPositive(h: Book, where: map<int, int>, m: Memory, virt: seq<bool>, m0: Memory, virt0: seq<bool>, dir: int, a: int)
    requires PlacesOk(h.arenas, where) && MorePages(where, m, virt, m0, virt0, dir) && PageOf(a) in h.arenas
    ensures a > 0
  {
    var p := PageOf(a);
    assert p in where;
    assert p >= 0;
  }

  lemma BookParts(h: Book)
    requires BookOk(h)
    ensures FreesOk(h) && LivesOk(h) && ArenasOk(h) && |h.free| == CLASSES
  {
  }

  lemma PlaceBusy(h: Book, v: int, n: int, size: int)
    requires Busy(h)
    ensures Busy(Placed(h, v, n, size))
  {
  }

  lemma NotLive(h: Book, v: int)
    requires Unused(h, v)
    ensures Va(v) + HEADER !in h.live && (0 <= v ==> Va(v) + HEADER > 0)
  {
    LargePage(v);
  }

  lemma NoneHeld(m: Memory, virt: seq<bool>, pool: seq<bool>, dir: int, base: int)
    requires PagesOk(m, dir, virt, pool, base)
    ensures MorePages(map[], m, virt, m, virt, dir) && MoreFrames(map[], m, pool, pool, dir, base)
  {
    hide Fr, Gr;
    assert forall f :: !Holder(map[], m, dir, f);
  }

  lemma NewPages(h: Book, where: map<int, int>, m: Memory, virt: seq<bool>, pool: seq<bool>,
                 m1: Memory, virt1: seq<bool>, pool1: seq<bool>, dir: int, base: int, v: int, fs: seq<int>)
    requires LivesOk(h) && PlacesOk(h.arenas, where) && Given(m, virt, pool, m1, virt1, pool1, dir, base, v, fs) && |fs| >= 1
    requires forall i :: i in where ==> 0 <= i < |virt| && virt[i]
    ensures 0 <= v && Unused(h, v) && v !in h.arenas && forall i :: v <= i < v + |fs| ==> i !in where
  {
    PagesUnused(h, where, v);
  }

  lemma HeldLess(held: seq<int>, live: map<int, int>, i: int)
    requires Held(held, live) && 0 <= i < |held|
    ensures held[i] in live && Held(held[..i] + held[i + 1..], live - {held[i]})
    ensures i == 0 ==> held[..i] + held[i + 1..] == held[1..]
  {
    var x := held[i];
    assert x in held;
    var t := held[..i] + held[i + 1..];
    forall a | a in live && a != held[i] ensures a in t {
      var j :| 0 <= j < |held| && held[j] == a;
      assert t[if j < i then j else j - 1] == a;
    }
  }
}
