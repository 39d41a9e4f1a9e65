/** Address arithmetic of the heap: arenas of one page that are cut into blocks of one size. */
module HeapBlocks {
  import opened Paging
  import opened KernelPages

  const HEADER: int := 12                // sizeof(struct arena)
  const CLASSES: int := 7                // DESC_CNT

  /** block_size and blocks_per_arena, as `block_desc_init` computes them. */
  function Size(k: int): (s: int) {
    if k == 0 then 16 else if k == 1 then 32 else if k == 2 then 64 else if k == 3 then 128
    else if k == 4 then 256 else if k == 5 then 512 else 1024
  }

  function Per(k: int): (n: int) {
    if k == 0 then 255 else if k == 1 then 127 else if k == 2 then 63 else if k == 3 then 31
    else if k == 4 then 15 else if k == 5 then 7 else 3
  }

  /** `block_desc_init`: sizes double from 16, and an arena holds what fits behind its header. */
  method BlockDescInit() returns (sizes: seq<int>, pers: seq<int>)
    ensures |sizes| == |pers| == CLASSES
    ensures forall k :: 0 <= k < CLASSES ==> sizes[k] == Size(k) && pers[k] == Per(k)
  {
    sizes, pers := [], [];
    var k, size := 0, 16;
    while k < CLASSES
      invariant 0 <= k <= CLASSES && |sizes| == |pers| == k && (k < CLASSES ==> size == Size(k))
      invariant forall j :: 0 <= j < k ==> sizes[j] == Size(j) && pers[j] == Per(j)
    {
      sizes := sizes + [size];
      pers := pers + [(PAGE - HEADER) / size];
      size := size * 2;
      k := k + 1;
    }
  }

  /** `arena2block`: block `j` of the arena in heap page `i`. */
  function BlockAt(i: int, j: int, k: int): (a: int) { Va(i) + HEADER + j * Size(k) }

  /** `block2arena`: the heap page of an address. */
  function PageOf(a: int): (i: int) { (a - HEAP_START) / PAGE }

  lemma Times(j: int, k: int, n: int)
    requires 0 <= j <= n
    ensures 0 <= j * Size(k) <= n * Size(k)
  {
    if k == 0 { } else if k == 1 { } else if k == 2 { } else if k == 3 { } else if k == 4 { } else if k == 5 { } else { }
  }

  lemma PerFits(k: int)
    requires 0 <= k < CLASSES
    ensures HEADER + Per(k) * Size(k) <= PAGE && 16 <= Size(k) <= 1024 && Per(k) >= 3
  {
  }

  /** A block lies in its arena's page, behind the header; `block2arena` inverts `arena2block`. */
  lemma BlockInside(i: int, j: int, k: int)
    requires 0 <= k < CLASSES && 0 <= j < Per(k)
    ensures Va(i) + HEADER <= BlockAt(i, j, k) && BlockAt(i, j, k) + Size(k) <= Va(i) + PAGE
    ensures PageOf(BlockAt(i, j, k)) == i
  {
    Times(j, k, Per(k) - 1);
    PerFits(k);
    assert (Per(k) - 1) * Size(k) == Per(k) * Size(k) - Size(k);
    var o := BlockAt(i, j, k) - Va(i);
    assert BlockAt(i, j, k) - HEAP_START == i * PAGE + o && 0 <= o < PAGE;
  }

  /** Different blocks of an arena do not overlap. */
  lemma BlocksApart(i: int, j: int, l: int, k: int)
    requires 0 <= k < CLASSES && j < l
    ensures BlockAt(i, j, k) + Size(k) <= BlockAt(i, l, k)
  {
    Times(l - j - 1, k, l - j - 1);
    assert l * Size(k) == j * Size(k) + Size(k) + (l - j - 1) * Size(k);
  }

  /** `a` is a block of the arena in page `i`. */
  ghost predicate IsBlock(a: int, i: int, k: int) {
    exists j :: 0 <= j < Per(k) && a == BlockAt(i, j, k)
  }

  lemma BlockPage(a: int, i: int, k: int)
    requires 0 <= k < CLASSES && IsBlock(a, i, k)
    ensures PageOf(a) == i && Va(i) + HEADER <= a && a + Size(k) <= Va(i) + PAGE
  {
    var j :| 0 <= j < Per(k) && a == BlockAt(i, j, k);
    BlockInside(i, j, k);
  }

  /** Two blocks of one arena are the same or apart. */
  lemma BlocksDisjoint(a: int, b: int, i: int, k: int)
    requires 0 <= k < CLASSES && IsBlock(a, i, k) && IsBlock(b, i, k) && a != b
    ensures a + Size(k) <= b || b + Size(k) <= a
  {
    var j :| 0 <= j < Per(k) && a == BlockAt(i, j, k);
    var l :| 0 <= l < Per(k) && b == BlockAt(i, l, k);
    if j < l { BlocksApart(i, j, l, k); } else { BlocksApart(i, l, j, k); }
  }

  /** DIV_ROUND_UP(size + sizeof(struct arena), PG_SIZE) */
  function LargePages(size: int): (n: int) { (size + HEADER + PAGE - 1) / PAGE }

  lemma LargeFits(size: int)
    requires size > 0
    ensures LargePages(size) >= 1 && size + HEADER <= LargePages(size) * PAGE < size + HEADER + PAGE
  {
  }

  /** The class of a small request: the first size that holds it. */
  function ClassOf(size: int): (k: int) {
    if size <= 16 then 0 else if size <= 32 then 1 else if size <= 64 then 2 else if size <= 128 then 3
    else if size <= 256 then 4 else if size <= 512 then 5 else 6
  }

  method PickClass(size: int) returns (k: int)
    requires 0 < size <= 1024
    ensures 0 <= k < CLASSES && k == ClassOf(size) && size <= Size(k) && (k > 0 ==> Size(k - 1) < size)
  {
    k := 0;
    while k < CLASSES
      invariant 0 <= k <= CLASSES && (k == CLASSES ==> size > 1024) && (k > 0 ==> Size(k - 1) < size)
    {
      if size <= Size(k) { return; }
      k := k + 1;
    }
    assert false;
  }
}
