/** The kernel heap's books: arenas, free lists and the blocks handed out. */
module Heap {
  import opened Basics
  import opened Lists
  import opened Paging
  import opened KernelPages
  import opened HeapBlocks

  /** The header of an arena: its class and number of free blocks, or its number of pages. */
  datatype Arena = Small(k: int, cnt: int) | Large(cnt: int)

  function Span(a: Arena): (n: int) { if a.Small? then 1 else a.cnt }

  /** `arenas` by heap page, `free` lists by class, and `live`: the blocks handed out with the sizes asked for. */
  datatype Book = Book(arenas: map<int, Arena>, free: seq<seq<int>>, live: map<int, int>)

  /** How many of the addresses lie in page `p`. */
  function CountIn(s: seq<int>, p: int): (n: nat) {
    if s == [] then 0 else CountIn(s[..|s| - 1], p) + (if PageOf(s[|s| - 1]) == p then 1 else 0)
  }

  ghost function LiveIn(live: map<int, int>, p: int): (s: set<int>) { set a | a in live && PageOf(a) == p }

  /** A block on a free list is a block of a small arena of that class and is not handed out. */
  ghost predicate FreeAt(h: Book, k: int, a: int) {
    && PageOf(a) in h.arenas && h.arenas[PageOf(a)].Small? && h.arenas[PageOf(a)].k == k
    && IsBlock(a, PageOf(a), k) && a !in h.live
  }

  /** A block handed out is a block of its arena and at least as long as asked for. */
  ghost predicate LiveAt(h: Book, a: int)
    requires a in h.live
  {
    && PageOf(a) in h.arenas && h.live[a] > 0
    && match h.arenas[PageOf(a)]
       case Small(k, cnt) => 0 <= k < CLASSES && IsBlock(a, PageOf(a), k) && h.live[a] <= Size(k)
       case Large(n) => a == Va(PageOf(a)) + HEADER && h.live[a] + HEADER <= n * PAGE
  }

  /** A small arena's count is the number of its blocks on the free list, and every block is free or handed out. */
  ghost predicate ArenaAt(h: Book, p: int)
    requires p in h.arenas && |h.free| == CLASSES
  {
    match h.arenas[p]
    case Small(k, cnt) =>
      && 0 <= k < CLASSES && cnt == CountIn(h.free[k], p) && cnt + |LiveIn(h.live, p)| == Per(k)
      && forall j :: 0 <= j < Per(k) ==> BlockAt(p, j, k) in h.free[k] || BlockAt(p, j, k) in h.live
    case Large(n) => n >= 1 && Va(p) + HEADER in h.live
  }

  ghost predicate FreesOk(h: Book) {
    |h.free| == CLASSES && (forall k :: 0 <= k < CLASSES ==> Distinct(h.free[k]))
    && forall k, a :: 0 <= k < CLASSES && a in h.free[k] ==> FreeAt(h, k, a)
  }

  ghost predicate LivesOk(h: Book) { forall a :: a in h.live ==> LiveAt(h, a) }

  ghost predicate ArenasOk(h: Book) { |h.free| == CLASSES && forall p :: p in h.arenas ==> ArenaAt(h, p) }

  ghost predicate BookOk(h: Book) { FreesOk(h) && LivesOk(h) && ArenasOk(h) }

  /** Every small arena has a block handed out. */
  ghost predicate Busy(h: Book) {
    forall p :: p in h.arenas && h.arenas[p].Small? ==> h.arenas[p].cnt < Per(h.arenas[p].k)
  }

  /** Live blocks do not overlap, and each has room for what was asked. */
  lemma LiveBlocksDisjoint(h: Book, a: int, b: int)
    requires BookOk(h) && a in h.live && b in h.live && a != b && PageOf(a) == PageOf(b)
    ensures a + h.live[a] <= b || b + h.live[b] <= a
  {
    assert LiveAt(h, a) && LiveAt(h, b);
    if h.arenas[PageOf(a)].Small? { BlocksDisjoint(a, b, PageOf(a), h.arenas[PageOf(a)].k); }
  }

  // ---------------------------------------------------------------- counting

  lemma {:induction false} CountFront(a: int, s: seq<int>, p: int)
    ensures CountIn([a] + s, p) == CountIn(s, p) + (if PageOf(a) == p then 1 else 0)
    decreases |s|
  {
    var t := [a] + s;
    if s == [] {
      assert t[..0] == [];
    } else {
      assert t[..|t| - 1] == [a] + s[..|s| - 1];
      CountFront(a, s[..|s| - 1], p);
    }
  }

  lemma CountTail(s: seq<int>, p: int)
    requires s != []
    ensures CountIn(s[1..], p) == CountIn(s, p) - (if PageOf(s[0]) == p then 1 else 0)
  {
    assert [s[0]] + s[1..] == s;
    CountFront(s[0], s[1..], p);
  }

  lemma CountAppend(s: seq<int>, a: int, p: int)
    ensures CountIn(s + [a], p) == CountIn(s, p) + (if PageOf(a) == p then 1 else 0)
  {
    assert (s + [a])[..|s|] == s;
  }

  lemma {:induction false} CountNone(s: seq<int>, p: int)
    requires forall a :: a in s ==> PageOf(a) != p
    ensures CountIn(s, p) == 0
    decreases |s|
  {
    if s != [] {
      assert s[|s| - 1] in s;
      forall a | a in s[..|s| - 1] ensures PageOf(a) != p { assert a in s; }
      CountNone(s[..|s| - 1], p);
    }
  }

  lemma LiveAdd(live: map<int, int>, a: int, size: int, p: int)
    requires a !in live
    ensures |LiveIn(live[a := size], p)| == |LiveIn(live, p)| + (if PageOf(a) == p then 1 else 0)
  {
    assert LiveIn(live[a := size], p) == LiveIn(live, p) + (if PageOf(a) == p then {a} else {});
  }

  lemma LiveDrop(live: map<int, int>, a: int, p: int)
    requires a in live
    ensures |LiveIn(live - {a}, p)| == |LiveIn(live, p)| - (if PageOf(a) == p then 1 else 0)
  {
    assert LiveIn(live - {a}, p) == LiveIn(live, p) - (if PageOf(a) == p then {a} else {});
  }

  // ---------------------------------------------------------------- handing out a block

  ghost function Popped(h: Book, k: int, size: int): (r: Book)
    requires 0 <= k < |h.free| && h.free[k] != [] && PageOf(h.free[k][0]) in h.arenas && h.arenas[PageOf(h.free[k][0])].Small?
  {
    var a := h.free[k][0];
    var p := PageOf(a);
    Book(h.arenas[p := h.arenas[p].(cnt := h.arenas[p].cnt - 1)], h.free[k := h.free[k][1..]], h.live[a := size])
  }

  lemma HeadOk(h: Book, k: int)
    requires FreesOk(h) && 0 <= k < CLASSES && h.free[k] != []
    ensures var a := h.free[k][0]; a in h.free[k] && FreeAt(h, k, a)
  {
  }

  lemma PopFrees(h: Book, k: int, size: int)
    requires FreesOk(h) && 0 <= k < CLASSES && h.free[k] != [] && FreeAt(h, k, h.free[k][0])
    ensures FreesOk(Popped(h, k, size))
  {
    var r := Popped(h, k, size);
    hide IsBlock;
    forall l, b | 0 <= l < CLASSES && b in r.free[l] ensures FreeAt(r, l, b) {
      assert b in h.free[l];
      assert FreeAt(h, l, b);
    }
  }

  lemma PopLives(h: Book, k: int, size: int)
    requires LivesOk(h) && 0 <= k < CLASSES && |h.free| == CLASSES && h.free[k] != [] && FreeAt(h, k, h.free[k][0]) && 0 < size <= Size(k)
    ensures LivesOk(Popped(h, k, size))
  {
    hide IsBlock;
    var r := Popped(h, k, size);
    forall b | b in r.live ensures LiveAt(r, b) { if b != h.free[k][0] { assert LiveAt(h, b); } }
  }

  lemma PopArenas(h: Book, k: int, size: int)
    requires FreesOk(h) && ArenasOk(h) && 0 <= k < CLASSES && h.free[k] != [] && FreeAt(h, k, h.free[k][0])
    ensures ArenasOk(Popped(h, k, size))
  {
    hide IsBlock, CountIn, LiveIn;
    var r := Popped(h, k, size);
    var a := h.free[k][0];
    forall p | p in r.arenas ensures ArenaAt(r, p) {
      assert ArenaAt(h, p);
      CountTail(h.free[k], p);
      LiveAdd(h.live, a, size, p);
    }
  }

  lemma PopKeeps(h: Book, k: int, size: int)
    requires BookOk(h) && 0 <= k < CLASSES && h.free[k] != [] && FreeAt(h, k, h.free[k][0]) && 0 < size <= Size(k)
    ensures BookOk(Popped(h, k, size))
  {
    PopFrees(h, k, size);
    PopLives(h, k, size);
    PopArenas(h, k, size);
  }

  // ---------------------------------------------------------------- a new arena

  function Blocks(p: int, k: int): (s: seq<int>)
    requires Per(k) >= 0
  {
    seq(Per(k), j => BlockAt(p, j, k))
  }

  ghost function Opened(h: Book, p: int, k: int): (r: Book)
    requires 0 <= k < |h.free|
  {
    h.(arenas := h.arenas[p := Small(k, Per(k))], free := h.free[k := Blocks(p, k)])
  }

  lemma {:induction false} CountBlocks(p: int, k: int, n: nat, q: int)
    requires 0 <= k < CLASSES && n <= Per(k)
    ensures CountIn(seq(n, j => BlockAt(p, j, k)), q) == if q == p then n else 0
    decreases n
  {
    var s := seq(n, j => BlockAt(p, j, k));
    if n > 0 {
      assert s[..n - 1] == seq(n - 1, j => BlockAt(p, j, k));
      CountBlocks(p, k, n - 1, q);
      BlockInside(p, n - 1, k);
    }
  }

  lemma BlocksDistinct(p: int, k: int)
    requires 0 <= k < CLASSES
    ensures Distinct(Blocks(p, k))
    ensures forall a :: a in Blocks(p, k) ==> IsBlock(a, p, k) && PageOf(a) == p
  {
    var s := Blocks(p, k);
    forall i, j | 0 <= i < j < |s| ensures s[i] != s[j] { BlocksApart(p, i, j, k); PerFits(k); }
    forall a | a in s ensures IsBlock(a, p, k) && PageOf(a) == p {
      var j :| 0 <= j < |s| && s[j] == a;
      assert a == BlockAt(p, j, k);
      BlockInside(p, j, k);
    }
  }

  /** Nothing of the heap lies in page `p`. */
  ghost predicate Unused(h: Book, p: int) { p !in h.arenas && forall a :: a in h.live ==> PageOf(a) != p }

  lemma OpenFrees(h: Book, p: int, k: int)
    requires FreesOk(h) && 0 <= k < CLASSES && h.free[k] == [] && Unused(h, p)
    ensures FreesOk(Opened(h, p, k))
  {
    var r := Opened(h, p, k);
    BlocksDistinct(p, k);
    hide IsBlock, Blocks;
    forall l, b | 0 <= l < CLASSES && b in r.free[l] ensures FreeAt(r, l, b) {
      if l != k { assert FreeAt(h, l, b); }
    }
  }

  lemma OpenArenas(h: Book, p: int, k: int)
    requires FreesOk(h) && ArenasOk(h) && 0 <= k < CLASSES && h.free[k] == [] && Unused(h, p)
    ensures ArenasOk(Opened(h, p, k))
  {
    hide IsBlock, CountIn;
    var r := Opened(h, p, k);
    PerFits(k);
    forall q | q in r.arenas ensures ArenaAt(r, q) {
      CountBlocks(p, k, Per(k), q);
      if q == p {
        assert LiveIn(h.live, p) == {};
        forall j | 0 <= j < Per(k) ensures BlockAt(p, j, k) in r.free[k] { assert r.free[k][j] == BlockAt(p, j, k); }
      } else {
        assert ArenaAt(h, q);
        CountNone([], q);
      }
    }
  }

  lemma OpenKeeps(h: Book, p: int, k: int)
    requires BookOk(h) && 0 <= k < CLASSES && h.free[k] == [] && Unused(h, p)
    ensures BookOk(Opened(h, p, k))
  {
    OpenFrees(h, p, k);
    OpenArenas(h, p, k);
    var r := Opened(h, p, k);
    forall a | a in r.live ensures LiveAt(r, a) { assert LiveAt(h, a); }
  }

  // ---------------------------------------------------------------- taking a block back

  ghost function Pushed(h: Book, a: int): (r: Book)
    requires PageOf(a) in h.arenas && h.arenas[PageOf(a)].Small? && 0 <= h.arenas[PageOf(a)].k < |h.free|
  {
    var p := PageOf(a);
    var k := h.arenas[p].k;
    Book(h.arenas[p := h.arenas[p].(cnt := h.arenas[p].cnt + 1)], h.free[k := h.free[k] + [a]], h.live - {a})
  }

  ghost predicate SmallLive(h: Book, a: int) {
    a in h.live && PageOf(a) in h.arenas && h.arenas[PageOf(a)].Small? && 0 <= h.arenas[PageOf(a)].k < |h.free|
  }

  lemma LiveNotFree(h: Book, k: int, a: int)
    requires FreesOk(h) && 0 <= k < CLASSES && a in h.live
    ensures a !in h.free[k]
  {
  }

  lemma PushFrees(h: Book, a: int)
    requires FreesOk(h) && SmallLive(h, a) && LiveAt(h, a)
    ensures FreesOk(Pushed(h, a))
  {
    hide IsBlock;
    var r := Pushed(h, a);
    var k := h.arenas[PageOf(a)].k;
    LiveNotFree(h, k, a);
    forall l, b | 0 <= l < CLASSES && b in r.free[l] ensures FreeAt(r, l, b) {
      if !(l == k && b == a) { assert b in h.free[l]; assert FreeAt(h, l, b); }
    }
  }

  lemma PushArenas(h: Book, a: int)
    requires FreesOk(h) && ArenasOk(h) && SmallLive(h, a)
    ensures ArenasOk(Pushed(h, a))
  {
    hide IsBlock, CountIn, LiveIn;
    var r := Pushed(h, a);
    var k := h.arenas[PageOf(a)].k;
    forall p | p in r.arenas ensures ArenaAt(r, p) {
      assert ArenaAt(h, p);
      CountAppend(h.free[k], a, p);
      LiveDrop(h.live, a, p);
      if h.arenas[p].Large? { assert Va(p) + HEADER != a by { LargePage(p); } }
      else {
        forall j | 0 <= j < Per(h.arenas[p].k)
          ensures BlockAt(p, j, h.arenas[p].k) in r.free[h.arenas[p].k] || BlockAt(p, j, h.arenas[p].k) in r.live
        {
          var b, l := BlockAt(p, j, h.arenas[p].k), h.arenas[p].k;
          assert b in h.free[l] || b in h.live;
          if b == a { BlockInside(p, j, l); assert l == k; assert r.free[k][|h.free[k]|] == a; }
          else if b in h.free[l] && l == k { var m :| 0 <= m < |h.free[k]| && h.free[k][m] == b; assert r.free[k][m] == b; }
        }
      }
    }
  }

  lemma LargePage(p: int)
    ensures PageOf(Va(p) + HEADER) == p
  {
    assert Va(p) + HEADER - HEAP_START == p * PAGE + HEADER;
  }

  lemma PushKeeps(h: Book, a: int)
    requires BookOk(h) && SmallLive(h, a)
    ensures BookOk(Pushed(h, a))
  {
    assert LiveAt(h, a);
    PushFrees(h, a);
    PushArenas(h, a);
    var r := Pushed(h, a);
    hide IsBlock;
    forall b | b in r.live ensures LiveAt(r, b) { assert LiveAt(h, b); }
  }

  // ---------------------------------------------------------------- giving an arena back

  function Outside(s: seq<int>, p: int): (r: seq<int>) {
    if s == [] then [] else Outside(s[..|s| - 1], p) + (if PageOf(s[|s| - 1]) == p then [] else [s[|s| - 1]])
  }

  lemma {:induction false} OutsideHas(s: seq<int>, p: int, a: int)
    ensures a in Outside(s, p) <==> a in s && PageOf(a) != p
    decreases |s|
  {
    if s != [] {
      var t, x := s[..|s| - 1], s[|s| - 1];
      OutsideHas(t, p, a);
      assert s == t + [x];
    }
  }

  lemma {:induction false} OutsideDistinct(s: seq<int>, p: int)
    requires Distinct(s)
    ensures Distinct(Outside(s, p))
    decreases |s|
  {
    if s != [] {
      var t, x := s[..|s| - 1], s[|s| - 1];
      OutsideDistinct(t, p);
      OutsideHas(t, p, x);
      assert x !in t;
    }
  }

  lemma {:induction false} OutsideCount(s: seq<int>, p: int, q: int)
    ensures CountIn(Outside(s, p), q) == if q == p then 0 else CountIn(s, q)
    decreases |s|
  {
    if s != [] {
      var t, x := s[..|s| - 1], s[|s| - 1];
      OutsideCount(t, p, q);
      if PageOf(x) == p { assert Outside(s, p) == Outside(t, p); } else { CountAppend(Outside(t, p), x, q); }
    }
  }

  ghost function Closed(h: Book, p: int): (r: Book)
    requires p in h.arenas && h.arenas[p].Small? && 0 <= h.arenas[p].k < |h.free|
  {
    var k := h.arenas[p].k;
    h.(arenas := h.arenas - {p}, free := h.free[k := Outside(h.free[k], p)])
  }

  /** When the count says that all blocks are free, none is handed out and all are on the list. */
  lemma AllFree(h: Book, p: int)
    requires BookOk(h) && p in h.arenas && h.arenas[p].Small? && h.arenas[p].cnt == Per(h.arenas[p].k)
    ensures forall a :: a in h.live ==> PageOf(a) != p
    ensures var k := h.arenas[p].k; 0 <= k < CLASSES && forall j :: 0 <= j < Per(k) ==> BlockAt(p, j, k) in h.free[k]
  {
    assert ArenaAt(h, p);
    assert LiveIn(h.live, p) == {};
    assert forall a :: a in h.live && PageOf(a) == p ==> a in LiveIn(h.live, p);
    var k := h.arenas[p].k;
    forall j | 0 <= j < Per(k) ensures BlockAt(p, j, k) in h.free[k] { BlockInside(p, j, k); }
  }

  lemma CloseKeeps(h: Book, p: int)
    requires BookOk(h) && p in h.arenas && h.arenas[p].Small? && 0 <= h.arenas[p].k < CLASSES && h.arenas[p].cnt == Per(h.arenas[p].k)
    ensures BookOk(Closed(h, p))
  {
    AllFree(h, p);
    hide IsBlock, CountIn, LiveIn, Outside;
    var r := Closed(h, p);
    var k := h.arenas[p].k;
    OutsideDistinct(h.free[k], p);
    forall l, b | 0 <= l < CLASSES && b in r.free[l] ensures FreeAt(r, l, b) {
      OutsideHas(h.free[k], p, b);
      assert b in h.free[l];
      assert FreeAt(h, l, b);
    }
    forall a | a in r.live ensures LiveAt(r, a) { assert LiveAt(h, a); }
    forall q | q in r.arenas ensures ArenaAt(r, q) { CloseOther(h, p, q); }
  }

  lemma CloseOther(h: Book, p: int, q: int)
    requires BookOk(h) && p in h.arenas && h.arenas[p].Small? && 0 <= h.arenas[p].k < CLASSES && q in h.arenas && q != p
    ensures ArenaAt(Closed(h, p), q)
  {
    hide IsBlock, CountIn, LiveIn, Outside;
    var k := h.arenas[p].k;
    assert ArenaAt(h, q);
    OutsideCount(h.free[k], p, q);
    if h.arenas[q].Small? && h.arenas[q].k == k {
      forall j | 0 <= j < Per(k) && BlockAt(q, j, k) in h.free[k] ensures BlockAt(q, j, k) in Outside(h.free[k], p) {
        BlockInside(q, j, k);
        OutsideHas(h.free[k], p, BlockAt(q, j, k));
      }
    }
  }

  // ---------------------------------------------------------------- large arenas

  ghost function Placed(h: Book, p: int, n: int, size: int): (r: Book) {
    h.(arenas := h.arenas[p := Large(n)], live := h.live[Va(p) + HEADER := size])
  }

  lemma PlaceKeeps(h: Book, p: int, n: int, size: int)
    requires BookOk(h) && Unused(h, p) && 0 < size && size + HEADER <= n * PAGE && n >= 1
    ensures BookOk(Placed(h, p, n, size))
  {
    hide IsBlock, CountIn, LiveIn;
    LargePage(p);
    var r := Placed(h, p, n, size);
    var a := Va(p) + HEADER;
    forall l, b | 0 <= l < CLASSES && b in r.free[l] ensures FreeAt(r, l, b) { assert FreeAt(h, l, b); }
    forall b | b in r.live ensures LiveAt(r, b) { if b != a { assert LiveAt(h, b); } }
    forall q | q in r.arenas ensures ArenaAt(r, q) {
      LiveAdd(h.live, a, size, q);
      if q != p { assert ArenaAt(h, q); }
    }
  }

  ghost function Lifted(h: Book, p: int): (r: Book) {
    h.(arenas := h.arenas - {p}, live := h.live - {Va(p) + HEADER})
  }

  lemma LiftKeeps(h: Book, p: int)
    requires BookOk(h) && p in h.arenas && h.arenas[p].Large?
    ensures BookOk(Lifted(h, p))
  {
    hide IsBlock, ArenaAt, Va;
    var r := Lifted(h, p);
    var a := Va(p) + HEADER;
    forall l, b | 0 <= l < CLASSES && b in r.free[l] ensures FreeAt(r, l, b) { assert FreeAt(h, l, b); }
    forall b | b in r.live ensures LiveAt(r, b) { assert LiveAt(h, b); }
    forall q | q in r.arenas ensures ArenaAt(r, q) { LiftOther(h, p, q); }
  }

  lemma LiftOther(h: Book, p: int, q: int)
    requires ArenasOk(h) && p in h.arenas && h.arenas[p].Large? && q in h.arenas && q != p
    ensures ArenaAt(Lifted(h, p), q)
  {
    hide IsBlock, CountIn, LiveIn, BlockAt, Va;
    var a := Va(p) + HEADER;
    assert ArenaAt(h, p) && ArenaAt(h, q);
    LiveDrop(h.live, a, q);
    LargePage(p);
    LargePage(q);
    if h.arenas[q].Small? {
      var k := h.arenas[q].k;
      forall j | 0 <= j < Per(k) ensures BlockAt(q, j, k) in h.free[k] || BlockAt(q, j, k) in Lifted(h, p).live {
        BlockInside(q, j, k);
      }
    }
  }
}
