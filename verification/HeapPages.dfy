/** The pages of the heap: which arena has which page, what that adds to the bitmaps, and how a free list loses an
    arena. */
module HeapPages {
  import opened Basics
  import opened Lists
  import opened Bitmaps
  import opened Paging
  import opened KernelPages
  import opened HeapBlocks
  import opened Heap

  // ---------------------------------------------------------------- the pages of arenas

  /** `where` gives the arena of each page that belongs to one: arenas do not share pages. */
  ghost predicate PlacesOk(arenas: map<int, Arena>, where: map<int, int>) {
    && (forall i :: i in where ==> where[i] in arenas && where[i] <= i < where[i] + Span(arenas[where[i]]))
    && (forall p, i :: p in arenas && p <= i < p + Span(arenas[p]) ==> i in where && where[i] == p)
    && (forall p :: p in arenas ==> Span(arenas[p]) >= 1)
  }

  ghost function Widen(where: map<int, int>, v: int, n: int): (r: map<int, int>)
    ensures forall i :: i in r <==> i in where || v <= i < v + n
    ensures forall i :: i in r ==> r[i] == if v <= i < v + n then v else where[i]
  {
    map i | i in where.Keys + Range(v, n) :: if v <= i < v + n then v else where[i]
  }

  ghost function Range(v: int, n: int): (s: set<int>)
    ensures forall i :: i in s <==> v <= i < v + n
    decreases n
  {
    if n <= 0 then {} else Range(v, n - 1) + {v + n - 1}
  }

  ghost function Narrow(where: map<int, int>, v: int, n: int): (r: map<int, int>) {
    map i | i in where && !(v <= i < v + n) :: where[i]
  }

  lemma WidenPlaces(arenas: map<int, Arena>, where: map<int, int>, v: int, a: Arena)
    requires PlacesOk(arenas, where) && Span(a) >= 1 && v !in arenas
    requires forall i :: v <= i < v + Span(a) ==> i !in where
    ensures PlacesOk(arenas[v := a], Widen(where, v, Span(a)))
  {
    hide Widen, Span;
  }

  lemma NarrowPlaces(arenas: map<int, Arena>, where: map<int, int>, v: int)
    requires PlacesOk(arenas, where) && v in arenas
    ensures PlacesOk(arenas - {v}, Narrow(where, v, Span(arenas[v])))
  {
  }

  lemma SamePlaces(arenas: map<int, Arena>, where: map<int, int>, p: int, a: Arena)
    requires PlacesOk(arenas, where) && p in arenas && Span(a) == Span(arenas[p])
    ensures PlacesOk(arenas[p := a], where)
  {
  }

  /** Some page of an arena has the frame. */
  ghost predicate Holder(where: map<int, int>, m: Memory, dir: int, f: int) {
    exists i :: i in where && Fr(m, dir, i) == f
  }

  /** The pages as they were at the start, with exactly the arenas' pages added. */
  ghost predicate MorePages(where: map<int, int>, m: Memory, virt: seq<bool>, m0: Memory, virt0: seq<bool>, dir: int) {
    && |virt| == |virt0| <= LIMIT
    && (forall i :: i in where ==> 0 <= i < |virt| && !virt0[i])
    && (forall i :: 0 <= i < |virt| ==> (virt[i] <==> virt0[i] || i in where))
    && (forall i :: 0 <= i < |virt| && i !in where ==> Fr(m, dir, i) == Fr(m0, dir, i))
  }

  /** The pool as it was at the start, with exactly the frames of the arenas' pages added. */
  ghost predicate MoreFrames(where: map<int, int>, m: Memory, pool: seq<bool>, pool0: seq<bool>, dir: int, base: int) {
    && |pool| == |pool0|
    && (forall b :: 0 <= b < |pool| ==> (pool[b] <==> pool0[b] || Holder(where, m, dir, base + b)))
    && (forall i :: i in where ==> 0 <= Fr(m, dir, i) - base < |pool| && !pool0[Fr(m, dir, i) - base])
  }

  lemma WidenPages(where: map<int, int>, m: Memory, virt: seq<bool>, pool: seq<bool>, m0: Memory, virt0: seq<bool>, dir: int, base: int,
                   m1: Memory, virt1: seq<bool>, pool1: seq<bool>, v: int, fs: seq<int>)
    requires MorePages(where, m, virt, m0, virt0, dir) && Given(m, virt, pool, m1, virt1, pool1, dir, base, v, fs)
    ensures MorePages(Widen(where, v, |fs|), m1, virt1, m0, virt0, dir)
  {
    hide Fr;
  }

  lemma WidenFrames(where: map<int, int>, m: Memory, virt: seq<bool>, pool: seq<bool>, pool0: seq<bool>, dir: int, base: int,
                    m1: Memory, virt1: seq<bool>, pool1: seq<bool>, v: int, fs: seq<int>)
    requires MoreFrames(where, m, pool, pool0, dir, base) && Given(m, virt, pool, m1, virt1, pool1, dir, base, v, fs)
    requires |virt| <= LIMIT && forall i :: i in where ==> 0 <= i < |virt| && virt[i]
    ensures MoreFrames(Widen(where, v, |fs|), m1, pool1, pool0, dir, base)
  {
    hide Fr, Holder, Widen;
    var w := Widen(where, v, |fs|);
    forall i | i in w ensures 0 <= Fr(m1, dir, i) - base < |pool1| && !pool0[Fr(m1, dir, i) - base] {
      WidenNew(where, m, virt, pool, pool0, dir, base, m1, virt1, pool1, v, fs, i);
    }
    forall b | 0 <= b < |pool1| ensures pool1[b] <==> pool0[b] || Holder(w, m1, dir, base + b) {
      WidenHolder(where, m, m1, dir, v, fs, base + b);
    }
  }

  lemma WidenNew(where: map<int, int>, m: Memory, virt: seq<bool>, pool: seq<bool>, pool0: seq<bool>, dir: int, base: int,
                 m1: Memory, virt1: seq<bool>, pool1: seq<bool>, v: int, fs: seq<int>, i: int)
    requires MoreFrames(where, m, pool, pool0, dir, base) && Given(m, virt, pool, m1, virt1, pool1, dir, base, v, fs)
    requires |virt| <= LIMIT && (forall j :: j in where ==> 0 <= j < |virt| && virt[j]) && (i in where || v <= i < v + |fs|)
    ensures 0 <= Fr(m1, dir, i) - base < |pool1| && !pool0[Fr(m1, dir, i) - base]
  {
    hide Fr, Holder;
    if v <= i < v + |fs| {
      assert fs[i - v] in fs;
      assert !pool[fs[i - v] - base];
    }
  }

  lemma WidenHolder(where: map<int, int>, m: Memory, m1: Memory, dir: int, v: int, fs: seq<int>, f: int)
    requires forall i :: i in where ==> 0 <= i < LIMIT && !(v <= i < v + |fs|)
    requires 0 <= v && v + |fs| <= LIMIT
    requires forall i :: 0 <= i < LIMIT ==> Fr(m1, dir, i) == if v <= i < v + |fs| then fs[i - v] else Fr(m, dir, i)
    ensures Holder(Widen(where, v, |fs|), m1, dir, f) <==> Holder(where, m, dir, f) || f in fs
  {
    hide Fr;
    var w := Widen(where, v, |fs|);
    if Holder(where, m, dir, f) {
      var i :| i in where && Fr(m, dir, i) == f;
      assert i in w && Fr(m1, dir, i) == f;
    }
    if f in fs {
      var k :| 0 <= k < |fs| && fs[k] == f;
      assert v + k in w && Fr(m1, dir, v + k) == f;
    }
    if Holder(w, m1, dir, f) {
      var i :| i in w && Fr(m1, dir, i) == f;
      if !(v <= i < v + |fs|) { assert i in where && Fr(m, dir, i) == f; }
    }
  }

  lemma NarrowPages(where: map<int, int>, m: Memory, virt: seq<bool>, pool: seq<bool>, m0: Memory, virt0: seq<bool>, pool0: seq<bool>,
                    dir: int, base: int, m1: Memory, virt1: seq<bool>, pool1: seq<bool>, v: int, fs: seq<int>)
    requires MorePages(where, m, virt, m0, virt0, dir) && Given(m1, virt1, pool1, m, virt, pool, dir, base, v, fs)
    requires PagesOk(m0, dir, virt0, pool0, base) && PagesOk(m1, dir, virt1, pool1, base)
    requires forall i :: v <= i < v + |fs| ==> i in where
    ensures MorePages(Narrow(where, v, |fs|), m1, virt1, m0, virt0, dir)
  {
    hide Fr, Holder;
  }

  lemma NarrowFrames(where: map<int, int>, m: Memory, virt: seq<bool>, pool: seq<bool>, pool0: seq<bool>, dir: int, base: int,
                     m1: Memory, virt1: seq<bool>, pool1: seq<bool>, v: int, fs: seq<int>)
    requires MoreFrames(where, m, pool, pool0, dir, base) && Given(m1, virt1, pool1, m, virt, pool, dir, base, v, fs)
    requires PagesOk(m, dir, virt, pool, base) && base >= 0
    requires forall i :: i in where ==> 0 <= i < |virt|
    requires forall i :: v <= i < v + |fs| ==> i in where
    ensures MoreFrames(Narrow(where, v, |fs|), m1, pool1, pool0, dir, base)
  {
    hide Fr, Holder;
    var w := Narrow(where, v, |fs|);
    forall b | 0 <= b < |pool1| ensures pool1[b] <==> pool0[b] || Holder(w, m1, dir, base + b) {
      NarrowHolder(where, m, m1, virt, pool, dir, base, v, fs, base + b);
      if base + b in fs { var k := FrameOf(m, m1, dir, v, fs, base + b); assert k in where; }
    }
  }

  lemma FrameOf(m: Memory, m1: Memory, dir: int, v: int, fs: seq<int>, f: int) returns (i: int)
    requires 0 <= v && v + |fs| <= LIMIT && f in fs
    requires forall i :: 0 <= i < LIMIT ==> Fr(m, dir, i) == if v <= i < v + |fs| then fs[i - v] else Fr(m1, dir, i)
    ensures v <= i < v + |fs| && Fr(m, dir, i) == f
  {
    hide Fr;
    var k :| 0 <= k < |fs| && fs[k] == f;
    i := v + k;
  }

  lemma NarrowHolder(where: map<int, int>, m: Memory, m1: Memory, virt: seq<bool>, pool: seq<bool>, dir: int, base: int, v: int, fs: seq<int>, f: int)
    requires PagesOk(m, dir, virt, pool, base) && 0 <= v && v + |fs| <= |virt| && f >= base >= 0
    requires forall i :: i in where ==> 0 <= i < |virt|
    requires forall i :: v <= i < v + |fs| ==> i in where
    requires forall i :: 0 <= i < LIMIT ==> Fr(m, dir, i) == if v <= i < v + |fs| then fs[i - v] else Fr(m1, dir, i)
    ensures Holder(where, m, dir, f) <==> Holder(Narrow(where, v, |fs|), m1, dir, f) || f in fs
    ensures f in fs ==> !Holder(Narrow(where, v, |fs|), m1, dir, f)
  {
    hide Fr;
    var w := Narrow(where, v, |fs|);
    if Holder(w, m1, dir, f) {
      var i :| i in w && Fr(m1, dir, i) == f;
      assert i in where && Fr(m, dir, i) == f;
      if f in fs { var k := FrameOf(m, m1, dir, v, fs, f); assert Fr(m, dir, k) == Fr(m, dir, i); }
    }
    if f in fs { var k := FrameOf(m, m1, dir, v, fs, f); assert k in where; }
    if Holder(where, m, dir, f) {
      var i :| i in where && Fr(m, dir, i) == f;
      if v <= i < v + |fs| { assert fs[i - v] in fs; } else { assert i in w && Fr(m1, dir, i) == f; }
    }
  }

  /** Without arenas, everything is as it was. */
  lemma NothingLeft(m: Memory, virt: seq<bool>, pool: seq<bool>, m0: Memory, virt0: seq<bool>, pool0: seq<bool>, dir: int, base: int)
    requires MorePages(map[], m, virt, m0, virt0, dir) && MoreFrames(map[], m, pool, pool0, dir, base)
    ensures virt == virt0 && pool == pool0 && forall i :: 0 <= i < |virt| ==> Fr(m, dir, i) == Fr(m0, dir, i)
  {
    hide Fr;
    forall b | 0 <= b < |pool| ensures pool[b] == pool0[b] { assert !Holder(map[], m, dir, base + b); }
  }

  // ---------------------------------------------------------------- removing an arena's blocks from the free list

  /** The elements outside a set, in order. */
  ghost function Keep(s: seq<int>, bad: set<int>): (r: seq<int>) {
    if s == [] then [] else (if s[0] in bad then [] else [s[0]]) + Keep(s[1..], bad)
  }

  lemma {:induction false} KeepHas(s: seq<int>, bad: set<int>, a: int)
    ensures a in Keep(s, bad) <==> a in s && a !in bad
    decreases |s|
  {
    if s != [] {
      KeepHas(s[1..], bad, a);
      assert s == [s[0]] + s[1..];
    }
  }

  lemma {:induction false} KeepSame(s: seq<int>, bad: set<int>, a: int)
    requires a !in s
    ensures Keep(s, bad + {a}) == Keep(s, bad)
    decreases |s|
  {
    if s != [] {
      assert s[0] != a;
      KeepSame(s[1..], bad, a);
    }
  }

  lemma {:induction false} WithoutKeep(s: seq<int>, bad: set<int>, a: int)
    requires Distinct(s) && a !in bad
    ensures Without(Keep(s, bad), a) == Keep(s, bad + {a})
    decreases |s|
  {
    if s != [] {
      if s[0] in bad {
        assert Keep(s, bad) == Keep(s[1..], bad) && Keep(s, bad + {a}) == Keep(s[1..], bad + {a});
        WithoutKeep(s[1..], bad, a);
      } else {
        var t := [s[0]] + Keep(s[1..], bad);
        assert Keep(s, bad) == t && t[1..] == Keep(s[1..], bad);
        if s[0] == a { KeepSame(s[1..], bad, a); } else { WithoutKeep(s[1..], bad, a); }
      }
    }
  }

  lemma {:induction false} KeepLast(s: seq<int>, x: int, bad: set<int>)
    ensures Keep(s + [x], bad) == Keep(s, bad) + (if x in bad then [] else [x])
    decreases |s|
  {
    var t := s + [x];
    if s == [] {
      assert t[1..] == [];
    } else {
      assert t[1..] == s[1..] + [x];
      KeepLast(s[1..], x, bad);
    }
  }

  lemma {:induction false} KeepIsOutside(s: seq<int>, bad: set<int>, p: int)
    requires forall a :: a in s ==> (a in bad <==> PageOf(a) == p)
    ensures Keep(s, bad) == Outside(s, p)
    decreases |s|
  {
    if s != [] {
      var t, x := s[..|s| - 1], s[|s| - 1];
      assert s == t + [x];
      forall a | a in t ensures a in bad <==> PageOf(a) == p { assert a in s; }
      KeepIsOutside(t, bad, p);
      KeepLast(t, x, bad);
      assert x in s;
    }
  }

  ghost function FirstBlocks(p: int, k: int, j: int): (s: set<int>)
    decreases j
  {
    if j <= 0 then {} else FirstBlocks(p, k, j - 1) + {BlockAt(p, j - 1, k)}
  }

  lemma {:induction false} FirstBlocksMeans(p: int, k: int, j: int, a: int)
    requires 0 <= k < CLASSES && 0 <= j
    ensures a in FirstBlocks(p, k, j) <==> exists i :: 0 <= i < j && a == BlockAt(p, i, k)
    decreases j
  {
    if j > 0 {
      FirstBlocksMeans(p, k, j - 1, a);
      if a == BlockAt(p, j - 1, k) { assert 0 <= j - 1 < j; }
    }
  }

  /** The release loop of `sys_free`: its assertion that every block is on the list holds. */
  method RemoveBlocks(list: seq<int>, p: int, k: int) returns (r: seq<int>)
    requires 0 <= k < CLASSES && Distinct(list)
    requires forall j :: 0 <= j < Per(k) ==> BlockAt(p, j, k) in list
    requires forall a :: a in list && PageOf(a) == p ==> IsBlock(a, p, k)
    ensures r == Outside(list, p)
  {
    hide BlockAt, Per, Outside, IsBlock, Keep, FirstBlocks, Without;
    r := list;
    var j := 0;
    KeepAll(list);
    PerFits(k);
    NextBlock(p, k, 0);
    while j < Per(k)
      invariant 0 <= j <= Per(k) && r == Keep(list, FirstBlocks(p, k, j))
    {
      var b := BlockAt(p, j, k);
      NotYet(p, k, j);
      NextBlock(p, k, j);
      KeepHas(list, FirstBlocks(p, k, j), b);
      assert b in r;
      WithoutKeep(list, FirstBlocks(p, k, j), b);
      r := Without(r, b);
      j := j + 1;
    }
    AllRemoved(list, p, k);
  }

  lemma NextBlock(p: int, k: int, j: int)
    requires 0 <= j
    ensures FirstBlocks(p, k, 0) == {} && FirstBlocks(p, k, j + 1) == FirstBlocks(p, k, j) + {BlockAt(p, j, k)}
  {
  }

  lemma AllRemoved(list: seq<int>, p: int, k: int)
    requires 0 <= k < CLASSES && forall a :: a in list && PageOf(a) == p ==> IsBlock(a, p, k)
    ensures Keep(list, FirstBlocks(p, k, Per(k))) == Outside(list, p)
  {
    PerFits(k);
    hide Keep, Outside, FirstBlocks, Per, BlockAt;
    forall a | a in list ensures a in FirstBlocks(p, k, Per(k)) <==> PageOf(a) == p {
      FirstBlocksMeans(p, k, Per(k), a);
      if a in FirstBlocks(p, k, Per(k)) { assert IsBlock(a, p, k); BlockPage(a, p, k); }
    }
    KeepIsOutside(list, FirstBlocks(p, k, Per(k)), p);
  }

  lemma {:induction false} KeepAll(s: seq<int>)
    ensures Keep(s, {}) == s
    decreases |s|
  {
    if s != [] { KeepAll(s[1..]); }
  }

  lemma NotYet(p: int, k: int, j: int)
    requires 0 <= k < CLASSES && 0 <= j
    ensures BlockAt(p, j, k) !in FirstBlocks(p, k, j)
  {
    FirstBlocksMeans(p, k, j, BlockAt(p, j, k));
    forall i | 0 <= i < j ensures BlockAt(p, i, k) != BlockAt(p, j, k) { BlocksApart(p, i, j, k); PerFits(k); }
  }
}
