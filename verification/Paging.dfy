/** Two-level paging with a directory whose last entry maps the directory itself (section 4.3 of the Intel 64 and
    IA-32 Architectures Software Developer's Manual, Volume 3A). */
module Paging {
  import opened Basics

  const PAGE: int := 4096
  const SPACE: int := 0x1_0000_0000      // 32-bit addresses
  const WINDOW: int := 0xffc00000        // where the page tables appear
  const LAST: int := 1023

  // ---------------------------------------------------------------- address arithmetic

  /** PDE_IDX and PTE_IDX */
  function Pdi(v: int): (i: int) { v / 0x400000 }
  function Pti(v: int): (i: int) { v / PAGE % 1024 }

  /** `pte_ptr` */
  function PtePtr(v: int): (a: int) { WINDOW + v / 0x400000 * 0x1000 + Pti(v) * 4 }

  /** `pde_ptr` */
  function PdePtr(v: int): (a: int) { 0xfffff000 + Pdi(v) * 4 }

  /** The two pointers are one function: the directory entry is the table entry of the table entry. */
  lemma PdeIsPteOfPte(v: int)
    requires 0 <= v < SPACE
    ensures WINDOW <= PtePtr(v) < SPACE && PtePtr(v) % 4 == 0
    ensures PdePtr(v) == PtePtr(PtePtr(v))
  {
    PteIndices(v);
  }

  lemma PteIndices(v: int)
    requires 0 <= v < SPACE
    ensures 0 <= PtePtr(v) < SPACE && Pdi(PtePtr(v)) == LAST && Pti(PtePtr(v)) == Pdi(v)
    ensures PtePtr(v) % PAGE / 4 == Pti(v) && PtePtr(v) % 4 == 0
  {
    var d, t := v / 0x400000, Pti(v);
    assert 0 <= d < 1024 && 0 <= t < 1024;
    var a := PtePtr(v);
    PageParts(a, 0xffc00 + d, 4 * t);
    DirectoryParts(a, LAST, PAGE * d + 4 * t);
    IndexPart(d);
  }

  lemma PageParts(a: int, q: int, r: int)
    requires a == PAGE * q + r && 0 <= r < PAGE
    ensures a / PAGE == q && a % PAGE == r
  {
  }

  lemma DirectoryParts(a: int, q: int, r: int)
    requires a == 0x400000 * q + r && 0 <= r < 0x400000
    ensures a / 0x400000 == q
  {
  }

  lemma IndexPart(d: int)
    requires 0 <= d < 1024
    ensures (0xffc00 + d) % 1024 == d
  {
  }

  // ---------------------------------------------------------------- memory and translation

  /** A word of a table: a frame number and the flags.  The lowest bit says that the word is present, the next that what it
      leads to may be written, and the next that user code may reach it. */
  predicate Present(w: int) { w % 2 == 1 }
  predicate Writable(w: int) { w / 2 % 2 == 1 }
  predicate ForUsers(w: int) { w / 4 % 2 == 1 }

  /** User code may write through this word. */
  predicate Granted(w: int) { Present(w) && Writable(w) && ForUsers(w) }

  function Frame(w: int): (f: int) { w / PAGE }

  /** PG_US_U | PG_RW_W | PG_P_1 */
  const USER_RW: int := 7

  /** The frame and these flags. */
  function Entry(f: int): (w: int) { f * PAGE + USER_RW }

  type Memory = map<int, seq<int>>       // the words of each physical frame that holds a table

  /** Frame and word index of a place in memory. */
  datatype Loc = Loc(frame: int, index: int)

  function At(m: Memory, l: Loc): (w: int) {
    if l.frame in m && 0 <= l.index < |m[l.frame]| then m[l.frame][l.index] else 0
  }

  function Dirent(m: Memory, dir: int, v: int): (w: int) { At(m, Loc(dir, Pdi(v))) }

  /** Where the processor finds v's table entry. */
  function EntryLoc(m: Memory, dir: int, v: int): (r: Option<Loc>) {
    if Present(Dirent(m, dir, v)) then Some(Loc(Frame(Dirent(m, dir, v)), Pti(v))) else None
  }

  /** The frame that v's page is mapped to. */
  function Translate(m: Memory, dir: int, v: int): (r: Option<int>) {
    var e := EntryLoc(m, dir, v);
    if e.Some? && Present(At(m, e.v)) then Some(Frame(At(m, e.v))) else None
  }

  /** The word that an access to virtual address `a` reaches. */
  function Access(m: Memory, dir: int, a: int): (r: Option<Loc>) {
    var f := Translate(m, dir, a);
    if f.Some? then Some(Loc(f.v, a % PAGE / 4)) else None
  }

  /** The processor lets user code write to v: directory entry and table entry are present, writable and for users. */
  predicate UserMayWrite(m: Memory, dir: int, v: int) {
    Granted(Dirent(m, dir, v)) && Granted(At(m, Loc(Frame(Dirent(m, dir, v)), Pti(v))))
  }

  /** No present directory entry stands in the way of a table entry. */
  ghost predicate DirGranted(m: Memory, dir: int) {
    forall i :: 0 <= i < 1024 && Present(At(m, Loc(dir, i))) ==> Granted(At(m, Loc(dir, i)))
  }

  /** The directory maps itself, and no other entry maps it. */
  ghost predicate SelfMapped(m: Memory, dir: int) {
    && dir in m && |m[dir]| == 1024 && Present(m[dir][LAST]) && Frame(m[dir][LAST]) == dir
    && forall i :: 0 <= i < LAST && Present(m[dir][i]) ==> Frame(m[dir][i]) != dir
  }

  /** Through the window, `pte_ptr(v)` reaches exactly v's entry in its table. */
  lemma PtePtrReachesEntry(m: Memory, dir: int, v: int)
    requires SelfMapped(m, dir) && 0 <= v < SPACE
    ensures Access(m, dir, PtePtr(v)) == EntryLoc(m, dir, v)
  {
    PteIndices(v);
  }

  /** ... and `pde_ptr(v)` exactly v's entry in the directory. */
  lemma PdePtrReachesEntry(m: Memory, dir: int, v: int)
    requires SelfMapped(m, dir) && 0 <= v < SPACE
    ensures Access(m, dir, PdePtr(v)) == Some(Loc(dir, Pdi(v)))
  {
    PdeIsPteOfPte(v);
    PteIndices(v);
    PtePtrReachesEntry(m, dir, PtePtr(v));
  }

  // ---------------------------------------------------------------- page_table_add

  function Poke(m: Memory, l: Loc, w: int): (r: Memory)
    requires l.frame in m && 0 <= l.index < |m[l.frame]|
  {
    m[l.frame := m[l.frame][l.index := w]]
  }

  function Zeroes(): (s: seq<int>)
    ensures |s| == 1024 && forall i :: 0 <= i < 1024 ==> s[i] == 0
  {
    seq(1024, i => 0)
  }

  /** Every present directory entry leads to a table in memory. */
  ghost predicate TablesOk(m: Memory, dir: int) {
    forall i :: 0 <= i < 1024 && Present(At(m, Loc(dir, i))) ==> TableAt(m, Frame(At(m, Loc(dir, i))))
  }

  ghost predicate TableAt(m: Memory, f: int) { f in m && |m[f]| == 1024 }

  /** `page_table_add` for a page outside the window; `table` is the frame that `palloc` would give for a new table. */
  function Added(m: Memory, dir: int, v: int, f: int, table: int): (r: Memory)
    requires SelfMapped(m, dir) && TablesOk(m, dir) && 0 <= v < WINDOW
  {
    if Present(Dirent(m, dir, v)) then
      assert TableAt(m, Frame(At(m, Loc(dir, Pdi(v)))));
      Poke(m, Loc(Frame(Dirent(m, dir, v)), Pti(v)), Entry(f))
    else
      Poke(m, Loc(dir, Pdi(v)), Entry(table))[table := Zeroes()[Pti(v) := Entry(f)]]
  }

  /** The frame for a new table is used for no table yet. */
  ghost predicate FreshTable(m: Memory, dir: int, table: int) {
    table != dir && forall i :: 0 <= i < 1024 && Present(At(m, Loc(dir, i))) ==> Frame(At(m, Loc(dir, i))) != table
  }

  lemma EntryMeans(f: int)
    requires f >= 0
    ensures Present(Entry(f)) && Frame(Entry(f)) == f && Granted(Entry(f))
  {
    EntryWritable(f);
    EntryForUsers(f);
    TwoParts(Entry(f), f * 2048 + 3);
    hide Writable, ForUsers;
    PageParts(Entry(f), f, 7);
  }

  lemma EntryWritable(f: int)
    ensures Writable(Entry(f))
  {
    TwoParts(Entry(f), f * 2048 + 3);
    TwoParts(f * 2048 + 3, f * 1024 + 1);
  }

  lemma TwoParts(a: int, q: int)
    requires a == q + q + 1
    ensures a / 2 == q && a % 2 == 1
  {
  }

  lemma FourParts(a: int, q: int)
    requires a == q + q + q + q + 3
    ensures a / 4 == q
  {
  }

  lemma EntryForUsers(f: int)
    ensures ForUsers(Entry(f))
  {
    FourParts(Entry(f), f * 1024 + 1);
    TwoParts(f * 1024 + 1, f * 512);
  }

  /** With the table there, exactly the pages that share v's entry become writable by user code besides those that are. */
  lemma AddedGrants(m: Memory, dir: int, v: int, f: int, table: int, u: int)
    requires SelfMapped(m, dir) && TablesOk(m, dir) && DirGranted(m, dir) && 0 <= v < WINDOW && 0 <= u < SPACE && f >= 0
    requires Present(Dirent(m, dir, v))
    ensures DirGranted(Added(m, dir, v, f, table), dir)
    ensures UserMayWrite(Added(m, dir, v, f, table), dir, u)
         <==> EntryLoc(m, dir, u) == EntryLoc(m, dir, v) || UserMayWrite(m, dir, u)
  {
    EntryMeans(f);
    SamePage(u, v);
    assert TableAt(m, Frame(At(m, Loc(dir, Pdi(v)))));
    assert Frame(m[dir][Pdi(v)]) != dir;
    assert Added(m, dir, v, f, table)[dir] == m[dir];
    hide Granted, Present, Frame;
    assert At(m, Loc(dir, Pdi(v))) == Dirent(m, dir, v);
  }

  /** With a new table, exactly v's page, and in the window the page of its entry. */
  lemma AddedTableGrants(m: Memory, dir: int, v: int, f: int, table: int, u: int)
    requires SelfMapped(m, dir) && TablesOk(m, dir) && DirGranted(m, dir) && 0 <= v < WINDOW && 0 <= u < SPACE && f >= 0 && table >= 0
    requires !Present(Dirent(m, dir, v)) && table != dir
    ensures DirGranted(Added(m, dir, v, f, table), dir) && UserMayWrite(Added(m, dir, v, f, table), dir, v)
    ensures FreshTable(m, dir, table) ==>
              (UserMayWrite(Added(m, dir, v, f, table), dir, u)
               <==> u / PAGE == v / PAGE || u / PAGE == PtePtr(v) / PAGE || UserMayWrite(m, dir, u))
  {
    EntryMeans(f);
    EntryMeans(table);
    PteIndices(v);
    SamePage(u, v);
    SamePage(u, PtePtr(v));
    assert At(m, Loc(dir, Pdi(u))) == m[dir][Pdi(u)];
    assert At(m, Loc(dir, LAST)) == m[dir][LAST];
  }

  /** With the table there, exactly the pages that share v's entry get the new frame. */
  lemma AddedInTable(m: Memory, dir: int, v: int, f: int, table: int, u: int)
    requires SelfMapped(m, dir) && TablesOk(m, dir) && 0 <= v < WINDOW && 0 <= u < SPACE && f >= 0
    requires Present(Dirent(m, dir, v))
    ensures Translate(Added(m, dir, v, f, table), dir, u)
         == if EntryLoc(m, dir, u) == EntryLoc(m, dir, v) then Some(f) else Translate(m, dir, u)
  {
    EntryMeans(f);
    assert TableAt(m, Frame(At(m, Loc(dir, Pdi(v)))));
    assert Frame(m[dir][Pdi(v)]) != dir;
  }

  /** With a new table, exactly v's page gets the frame, and in the window exactly the page of v's entry gets the
      table. */
  lemma AddedWithTable(m: Memory, dir: int, v: int, f: int, table: int, u: int)
    requires SelfMapped(m, dir) && TablesOk(m, dir) && 0 <= v < WINDOW && 0 <= u < SPACE && f >= 0 && table >= 0
    requires !Present(Dirent(m, dir, v)) && FreshTable(m, dir, table)
    ensures Translate(Added(m, dir, v, f, table), dir, u)
         == if u / PAGE == v / PAGE then Some(f)
            else if u / PAGE == PtePtr(v) / PAGE then Some(table)
            else Translate(m, dir, u)
  {
    EntryMeans(f);
    EntryMeans(table);
    PteIndices(v);
    SamePage(u, v);
    SamePage(u, PtePtr(v));
    assert At(m, Loc(dir, Pdi(u))) == m[dir][Pdi(u)];
  }

  lemma AddedTranslates(m: Memory, dir: int, v: int, f: int, table: int)
    requires SelfMapped(m, dir) && TablesOk(m, dir) && 0 <= v < WINDOW && f >= 0 && table >= 0 && table != dir
    requires !Present(Dirent(m, dir, v))
    ensures Translate(Added(m, dir, v, f, table), dir, v) == Some(f)
  {
    EntryMeans(f);
    EntryMeans(table);
    SamePage(v, v);
  }

  lemma SamePage(u: int, v: int)
    requires 0 <= u < SPACE && 0 <= v < SPACE
    ensures u / PAGE == v / PAGE <==> Pdi(u) == Pdi(v) && Pti(u) == Pti(v)
    ensures 0 <= Pdi(u) < 1024 && 0 <= Pti(u) < 1024
  {
    assert u / PAGE == 1024 * Pdi(u) + Pti(u);
    assert v / PAGE == 1024 * Pdi(v) + Pti(v);
  }

  lemma AddedKeeps(m: Memory, dir: int, v: int, f: int, table: int)
    requires SelfMapped(m, dir) && TablesOk(m, dir) && 0 <= v < WINDOW && table >= 0 && table != dir
    ensures SelfMapped(Added(m, dir, v, f, table), dir) && TablesOk(Added(m, dir, v, f, table), dir)
  {
    EntryMeans(table);
    SamePage(v, v);
    var r := Added(m, dir, v, f, table);
    if Present(Dirent(m, dir, v)) { assert Frame(m[dir][Pdi(v)]) != dir; }
    forall i | 0 <= i < 1024 && Present(At(r, Loc(dir, i))) ensures TableAt(r, Frame(At(r, Loc(dir, i)))) {
      if Present(At(m, Loc(dir, i))) { assert TableAt(m, Frame(At(m, Loc(dir, i)))); }
    }
  }

  /** Without a new table it does not matter which one there would be. */
  lemma AddedEntry(m: Memory, dir: int, v: int, f: int, table: int)
    requires SelfMapped(m, dir) && TablesOk(m, dir) && 0 <= v < WINDOW && Present(Dirent(m, dir, v))
    ensures SelfMapped(Added(m, dir, v, f, table), dir) && TablesOk(Added(m, dir, v, f, table), dir)
  {
    AddedKeeps(m, dir, v, f, if dir == 0 then 1 else 0);
  }

  /** `page_table_pte_remove`: the present bit is cleared. */
  function Cleared(m: Memory, dir: int, v: int): (r: Memory)
    requires SelfMapped(m, dir) && TablesOk(m, dir) && 0 <= v < WINDOW && Translate(m, dir, v).Some?
  {
    assert TableAt(m, Frame(At(m, Loc(dir, Pdi(v)))));
    var l := EntryLoc(m, dir, v).v;
    Poke(m, l, At(m, l) - 1)
  }

  /** Exactly the pages that share v's entry lose their frame. */
  lemma ClearedExactly(m: Memory, dir: int, v: int, u: int)
    requires SelfMapped(m, dir) && TablesOk(m, dir) && 0 <= v < WINDOW && Translate(m, dir, v).Some? && 0 <= u < SPACE
    ensures SelfMapped(Cleared(m, dir, v), dir) && TablesOk(Cleared(m, dir, v), dir)
    ensures Translate(Cleared(m, dir, v), dir, u)
         == if EntryLoc(m, dir, u) == EntryLoc(m, dir, v) then None else Translate(m, dir, u)
    ensures EntryLoc(Cleared(m, dir, v), dir, u) == EntryLoc(m, dir, u)
  {
    assert TableAt(m, Frame(At(m, Loc(dir, Pdi(v)))));
    assert Frame(m[dir][Pdi(v)]) != dir;
    var r := Cleared(m, dir, v);
    forall i | 0 <= i < 1024 && Present(At(r, Loc(dir, i))) ensures TableAt(r, Frame(At(r, Loc(dir, i)))) {
      assert TableAt(m, Frame(At(m, Loc(dir, i))));
    }
  }

  /** Exactly the pages that share v's entry are no longer writable by user code; every other page is as before. */
  lemma ClearedGrants(m: Memory, dir: int, v: int, u: int)
    requires SelfMapped(m, dir) && TablesOk(m, dir) && 0 <= v < WINDOW && Translate(m, dir, v).Some? && 0 <= u < SPACE
    ensures DirGranted(m, dir) ==> DirGranted(Cleared(m, dir, v), dir)
    ensures UserMayWrite(Cleared(m, dir, v), dir, u) <==> EntryLoc(m, dir, u) != EntryLoc(m, dir, v) && UserMayWrite(m, dir, u)
  {
    assert TableAt(m, Frame(At(m, Loc(dir, Pdi(v)))));
    assert Frame(m[dir][Pdi(v)]) != dir;
    assert Cleared(m, dir, v)[dir] == m[dir];
  }

  /** Of v's entry only the present bit changes, so that its frame and its other flags are still there; no other word
      changes. */
  lemma ClearedOnlyPresent(m: Memory, dir: int, v: int, l: Loc)
    requires SelfMapped(m, dir) && TablesOk(m, dir) && 0 <= v < WINDOW && Translate(m, dir, v).Some?
    ensures var w, w' := At(m, l), At(Cleared(m, dir, v), l);
            if Some(l) != EntryLoc(m, dir, v) then w' == w
            else !Present(w') && Frame(w') == Frame(w) && Writable(w') == Writable(w) && ForUsers(w') == ForUsers(w)
  {
    assert TableAt(m, Frame(At(m, Loc(dir, Pdi(v)))));
    SamePage(v, v);
    OddHalves(At(m, EntryLoc(m, dir, v).v));
  }

  /** Clearing the lowest bit of an odd number changes no other. */
  lemma OddHalves(w: int)
    requires w % 2 == 1
    ensures (w - 1) % 2 == 0 && (w - 1) / 2 == w / 2 && (w - 1) / 4 == w / 4 && (w - 1) / PAGE == w / PAGE
  {
  }

  // ---------------------------------------------------------------- create_page_dir

  const KERNEL: int := 0xc0000000        // kernel space
  const KERNEL_PDI: int := 768

  /** A zeroed frame gets the kernel half of the current directory and maps itself. */
  function NewDirectory(m: Memory, dir: int, child: int): (r: Memory)
    requires SelfMapped(m, dir)
  {
    m[child := seq(1024, i requires 0 <= i < 1024 => if i == LAST then Entry(child) else if i >= KERNEL_PDI then m[dir][i] else 0)]
  }

  /** The new process sees the kernel as the current one does, and nothing below it. */
  lemma KernelIsShared(m: Memory, dir: int, child: int, u: int)
    requires SelfMapped(m, dir) && TablesOk(m, dir) && FreshTable(m, dir, child) && child >= 0 && 0 <= u < WINDOW
    ensures SelfMapped(NewDirectory(m, dir, child), child)
    ensures Translate(NewDirectory(m, dir, child), child, u) == if u >= KERNEL then Translate(m, dir, u) else None
  {
    EntryMeans(child);
    SamePage(u, u);
    var r := NewDirectory(m, dir, child);
    forall i | 0 <= i < LAST && Present(r[child][i]) ensures Frame(r[child][i]) != child {
      assert At(m, Loc(dir, i)) == m[dir][i];
    }
    assert u >= KERNEL <==> Pdi(u) >= KERNEL_PDI;
    assert r[child][Pdi(u)] == if Pdi(u) >= KERNEL_PDI then m[dir][Pdi(u)] else 0;
    assert At(m, Loc(dir, Pdi(u))) == m[dir][Pdi(u)];
  }

  /** What user code of the new process may write is what it may write here, above the user half. */
  lemma SharedGrants(m: Memory, dir: int, child: int, u: int)
    requires SelfMapped(m, dir) && TablesOk(m, dir) && DirGranted(m, dir) && FreshTable(m, dir, child) && child >= 0 && 0 <= u < WINDOW
    ensures DirGranted(NewDirectory(m, dir, child), child)
    ensures UserMayWrite(NewDirectory(m, dir, child), child, u) <==> u >= KERNEL && UserMayWrite(m, dir, u)
  {
    EntryMeans(child);
    SamePage(u, u);
    var r := NewDirectory(m, dir, child);
    forall i | 0 <= i < 1024 && Present(At(r, Loc(child, i))) ensures Granted(At(r, Loc(child, i))) {
      assert At(m, Loc(dir, i)) == m[dir][i];
    }
    assert u >= KERNEL <==> Pdi(u) >= KERNEL_PDI;
    assert r[child][Pdi(u)] == if Pdi(u) >= KERNEL_PDI then m[dir][Pdi(u)] else 0;
    assert At(m, Loc(dir, Pdi(u))) == m[dir][Pdi(u)];
  }

  // ---------------------------------------------------------------- the code

  class Mmu {
    var mem: Memory
    var dir: int                         // the frame in cr3

    ghost predicate Valid()
      reads this
    {
      SelfMapped(mem, dir) && TablesOk(mem, dir) && DirGranted(mem, dir)
    }

    /** `*a` for a mapped word. */
    method Load(a: int) returns (w: int)
      requires Access(mem, dir, a).Some?
      ensures w == At(mem, Access(mem, dir, a).v)
    {
      w := At(mem, Access(mem, dir, a).v);
    }

    method Save(a: int, w: int)
      requires Access(mem, dir, a).Some? && Access(mem, dir, a).v.frame in mem
      requires 0 <= Access(mem, dir, a).v.index < |mem[Access(mem, dir, a).v.frame]|
      modifies `mem
      ensures mem == Poke(old(mem), old(Access(mem, dir, a).v), w)
    {
      mem := Poke(mem, Access(mem, dir, a).v, w);
    }

    /** `page_table_add`: every access goes through the window.  The assertion that v is not mapped yet fails exactly
        when it is.  `free` is what `palloc` has for a new table; with the
        pool full, its own assertion fails exactly when a table is needed. */
    method PageTableAdd(v: int, f: int, free: Option<int>) returns (panic: bool)
      requires Valid() && 0 <= v < WINDOW && f >= 0 && (free.Some? ==> free.v >= 0 && free.v != dir && TableAt(mem, free.v))
      modifies `mem
      ensures panic <==> || old(Translate(mem, dir, v)).Some?
                         || (!Present(old(Dirent(mem, dir, v))) && free.None?)
      ensures !panic ==> Valid() && mem == Added(old(mem), dir, v, f, if free.Some? then free.v else 0)
      ensures !panic ==> UserMayWrite(mem, dir, v) && Translate(mem, dir, v) == Some(f)
    {
      hide PtePtr, PdePtr, Pdi, Pti, Added;
      PtePtrReachesEntry(mem, dir, v);
      PdePtrReachesEntry(mem, dir, v);
      panic := false;
      var pde := Load(PdePtr(v));
      if Present(pde) {
        var pte := Load(PtePtr(v));
        if Present(pte) { return true; }
        ghost var table := if free.Some? then free.v else 0;
        AddedEntry(mem, dir, v, f, table);
        AddedGrants(mem, dir, v, f, table, v);
        AddedInTable(mem, dir, v, f, table, v);
        FillEntry(v, f, table);
      } else {
        if free.None? { return true; }
        AddedKeeps(mem, dir, v, f, free.v);
        AddedTableGrants(mem, dir, v, f, free.v, v);
        AddedTranslates(mem, dir, v, f, free.v);
        FillTable(v, f, free.v);
      }
    }

    /** The table is there: only the entry is written. */
    method FillEntry(v: int, f: int, ghost table: int)
      requires Valid() && 0 <= v < WINDOW && Present(Dirent(mem, dir, v))
      modifies `mem
      ensures mem == Added(old(mem), dir, v, f, table)
    {
      hide PtePtr;
      SamePage(v, v);
      PtePtrReachesEntry(mem, dir, v);
      assert TableAt(mem, Frame(At(mem, Loc(dir, Pdi(v)))));
      EntryThere(mem, dir, v);
      Save(PtePtr(v), Entry(f));
    }

    /** A new table is entered in the directory, zeroed through the window, and gets the entry. */
    method FillTable(v: int, f: int, table: int)
      requires Valid() && 0 <= v < WINDOW && !Present(Dirent(mem, dir, v)) && table >= 0
      requires table != dir && TableAt(mem, table)
      modifies `mem
      ensures mem == Added(old(mem), dir, v, f, table)
    {
      hide PtePtr, PdePtr;
      SamePage(v, v);
      PdePtrReachesEntry(mem, dir, v);
      EntryMeans(table);
      Save(PdePtr(v), Entry(table));
      ZeroTable(v, table);
      WindowEntry(mem, dir, v, table);
      Save(PtePtr(v), Entry(f));
      assert mem[table] == Zeroes()[Pti(v) := Entry(f)];
    }

    /** memset of the page of v's table entry, word by word. */
    method ZeroTable(v: int, ghost table: int)
      requires SelfMapped(mem, dir) && 0 <= v < WINDOW && TableAt(mem, table) && table >= 0
      requires table != dir && mem[dir][Pdi(v)] == Entry(table)
      modifies `mem
      ensures mem == old(mem)[table := Zeroes()]
    {
      var page := PtePtr(v) / PAGE * PAGE;
      var j := 0;
      while j < 1024
        invariant 0 <= j <= 1024 && SelfMapped(mem, dir) && TableAt(mem, table) && mem[dir] == old(mem)[dir]
        invariant mem == old(mem)[table := mem[table]] && forall i :: 0 <= i < j ==> mem[table][i] == 0
      {
        WindowWord(mem, dir, v, table, j);
        Save(page + 4 * j, 0);
        j := j + 1;
      }
      assert mem[table] == Zeroes();
    }
  }

  lemma WindowEntry(m: Memory, dir: int, v: int, table: int)
    requires SelfMapped(m, dir) && 0 <= v < WINDOW && m[dir][Pdi(v)] == Entry(table) && table >= 0
    ensures Access(m, dir, PtePtr(v)) == Some(Loc(table, Pti(v)))
  {
    EntryMeans(table);
    PtePtrReachesEntry(m, dir, v);
  }

  lemma EntryThere(m: Memory, dir: int, v: int)
    requires SelfMapped(m, dir) && 0 <= v < WINDOW && Present(Dirent(m, dir, v))
    ensures EntryLoc(m, dir, v).Some? && EntryLoc(m, dir, v).v == Loc(Frame(Dirent(m, dir, v)), Pti(v))
  {
  }

  /** Word `j` of the page of v's table entry is word `j` of v's table. */
  lemma WindowWord(m: Memory, dir: int, v: int, table: int, j: int)
    requires SelfMapped(m, dir) && 0 <= v < WINDOW && 0 <= j < 1024 && m[dir][Pdi(v)] == Entry(table) && table >= 0
    ensures Access(m, dir, PtePtr(v) / PAGE * PAGE + 4 * j) == Some(Loc(table, j))
  {
    PteIndices(v);
    EntryMeans(table);
    var a := PtePtr(v) / PAGE * PAGE + 4 * j;
    assert a / PAGE == PtePtr(v) / PAGE && a % PAGE == 4 * j;
    SamePage(a, PtePtr(v));
  }
}
