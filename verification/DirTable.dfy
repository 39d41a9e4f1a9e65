/** A directory as twelve blocks of 21 slots, and the map from names that it stands for.  A block is empty as a
    sequence when it is not allocated. */
module DirTable {
  import opened Basics
  import opened Words
  import opened Entries

  const DIR_BLOCKS: int := 12
  const DOT: Name := [46]
  const DOTDOT: Name := [46, 46]

  predicate Dots(n: Name) { n == DOT || n == DOTDOT }

  type Table = seq<seq<Entry>>

  datatype Spot = Spot(b: int, e: int)

  /** What a name stands for. */
  datatype Item = Item(ino: int, kind: int)

  predicate Live(x: Entry) { x.kind != UNKNOWN }

  /** The live entries of a block, and of the directory. */
  function LiveIn(xs: seq<Entry>): (n: nat) {
    if xs == [] then 0 else LiveIn(xs[..|xs| - 1]) + (if Live(xs[|xs| - 1]) then 1 else 0)
  }

  function Total(t: Table): (n: nat) {
    if t == [] then 0 else Total(t[..|t| - 1]) + LiveIn(t[|t| - 1])
  }

  /** A slot is zero, or it is the one slot of its name. */
  ghost predicate EntryOk(t: Table, spot: map<Name, Spot>, b: int, e: int)
    requires 0 <= b < |t| && 0 <= e < |t[b]|
  {
    var x := t[b][e];
    if Live(x) then Storable(x) && NameOk(x.name) && x.kind <= DIRECTORY && x.name in spot && spot[x.name] == Spot(b, e)
    else x == NONE
  }

  ghost predicate SpotOk(t: Table, spot: map<Name, Spot>, n: Name)
    requires n in spot
  {
    var s := spot[n];
    0 <= s.b < |t| && 0 <= s.e < |t[s.b]| && Live(t[s.b][s.e]) && t[s.b][s.e].name == n
  }

  ghost predicate ShapeOk(t: Table) {
    |t| == DIR_BLOCKS && forall b :: 0 <= b < |t| ==> |t[b]| == 0 || |t[b]| == PER_SECTOR
  }

  ghost predicate EntriesOk(t: Table, spot: map<Name, Spot>) {
    forall b, e :: 0 <= b < |t| && 0 <= e < |t[b]| ==> EntryOk(t, spot, b, e)
  }

  ghost predicate SpotsOk(t: Table, spot: map<Name, Spot>) {
    forall n :: n in spot ==> SpotOk(t, spot, n)
  }

  ghost predicate TableOk(t: Table, spot: map<Name, Spot>) {
    ShapeOk(t) && EntriesOk(t, spot) && SpotsOk(t, spot) && |spot| == Total(t)
  }

  /** The entry of a name. */
  ghost function Held(t: Table, spot: map<Name, Spot>, n: Name): (x: Entry)
    requires TableOk(t, spot) && n in spot
    ensures Live(x) && x.name == n
  {
    assert SpotOk(t, spot, n);
    t[spot[n].b][spot[n].e]
  }

  ghost function Items(t: Table, spot: map<Name, Spot>): (m: map<Name, Item>)
    requires TableOk(t, spot)
    ensures m.Keys == spot.Keys
  {
    map n | n in spot :: Item(Held(t, spot, n).ino, Held(t, spot, n).kind)
  }

  /** The first two slots are the directory and its parent; every other allocated block has a live entry. */
  ghost predicate DirOk(t: Table, spot: map<Name, Spot>, self: int, parent: int) {
    && TableOk(t, spot)
    && |t[0]| == PER_SECTOR && t[0][0] == Entry(DOT, self, DIRECTORY) && t[0][1] == Entry(DOTDOT, parent, DIRECTORY)
    && (forall b :: 1 <= b < |t| && t[b] != [] ==> LiveIn(t[b]) > 0)
  }

  // ---------------------------------------------------------------- counting

  lemma {:induction false} LiveUpdate(xs: seq<Entry>, e: int, x: Entry)
    requires 0 <= e < |xs|
    ensures LiveIn(xs[e := x]) == LiveIn(xs) - (if Live(xs[e]) then 1 else 0) + (if Live(x) then 1 else 0)
    decreases |xs|
  {
    var n := |xs| - 1;
    if e < n {
      assert xs[e := x][..n] == xs[..n][e := x];
      LiveUpdate(xs[..n], e, x);
    } else {
      assert xs[e := x][..n] == xs[..n];
    }
  }

  lemma {:induction false} TotalUpdate(t: Table, b: int, xs: seq<Entry>)
    requires 0 <= b < |t|
    ensures Total(t[b := xs]) == Total(t) - LiveIn(t[b]) + LiveIn(xs)
    decreases |t|
  {
    var n := |t| - 1;
    if b < n {
      assert t[b := xs][..n] == t[..n][b := xs];
      TotalUpdate(t[..n], b, xs);
    } else {
      assert t[b := xs][..n] == t[..n];
    }
  }

  lemma {:induction false} LiveNone(xs: seq<Entry>)
    ensures LiveIn(xs) == 0 <==> forall e :: 0 <= e < |xs| ==> !Live(xs[e])
    decreases |xs|
  {
    if xs != [] {
      var n := |xs| - 1;
      LiveNone(xs[..n]);
      assert (forall e :: 0 <= e < |xs| ==> !Live(xs[e])) <==> (forall e :: 0 <= e < n ==> !Live(xs[..n][e])) && !Live(xs[n]);
    }
  }

  lemma {:induction false} LiveAll(xs: seq<Entry>)
    ensures LiveIn(xs) <= |xs|
    ensures LiveIn(xs) == |xs| <==> forall e :: 0 <= e < |xs| ==> Live(xs[e])
    decreases |xs|
  {
    if xs != [] {
      var n := |xs| - 1;
      LiveAll(xs[..n]);
      assert (forall e :: 0 <= e < |xs| ==> Live(xs[e])) <==> (forall e :: 0 <= e < n ==> Live(xs[..n][e])) && Live(xs[n]);
    }
  }

  // ---------------------------------------------------------------- insertion

  function Fresh(): (xs: seq<Entry>)
    ensures |xs| == PER_SECTOR && forall e :: 0 <= e < |xs| ==> xs[e] == NONE
  {
    seq(PER_SECTOR, e => NONE)
  }

  /** A newly allocated, zeroed block. */
  lemma OpenBlock(t: Table, spot: map<Name, Spot>, b: int)
    requires TableOk(t, spot) && 0 <= b < |t| && t[b] == []
    ensures TableOk(t[b := Fresh()], spot) && LiveIn(Fresh()) == 0
  {
    LiveNone(Fresh());
    SwapBlock(t, spot, b, Fresh());
  }

  /** A block without live entries is given back. */
  lemma CloseBlock(t: Table, spot: map<Name, Spot>, b: int)
    requires TableOk(t, spot) && 0 <= b < |t| && LiveIn(t[b]) == 0
    ensures TableOk(t[b := []], spot)
  {
    LiveNone(t[b]);
    SwapBlock(t, spot, b, []);
  }

  /** A block without live entries for another one. */
  lemma SwapBlock(t: Table, spot: map<Name, Spot>, b: int, xs: seq<Entry>)
    requires TableOk(t, spot) && 0 <= b < |t| && LiveIn(t[b]) == 0 && LiveIn(xs) == 0 && (xs == [] || xs == Fresh())
    ensures TableOk(t[b := xs], spot)
  {
    hide LiveIn, Total;
    var r := t[b := xs];
    LiveNone(t[b]);
    TotalUpdate(t, b, xs);
    forall c, e | 0 <= c < |r| && 0 <= e < |r[c]| ensures EntryOk(r, spot, c, e) {
      if c != b { assert EntryOk(t, spot, c, e); }
    }
    forall n | n in spot ensures SpotOk(r, spot, n) { assert SpotOk(t, spot, n); }
  }

  ghost predicate NewEntry(spot: map<Name, Spot>, x: Entry) {
    Live(x) && Storable(x) && NameOk(x.name) && x.kind <= DIRECTORY && x.name !in spot
  }

  ghost function Put(t: Table, b: int, e: int, x: Entry): (r: Table)
    requires 0 <= b < |t| && 0 <= e < |t[b]|
  {
    t[b := t[b][e := x]]
  }

  lemma PutTotal(t: Table, b: int, e: int, x: Entry)
    requires 0 <= b < |t| && 0 <= e < |t[b]|
    ensures Total(Put(t, b, e, x)) == Total(t) - (if Live(t[b][e]) then 1 else 0) + (if Live(x) then 1 else 0)
    ensures LiveIn(Put(t, b, e, x)[b]) == LiveIn(t[b]) - (if Live(t[b][e]) then 1 else 0) + (if Live(x) then 1 else 0)
  {
    LiveUpdate(t[b], e, x);
    TotalUpdate(t, b, t[b][e := x]);
  }

  lemma InsertEntries(t: Table, spot: map<Name, Spot>, b: int, e: int, x: Entry)
    requires EntriesOk(t, spot) && 0 <= b < |t| && 0 <= e < |t[b]| && NewEntry(spot, x)
    ensures EntriesOk(Put(t, b, e, x), spot[x.name := Spot(b, e)])
  {
    hide Storable, NameOk;
    var r, sp := Put(t, b, e, x), spot[x.name := Spot(b, e)];
    forall c, f | 0 <= c < |r| && 0 <= f < |r[c]| ensures EntryOk(r, sp, c, f) {
      if !(c == b && f == e) { assert EntryOk(t, spot, c, f); }
    }
  }

  lemma InsertSpots(t: Table, spot: map<Name, Spot>, b: int, e: int, x: Entry)
    requires SpotsOk(t, spot) && 0 <= b < |t| && 0 <= e < |t[b]| && !Live(t[b][e]) && Live(x)
    ensures SpotsOk(Put(t, b, e, x), spot[x.name := Spot(b, e)])
  {
    var r, sp := Put(t, b, e, x), spot[x.name := Spot(b, e)];
    forall n | n in sp ensures SpotOk(r, sp, n) {
      if n != x.name { assert SpotOk(t, spot, n); }
    }
  }

  /** Writing a new entry into a free slot adds its name to the map. */
  lemma InsertKeeps(t: Table, spot: map<Name, Spot>, b: int, e: int, x: Entry)
    requires TableOk(t, spot) && 0 <= b < |t| && 0 <= e < |t[b]| && !Live(t[b][e]) && NewEntry(spot, x)
    ensures TableOk(Put(t, b, e, x), spot[x.name := Spot(b, e)])
  {
    hide EntriesOk, SpotsOk, NewEntry, Total, LiveIn;
    assert Live(x) && x.name !in spot by { NewMeans(spot, x); }
    InsertEntries(t, spot, b, e, x);
    InsertSpots(t, spot, b, e, x);
    PutTotal(t, b, e, x);
    assert spot[x.name := Spot(b, e)].Keys == spot.Keys + {x.name};
  }

  lemma NewMeans(spot: map<Name, Spot>, x: Entry)
    requires NewEntry(spot, x)
    ensures Live(x) && x.name !in spot
  {
  }

  // ---------------------------------------------------------------- removal

  lemma RemoveEntries(t: Table, spot: map<Name, Spot>, n: Name)
    requires EntriesOk(t, spot) && n in spot && SpotOk(t, spot, n)
    ensures EntriesOk(Put(t, spot[n].b, spot[n].e, NONE), spot - {n})
  {
    hide Storable, NameOk;
    var r, sp := Put(t, spot[n].b, spot[n].e, NONE), spot - {n};
    forall c, f | 0 <= c < |r| && 0 <= f < |r[c]| ensures EntryOk(r, sp, c, f) {
      assert EntryOk(t, spot, c, f);
    }
  }

  lemma RemoveSpots(t: Table, spot: map<Name, Spot>, n: Name)
    requires SpotsOk(t, spot) && n in spot && SpotOk(t, spot, n)
    ensures SpotsOk(Put(t, spot[n].b, spot[n].e, NONE), spot - {n})
  {
    var r, sp := Put(t, spot[n].b, spot[n].e, NONE), spot - {n};
    forall m | m in sp ensures SpotOk(r, sp, m) { assert SpotOk(t, spot, m); }
  }

  /** Zeroing the slot of a name removes it from the map. */
  lemma RemoveKeeps(t: Table, spot: map<Name, Spot>, n: Name)
    requires TableOk(t, spot) && n in spot && SpotOk(t, spot, n)
    ensures TableOk(Put(t, spot[n].b, spot[n].e, NONE), spot - {n})
  {
    hide EntriesOk, SpotsOk, Total, LiveIn;
    RemoveEntries(t, spot, n);
    RemoveSpots(t, spot, n);
    PutTotal(t, spot[n].b, spot[n].e, NONE);
    assert (spot - {n}).Keys == spot.Keys - {n};
  }

  // ---------------------------------------------------------------- the map

  ghost predicate SameEntry(t: Table, r: Table, s: Spot) {
    && 0 <= s.b < |t| && 0 <= s.e < |t[s.b]| && 0 <= s.b < |r| && 0 <= s.e < |r[s.b]|
    && r[s.b][s.e] == t[s.b][s.e]
  }

  lemma ItemsInserted(t: Table, spot: map<Name, Spot>, r: Table, x: Entry, s: Spot)
    requires TableOk(t, spot) && x.name !in spot && TableOk(r, spot[x.name := s])
    requires 0 <= s.b < |r| && 0 <= s.e < |r[s.b]| && r[s.b][s.e] == x
    requires forall n :: n in spot ==> SameEntry(t, r, spot[n])
    ensures Items(r, spot[x.name := s]) == Items(t, spot)[x.name := Item(x.ino, x.kind)]
  {
  }

  lemma ItemsRemoved(t: Table, spot: map<Name, Spot>, r: Table, m: Name)
    requires TableOk(t, spot) && TableOk(r, spot - {m})
    requires forall n :: n in spot && n != m ==> SameEntry(t, r, spot[n])
    ensures Items(r, spot - {m}) == Items(t, spot) - {m}
  {
  }

  // ---------------------------------------------------------------- where entries go

  /** The first free slot of a block from `e` on, or its length. */
  function RoomIn(xs: seq<Entry>, e: nat): (r: nat)
    requires e <= |xs|
    ensures e <= r <= |xs| && (r < |xs| ==> !Live(xs[r])) && forall f :: e <= f < r ==> Live(xs[f])
    decreases |xs| - e
  {
    if e == |xs| || !Live(xs[e]) then e else RoomIn(xs, e + 1)
  }

  /** The first block from `b` on that is not allocated or has a free slot. */
  function FirstRoom(t: Table, b: nat): (r: Option<Spot>)
    ensures r.Some? ==> b <= r.v.b < |t| && (t[r.v.b] == [] ==> r.v.e == 0)
    ensures r.Some? && t[r.v.b] != [] ==> 0 <= r.v.e < |t[r.v.b]| && !Live(t[r.v.b][r.v.e])
    decreases |t| - b
  {
    if b >= |t| then None
    else if t[b] == [] then Some(Spot(b, 0))
    else if RoomIn(t[b], 0) < |t[b]| then Some(Spot(b, RoomIn(t[b], 0)))
    else FirstRoom(t, b + 1)
  }

  /** The table with a new entry. */
  ghost function Inserted(t: Table, s: Spot, x: Entry): (r: Table)
    requires 0 <= s.b < |t| && (if t[s.b] == [] then s.e == 0 else 0 <= s.e < |t[s.b]|)
  {
    if t[s.b] == [] then Put(t[s.b := Fresh()], s.b, 0, x) else Put(t, s.b, s.e, x)
  }

  /** The table without an entry; a block other than the first goes with its last entry. */
  ghost function Removed(t: Table, s: Spot): (r: Table)
    requires 0 <= s.b < |t| && 0 <= s.e < |t[s.b]|
  {
    var r := Put(t, s.b, s.e, NONE);
    if s.b > 0 && LiveIn(r[s.b]) == 0 then r[s.b := []] else r
  }

  /** It is the first: every block before it is there and full, and so is its block up to it. */
  lemma {:induction false} FirstRoomIsFirst(t: Table, b: nat)
    requires FirstRoom(t, b).Some?
    ensures var s := FirstRoom(t, b).v;
            && b <= s.b < |t|
            && (forall c, e :: b <= c < s.b && 0 <= e < |t[c]| ==> Live(t[c][e]))
            && (forall c :: b <= c < s.b ==> t[c] != [])
            && (forall e :: 0 <= e < s.e && e < |t[s.b]| ==> Live(t[s.b][e]))
    decreases |t| - b
  {
    if t[b] != [] && RoomIn(t[b], 0) >= |t[b]| { FirstRoomIsFirst(t, b + 1); }
  }

  lemma {:induction false} NoRoomIsFull(t: Table, b: nat)
    requires ShapeOk(t) && b <= |t| && FirstRoom(t, b).None? && Total(t[..b]) == PER_SECTOR * b
    ensures Total(t) == PER_SECTOR * DIR_BLOCKS
    decreases |t| - b
  {
    if b < |t| {
      assert t[..b + 1][..b] == t[..b];
      LiveAll(t[b]);
      NoRoomIsFull(t, b + 1);
    } else {
      assert t[..b] == t;
    }
  }

  /** Below 252 entries there is room. */
  lemma RoomBelow252(t: Table)
    requires ShapeOk(t) && Total(t) < 252
    ensures FirstRoom(t, 0).Some?
  {
    if FirstRoom(t, 0).None? { NoRoomIsFull(t, 0); }
  }

  lemma InsertedTable(t: Table, spot: map<Name, Spot>, s: Spot, x: Entry)
    requires TableOk(t, spot) && NewEntry(spot, x) && FirstRoom(t, 0) == Some(s)
    ensures TableOk(Inserted(t, s, x), spot[x.name := s]) && Total(Inserted(t, s, x)) == Total(t) + 1
    ensures LiveIn(Inserted(t, s, x)[s.b]) > 0
  {
    hide TableOk, ShapeOk, Total, LiveIn, NewEntry;
    NewMeans(spot, x);
    var u := if t[s.b] == [] then t[s.b := Fresh()] else t;
    if t[s.b] == [] { LiveNone([]); OpenBlock(t, spot, s.b); TotalUpdate(t, s.b, Fresh()); }
    InsertKeeps(u, spot, s.b, s.e, x);
    PutTotal(u, s.b, s.e, x);
  }

  lemma InsertedItems(t: Table, spot: map<Name, Spot>, s: Spot, x: Entry)
    requires TableOk(t, spot) && NewEntry(spot, x) && FirstRoom(t, 0) == Some(s)
    requires TableOk(Inserted(t, s, x), spot[x.name := s])
    ensures Items(Inserted(t, s, x), spot[x.name := s]) == Items(t, spot)[x.name := Item(x.ino, x.kind)]
  {
    hide ShapeOk, EntriesOk, Total, LiveIn, NewEntry, Items;
    NewMeans(spot, x);
    var r := Inserted(t, s, x);
    forall n | n in spot ensures SameEntry(t, r, spot[n]) { assert SpotOk(t, spot, n); }
    ItemsInserted(t, spot, r, x, s);
  }

  /** The entry goes where there is room, and the directory stands for the map with its name. */
  lemma InsertedKeeps(t: Table, spot: map<Name, Spot>, self: int, parent: int, s: Spot, x: Entry)
    requires DirOk(t, spot, self, parent) && NewEntry(spot, x) && FirstRoom(t, 0) == Some(s)
    ensures DirOk(Inserted(t, s, x), spot[x.name := s], self, parent)
    ensures Total(Inserted(t, s, x)) == Total(t) + 1
    ensures Items(Inserted(t, s, x), spot[x.name := s]) == Items(t, spot)[x.name := Item(x.ino, x.kind)]
  {
    hide TableOk, ShapeOk, Total, LiveIn, NewEntry, Items;
    InsertedTable(t, spot, s, x);
    InsertedItems(t, spot, s, x);
  }

  lemma RemovedTable(t: Table, spot: map<Name, Spot>, n: Name)
    requires TableOk(t, spot) && n in spot && SpotOk(t, spot, n)
    ensures TableOk(Removed(t, spot[n]), spot - {n}) && Total(Removed(t, spot[n])) == Total(t) - 1
    ensures spot[n].b > 0 && Removed(t, spot[n])[spot[n].b] != [] ==> LiveIn(Removed(t, spot[n])[spot[n].b]) > 0
  {
    hide TableOk, ShapeOk, Total, LiveIn;
    var s := spot[n];
    var u := Put(t, s.b, s.e, NONE);
    RemoveKeeps(t, spot, n);
    PutTotal(t, s.b, s.e, NONE);
    if s.b > 0 && LiveIn(u[s.b]) == 0 { LiveNone([]); CloseBlock(u, spot - {n}, s.b); TotalUpdate(u, s.b, []); }
  }

  lemma RemovedItems(t: Table, spot: map<Name, Spot>, n: Name)
    requires TableOk(t, spot) && n in spot && SpotOk(t, spot, n) && TableOk(Removed(t, spot[n]), spot - {n})
    ensures Items(Removed(t, spot[n]), spot - {n}) == Items(t, spot) - {n}
  {
    hide ShapeOk, EntriesOk, Total, LiveIn, Items;
    var r := Removed(t, spot[n]);
    forall m | m in spot && m != n ensures SameEntry(t, r, spot[m]) { assert SpotOk(t, spot, m) && SpotOk(r, spot - {n}, m); }
    ItemsRemoved(t, spot, r, n);
  }

  /** A name other than the two dots is taken out of the map. */
  lemma RemovedKeeps(t: Table, spot: map<Name, Spot>, self: int, parent: int, n: Name)
    requires DirOk(t, spot, self, parent) && n in spot && n != DOT && n != DOTDOT && SpotOk(t, spot, n)
    ensures DirOk(Removed(t, spot[n]), spot - {n}, self, parent)
    ensures Total(Removed(t, spot[n])) == Total(t) - 1
    ensures Items(Removed(t, spot[n]), spot - {n}) == Items(t, spot) - {n}
  {
    hide TableOk, ShapeOk, Total, LiveIn, Items;
    RemovedTable(t, spot, n);
    RemovedItems(t, spot, n);
  }

  // ---------------------------------------------------------------- a new directory

  function NoBlocks(): (t: Table) { seq(DIR_BLOCKS, b => []) }

  /** The first block of a new directory. */
  function DotSlots(self: int, parent: int): (xs: seq<Entry>) {
    Fresh()[0 := Entry(DOT, self, DIRECTORY)][1 := Entry(DOTDOT, parent, DIRECTORY)]
  }

  ghost function DotSpots(): (spot: map<Name, Spot>) { map[DOT := Spot(0, 0), DOTDOT := Spot(0, 1)] }

  lemma {:induction false} EmptyTotal(n: nat)
    ensures Total(seq(n, b => [])) == 0
  {
    if n > 0 {
      var t: Table := seq(n, b => []);
      assert t[..n - 1] == seq(n - 1, b => []);
      EmptyTotal(n - 1);
    }
  }

  lemma EmptyTable()
    ensures TableOk(NoBlocks(), map[])
  {
    EmptyTotal(DIR_BLOCKS);
  }

  lemma NewDirTable(self: int, parent: int)
    requires 0 <= self < WORD_LIMIT && 0 <= parent < WORD_LIMIT
    ensures TableOk(NoBlocks()[0 := DotSlots(self, parent)], DotSpots())
  {
    hide TableOk, Total, LiveIn;
    var x, y := Entry(DOT, self, DIRECTORY), Entry(DOTDOT, parent, DIRECTORY);
    EmptyTable();
    OpenBlock(NoBlocks(), map[], 0);
    var t := NoBlocks()[0 := Fresh()];
    InsertKeeps(t, map[], 0, 0, x);
    var u := Put(t, 0, 0, x);
    InsertKeeps(u, map[x.name := Spot(0, 0)], 0, 1, y);
    assert Put(u, 0, 1, y) == NoBlocks()[0 := DotSlots(self, parent)];
    assert map[x.name := Spot(0, 0)][y.name := Spot(0, 1)] == DotSpots();
  }

  /** The two dots and nothing else. */
  lemma NewDirOk(self: int, parent: int)
    requires 0 <= self < WORD_LIMIT && 0 <= parent < WORD_LIMIT
    ensures DirOk(NoBlocks()[0 := DotSlots(self, parent)], DotSpots(), self, parent)
    ensures Total(NoBlocks()[0 := DotSlots(self, parent)]) == 2
    ensures Items(NoBlocks()[0 := DotSlots(self, parent)], DotSpots())
         == map[DOT := Item(self, DIRECTORY), DOTDOT := Item(parent, DIRECTORY)]
  {
    var t := NoBlocks()[0 := DotSlots(self, parent)];
    NewDirTable(self, parent);
    assert DotSpots().Keys == {DOT, DOTDOT};
    assert Held(t, DotSpots(), DOT) == t[0][0] && Held(t, DotSpots(), DOTDOT) == t[0][1];
  }
}
