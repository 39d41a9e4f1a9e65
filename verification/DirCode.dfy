/** The directory operations over the sectors of a partition: search, insertion, deletion and reading. */
module DirCode {
  import opened Basics
  import opened Bitmaps
  import opened Words
  import opened Ledgers
  import opened Volume
  import opened Entries
  import opened DirTable
  import opened FileCode

  function BlockSlots(disk: Disk, l: int): (xs: seq<Entry>) {
    if 0 < l < |disk| && |disk[l]| == BLOCK then Slots(disk[l]) else []
  }

  /** The slots of a directory's direct blocks. */
  function TableOf(disk: Disk, refs: seq<int>): (t: Table)
    requires |refs| == REFS
    ensures |t| == DIR_BLOCKS
  {
    seq(DIR_BLOCKS, b requires 0 <= b < DIR_BLOCKS => BlockSlots(disk, refs[b]))
  }

  /** The inode is a directory in direct blocks, and its size is 24 times its live entries. */
  ghost predicate DirAt(disk: Disk, n: Inode, refs: seq<int>, spot: map<Name, Spot>, self: int, parent: int) {
    && |refs| == REFS && (forall k :: DIRECT <= k < REFS ==> refs[k] == 0)
    && DirOk(TableOf(disk, refs), spot, self, parent)
    && n.size == SLOT * Total(TableOf(disk, refs))
  }

  ghost predicate IsDir(p: Partition, i: int, spot: map<Name, Spot>, parent: int)
    reads p
  {
    i in p.inodes && i in p.refs && DirAt(p.disk, p.inodes[i], p.refs[i], spot, i, parent)
  }

  // ---------------------------------------------------------------- search

  /** The first slot of a sector from `e` on that holds the name. */
  function NameIn(xs: seq<Entry>, n: Name, e: nat): (r: nat)
    requires e <= |xs|
    ensures e <= r <= |xs| && (r < |xs| ==> xs[r].name == n) && forall f :: e <= f < r ==> xs[f].name != n
    decreases |xs| - e
  {
    if e == |xs| || xs[e].name == n then e else NameIn(xs, n, e + 1)
  }

  method SearchSector(s: Sector, n: Name) returns (r: Option<Entry>)
    requires |s| == BLOCK
    ensures r.None? <==> NameIn(Slots(s), n, 0) == PER_SECTOR
    ensures r.Some? ==> r.v == Slots(s)[NameIn(Slots(s), n, 0)]
  {
    ghost var xs := Slots(s);
    var e := 0;
    while e < PER_SECTOR
      invariant 0 <= e <= PER_SECTOR && NameIn(xs, n, 0) == NameIn(xs, n, e)
    {
      var x := EntryAt(s, e);
      assert x == xs[e];
      if x.name == n { return Some(x); }
      e := e + 1;
    }
    r := None;
  }

  /** A name other than the empty one is found in a table exactly when the map has it, and with its entry. */
  lemma FoundHere(t: Table, spot: map<Name, Spot>, n: Name, b: int, e: int)
    requires TableOk(t, spot) && NameOk(n) && 0 <= b < |t| && 0 <= e < |t[b]| && t[b][e].name == n
    ensures n in spot && Held(t, spot, n) == t[b][e]
  {
    assert EntryOk(t, spot, b, e);
  }

  /** `search_dir_entry` */
  method SearchDirEntry(p: Partition, i: int, n: Name, ghost spot: map<Name, Spot>, ghost parent: int)
    returns (r: Option<Entry>)
    requires p.Valid() && IsDir(p, i, spot, parent) && NameOk(n)
    ensures r.Some? <==> n in spot
    ensures r.Some? ==> r.v == Held(TableOf(p.disk, p.refs[i]), spot, n)
  {
    hide Sound, DirOk, Total, Slots;
    ghost var t: Table := TableOf(p.disk, p.refs[i]);
    assert TableOk(t, spot) by { DirTableOk(t, spot, i, parent); }
    hide TableOk, TableOf;
    var all := p.AllBlocks(i);
    var b := 0;
    while b < BLOCKS
      invariant 0 <= b <= BLOCKS
      invariant forall c: int, e: int :: 0 <= c < b && c < |t| && 0 <= e < |t[c]| ==> t[c][e].name != n
    {
      BlockOf(p.start, p.disk, p.inodes, p.Book(), i, b);
      if all[b] != 0 {
        var x := SearchSector(p.disk[all[b]], n);
        if x.Some? {
          FoundHere(t, spot, n, b, NameIn(t[b], n, 0));
          return x;
        }
      }
      b := b + 1;
    }
    if n in spot { NotFound(t, spot, n); assert false; }
    r := None;
  }

  lemma DirTableOk(t: Table, spot: map<Name, Spot>, self: int, parent: int)
    requires DirOk(t, spot, self, parent)
    ensures TableOk(t, spot)
  {
  }

  lemma NotFound(t: Table, spot: map<Name, Spot>, n: Name)
    requires TableOk(t, spot) && n in spot
    ensures exists b: int, e: int :: 0 <= b < |t| && 0 <= e < |t[b]| && t[b][e].name == n
  {
    assert SpotOk(t, spot, n);
    assert t[spot[n].b][spot[n].e].name == n;
  }

  /** Block `b` of the table is the sector of reference `b`. */
  lemma BlockOf(start: int, disk: Disk, inodes: map<int, Inode>, g: Ledger, i: int, b: int)
    requires Sound(start, disk, inodes, g) && i in g.refs && |g.refs[i]| == REFS && 0 <= b < BLOCKS
    requires forall k :: DIRECT <= k < REFS ==> g.refs[i][k] == 0
    ensures g.refs[i][b] == 0 && b < DIR_BLOCKS ==> TableOf(disk, g.refs[i])[b] == []
    ensures g.refs[i][b] != 0 ==> b < DIR_BLOCKS && 0 < g.refs[i][b] < |disk| && |disk[g.refs[i][b]]| == BLOCK
                                  && TableOf(disk, g.refs[i])[b] == Slots(disk[g.refs[i][b]])
  {
    OwnRefs(start, g, i);
  }

  // ---------------------------------------------------------------- insertion

  /** One block of the directory is written. */
  lemma TableWrite(disk: Disk, refs: seq<int>, b: int, s: Sector)
    requires |refs| == REFS && DistinctBlocks(refs) && 0 <= b < DIR_BLOCKS && 0 < refs[b] < |disk| && |s| == BLOCK
    ensures TableOf(disk[refs[b] := s], refs) == TableOf(disk, refs)[b := Slots(s)]
  {
    var d := disk[refs[b] := s];
    forall c | 0 <= c < DIR_BLOCKS ensures TableOf(d, refs)[c] == TableOf(disk, refs)[b := Slots(s)][c] { }
  }

  lemma EntryBytes(x: Entry)
    requires Storable(x)
    ensures Slots(Splice(Zeros(BLOCK), 0, ToBytes(x))) == Fresh()[0 := x]
  {
    SlotsSplice(Zeros(BLOCK), 0, ToBytes(x));
    SlotsOfZeros();
    FromTo(x);
    assert Slots(Zeros(BLOCK)) == Fresh();
  }

  /** What an insertion at `s` leaves behind. */
  ghost predicate Entered(start: int, disk0: Disk, inodes0: map<int, Inode>, g0: Ledger,
                          disk: Disk, inodes: map<int, Inode>, g: Ledger, i: int, t: Table, size: int)
  {
    && i in inodes0 && i in inodes && i in g.refs && Sound(start, disk, inodes, g) && |g.bits| == |g0.bits|
    && inodes == inodes0[i := inodes[i]] && g.refs == g0.refs[i := g.refs[i]] && Apart(g.owner, disk0, disk, i)
    && |g.refs[i]| == REFS && (forall k :: DIRECT <= k < REFS ==> g.refs[i][k] == 0)
    && TableOf(disk, g.refs[i]) == t && inodes[i].size == size
    && (i in g0.refs && |g0.refs[i]| == REFS && g0.refs[i][0] != 0 ==> g.refs[i][0] == g0.refs[i][0])
  }

  lemma RootFirst(start: int, disk: Disk, inodes: map<int, Inode>, g: Ledger)
    requires Sound(start, disk, inodes, g)
    ensures start > 0 && 0 in g.refs && |g.refs[0]| == REFS && g.refs[0][0] == start
  {
  }

  lemma InodeOf(start: int, disk: Disk, inodes: map<int, Inode>, g: Ledger, i: int, b: int)
    requires Sound(start, disk, inodes, g) && i in inodes && 0 <= b < DIR_BLOCKS
    ensures i in g.refs && |g.refs[i]| == REFS && |inodes[i].sectors| == 13 && inodes[i].sectors[b] == g.refs[i][b]
  {
    assert Linked(disk, inodes[i], g.refs[i]);
    assert g.refs[i][b] == Ref(disk, inodes[i], b);
  }

  /** One block of the directory is written and its size changed. */
  lemma BlockWritten(start: int, disk: Disk, inodes: map<int, Inode>, g: Ledger, i: int, b: int, s: Sector, size: int)
    requires Sound(start, disk, inodes, g) && i in inodes && i in g.refs && |g.refs[i]| == REFS
    requires 0 <= b < DIR_BLOCKS && g.refs[i][b] != 0 && |s| == BLOCK
    ensures 0 < g.refs[i][b] < |disk|
    ensures Sound(start, disk[g.refs[i][b] := s], inodes[i := inodes[i].(size := size)], g)
    ensures Apart(g.owner, disk, disk[g.refs[i][b] := s], i)
    ensures TableOf(disk[g.refs[i][b] := s], g.refs[i]) == TableOf(disk, g.refs[i])[b := Slots(s)]
  {
    OwnRefs(start, g, i);
    DataWrite(start, disk, inodes, g, i, b, s, size);
    TableWrite(disk, g.refs[i], b, s);
  }

  /** The entry goes into a free slot of an allocated block. */
  method WriteSlot(p: Partition, i: int, b: int, e: int, bytes: seq<Byte>, delta: int, ghost t: Table)
    requires p.Valid() && i in p.inodes && i in p.refs && |p.refs[i]| == REFS && t == TableOf(p.disk, p.refs[i])
    requires forall k :: DIRECT <= k < REFS ==> p.refs[i][k] == 0
    requires 0 <= b < DIR_BLOCKS && p.refs[i][b] != 0 && 0 <= e < PER_SECTOR && |bytes| == SLOT
    modifies p`disk, p`inodes
    ensures |t[b]| == PER_SECTOR
    ensures Entered(p.start, old(p.disk), old(p.inodes), old(p.Book()), p.disk, p.inodes, p.Book(), i,
                    Put(t, b, e, FromBytes(bytes)), old(p.inodes[i].size) + delta)
  {
    hide Sound, Slots, TableOf;
    BlockOf(p.start, p.disk, p.inodes, p.Book(), i, b);
    InodeOf(p.start, p.disk, p.inodes, p.Book(), i, b);
    var lba := p.inodes[i].sectors[b];
    var s := Splice(p.disk[lba], SLOT * e, bytes);
    SlotsSplice(p.disk[lba], e, bytes);
    BlockWritten(p.start, p.disk, p.inodes, p.Book(), i, b, s, p.inodes[i].size + delta);
    p.disk := p.disk[lba := s];
    p.inodes := p.inodes[i := p.inodes[i].(size := p.inodes[i].size + delta)];
  }

  lemma TableGrown(disk: Disk, refs: seq<int>, b: int, l: int, xs: seq<Entry>)
    requires |refs| == REFS && 0 <= b < DIR_BLOCKS
    ensures TableOf(disk, refs[b := l])[b := xs] == TableOf(disk, refs)[b := xs]
  {
    var u, v := TableOf(disk, refs[b := l]), TableOf(disk, refs);
    forall c | 0 <= c < DIR_BLOCKS && c != b ensures u[c] == v[c] { }
  }

  /** A block is allocated, zeroed and given the entry in its first slot. */
  method WriteNewBlock(p: Partition, i: int, b: int, x: Entry, delta: int, ghost t: Table) returns (panic: bool)
    requires p.Valid() && i in p.inodes && i in p.refs && |p.refs[i]| == REFS && t == TableOf(p.disk, p.refs[i])
    requires forall k :: DIRECT <= k < REFS ==> p.refs[i][k] == 0
    requires 0 <= b < DIR_BLOCKS && p.refs[i][b] == 0 && Storable(x)
    modifies p
    ensures panic <==> Free(old(p.bits)) == 0
    ensures !panic ==> Entered(p.start, old(p.disk), old(p.inodes), old(p.Book()), p.disk, p.inodes, p.Book(), i,
                               Put(t[b := Fresh()], b, 0, x), old(p.inodes[i].size) + delta)
    ensures !panic ==> Free(p.bits) == Free(old(p.bits)) - 1
  {
    hide Sound, Slots, TableOf, Free;
    panic := NewBlock(p, i, b);
    if panic { return; }
    var s := Splice(Zeros(BLOCK), 0, ToBytes(x));
    EntryBytes(x);
    TableGrown(p.disk, old(p.refs[i]), b, p.refs[i][b], Slots(s));
    BlockWritten(p.start, p.disk, p.inodes, p.Book(), i, b, s, p.inodes[i].size + delta);
    p.disk := p.disk[p.inodes[i].sectors[b] := s];
    p.inodes := p.inodes[i := p.inodes[i].(size := p.inodes[i].size + delta)];
  }

  method NewBlock(p: Partition, i: int, b: int) returns (panic: bool)
    requires p.Valid() && i in p.inodes && i in p.refs && |p.refs[i]| == REFS
    requires forall k :: DIRECT <= k < REFS ==> p.refs[i][k] == 0
    requires 0 <= b < DIR_BLOCKS && p.refs[i][b] == 0
    modifies p`bits, p`inodes, p`refs, p`owner
    ensures panic <==> Free(old(p.bits)) == 0
    ensures !panic ==>
              && p.Valid() && i in p.inodes && i in p.refs && |p.bits| == |old(p.bits)|
              && Free(p.bits) == Free(old(p.bits)) - 1
              && p.inodes == old(p.inodes)[i := p.inodes[i]] && p.refs == old(p.refs)[i := p.refs[i]]
              && p.inodes[i].size == old(p.inodes[i].size) && |p.inodes[i].sectors| == 13
              && |p.refs[i]| == REFS && p.refs[i][b] != 0 && p.refs[i] == old(p.refs[i])[b := p.refs[i][b]]
              && p.inodes[i].sectors[b] == p.refs[i][b] && |old(p.inodes[i].sectors)| == 13
              && p.inodes[i].sectors == old(p.inodes[i].sectors)[b := p.refs[i][b]] && p.refs[i][b] == FirstFree(p.start, old(p.bits))
  {
    hide Owned, Free, FirstFree;
    RootFirst(p.start, p.disk, p.inodes, p.Book());
    var all := seq(BLOCKS, k => 0);
    assert Linked(p.disk, p.inodes[i], p.refs[i]);
    NoTable(p.disk, p.inodes[i], p.refs[i], all);
    panic, all := p.GrowOne(i, all, b);
    if panic { return; }
    NoTableLinked(p.disk, p.inodes[i], p.refs[i], all);
    SoundAgain(p.start, p.disk, old(p.inodes), old(p.Book()), p.disk, p.inodes, p.Book(), i);
  }

  method FreeSlotIn(s: Sector) returns (e: int)
    requires |s| == BLOCK
    ensures e == RoomIn(Slots(s), 0)
  {
    e := 0;
    ghost var xs := Slots(s);
    while e < PER_SECTOR
      invariant 0 <= e <= PER_SECTOR && RoomIn(xs, 0) == RoomIn(xs, e)
    {
      assert EntryAt(s, e) == xs[e];
      if EntryAt(s, e).kind == UNKNOWN { return; }
      e := e + 1;
    }
  }

  /** `sync_dir_entry`, below 252 entries: the new entry goes into the first free slot or block. */
  method SyncDirEntry(p: Partition, i: int, x: Entry, ghost spot: map<Name, Spot>, ghost parent: int)
    returns (panic: bool, ghost s: Spot)
    requires p.Valid() && IsDir(p, i, spot, parent) && NewEntry(spot, x)
    requires Total(TableOf(p.disk, p.refs[i])) < 252
    modifies p
    ensures FirstRoom(old(TableOf(p.disk, p.refs[i])), 0) == Some(s)
    ensures panic <==> old(TableOf(p.disk, p.refs[i]))[s.b] == [] && Free(old(p.bits)) == 0
    ensures !panic ==> Entered(p.start, old(p.disk), old(p.inodes), old(p.Book()), p.disk, p.inodes, p.Book(), i,
                               Inserted(old(TableOf(p.disk, p.refs[i])), s, x), old(p.inodes[i].size) + SLOT)
    ensures !panic ==> Free(p.bits) == Free(old(p.bits)) - (if old(TableOf(p.disk, p.refs[i]))[s.b] == [] then 1 else 0)
  {
    hide Sound, DirOk, Total, Slots, Entered, NewEntry, Free;
    ghost var t: Table := TableOf(p.disk, p.refs[i]);
    assert ShapeOk(t) by { DirTableOk(t, spot, i, parent); TableShape(t, spot); }
    RoomBelow252(t);
    s := FirstRoom(t, 0).v;
    hide TableOf;
    panic := false;
    var all := p.GatherDirect(i, seq(BLOCKS, k => 0), 0, DIRECT);
    var b := 0;
    while b < BLOCKS
      invariant 0 <= b <= s.b && FirstRoom(t, b) == Some(s)
      invariant p.disk == old(p.disk) && p.inodes == old(p.inodes) && p.Book() == old(p.Book())
      decreases BLOCKS - b
    {
      BlockOf(p.start, p.disk, p.inodes, p.Book(), i, b);
      if all[b] == 0 {
        NewStorable(spot, x);
        panic := WriteNewBlock(p, i, b, x, SLOT, t);
        return;
      }
      var e := FreeSlotIn(p.disk[all[b]]);
      if e < PER_SECTOR {
        NewStorable(spot, x);
        FromTo(x);
        WriteSlot(p, i, b, e, ToBytes(x), SLOT, t);
        return;
      }
      b := b + 1;
    }
    assert false;
  }

  lemma TableShape(t: Table, spot: map<Name, Spot>)
    requires TableOk(t, spot)
    ensures ShapeOk(t)
  {
  }

  lemma NewStorable(spot: map<Name, Spot>, x: Entry)
    requires NewEntry(spot, x)
    ensures Storable(x)
  {
  }

  // ---------------------------------------------------------------- deletion

  /** A live entry other than the two dots. */
  predicate Proper(x: Entry) { Live(x) && !Dots(x.name) }

  function ProperIn(xs: seq<Entry>): (n: nat) {
    if xs == [] then 0 else ProperIn(xs[..|xs| - 1]) + (if Proper(xs[|xs| - 1]) then 1 else 0)
  }

  /** What the inner loop of `delete_dir_entry` knows: is the current directory's entry here, how many proper
      entries are, and which of them has the inode number, -1 for none; or that two have it. */
  datatype Scan = Scan(first: bool, cnt: int, found: int) | Twice

  /** ... after the first `e` slots. */
  function Scanned(xs: seq<Entry>, ino: int, e: nat): (r: Scan)
    requires e <= |xs|
  {
    if e == 0 then Scan(false, 0, -1)
    else
      var r := Scanned(xs, ino, e - 1);
      var x := xs[e - 1];
      if r.Twice? || !Live(x) || x.name == DOTDOT then r
      else if x.name == DOT then r.(first := true)
      else if x.ino != ino then r.(cnt := r.cnt + 1)
      else if r.found != -1 then Twice
      else r.(cnt := r.cnt + 1, found := e - 1)
  }

  method ScanSector(s: Sector, ino: int) returns (r: Scan)
    requires |s| == BLOCK
    ensures r == Scanned(Slots(s), ino, PER_SECTOR)
  {
    hide EntryAt;
    ghost var xs: seq<Entry> := Slots(s);
    var first, cnt, found := false, 0, -1;
    ghost var done := Scanned(xs, ino, PER_SECTOR);
    var e := 0;
    while e < PER_SECTOR
      invariant 0 <= e <= PER_SECTOR && Scanned(xs, ino, e) == Scan(first, cnt, found)
    {
      var x := EntryAt(s, e);
      assert x == xs[e];
      if x.kind != UNKNOWN {
        if x.name == DOT {
          first := true;
        } else if x.name != DOTDOT {
          cnt := cnt + 1;
          if x.ino == ino {
            if found != -1 {
              StaysTwice(xs, ino, e + 1, PER_SECTOR);
              return Twice;
            }
            found := e;
          }
        }
      }
      e := e + 1;
    }
    r := Scan(first, cnt, found);
  }

  lemma {:induction false} StaysTwice(xs: seq<Entry>, ino: int, e: nat, end: nat)
    requires e <= end <= |xs| && Scanned(xs, ino, e).Twice?
    ensures Scanned(xs, ino, end).Twice?
    decreases end
  {
    if e < end { StaysTwice(xs, ino, e, end - 1); }
  }

  lemma {:induction false} ScanMeans(xs: seq<Entry>, ino: int, e: nat)
    requires e <= |xs|
    requires forall f, g :: 0 <= f < g < e && Proper(xs[f]) && Proper(xs[g]) && xs[f].ino == ino ==> xs[g].ino != ino
    ensures var r := Scanned(xs, ino, e);
            && r.Scan? && r.cnt == ProperIn(xs[..e]) && -1 <= r.found < e
            && (r.first <==> exists f :: 0 <= f < e && Live(xs[f]) && xs[f].name == DOT)
            && (r.found == -1 ==> forall f :: 0 <= f < e && Proper(xs[f]) ==> xs[f].ino != ino)
            && (r.found != -1 ==> Proper(xs[r.found]) && xs[r.found].ino == ino)
  {
    if e > 0 {
      ScanMeans(xs, ino, e - 1);
      assert xs[..e][..e - 1] == xs[..e - 1];
    }
  }

  predicate Twins(x: Entry, y: Entry) { Proper(x) && Proper(y) && x.ino == y.ino }

  /** No two proper entries name the same inode. */
  ghost predicate InosDistinct(t: Table) {
    forall b, e, c, f :: 0 <= b < |t| && 0 <= e < |t[b]| && 0 <= c < |t| && 0 <= f < |t[c]| && Twins(t[b][e], t[c][f]) ==>
                           b == c && e == f
  }

  lemma {:induction false} ProperIsLive(xs: seq<Entry>)
    requires forall e :: 0 <= e < |xs| && Live(xs[e]) ==> !Dots(xs[e].name)
    ensures ProperIn(xs) == LiveIn(xs)
    decreases |xs|
  {
    if xs != [] { ProperIsLive(xs[..|xs| - 1]); }
  }

  /** Only the first block has the dots. */
  lemma DotsFirst(t: Table, spot: map<Name, Spot>, self: int, parent: int, b: int, e: int)
    requires DirOk(t, spot, self, parent) && 0 < b < |t| && 0 <= e < |t[b]| && Live(t[b][e])
    ensures !Dots(t[b][e].name)
  {
    assert EntryOk(t, spot, b, e) && EntryOk(t, spot, 0, 0) && EntryOk(t, spot, 0, 1);
  }

  lemma BlockScan(t: Table, spot: map<Name, Spot>, self: int, parent: int, b: int, ino: int)
    requires DirOk(t, spot, self, parent) && InosDistinct(t) && 0 <= b < |t| && |t[b]| == PER_SECTOR
    ensures var r := Scanned(t[b], ino, PER_SECTOR);
            && r.Scan? && (r.first <==> b == 0) && (b > 0 ==> r.cnt == LiveIn(t[b])) && -1 <= r.found < PER_SECTOR
            && (r.found == -1 ==> forall e :: 0 <= e < PER_SECTOR && Proper(t[b][e]) ==> t[b][e].ino != ino)
            && (r.found != -1 ==> Proper(t[b][r.found]) && t[b][r.found].ino == ino)
  {
    hide Scanned, TableOk, LiveIn;
    ScanMeans(t[b], ino, PER_SECTOR);
    assert t[b][..PER_SECTOR] == t[b];
    if b > 0 {
      forall e | 0 <= e < PER_SECTOR && Live(t[b][e]) ensures !Dots(t[b][e].name) { DotsFirst(t, spot, self, parent, b, e); }
      ProperIsLive(t[b]);
    } else {
      assert Live(t[0][0]) && t[0][0].name == DOT;
    }
  }

  lemma TableDropped(disk: Disk, refs: seq<int>, b: int)
    requires |refs| == REFS && 0 <= b < DIR_BLOCKS
    ensures TableOf(disk, refs[b := 0]) == TableOf(disk, refs)[b := []]
  {
    TableGrown(disk, refs, b, 0, []);
  }

  /** A block goes back to the bitmap. */
  method DropDirBlock(p: Partition, i: int, b: int, delta: int, ghost t: Table)
    requires p.Valid() && i in p.inodes && i in p.refs && |p.refs[i]| == REFS && t == TableOf(p.disk, p.refs[i])
    requires forall k :: DIRECT <= k < REFS ==> p.refs[i][k] == 0
    requires 0 < b < DIR_BLOCKS && p.refs[i][b] != 0
    modifies p`bits, p`inodes, p`refs, p`owner
    ensures Entered(p.start, old(p.disk), old(p.inodes), old(p.Book()), p.disk, p.inodes, p.Book(), i,
                    t[b := []], old(p.inodes[i].size) + delta)
    ensures Free(p.bits) == Free(old(p.bits)) + 1
  {
    hide Owned, TableOf;
    ghost var g := p.Book();
    ghost var all := seq(BLOCKS, k => 0);
    RootFirst(p.start, p.disk, p.inodes, g);
    InodeOf(p.start, p.disk, p.inodes, g, i, b);
    DetachKeeps(p.start, g, i, b);
    BitSet(p.start, g, i, b);
    var lba := p.inodes[i].sectors[b];
    FreeUpdate(p.bits, lba - p.start, false);
    assert Linked(p.disk, p.inodes[i], p.refs[i]);
    NoTable(p.disk, p.inodes[i], p.refs[i], all);
    PlacedInMemory(p.inodes[i], all, p.refs[i], b, 0);
    assert all[b := 0] == all;
    TableDropped(p.disk, p.refs[i], b);
    p.bits := p.bits[lba - p.start := false];
    p.inodes := p.inodes[i := Inode(p.inodes[i].size + delta, p.inodes[i].sectors[b := 0])];
    p.refs := p.refs[i := p.refs[i][b := 0]];
    p.owner := p.owner - {lba};
    NoTableLinked(p.disk, p.inodes[i], p.refs[i], all);
    SoundAgain(p.start, p.disk, old(p.inodes), g, p.disk, p.inodes, p.Book(), i);
  }

  lemma BitSet(start: int, g: Ledger, i: int, k: int)
    requires Owned(start, g) && i in g.refs && 0 <= k < REFS && g.refs[i][k] != 0
    ensures 0 <= g.refs[i][k] - start < |g.bits| && g.bits[g.refs[i][k] - start]
  {
    assert RefOk(g, i, k) && OwnOk(start, g, g.refs[i][k]);
  }

  /** `delete_dir_entry`: the proper entry with the inode number is removed, if there is one. */
  method DeleteDirEntry(p: Partition, i: int, ino: int, ghost spot: map<Name, Spot>, ghost parent: int)
    returns (r: bool, ghost n: Name)
    requires p.Valid() && IsDir(p, i, spot, parent) && InosDistinct(TableOf(p.disk, p.refs[i]))
    modifies p
    ensures !r ==> p.disk == old(p.disk) && p.inodes == old(p.inodes) && p.Book() == old(p.Book())
    ensures !r ==> NoChild(old(TableOf(p.disk, p.refs[i])), ino, DIR_BLOCKS)
    ensures r ==> n in spot && !Dots(n) && SpotOk(old(TableOf(p.disk, p.refs[i])), spot, n)
                  && old(TableOf(p.disk, p.refs[i]))[spot[n].b][spot[n].e].ino == ino
    ensures r ==> Entered(p.start, old(p.disk), old(p.inodes), old(p.Book()), p.disk, p.inodes, p.Book(), i,
                          Removed(old(TableOf(p.disk, p.refs[i])), spot[n]), old(p.inodes[i].size) - SLOT)
    ensures Free(p.bits) >= Free(old(p.bits))
  {
    hide Sound, DirOk, Total, Slots, Entered, Free, InosDistinct, LiveIn, Scanned;
    ghost var t: Table := TableOf(p.disk, p.refs[i]);
    hide TableOf;
    var all := p.AllBlocks(i);
    var b := 0;
    n := [];
    while b < BLOCKS
      invariant 0 <= b <= BLOCKS
      invariant NoChild(t, ino, b)
      invariant p.disk == old(p.disk) && p.inodes == old(p.inodes) && p.Book() == old(p.Book())
    {
      BlockOf(p.start, p.disk, p.inodes, p.Book(), i, b);
      if all[b] != 0 {
        var x := ScanSector(p.disk[all[b]], ino);
        BlockScan(t, spot, i, parent, b, ino);
        if x.found != -1 {
          n := t[b][x.found].name;
          SpotHere(t, spot, i, parent, b, x.found);
          RemovedCases(t, b, x.found);
          if x.cnt == 1 && !x.first {
            DropDirBlock(p, i, b, -SLOT, t);
          } else {
            FromZeros();
            WriteSlot(p, i, b, x.found, Zeros(SLOT), -SLOT, t);
          }
          return true, n;
        }
      }
      b := b + 1;
    }
    r := false;
  }

  /** No proper entry of the first `k` blocks has the inode number. */
  ghost predicate NoChild(t: Table, ino: int, k: int) {
    forall b, e :: 0 <= b < k && b < |t| && 0 <= e < |t[b]| && Proper(t[b][e]) ==> t[b][e].ino != ino
  }

  lemma SpotHere(t: Table, spot: map<Name, Spot>, self: int, parent: int, b: int, e: int)
    requires DirOk(t, spot, self, parent) && 0 <= b < |t| && 0 <= e < |t[b]| && Live(t[b][e])
    ensures t[b][e].name in spot && spot[t[b][e].name] == Spot(b, e) && SpotOk(t, spot, t[b][e].name)
  {
    assert EntryOk(t, spot, b, e);
  }

  /** The block is dropped exactly when the entry was its only live one and the block is not the first. */
  lemma RemovedCases(t: Table, b: int, e: int)
    requires 0 <= b < |t| && 0 <= e < |t[b]| && Live(t[b][e])
    ensures Removed(t, Spot(b, e)) == if b > 0 && LiveIn(t[b]) == 1 then t[b := []] else Put(t, b, e, NONE)
  {
    LiveUpdate(t[b], e, NONE);
    assert t[b := t[b][e := NONE]][b := []] == t[b := []];
  }
}
