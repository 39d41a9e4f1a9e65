/** Reading a directory entry by entry. */
module DirList {
  import opened Basics
  import opened Words
  import opened Ledgers
  import opened Volume
  import opened Entries
  import opened DirTable
  import opened FileCode
  import opened DirCode

  /** The live entries from slot `e` of block `b` on, in order. */
  function From(t: Table, b: nat, e: nat): (xs: seq<Entry>)
    decreases |t| - b, if b < |t| then |t[b]| - e else 0
  {
    if b >= |t| then []
    else if e >= |t[b]| then From(t, b + 1, 0)
    else (if Live(t[b][e]) then [t[b][e]] else []) + From(t, b, e + 1)
  }

  function Listing(t: Table): (xs: seq<Entry>) { From(t, 0, 0) }

  lemma {:induction false} FromLength(t: Table, b: nat, e: nat)
    requires b <= |t| && (if b < |t| then e <= |t[b]| else e == 0)
    ensures |From(t, b, e)| + Total(t[..b]) + (if b < |t| then LiveIn(t[b][..e]) else 0) == Total(t)
    decreases |t| - b, if b < |t| then |t[b]| - e else 0
  {
    if b == |t| {
      assert t[..b] == t;
    } else if e == |t[b]| {
      FromLength(t, b + 1, 0);
      assert t[..b + 1][..b] == t[..b] && t[b][..e] == t[b];
    } else {
      FromLength(t, b, e + 1);
      assert t[b][..e + 1][..e] == t[b][..e];
    }
  }

  lemma ListingLength(t: Table)
    ensures |Listing(t)| == Total(t)
  {
    FromLength(t, 0, 0);
  }

  ghost predicate NotBefore(s: Spot, b: int, e: int) { s.b > b || (s.b == b && s.e >= e) }

  ghost predicate Listed(t: Table, spot: map<Name, Spot>, b: int, e: int, x: Entry)
    requires TableOk(t, spot)
  {
    x.name in spot && x == Held(t, spot, x.name) && NotBefore(spot[x.name], b, e)
  }

  lemma {:induction false} FromListed(t: Table, spot: map<Name, Spot>, b: nat, e: nat, k: nat)
    requires TableOk(t, spot) && b <= |t| && k < |From(t, b, e)|
    ensures Listed(t, spot, b, e, From(t, b, e)[k])
    decreases |t| - b, if b < |t| then |t[b]| - e else 0
  {
    hide ShapeOk, SpotsOk;
    if e >= |t[b]| {
      FromListed(t, spot, b + 1, 0, k);
    } else {
      assert EntryOk(t, spot, b, e);
      if !Live(t[b][e]) { FromListed(t, spot, b, e + 1, k); }
      else if k > 0 { FromListed(t, spot, b, e + 1, k - 1); }
    }
  }

  lemma {:induction false} FromDistinct(t: Table, spot: map<Name, Spot>, b: nat, e: nat, j: nat, k: nat)
    requires TableOk(t, spot) && b <= |t| && j < k < |From(t, b, e)|
    ensures From(t, b, e)[j].name != From(t, b, e)[k].name
    decreases |t| - b, if b < |t| then |t[b]| - e else 0
  {
    hide ShapeOk, SpotsOk;
    if e >= |t[b]| {
      FromDistinct(t, spot, b + 1, 0, j, k);
    } else {
      assert EntryOk(t, spot, b, e);
      if !Live(t[b][e]) { FromDistinct(t, spot, b, e + 1, j, k); }
      else if j > 0 { FromDistinct(t, spot, b, e + 1, j - 1, k - 1); }
      else { FromListed(t, spot, b, e + 1, k - 1); }
    }
  }

  lemma {:induction false} FromComplete(t: Table, spot: map<Name, Spot>, b: nat, e: nat, n: Name)
    requires TableOk(t, spot) && n in spot && NotBefore(spot[n], b, e) && SpotOk(t, spot, n)
    ensures t[spot[n].b][spot[n].e] in From(t, b, e)
    decreases |t| - b, if b < |t| then |t[b]| - e else 0
  {
    hide TableOk;
    if e >= |t[b]| {
      FromComplete(t, spot, b + 1, 0, n);
    } else if spot[n] != Spot(b, e) {
      FromComplete(t, spot, b, e + 1, n);
    }
  }

  /** Reading a directory to its end yields every entry of the map exactly once. */
  lemma ListingIsTheMap(t: Table, spot: map<Name, Spot>)
    requires TableOk(t, spot)
    ensures |Listing(t)| == |spot|
    ensures forall k :: 0 <= k < |Listing(t)| ==> Listing(t)[k].name in spot && Listing(t)[k] == Held(t, spot, Listing(t)[k].name)
    ensures forall j, k :: 0 <= j < k < |Listing(t)| ==> Listing(t)[j].name != Listing(t)[k].name
    ensures forall n :: n in spot ==> Held(t, spot, n) in Listing(t)
  {
    ListingLength(t);
    forall k | 0 <= k < |Listing(t)| ensures Listing(t)[k].name in spot && Listing(t)[k] == Held(t, spot, Listing(t)[k].name) {
      FromListed(t, spot, 0, 0, k);
    }
    forall j, k | 0 <= j < k < |Listing(t)| ensures Listing(t)[j].name != Listing(t)[k].name { FromDistinct(t, spot, 0, 0, j, k); }
    forall n | n in spot ensures Held(t, spot, n) in Listing(t) {
      assert SpotOk(t, spot, n);
      FromComplete(t, spot, 0, 0, n);
    }
  }

  /** `dir_read`: the entry at `dir_pos` and the next position, or nothing at the end. */
  method DirRead(p: Partition, i: int, pos: int, ghost spot: map<Name, Spot>, ghost parent: int)
    returns (r: Option<Entry>, next: int)
    requires p.Valid() && IsDir(p, i, spot, parent) && pos >= 0 && pos % SLOT == 0
    ensures var xs := Listing(TableOf(p.disk, p.refs[i]));
            if pos / SLOT < |xs| then r == Some(xs[pos / SLOT]) && next == pos + SLOT else r == None && next == pos
  {
    hide Sound, DirOk, Total, Slots, LiveIn;
    ghost var t: Table := TableOf(p.disk, p.refs[i]);
    hide TableOf;
    ListingLength(t);
    ghost var xs := Listing(t);
    next := pos;
    var all := p.GatherDirect(i, seq(BLOCKS, k => 0), 0, DIRECT);
    var cur := 0;
    ghost var k := 0;
    var b := 0;
    while b < DIRECT
      invariant 0 <= b <= DIRECT && cur == SLOT * k && 0 <= k <= pos / SLOT && k <= |xs|
      invariant From(t, b, 0) == xs[k..]
    {
      if pos >= p.inodes[i].size { return None, next; }
      BlockOf(p.start, p.disk, p.inodes, p.Book(), i, b);
      if all[b] != 0 {
        r, cur, k := ReadSector(p.disk[all[b]], cur, pos, t, b, xs, k, pos / SLOT);
        if r.Some? { return r, pos + SLOT; }
      }
      b := b + 1;
    }
    r := None;
  }

  /** The inner loop of `dir_read`: `k0` live entries were passed before this sector, and those before entry `q`
      are passed over. */
  method ReadSector(s: Sector, cur0: int, pos: int, ghost t: Table, ghost b: int, ghost xs: seq<Entry>,
                    ghost k0: int, ghost q: int)
    returns (r: Option<Entry>, cur: int, ghost k: int)
    requires |s| == BLOCK && 0 <= b < |t| && t[b] == Slots(s)
    requires cur0 == SLOT * k0 && pos == SLOT * q && 0 <= k0 <= q && k0 <= |xs| && From(t, b, 0) == xs[k0..]
    ensures r.Some? ==> q < |xs| && r.v == xs[q]
    ensures r.None? ==> cur == SLOT * k && 0 <= k <= q && k <= |xs| && From(t, b + 1, 0) == xs[k..]
  {
    hide Slots, From;
    cur, k := cur0, k0;
    var e := 0;
    while e < PER_SECTOR
      invariant 0 <= e <= PER_SECTOR && cur == SLOT * k && 0 <= k <= q && k <= |xs|
      invariant From(t, b, e) == xs[k..]
    {
      SlotIs(s, e);
      FromStep(t, b, e);
      var x := EntryAt(s, e);
      if x.kind != UNKNOWN {
        assert xs[k] == x && xs[k..][1..] == xs[k + 1..];
        if cur < pos {
          cur, k := cur + SLOT, k + 1;
        } else {
          assert cur == pos;
          return Some(x), cur, k;
        }
      }
      e := e + 1;
    }
    FromStep(t, b, e);
    r := None;
  }

  lemma FromStep(t: Table, b: int, e: int)
    requires 0 <= b < |t| && 0 <= e <= |t[b]|
    ensures e == |t[b]| ==> From(t, b, e) == From(t, b + 1, 0)
    ensures e < |t[b]| ==> From(t, b, e) == (if Live(t[b][e]) then [t[b][e]] else []) + From(t, b, e + 1)
    ensures e < |t[b]| && Live(t[b][e]) ==> From(t, b, e)[0] == t[b][e] && From(t, b, e)[1..] == From(t, b, e + 1)
  {
  }

  /** Repeated `dir_read` from the start until it returns nothing. */
  method ReadAll(p: Partition, i: int, ghost spot: map<Name, Spot>, ghost parent: int) returns (xs: seq<Entry>)
    requires p.Valid() && IsDir(p, i, spot, parent)
    ensures xs == Listing(TableOf(p.disk, p.refs[i]))
  {
    hide Sound, DirOk, Total, TableOf, Listing;
    ghost var all := Listing(TableOf(p.disk, p.refs[i]));
    xs := [];
    var pos := 0;
    var x, next := DirRead(p, i, pos, spot, parent);
    while x.Some?
      invariant pos == SLOT * |xs| && |xs| <= |all| && xs == all[..|xs|]
      invariant if |xs| < |all| then x == Some(all[|xs|]) && next == pos + SLOT else x == None
      decreases |all| - |xs|
    {
      xs := xs + [x.v];
      pos := next;
      x, next := DirRead(p, i, pos, spot, parent);
    }
  }
}
