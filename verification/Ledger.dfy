/** Who owns which data sector.  Every inode has 141 block references: 0 to 11 are its direct blocks, 12 to 139
    the entries of its single-indirect table and 140 the table itself; 0 stands for no block. */
module Ledgers {
  const DIRECT: int := 12
  const BLOCKS: int := 140
  const TABLE: int := 140        // the position of the indirect table's own reference
  const REFS: int := 141

  datatype Place = Place(ino: int, pos: int)

  /** The block bitmap, the references of every live inode and, for the proofs, the place of each reference.
      Bit `b` stands for sector `start + b`, where `start` is the partition's `data_start_lba`. */
  datatype Ledger = Ledger(bits: seq<bool>, refs: map<int, seq<int>>, owner: map<int, Place>)

  ghost predicate RefOk(g: Ledger, i: int, k: int)
    requires i in g.refs && 0 <= k < |g.refs[i]|
  {
    var l := g.refs[i][k];
    l == 0 || (l in g.owner && g.owner[l] == Place(i, k))
  }

  ghost predicate OwnOk(start: int, g: Ledger, l: int)
    requires l in g.owner
  {
    var o := g.owner[l];
    && start <= l < start + |g.bits| && g.bits[l - start]
    && o.ino in g.refs && 0 <= o.pos < |g.refs[o.ino]| && g.refs[o.ino][o.pos] == l
  }

  /** Each data sector is referenced at most once over all inodes and positions, and its bit is set exactly
      when it is referenced. */
  ghost predicate Owned(start: int, g: Ledger) {
    && start > 0
    && (forall i :: i in g.refs ==> |g.refs[i]| == REFS)
    && (forall i, k :: i in g.refs && 0 <= k < |g.refs[i]| ==> RefOk(g, i, k))
    && (forall l :: l in g.owner ==> OwnOk(start, g, l))
    && (forall b :: 0 <= b < |g.bits| && g.bits[b] ==> start + b in g.owner)
  }

  /** What `Owned` says, without the witness. */
  lemma OwnedMeans(start: int, g: Ledger)
    requires Owned(start, g)
    ensures forall i, k, j, m ::
              (i in g.refs && 0 <= k < REFS && j in g.refs && 0 <= m < REFS && g.refs[i][k] == g.refs[j][m] != 0) ==>
                i == j && k == m
    ensures forall i, k :: i in g.refs && 0 <= k < REFS && g.refs[i][k] != 0 ==>
                             start <= g.refs[i][k] < start + |g.bits| && g.bits[g.refs[i][k] - start]
    ensures forall b :: 0 <= b < |g.bits| && g.bits[b] ==>
                          exists i, k :: i in g.refs && 0 <= k < REFS && g.refs[i][k] == start + b
  {
    forall i, k | i in g.refs && 0 <= k < REFS && g.refs[i][k] != 0
      ensures start <= g.refs[i][k] < start + |g.bits| && g.bits[g.refs[i][k] - start]
    {
      assert RefOk(g, i, k);
      assert OwnOk(start, g, g.refs[i][k]);
    }
    forall i, k, j, m | i in g.refs && 0 <= k < REFS && j in g.refs && 0 <= m < REFS && g.refs[i][k] == g.refs[j][m] != 0
      ensures i == j && k == m
    {
      assert RefOk(g, i, k) && RefOk(g, j, m);
    }
    forall b | 0 <= b < |g.bits| && g.bits[b]
      ensures exists i, k :: i in g.refs && 0 <= k < REFS && g.refs[i][k] == start + b
    {
      assert OwnOk(start, g, start + b);
      assert g.refs[g.owner[start + b].ino][g.owner[start + b].pos] == start + b;
    }
  }

  /** A clear bit is set and its sector entered at an empty position. */
  ghost function Attach(start: int, g: Ledger, i: int, k: int, b: int): (r: Ledger)
    requires 0 <= b < |g.bits| && i in g.refs && 0 <= k < |g.refs[i]|
  {
    Ledger(g.bits[b := true], g.refs[i := g.refs[i][k := start + b]], g.owner[start + b := Place(i, k)])
  }

  lemma AttachKeeps(start: int, g: Ledger, i: int, k: int, b: int)
    requires Owned(start, g) && i in g.refs && 0 <= k < REFS && g.refs[i][k] == 0
    requires 0 <= b < |g.bits| && !g.bits[b]
    ensures Owned(start, Attach(start, g, i, k, b))
  {
    var r := Attach(start, g, i, k, b);
    forall j, m | j in r.refs && 0 <= m < |r.refs[j]| ensures RefOk(r, j, m) {
      if !(j == i && m == k) { assert RefOk(g, j, m); }
    }
    forall l | l in r.owner ensures OwnOk(start, r, l) {
      if l != start + b { assert OwnOk(start, g, l); }
    }
  }

  /** A referenced sector is given back. */
  ghost function Detach(start: int, g: Ledger, i: int, k: int): (r: Ledger)
    requires i in g.refs && 0 <= k < |g.refs[i]| && 0 <= g.refs[i][k] - start < |g.bits|
  {
    var l := g.refs[i][k];
    Ledger(g.bits[l - start := false], g.refs[i := g.refs[i][k := 0]], g.owner - {l})
  }

  lemma DetachKeeps(start: int, g: Ledger, i: int, k: int)
    requires Owned(start, g) && i in g.refs && 0 <= k < REFS && g.refs[i][k] != 0
    ensures 0 <= g.refs[i][k] - start < |g.bits|
    ensures Owned(start, Detach(start, g, i, k))
  {
    var l := g.refs[i][k];
    assert RefOk(g, i, k) && OwnOk(start, g, l);
    var r := Detach(start, g, i, k);
    forall j, m | j in r.refs && 0 <= m < |r.refs[j]| ensures RefOk(r, j, m) {
      if !(j == i && m == k) { assert RefOk(g, j, m); }
    }
    forall m | m in r.owner ensures OwnOk(start, r, m) {
      assert OwnOk(start, g, m);
    }
    forall b | 0 <= b < |r.bits| && r.bits[b] ensures start + b in r.owner { }
  }

  ghost predicate Empty(refs: seq<int>) {
    |refs| == REFS && forall k :: 0 <= k < REFS ==> refs[k] == 0
  }

  ghost function NoRefs(): (r: seq<int>)
    ensures Empty(r)
  {
    seq(REFS, k => 0)
  }

  /** A new inode has no block, and an inode without blocks can go. */
  lemma EnterKeeps(start: int, g: Ledger, i: int)
    requires Owned(start, g) && i !in g.refs
    ensures Owned(start, g.(refs := g.refs[i := NoRefs()]))
  {
    var r := g.(refs := g.refs[i := NoRefs()]);
    forall j, m | j in r.refs && 0 <= m < |r.refs[j]| ensures RefOk(r, j, m) {
      if j != i { assert RefOk(g, j, m); }
    }
    forall l | l in r.owner ensures OwnOk(start, r, l) { assert OwnOk(start, g, l); }
  }

  lemma LeaveKeeps(start: int, g: Ledger, i: int)
    requires Owned(start, g) && i in g.refs && Empty(g.refs[i])
    ensures Owned(start, g.(refs := g.refs - {i}))
  {
    var r := g.(refs := g.refs - {i});
    forall j, m | j in r.refs && 0 <= m < |r.refs[j]| ensures RefOk(r, j, m) { assert RefOk(g, j, m); }
    forall l | l in r.owner ensures OwnOk(start, r, l) { assert OwnOk(start, g, l); }
  }
}
