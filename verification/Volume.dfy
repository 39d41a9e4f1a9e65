/** The inodes of a partition, the sectors they reach and the bytes of a file. */
module Volume {
  import opened Words
  import opened Ledgers

  const MAX_BYTES: int := 71680          // BLOCK_SIZE * 140

  type Disk = seq<Sector>

  /** `i_size` and `i_sectors`. */
  datatype Inode = Inode(size: int, sectors: seq<int>)

  ghost predicate DiskOk(disk: Disk) {
    |disk| <= WORD_LIMIT && forall l :: 0 <= l < |disk| ==> |disk[l]| == BLOCK
  }

  /** The block reference at position `k`: a direct slot, an entry of the indirect table on disk, or the table. */
  function Ref(disk: Disk, n: Inode, k: int): (l: int) {
    if |n.sectors| != 13 then 0
    else if 0 <= k < DIRECT then n.sectors[k]
    else if k == TABLE then n.sectors[12]
    else if DIRECT <= k < BLOCKS && 0 < n.sectors[12] < |disk| && |disk[n.sectors[12]]| == BLOCK
    then Word(disk[n.sectors[12]], 4 * (k - DIRECT))
    else 0
  }

  ghost predicate Linked(disk: Disk, n: Inode, refs: seq<int>) {
    |n.sectors| == 13 && |refs| == REFS && forall k :: 0 <= k < REFS ==> refs[k] == Ref(disk, n, k)
  }

  /** The whole partition: sectors, inodes and the ledger agree, and bit 0 is the root directory's first block. */
  ghost predicate Sound(start: int, disk: Disk, inodes: map<int, Inode>, g: Ledger) {
    && DiskOk(disk) && Owned(start, g) && start + |g.bits| <= |disk|
    && inodes.Keys == g.refs.Keys
    && (forall i :: i in inodes ==> Linked(disk, inodes[i], g.refs[i]))
    && 0 in g.refs && g.refs[0][0] == start
  }

  // ---------------------------------------------------------------- bytes

  function At(disk: Disk, l: int, o: int): (b: Byte) {
    if 0 <= l < |disk| && 0 <= o < |disk[l]| then disk[l][o] else 0
  }

  function Block(refs: seq<int>, k: int): (l: int) {
    if 0 <= k < |refs| then refs[k] else 0
  }

  /** The bytes of a file. */
  function Content(disk: Disk, size: int, refs: seq<int>): (s: seq<Byte>)
    requires size >= 0
    ensures |s| == size
  {
    seq(size, x => At(disk, Block(refs, x / BLOCK), x % BLOCK))
  }

  /** Exactly blocks 0 to `last` are allocated, and the table exactly when one of them is not direct. */
  ghost predicate FileBlocks(refs: seq<int>, last: int) {
    && |refs| == REFS
    && (forall k :: 0 <= k < BLOCKS ==> (refs[k] != 0 <==> k <= last))
    && (refs[TABLE] != 0 <==> last >= DIRECT)
  }

  /** A regular file has exactly blocks 0 to i_size / 512, or none when it was never written. */
  ghost predicate FileShape(size: int, refs: seq<int>) {
    && |refs| == REFS && 0 <= size < MAX_BYTES
    && if refs[0] == 0 then size == 0 && Empty(refs) else FileBlocks(refs, size / BLOCK)
  }

  ghost predicate DistinctBlocks(refs: seq<int>) {
    forall k, m :: 0 <= k < m < |refs| && refs[k] != 0 ==> refs[k] != refs[m]
  }

  lemma OwnRefs(start: int, g: Ledger, i: int)
    requires Owned(start, g) && i in g.refs
    ensures DistinctBlocks(g.refs[i])
    ensures forall k :: 0 <= k < REFS && g.refs[i][k] != 0 ==> start <= g.refs[i][k] < start + |g.bits|
  {
    forall k | 0 <= k < REFS && g.refs[i][k] != 0
      ensures start <= g.refs[i][k] < start + |g.bits| && g.refs[i][k] in g.owner && g.owner[g.refs[i][k]] == Place(i, k)
    {
      assert RefOk(g, i, k) && OwnOk(start, g, g.refs[i][k]);
    }
  }

  /** A chunk spliced in behind the last byte of the last sector appends it to the content. */
  lemma AppendChunk(disk: Disk, size: int, refs: seq<int>, base: Sector, chunk: seq<Byte>)
    requires size >= 0 && |refs| == REFS && DistinctBlocks(refs) && size / BLOCK < BLOCKS
    requires forall k :: 0 <= k <= size / BLOCK ==> 0 < refs[k] < |disk| && |disk[refs[k]]| == BLOCK
    requires |base| == BLOCK && size % BLOCK + |chunk| <= BLOCK
    requires base[..size % BLOCK] == disk[refs[size / BLOCK]][..size % BLOCK]
    ensures Content(disk[refs[size / BLOCK] := Splice(base, size % BLOCK, chunk)], size + |chunk|, refs)
         == Content(disk, size, refs) + chunk
  {
    var q, o := size / BLOCK, size % BLOCK;
    var l := refs[q];
    var d := disk[l := Splice(base, o, chunk)];
    var c := Content(d, size + |chunk|, refs);
    forall x | 0 <= x < size + |chunk| ensures c[x] == (Content(disk, size, refs) + chunk)[x] {
      var k, p := x / BLOCK, x % BLOCK;
      if x < size {
        assert k <= q;
        if k == q {
          assert p < o;
          assert base[..o][p] == disk[l][..o][p];
        } else {
          assert refs[k] != l;
        }
      } else {
        assert x == q * BLOCK + (o + (x - size));
        assert k == q && p == o + (x - size);
      }
    }
  }

  // ---------------------------------------------------------------- frames

  /** Only sectors of inode `i` differ. */
  ghost predicate Apart(owner: map<int, Place>, d0: Disk, d1: Disk, i: int) {
    |d0| == |d1| && forall l :: 0 <= l < |d0| && d0[l] != d1[l] ==> l in owner && owner[l].ino == i
  }

  /** No operation on one inode changes another's sectors or bytes. */
  lemma OthersUnchanged(start: int, g: Ledger, d0: Disk, d1: Disk, i: int, j: int, size: int)
    requires Owned(start, g) && start + |g.bits| <= |d0| && Apart(g.owner, d0, d1, i)
    requires j in g.refs && j != i && FileShape(size, g.refs[j])
    ensures Content(d1, size, g.refs[j]) == Content(d0, size, g.refs[j])
  {
    forall x | 0 <= x < size ensures Content(d1, size, g.refs[j])[x] == Content(d0, size, g.refs[j])[x] {
      SameSector(start, g, d0, d1, i, j, x / BLOCK);
    }
  }

  lemma SameSector(start: int, g: Ledger, d0: Disk, d1: Disk, i: int, j: int, k: int)
    requires Owned(start, g) && start + |g.bits| <= |d0| && Apart(g.owner, d0, d1, i)
    requires j in g.refs && j != i && 0 <= k < REFS && g.refs[j][k] != 0
    ensures 0 < g.refs[j][k] < |d0| && d1[g.refs[j][k]] == d0[g.refs[j][k]]
  {
    assert RefOk(g, j, k) && OwnOk(start, g, g.refs[j][k]);
  }

  lemma LinkedSame(disk: Disk, d1: Disk, n: Inode, refs: seq<int>)
    requires Linked(disk, n, refs) && |d1| == |disk|
    requires 0 < refs[TABLE] < |disk| ==> d1[refs[TABLE]] == disk[refs[TABLE]]
    ensures Linked(d1, n, refs)
  {
    forall k | 0 <= k < REFS ensures refs[k] == Ref(d1, n, k) { assert refs[k] == Ref(disk, n, k); }
  }

  /** After work on inode `i` alone, the partition is sound again once `i` is. */
  lemma SoundAgain(start: int, d0: Disk, inodes0: map<int, Inode>, g0: Ledger,
                   d1: Disk, inodes1: map<int, Inode>, g1: Ledger, i: int)
    requires Sound(start, d0, inodes0, g0) && i in inodes0 && i in inodes1 && i in g1.refs
    requires DiskOk(d1) && Owned(start, g1) && |g1.bits| == |g0.bits| && Apart(g1.owner, d0, d1, i)
    requires inodes1 == inodes0[i := inodes1[i]] && g1.refs == g0.refs[i := g1.refs[i]]
    requires Linked(d1, inodes1[i], g1.refs[i])
    requires i == 0 ==> g1.refs[0][0] == start
    ensures Sound(start, d1, inodes1, g1)
  {
    forall j | j in inodes1 ensures Linked(d1, inodes1[j], g1.refs[j]) {
      if j != i {
        assert Linked(d0, inodes0[j], g0.refs[j]);
        if g1.refs[j][TABLE] != 0 { SameSector(start, g1, d0, d1, i, j, TABLE); }
        LinkedSame(d0, d1, inodes0[j], g0.refs[j]);
      }
    }
  }

  /** One data sector of inode `i` is written; its size may change with it. */
  lemma DataWrite(start: int, disk: Disk, inodes: map<int, Inode>, g: Ledger, i: int, k: int, sector: Sector, size: int)
    requires Sound(start, disk, inodes, g) && i in inodes && 0 <= k < BLOCKS && |g.refs[i]| == REFS && g.refs[i][k] != 0
    requires |sector| == BLOCK
    ensures 0 < g.refs[i][k] < |disk| && g.refs[i][k] in g.owner && g.owner[g.refs[i][k]].ino == i
    ensures Sound(start, disk[g.refs[i][k] := sector], inodes[i := inodes[i].(size := size)], g)
  {
    var l := g.refs[i][k];
    assert RefOk(g, i, k) && OwnOk(start, g, l);
    var d1 := disk[l := sector];
    var n := inodes[i].(size := size);
    assert Linked(disk, inodes[i], g.refs[i]);
    forall m | 0 <= m < REFS ensures g.refs[i][m] == Ref(disk, n, m) {
      assert g.refs[i][m] == Ref(disk, inodes[i], m);
    }
    assert RefOk(g, i, TABLE);
    LinkedSame(disk, d1, n, g.refs[i]);
    SoundAgain(start, disk, inodes, g, d1, inodes[i := n], g, i);
  }
}
