/** The inode table of a partition, in the sectors before its data area: what is written in one area leaves the other
    alone, and an inode is stored in the slot of the low byte of its number. */
module InodeArea {
  import opened Words
  import opened Ledgers
  import opened Volume
  import IT = InodeTable

  const MAX_FILES: int := 4096           // MAX_FILES_PER_PART
  const AREA: int := 608                 // sectors of the table

  /** The table lies before the data area. */
  ghost predicate AreaOk(disk: Disk, lba: int, start: int) {
    0 <= lba && lba + AREA <= start && start + 1 < |disk| && DiskOk(disk)
  }

  /** An inode as it is stored. */
  function Stored(i: int, n: Inode): (s: IT.Inode) { IT.Inode(i, n.size, n.sectors) }

  /** Slot `s` of the table holds inode `i`. */
  ghost predicate InSlot(disk: Disk, lba: int, s: int, i: int, n: Inode) {
    IT.FromSlot(IT.Slot(disk, lba, s)) == Stored(i, n)
  }

  /** Whoever opens an inode from the disk gets the inode: every live one outside `D` is in the slot of its own number. */
  ghost predicate TabledBut(disk: Disk, lba: int, inodes: map<int, Inode>, D: set<int>) {
    forall i :: i in inodes && i !in D ==> InSlot(disk, lba, i, i, inodes[i])
  }

  // ---------------------------------------------------------------- the two areas

  /** No sector before the data area differs. */
  ghost predicate LowSame(start: int, d0: Disk, d1: Disk) {
    |d0| == |d1| && forall l :: 0 <= l < start && l < |d0| ==> d1[l] == d0[l]
  }

  /** No sector of the data area differs. */
  ghost predicate HighSame(start: int, d0: Disk, d1: Disk) {
    |d0| == |d1| && forall l :: start <= l < |d0| ==> 0 <= l && d1[l] == d0[l]
  }

  lemma ApartLow(start: int, g: Ledger, d0: Disk, d1: Disk, i: int)
    requires Owned(start, g) && Apart(g.owner, d0, d1, i)
    ensures LowSame(start, d0, d1)
  {
    assert forall l :: l in g.owner ==> OwnOk(start, g, l);
  }

  lemma LowTrans(start: int, d0: Disk, d1: Disk, d2: Disk)
    requires LowSame(start, d0, d1) && LowSame(start, d1, d2)
    ensures LowSame(start, d0, d2)
  {
  }

  lemma LowSlot(disk: Disk, d1: Disk, lba: int, start: int, s: int)
    requires AreaOk(disk, lba, start) && LowSame(start, disk, d1) && 0 <= s < MAX_FILES
    ensures IT.Slot(d1, lba, s) == IT.Slot(disk, lba, s)
  {
    var a, b := IT.Slot(disk, lba, s), IT.Slot(d1, lba, s);
    forall j | 0 <= j < IT.INODE ensures b[j] == a[j] {
      var x := IT.INODE * s + j;
      assert 0 <= x < AREA * BLOCK;
      assert 0 <= x / BLOCK < AREA;
      assert d1[lba + x / BLOCK] == disk[lba + x / BLOCK];
      assert a[j] == IT.ByteAt(disk, lba, x) && b[j] == IT.ByteAt(d1, lba, x);
    }
  }

  /** After work in the data area on the inodes of `D`, the table holds the others still. */
  lemma TabledStays(d0: Disk, d1: Disk, lba: int, start: int, inodes0: map<int, Inode>, inodes: map<int, Inode>, D: set<int>)
    requires AreaOk(d0, lba, start) && LowSame(start, d0, d1) && TabledBut(d0, lba, inodes0, {})
    requires forall i :: i in inodes && i !in D ==> i in inodes0 && inodes[i] == inodes0[i] && 0 <= i < MAX_FILES
    ensures TabledBut(d1, lba, inodes, D)
  {
    forall i | i in inodes && i !in D ensures InSlot(d1, lba, i, i, inodes[i]) {
      assert InSlot(d0, lba, i, i, inodes0[i]);
      LowSlot(d0, d1, lba, start, i);
    }
  }

  /** Work in the table leaves the references and sectors of every inode alone. */
  lemma HighSound(start: int, d0: Disk, d1: Disk, inodes: map<int, Inode>, g: Ledger)
    requires Sound(start, d0, inodes, g) && HighSame(start, d0, d1) && DiskOk(d1)
    ensures Sound(start, d1, inodes, g)
  {
    forall i | i in inodes ensures Linked(d1, inodes[i], g.refs[i]) {
      assert Linked(d0, inodes[i], g.refs[i]);
      OwnRefs(start, g, i);
      LinkedSame(d0, d1, inodes[i], g.refs[i]);
    }
  }

  lemma HighContent(start: int, d0: Disk, d1: Disk, g: Ledger, i: int, size: int)
    requires Owned(start, g) && i in g.refs && HighSame(start, d0, d1) && FileShape(size, g.refs[i])
    ensures Content(d1, size, g.refs[i]) == Content(d0, size, g.refs[i])
  {
    OwnRefs(start, g, i);
    forall x | 0 <= x < size ensures Content(d1, size, g.refs[i])[x] == Content(d0, size, g.refs[i])[x] { }
  }

  // ---------------------------------------------------------------- storing an inode

  /** The inode fits in its 76 bytes. */
  lemma Fits(start: int, disk: Disk, inodes: map<int, Inode>, g: Ledger, i: int)
    requires Sound(start, disk, inodes, g) && i in inodes && 0 <= i < MAX_FILES && 0 <= inodes[i].size < WORD_LIMIT
    ensures IT.Storable(Stored(i, inodes[i]))
  {
    assert Linked(disk, inodes[i], g.refs[i]);
    OwnRefs(start, g, i);
    forall k | 0 <= k < 13 ensures 0 <= inodes[i].sectors[k] < WORD_LIMIT {
      var m := if k == 12 then TABLE else k;
      assert g.refs[i][m] == Ref(disk, inodes[i], m) == inodes[i].sectors[k];
    }
  }

  lemma AreaTable(disk: Disk, lba: int, start: int, s: int)
    requires AreaOk(disk, lba, start) && 0 <= s < MAX_FILES
    ensures IT.TableOk(disk, lba, s + 1)
  {
    assert IT.INODE * (s + 1) / BLOCK <= AREA;
  }

  /** What writing slot `s` does. */
  lemma StoreArea(disk: Disk, lba: int, start: int, s: int, bytes: seq<Byte>)
    requires AreaOk(disk, lba, start) && 0 <= s < MAX_FILES && |bytes| == IT.INODE
    ensures IT.TableOk(disk, lba, s + 1)
    ensures var d := IT.Store(disk, lba, s, bytes);
            && AreaOk(d, lba, start) && HighSame(start, disk, d)
            && (forall m :: 0 <= m < MAX_FILES ==> IT.Slot(d, lba, m) == if m == s then bytes else IT.Slot(disk, lba, m))
  {
    hide IT.Slot;
    AreaTable(disk, lba, start, s);
    var d := IT.Store(disk, lba, s, bytes);
    IT.StoreSizes(disk, lba, s, bytes);
    forall m | 0 <= m < MAX_FILES ensures IT.Slot(d, lba, m) == if m == s then bytes else IT.Slot(disk, lba, m) {
      AreaTable(disk, lba, start, m);
      IT.StoreSlot(disk, lba, s, bytes, m);
    }
    forall l | start <= l < |disk| ensures d[l] == disk[l] {
      assert (IT.INODE * s + IT.INODE - 1) / BLOCK < AREA;
      IT.StoreElsewhere(disk, lba, s, bytes, l);
    }
  }
}
