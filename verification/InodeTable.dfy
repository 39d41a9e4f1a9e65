/** The inode table on disk: slots of 76 bytes that may straddle two sectors. */
module InodeTable {
  import opened Words

  const INODE: int := 76                 // sizeof(struct inode)
  const FIELDS: int := 19                // words in a slot

  type Disk = seq<Sector>

  /** `i_no`, `i_size` and `i_sectors`; the other fields are cleared on the way to the disk. */
  datatype Inode = Inode(no: int, size: int, sectors: seq<int>)

  ghost predicate Storable(n: Inode) {
    0 <= n.no < WORD_LIMIT && 0 <= n.size < WORD_LIMIT && |n.sectors| == 13
    && forall k :: 0 <= k < 13 ==> 0 <= n.sectors[k] < WORD_LIMIT
  }

  /** The words of the structure: number, size, open count, write flag, thirteen addresses, two list pointers. */
  function Fields(n: Inode): (ws: seq<int>)
    requires |n.sectors| == 13
    ensures |ws| == FIELDS
  {
    [n.no, n.size, 0, 0] + n.sectors + [0, 0]
  }

  function ToSlot(n: Inode): (s: seq<Byte>)
    requires |n.sectors| == 13
    ensures |s| == INODE
  {
    Encode(Fields(n))
  }

  function FromSlot(s: seq<Byte>): (n: Inode)
    requires |s| == INODE
    ensures |n.sectors| == 13
  {
    var ws := Decode(s);
    Inode(ws[0], ws[1], ws[4..17])
  }

  lemma FromToSlot(n: Inode)
    requires Storable(n)
    ensures FromSlot(ToSlot(n)) == n
  {
    var ws := Fields(n);
    forall k | 0 <= k < FIELDS ensures 0 <= ws[k] < WORD_LIMIT {
      if 4 <= k < 17 { assert ws[k] == n.sectors[k - 4]; }
    }
    DecodeEncode(ws);
    assert ws[4..17] == n.sectors;
  }

  // ---------------------------------------------------------------- the table as bytes

  ghost predicate TableOk(disk: Disk, lba: int, count: int) {
    && 0 <= lba && 0 <= count && lba + INODE * count / BLOCK + 1 < |disk|
    && forall l :: 0 <= l < |disk| ==> |disk[l]| == BLOCK
  }

  /** Byte `x` of the table. */
  function ByteAt(disk: Disk, lba: int, x: int): (b: Byte) {
    var l, o := lba + x / BLOCK, x % BLOCK;
    if 0 <= l < |disk| && o < |disk[l]| then disk[l][o] else 0
  }

  /** The slot of inode `no`. */
  function Slot(disk: Disk, lba: int, no: int): (s: seq<Byte>)
    ensures |s| == INODE
  {
    seq<Byte>(INODE, j => ByteAt(disk, lba, INODE * no + j))
  }

  /** `inode_locate` */
  datatype Position = Position(two: bool, lba: int, off: int)

  function Locate(lba: int, no: int): (p: Position)
    requires 0 <= no
    ensures 0 <= p.off < BLOCK && BLOCK * (p.lba - lba) + p.off == INODE * no
    ensures p.two <==> p.off + INODE > BLOCK
  {
    var off := INODE * no;
    Position(BLOCK - off % BLOCK < INODE, lba + off / BLOCK, off % BLOCK)
  }

  /** The bytes read into the buffer: one sector or two. */
  function ReadBuf(disk: Disk, p: Position): (buf: seq<Byte>)
    requires 0 <= p.lba && p.lba + 1 < |disk|
  {
    if p.two then disk[p.lba] + disk[p.lba + 1] else disk[p.lba]
  }

  function WriteBuf(disk: Disk, p: Position, buf: seq<Byte>): (d: Disk)
    requires 0 <= p.lba && p.lba + 1 < |disk| && |buf| == if p.two then 2 * BLOCK else BLOCK
  {
    if p.two then disk[p.lba := buf[..BLOCK]][p.lba + 1 := buf[BLOCK..]] else disk[p.lba := buf]
  }

  /** Read, splice in 76 bytes, write back. */
  function Store(disk: Disk, lba: int, no: int, bytes: seq<Byte>): (d: Disk)
    requires 0 <= no && |bytes| == INODE && TableOk(disk, lba, no + 1)
    ensures |d| == |disk|
  {
    LocateIn(disk, lba, no);
    var p := Locate(lba, no);
    WriteBuf(disk, p, Splice(ReadBuf(disk, p), p.off, bytes))
  }

  lemma LocateIn(disk: Disk, lba: int, no: int)
    requires 0 <= no && TableOk(disk, lba, no + 1)
    ensures var p := Locate(lba, no); 0 <= p.lba && p.lba + 1 < |disk|
  {
  }

  lemma StoreSizes(disk: Disk, lba: int, no: int, bytes: seq<Byte>)
    requires TableOk(disk, lba, no + 1) && 0 <= no && |bytes| == INODE
    ensures |Store(disk, lba, no, bytes)| == |disk|
    ensures forall l :: 0 <= l < |disk| ==> |Store(disk, lba, no, bytes)[l]| == BLOCK
  {
    LocateIn(disk, lba, no);
  }

  /** What `inode_sync` and `inode_delete` do with the slot: one or two sectors are read, 76 bytes overwritten, and the
      sectors written back. */
  method WriteSlot(disk: Disk, lba: int, no: int, bytes: seq<Byte>) returns (d: Disk)
    requires 0 <= no && |bytes| == INODE && TableOk(disk, lba, no + 1)
    ensures d == Store(disk, lba, no, bytes)
  {
    LocateIn(disk, lba, no);
    var p := Locate(lba, no);
    if p.two {
      var buf := Splice(disk[p.lba] + disk[p.lba + 1], p.off, bytes);
      d := disk[p.lba := buf[..BLOCK]];
      d := d[p.lba + 1 := buf[BLOCK..]];
    } else {
      d := disk[p.lba := Splice(disk[p.lba], p.off, bytes)];
    }
  }

  /** The table changes in the slot's bytes and nowhere else. */
  lemma StoreBytes(disk: Disk, lba: int, no: int, bytes: seq<Byte>, x: int)
    requires 0 <= no && |bytes| == INODE && TableOk(disk, lba, no + 1) && 0 <= x && lba + x / BLOCK < |disk|
    ensures ByteAt(Store(disk, lba, no, bytes), lba, x)
         == if INODE * no <= x < INODE * no + INODE then bytes[x - INODE * no] else ByteAt(disk, lba, x)
  {
    LocateIn(disk, lba, no);
    var p := Locate(lba, no);
    var buf := Splice(ReadBuf(disk, p), p.off, bytes);
    var k := x - BLOCK * (p.lba - lba);
    assert x / BLOCK == p.lba - lba + k / BLOCK && x % BLOCK == k % BLOCK;
  }

  /** Storing into one slot writes that slot and leaves every other one as it was. */
  lemma StoreSlot(disk: Disk, lba: int, no: int, bytes: seq<Byte>, m: int)
    requires 0 <= no && 0 <= m && |bytes| == INODE && TableOk(disk, lba, no + 1) && TableOk(disk, lba, m + 1)
    ensures Slot(Store(disk, lba, no, bytes), lba, m) == if m == no then bytes else Slot(disk, lba, m)
  {
    var d := Store(disk, lba, no, bytes);
    forall j | 0 <= j < INODE ensures Slot(d, lba, m)[j] == if m == no then bytes[j] else Slot(disk, lba, m)[j] {
      SlotInside(disk, lba, m, j);
      StoreBytes(disk, lba, no, bytes, INODE * m + j);
    }
  }

  lemma SlotInside(disk: Disk, lba: int, m: int, j: int)
    requires 0 <= m && TableOk(disk, lba, m + 1) && 0 <= j < INODE
    ensures lba + (INODE * m + j) / BLOCK < |disk|
  {
  }

  /** Sectors outside the slot's one or two stay. */
  lemma StoreElsewhere(disk: Disk, lba: int, no: int, bytes: seq<Byte>, l: int)
    requires 0 <= no && |bytes| == INODE && TableOk(disk, lba, no + 1) && 0 <= l < |disk|
    requires l < lba || l > lba + (INODE * no + INODE - 1) / BLOCK
    ensures Store(disk, lba, no, bytes)[l] == disk[l]
  {
    LocateIn(disk, lba, no);
  }
}
