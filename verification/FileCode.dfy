/** `file_write` and `file_read` over the sectors of a partition. */
module FileCode {
  import opened Basics
  import opened Bitmaps
  import opened Words
  import opened Ledgers
  import opened Volume

  /** The blocks that a write of `count` bytes takes from the bitmap. */
  function Needed(n: Inode, count: int): (k: int)
    requires |n.sectors| == 13
  {
    (if n.sectors[0] == 0 then 1 else 0) + Added(n.size, count)
  }

  function Added(size: int, count: int): (k: int) {
    var has, will := size / BLOCK + 1, (size + count) / BLOCK + 1;
    will - has + if has <= DIRECT < will then 1 else 0
  }

  /** `all_blocks` and the inode in memory hold the references. */
  ghost predicate InMemory(n: Inode, all: seq<int>, refs: seq<int>) {
    && |n.sectors| == 13 && |all| == BLOCKS && |refs| == REFS
    && (forall k :: 0 <= k < DIRECT ==> refs[k] == n.sectors[k])
    && refs[TABLE] == n.sectors[12]
    && (forall k :: DIRECT <= k < BLOCKS ==> refs[k] == all[k])
  }

  /** Positions `from` to `to - 1` were filled, in the references and in `all_blocks`; nothing else changed. */
  ghost predicate Grown(refs0: seq<int>, all0: seq<int>, refs: seq<int>, all: seq<int>, from: int, to: int) {
    && |refs| == |refs0| == REFS && |all| == |all0| == BLOCKS && 0 <= from <= to <= BLOCKS
    && (forall k :: from <= k < to ==> refs[k] != 0 && all[k] == refs[k])
    && (forall k :: 0 <= k < REFS && !(from <= k < to) ==> refs[k] == refs0[k])
    && (forall k :: 0 <= k < BLOCKS && !(from <= k < to) ==> all[k] == all0[k])
  }

  /** The inode after block `k` was allocated at `l`. */
  function Placed(n: Inode, k: int, l: int): (r: Inode)
    requires |n.sectors| == 13 && 0 <= k
  {
    if k < DIRECT then n.(sectors := n.sectors[k := l]) else n
  }

  lemma PlacedInMemory(n: Inode, all: seq<int>, refs: seq<int>, k: int, l: int)
    requires InMemory(n, all, refs) && 0 <= k < BLOCKS
    ensures |n.sectors| == 13 && |all| == BLOCKS && |refs| == REFS && (k < DIRECT ==> refs[k] == n.sectors[k])
    ensures InMemory(Placed(n, k, l), all[k := l], refs[k := l])
  {
  }

  lemma TableRead(disk: Disk, n: Inode, refs: seq<int>, all: seq<int>)
    requires Linked(disk, n, refs) && DiskOk(disk) && |all| == BLOCKS && 0 < n.sectors[12] < |disk|
    ensures InMemory(n, all[..DIRECT] + Decode(disk[n.sectors[12]]), refs)
  {
    forall k | 0 <= k < REFS ensures refs[k] == Ref(disk, n, k) { }
  }

  lemma NoTable(disk: Disk, n: Inode, refs: seq<int>, all: seq<int>)
    requires Linked(disk, n, refs) && |all| == BLOCKS
    requires forall k :: DIRECT <= k < BLOCKS ==> refs[k] == 0 && all[k] == 0
    ensures InMemory(n, all, refs)
  {
    assert refs[TABLE] == Ref(disk, n, TABLE);
    forall k | 0 <= k < DIRECT ensures refs[k] == n.sectors[k] { assert refs[k] == Ref(disk, n, k); }
  }

  lemma TableWritten(disk: Disk, n: Inode, refs: seq<int>, all: seq<int>)
    requires InMemory(n, all, refs) && DiskOk(disk) && 0 < n.sectors[12] < |disk|
    requires forall k :: DIRECT <= k < BLOCKS ==> 0 <= refs[k] < |disk|
    ensures Linked(disk[n.sectors[12] := Encode(all[DIRECT..])], n, refs)
  {
    var d := disk[n.sectors[12] := Encode(all[DIRECT..])];
    forall k | 0 <= k < REFS ensures refs[k] == Ref(d, n, k) {
      if DIRECT <= k < BLOCKS { WordOfEncode(all[DIRECT..], k - DIRECT); }
    }
  }

  lemma NoTableLinked(disk: Disk, n: Inode, refs: seq<int>, all: seq<int>)
    requires InMemory(n, all, refs) && n.sectors[12] == 0
    requires forall k :: DIRECT <= k < BLOCKS ==> refs[k] == 0
    ensures Linked(disk, n, refs)
  {
  }

  /** What the collection of block addresses for a write of `count` bytes to inode `i` achieves. */
  ghost predicate Collected(start: int, disk0: Disk, inodes0: map<int, Inode>, g0: Ledger,
                            disk: Disk, inodes: map<int, Inode>, g: Ledger, all: seq<int>, i: int, count: int)
    requires i in inodes0 && i in g0.refs
  {
    && i in inodes && Sound(start, disk, inodes, g) && |g.bits| == |g0.bits|
    && inodes == inodes0[i := inodes[i]] && g.refs == g0.refs[i := g.refs[i]]
    && inodes[i].size == inodes0[i].size
    && FileBlocks(g.refs[i], (inodes[i].size + count) / BLOCK)
    && Apart(g.owner, disk0, disk, i)
    && InHand(all, g.refs[i], inodes[i].size / BLOCK, (inodes[i].size + count) / BLOCK)
    && SameBlocks(disk0, disk, g0.refs[i], g.refs[i], inodes[i].size / BLOCK)
  }

  /** `all_blocks` holds the references from `from` to `to`. */
  ghost predicate InHand(all: seq<int>, refs: seq<int>, from: int, to: int) {
    |all| == BLOCKS && |refs| == REFS && forall k :: 0 <= from <= k <= to && k < BLOCKS ==> all[k] == refs[k]
  }

  ghost predicate SameBlocks(disk0: Disk, disk: Disk, refs0: seq<int>, refs: seq<int>, last: int) {
    && |refs0| == |refs| == REFS && |disk0| == |disk|
    && forall k :: 0 <= k <= last && k < BLOCKS ==>
                     refs[k] == refs0[k] && 0 < refs[k] < |disk| && disk[refs[k]] == disk0[refs[k]]
  }

  lemma SameContent(disk0: Disk, disk: Disk, refs0: seq<int>, refs: seq<int>, size: int)
    requires 0 <= size < MAX_BYTES && SameBlocks(disk0, disk, refs0, refs, size / BLOCK)
    ensures Content(disk, size, refs) == Content(disk0, size, refs0)
  {
    forall x | 0 <= x < size ensures Content(disk, size, refs)[x] == Content(disk0, size, refs0)[x] {
      assert refs[x / BLOCK] == refs0[x / BLOCK];
    }
  }

  /** Enough for `Collected` at the end of each case: only the table's sector may have been written. */
  lemma CollectDone(start: int, disk0: Disk, inodes0: map<int, Inode>, g0: Ledger,
                    disk: Disk, inodes: map<int, Inode>, g: Ledger, all: seq<int>, i: int, count: int)
    requires Sound(start, disk0, inodes0, g0) && i in inodes0 && i != 0 && i in inodes && i in g.refs
    requires DiskOk(disk) && Owned(start, g) && |g.bits| == |g0.bits| && Linked(disk, inodes[i], g.refs[i])
    requires inodes == inodes0[i := inodes[i]] && g.refs == g0.refs[i := g.refs[i]] && inodes[i].size == inodes0[i].size
    requires FileBlocks(g.refs[i], (inodes[i].size + count) / BLOCK) && count >= 0 && inodes[i].size >= 0
    requires InHand(all, g.refs[i], inodes[i].size / BLOCK, (inodes[i].size + count) / BLOCK)
    requires forall k :: 0 <= k <= inodes[i].size / BLOCK && k < BLOCKS ==> g.refs[i][k] == g0.refs[i][k]
    requires |disk| == |disk0| && forall l :: 0 <= l < |disk| && disk[l] != disk0[l] ==> l != 0 && l == g.refs[i][TABLE]
    ensures Collected(start, disk0, inodes0, g0, disk, inodes, g, all, i, count)
  {
    OwnRefs(start, g, i);
    assert Linked(disk0, inodes0[i], g0.refs[i]);
    assert Apart(g.owner, disk0, disk, i) by {
      if g.refs[i][TABLE] != 0 { assert RefOk(g, i, TABLE); }
    }
    SoundAgain(start, disk0, inodes0, g0, disk, inodes, g, i);
  }

  /** Only the root directory has bit 0. */
  lemma NotRoot(start: int, disk: Disk, inodes: map<int, Inode>, g: Ledger, i: int, k: int)
    requires Sound(start, disk, inodes, g) && i in g.refs && i != 0 && 0 <= k < REFS
    ensures g.refs[i][k] != start
  {
    assert RefOk(g, i, k) && RefOk(g, 0, 0);
  }

  /** `fd_pos` after a write: one less than the size, in 32 bits. */
  function Cursor(size: int): (pos: int) {
    (size - 1) % WORD_LIMIT
  }

  lemma CursorMoves(size: int, chunk: int)
    ensures (Cursor(size) + chunk) % WORD_LIMIT == Cursor(size + chunk)
  {
  }

  lemma TakeMore(text: seq<Byte>, buf: seq<Byte>, w: int, chunk: int)
    requires 0 <= w && 0 <= chunk && w + chunk <= |buf|
    ensures text + buf[..w] + buf[w..w + chunk] == text + buf[..w + chunk]
  {
  }

  lemma ApartRefl(owner: map<int, Place>, d: Disk, i: int)
    ensures Apart(owner, d, d, i)
  {
  }

  lemma ApartTrans(owner: map<int, Place>, d0: Disk, d1: Disk, d2: Disk, i: int)
    requires Apart(owner, d0, d1, i) && Apart(owner, d1, d2, i)
    ensures Apart(owner, d0, d2, i)
  {
  }

  lemma BlockInHand(all: seq<int>, refs: seq<int>, size0: int, size: int, count: int)
    requires 0 <= size0 <= size <= size0 + count < MAX_BYTES
    requires FileBlocks(refs, (size0 + count) / BLOCK) && InHand(all, refs, size0 / BLOCK, (size0 + count) / BLOCK)
    ensures FileBlocksTo(refs, size / BLOCK) && |all| == BLOCKS && all[size / BLOCK] == refs[size / BLOCK]
  {
  }

  /** A position that opening, reading, seeking and writing leave, and a count that does not wrap around. */
  predicate PosOk(size: int, pos: int, count: int) {
    0 <= count < WORD_LIMIT && ((0 <= pos <= size && pos + count < WORD_LIMIT) || (size == 0 && pos == Cursor(0)))
  }

  /** Where a read of `count` bytes at `pos` ends. */
  function ReadEnd(size: int, pos: int, count: int): (e: int) {
    if pos + count > size then size else pos + count
  }

  lemma ShapeMeans(size: int, refs: seq<int>)
    requires FileShape(size, refs)
    ensures |refs| == REFS && 0 <= size < MAX_BYTES && (size / BLOCK >= DIRECT ==> refs[TABLE] != 0)
  {
  }

  /** The sums of `file_read` wrap exactly for the position that no bytes leave behind. */
  lemma ReadWraps(size: int, pos: int, count: int)
    requires PosOk(size, pos, count) && 0 <= size <= MAX_BYTES
    ensures pos != Cursor(0) ==> && (pos + count) % WORD_LIMIT == pos + count && (size - pos) % WORD_LIMIT == size - pos
                                 && (pos + (size - pos)) % WORD_LIMIT == size && 0 <= pos <= size
    ensures pos == Cursor(0) ==> size == 0 && pos / BLOCK >= 139 && (size - pos) % WORD_LIMIT == 1
  {
  }

  lemma ReadChunk(disk: Disk, size: int, refs: seq<int>, pos: int, chunk: int)
    requires 0 <= pos && 0 <= chunk && pos + chunk <= size && pos % BLOCK + chunk <= BLOCK
    requires pos / BLOCK < |refs| && 0 <= refs[pos / BLOCK] < |disk| && |disk[refs[pos / BLOCK]]| == BLOCK
    ensures Content(disk, size, refs)[pos..pos + chunk] == disk[refs[pos / BLOCK]][pos % BLOCK..pos % BLOCK + chunk]
  {
    var s := disk[refs[pos / BLOCK]];
    var c := Content(disk, size, refs)[pos..pos + chunk];
    forall x | 0 <= x < chunk ensures c[x] == s[pos % BLOCK..pos % BLOCK + chunk][x] {
      assert pos + x == pos / BLOCK * BLOCK + (pos % BLOCK + x);
      assert (pos + x) / BLOCK == pos / BLOCK && (pos + x) % BLOCK == pos % BLOCK + x;
    }
  }

  /** Blocks 0 to `last` are allocated. */
  ghost predicate FileBlocksTo(refs: seq<int>, last: int) {
    |refs| == REFS && forall k :: 0 <= k <= last && k < BLOCKS ==> refs[k] != 0
  }

  /** A turn of the read loop finds its sector in `all_blocks` and the file's bytes in the sector. */
  lemma ChunkRead(start: int, disk: Disk, inodes: map<int, Inode>, g: Ledger, i: int, all: seq<int>,
                  pos: int, end: int, next: int, chunk: int)
    requires Sound(start, disk, inodes, g) && i in inodes && i in g.refs
    requires FileShape(inodes[i].size, g.refs[i]) && InHand(all, g.refs[i], pos / BLOCK, end / BLOCK)
    requires 0 <= pos <= next < end <= inodes[i].size && 0 <= chunk <= end - next
    requires next % BLOCK + chunk <= BLOCK
    ensures next / BLOCK < |all| && 0 <= all[next / BLOCK] < |disk| && |disk[all[next / BLOCK]]| == BLOCK
    ensures Content(disk, inodes[i].size, g.refs[i])[next..next + chunk]
         == disk[all[next / BLOCK]][next % BLOCK..next % BLOCK + chunk]
  {
    OwnRefs(start, g, i);
    ReadChunk(disk, inodes[i].size, g.refs[i], next, chunk);
  }

  /** Part way through a release: inode `i` has lost some blocks, and nobody else has. */
  ghost predicate Shrunk(start: int, g0: Ledger, g: Ledger, i: int) {
    && Owned(start, g) && i in g0.refs && i in g.refs && g.refs == g0.refs[i := g.refs[i]] && |g.bits| == |g0.bits|
    && (forall l :: l in g.owner ==> l in g0.owner && g.owner[l] == g0.owner[l])
    && (forall l :: l in g0.owner && g0.owner[l].ino != i ==> l in g.owner)
  }

  lemma RootStays(start: int, disk: Disk, n0: map<int, Inode>, g0: Ledger, g: Ledger, i: int, k: int)
    requires Sound(start, disk, n0, g0) && Shrunk(start, g0, g, i) && i != 0 && 0 <= k < REFS && g.refs[i][k] != 0
    ensures g.refs[i][k] > start
  {
    assert RefOk(g, i, k) && OwnOk(start, g, g.refs[i][k]);
    assert RefOk(g, 0, 0);
  }

  lemma Shrinks(start: int, g0: Ledger, g: Ledger, i: int, k: int)
    requires Shrunk(start, g0, g, i) && 0 <= k < REFS && g.refs[i][k] != 0
    ensures 0 <= g.refs[i][k] - start < |g.bits|
    ensures Shrunk(start, g0, Detach(start, g, i, k), i)
  {
    DetachKeeps(start, g, i, k);
    assert RefOk(g, i, k);
  }

  /** A released inode is out of the partition, with exactly its own bits. */
  lemma Gone(start: int, disk: Disk, n0: map<int, Inode>, g0: Ledger, g: Ledger, i: int)
    requires Sound(start, disk, n0, g0) && Shrunk(start, g0, g, i) && i != 0 && Empty(g.refs[i])
    ensures Sound(start, disk, n0 - {i}, g.(refs := g.refs - {i}))
    ensures forall b :: 0 <= b < |g.bits| ==>
                          (g.bits[b] <==> g0.bits[b] && start + b in g0.owner && g0.owner[start + b].ino != i)
  {
    LeaveKeeps(start, g, i);
    forall j | j in n0 && j != i ensures Linked(disk, n0[j], (g.refs - {i})[j]) {
      assert Linked(disk, n0[j], g0.refs[j]);
    }
    forall b | 0 <= b < |g.bits|
      ensures g.bits[b] <==> g0.bits[b] && start + b in g0.owner && g0.owner[start + b].ino != i
    {
      if start + b in g.owner { assert OwnOk(start, g, start + b); }
      if start + b in g0.owner { assert OwnOk(start, g0, start + b); }
    }
  }

  /** The sector that `block_bitmap_alloc` gives, -1 when there is none. */
  function FirstFree(start: int, bits: seq<bool>): (l: int) {
    match FirstFit(bits, 1)
    case Start(b) => start + b
    case NoFit => -1
  }

  class Partition {
    const start: int                     // data_start_lba
    var disk: Disk
    var bits: seq<bool>                  // block_bitmap
    var inodes: map<int, Inode>
    ghost var refs: map<int, seq<int>>
    ghost var owner: map<int, Place>

    ghost function Book(): (g: Ledger)
      reads this
    {
      Ledger(bits, refs, owner)
    }

    ghost predicate Valid()
      reads this
    {
      Sound(start, disk, inodes, Book())
    }

    /** `block_bitmap_alloc`: first fit; `bitmap_scan` fails its assertion when no bit is clear. */
    method BlockAlloc() returns (r: Outcome<int>)
      modifies `bits
      ensures r.Panic? <==> Free(old(bits)) == 0
      ensures r.Go? ==> start <= r.s < start + |old(bits)| && FirstFit(old(bits), 1) == Start(r.s - start)
      ensures r.Go? ==> !old(bits)[r.s - start] && bits == old(bits)[r.s - start := true]
      ensures r.Go? ==> Free(bits) == Free(old(bits)) - 1
    {
      FitOne(bits);
      FreeNone(bits);
      match FirstFit(bits, 1)
      case NoFit => r := Panic;
      case Start(b) =>
        FreeUpdate(bits, b, true);
        bits := bits[b := true];
        r := Go(start + b);
    }

    /** One turn of the allocation loops: block `k` goes into `all_blocks` and, when direct, into the inode. */
    method GrowOne(i: int, all0: seq<int>, k: int) returns (panic: bool, all: seq<int>)
      requires Owned(start, Book()) && i in inodes && i in refs && InMemory(inodes[i], all0, refs[i])
      requires 0 <= k < BLOCKS && refs[i][k] == 0
      modifies `bits, `inodes, `refs, `owner
      ensures panic <==> Free(old(bits)) == 0
      ensures !panic ==>
                && i in inodes && i in refs && Owned(start, Book()) && |bits| == |old(bits)|
                && Free(bits) == Free(old(bits)) - 1
                && inodes == old(inodes)[i := inodes[i]] && refs == old(refs)[i := refs[i]]
                && inodes[i].size == old(inodes[i].size) && InMemory(inodes[i], all, refs[i])
                && |all| == |all0| && all == all0[k := all[k]] && all[k] != 0
                && refs[i] == old(refs[i])[k := all[k]] && all[k] == FirstFree(start, old(bits))
                && (k < DIRECT ==> k < |old(inodes[i].sectors)| && inodes[i].sectors == old(inodes[i].sectors)[k := all[k]])
    {
      hide Owned, InMemory, Free;
      panic := false;
      ghost var g := Book();
      var lba := BlockAlloc();
      if lba.Panic? { return true, all0; }
      PlacedInMemory(inodes[i], all0, refs[i], k, lba.s);
      all := all0[k := lba.s];
      if k < DIRECT {
        assert inodes[i].sectors[k] == 0;
        inodes := inodes[i := inodes[i].(sectors := inodes[i].sectors[k := lba.s])];
      }
      AttachKeeps(start, g, i, k, lba.s - start);
      refs := refs[i := refs[i][k := lba.s]];
      owner := owner[lba.s := Place(i, k)];
    }

    /** The allocation loops over blocks `from` to `to - 1`. */
    method Grow(i: int, all0: seq<int>, from: int, to: int) returns (panic: bool, all: seq<int>)
      requires Owned(start, Book()) && i in inodes && i in refs && InMemory(inodes[i], all0, refs[i])
      requires 0 <= from <= to <= BLOCKS && forall k :: from <= k < to ==> refs[i][k] == 0
      modifies `bits, `inodes, `refs, `owner
      ensures panic <==> Free(old(bits)) < to - from
      ensures !panic ==>
                && i in inodes && i in refs && Owned(start, Book()) && |bits| == |old(bits)|
                && Free(bits) == Free(old(bits)) - (to - from)
                && inodes == old(inodes)[i := inodes[i]] && refs == old(refs)[i := refs[i]]
                && inodes[i].size == old(inodes[i].size) && InMemory(inodes[i], all, refs[i])
                && Grown(old(refs[i]), all0, refs[i], all, from, to)
    {
      hide Owned;
      panic := false;
      all := all0;
      var k := from;
      while k < to
        invariant from <= k <= to
        invariant i in inodes && i in refs && Owned(start, Book()) && |bits| == |old(bits)|
        invariant Free(bits) == Free(old(bits)) - (k - from)
        invariant inodes == old(inodes)[i := inodes[i]] && refs == old(refs)[i := refs[i]]
        invariant inodes[i].size == old(inodes[i].size) && InMemory(inodes[i], all, refs[i])
        invariant Grown(old(refs[i]), all0, refs[i], all, from, k)
      {
        panic, all := GrowOne(i, all, k);
        if panic { return; }
        k := k + 1;
      }
    }

    /** The first block of a file that was never written. */
    method FirstBlock(i: int) returns (panic: bool)
      requires Valid() && i in inodes && i != 0 && FileShape(inodes[i].size, refs[i])
      modifies `bits, `inodes, `refs, `owner
      ensures panic <==> old(inodes[i].sectors[0]) == 0 && Free(old(bits)) == 0
      ensures !panic ==>
                && Valid() && i in inodes && |bits| == |old(bits)|
                && Free(bits) == Free(old(bits)) - (if old(inodes[i].sectors[0]) == 0 then 1 else 0)
                && inodes == old(inodes)[i := inodes[i]] && refs == old(refs)[i := refs[i]]
                && inodes[i].size == old(inodes[i].size) && FileBlocks(refs[i], inodes[i].size / BLOCK)
                && (inodes[i].size > 0 ==> refs[i] == old(refs[i]))
    {
      hide Owned, Free;
      assert Linked(disk, inodes[i], refs[i]);
      assert refs[i][0] == Ref(disk, inodes[i], 0);
      panic := false;
      if inodes[i].sectors[0] == 0 {
        var all := seq(BLOCKS, k => 0);
        NoTable(disk, inodes[i], refs[i], all);
        panic, all := GrowOne(i, all, 0);
        if panic { return; }
        NoTableLinked(disk, inodes[i], refs[i], all);
        SoundAgain(start, disk, old(inodes), old(Book()), disk, inodes, Book(), i);
        NotRoot(start, disk, inodes, Book(), i, 0);
        assert inodes[i].sectors[0] - start != 0;
      }
    }

    /** The first case: the twelve direct blocks are enough. */
    method CollectDirect(i: int, count: int) returns (panic: bool, all: seq<int>)
      requires Valid() && i in inodes && i != 0 && FileBlocks(refs[i], inodes[i].size / BLOCK)
      requires 0 <= count && 0 <= inodes[i].size && (inodes[i].size + count) / BLOCK < DIRECT
      modifies `bits, `inodes, `refs, `owner
      ensures panic <==> Free(old(bits)) < (old(inodes[i].size) + count) / BLOCK - old(inodes[i].size) / BLOCK
      ensures !panic ==> Collected(start, old(disk), old(inodes), old(Book()), disk, inodes, Book(), all, i, count)
      ensures !panic ==> Free(bits) == Free(old(bits)) - ((inodes[i].size + count) / BLOCK - inodes[i].size / BLOCK)
    {
      hide Owned, Free;
      assert Linked(disk, inodes[i], refs[i]);
      var has, will := inodes[i].size / BLOCK + 1, (inodes[i].size + count) / BLOCK + 1;
      all := seq(BLOCKS, k => 0);
      all := all[has - 1 := inodes[i].sectors[has - 1]];
      NoTable(disk, inodes[i], refs[i], all);
      panic, all := Grow(i, all, has, will);
      if panic { return; }
      NoTableLinked(disk, inodes[i], refs[i], all);
      CollectDone(start, disk, old(inodes), old(Book()), disk, inodes, Book(), all, i, count);
    }

    /** The second case: old data in direct blocks, new data beyond them, so the table is created. */
    method CollectAcross(i: int, count: int) returns (panic: bool, all: seq<int>)
      requires Valid() && i in inodes && i != 0 && FileBlocks(refs[i], inodes[i].size / BLOCK)
      requires 0 <= count && 0 <= inodes[i].size && inodes[i].size / BLOCK < DIRECT
      requires DIRECT <= (inodes[i].size + count) / BLOCK < BLOCKS
      modifies this
      ensures panic <==> Free(old(bits)) < (old(inodes[i].size) + count) / BLOCK - old(inodes[i].size) / BLOCK + 1
      ensures !panic ==> Collected(start, old(disk), old(inodes), old(Book()), disk, inodes, Book(), all, i, count)
      ensures !panic ==> Free(bits) == Free(old(bits)) - ((inodes[i].size + count) / BLOCK - inodes[i].size / BLOCK + 1)
    {
      hide Owned, Free;
      assert Linked(disk, inodes[i], refs[i]);
      var has, will := inodes[i].size / BLOCK + 1, (inodes[i].size + count) / BLOCK + 1;
      all := seq(BLOCKS, k => 0);
      all := all[has - 1 := inodes[i].sectors[has - 1]];
      NoTable(disk, inodes[i], refs[i], all);
      panic := NewTable(i, all);
      if panic { return; }
      panic, all := Grow(i, all, has, will);
      if panic { return; }
      WriteTable(i, all);
      CollectDone(start, old(disk), old(inodes), old(Book()), disk, inodes, Book(), all, i, count);
    }

    method NewTable(i: int, ghost all: seq<int>) returns (panic: bool)
      requires Owned(start, Book()) && i in inodes && i in refs && InMemory(inodes[i], all, refs[i])
      requires refs[i][TABLE] == 0
      modifies `bits, `inodes, `refs, `owner
      ensures panic <==> Free(old(bits)) == 0
      ensures !panic ==>
                && i in inodes && i in refs && Owned(start, Book()) && |bits| == |old(bits)|
                && Free(bits) == Free(old(bits)) - 1
                && inodes == old(inodes)[i := inodes[i]] && refs == old(refs)[i := refs[i]]
                && inodes[i].size == old(inodes[i].size) && InMemory(inodes[i], all, refs[i])
                && refs[i][TABLE] != 0 && refs[i] == old(refs[i])[TABLE := refs[i][TABLE]]
    {
      hide Owned, Free;
      panic := false;
      ghost var g := Book();
      var lba := BlockAlloc();
      if lba.Panic? { return true; }
      AttachKeeps(start, g, i, TABLE, lba.s - start);
      assert inodes[i].sectors[12] == 0;
      inodes := inodes[i := inodes[i].(sectors := inodes[i].sectors[12 := lba.s])];
      refs := refs[i := refs[i][TABLE := lba.s]];
      owner := owner[lba.s := Place(i, TABLE)];
    }

    /** The table sector is written in one piece from `all_blocks`. */
    method WriteTable(i: int, all: seq<int>)
      requires Owned(start, Book()) && DiskOk(disk) && start + |bits| <= |disk|
      requires i in inodes && i in refs && InMemory(inodes[i], all, refs[i]) && refs[i][TABLE] != 0
      modifies `disk
      ensures DiskOk(disk) && Linked(disk, inodes[i], refs[i]) && |disk| == |old(disk)| && 0 < refs[i][TABLE] < |disk|
      ensures disk == old(disk)[refs[i][TABLE] := disk[refs[i][TABLE]]]
    {
      OwnRefs(start, Book(), i);
      TableWritten(disk, inodes[i], refs[i], all);
      disk := disk[inodes[i].sectors[12] := Encode(all[DIRECT..])];
    }

    /** The third case: the table exists and gets new entries. */
    method CollectBeyond(i: int, count: int) returns (panic: bool, all: seq<int>)
      requires Valid() && i in inodes && i != 0 && FileBlocks(refs[i], inodes[i].size / BLOCK)
      requires 0 <= count && 0 <= inodes[i].size && DIRECT <= inodes[i].size / BLOCK
      requires (inodes[i].size + count) / BLOCK < BLOCKS
      modifies this
      ensures panic <==> Free(old(bits)) < (old(inodes[i].size) + count) / BLOCK - old(inodes[i].size) / BLOCK
      ensures !panic ==> Collected(start, old(disk), old(inodes), old(Book()), disk, inodes, Book(), all, i, count)
      ensures !panic ==> Free(bits) == Free(old(bits)) - ((inodes[i].size + count) / BLOCK - inodes[i].size / BLOCK)
    {
      var has, will := inodes[i].size / BLOCK + 1, (inodes[i].size + count) / BLOCK + 1;
      all := ReadTable(i, seq(BLOCKS, k => 0));
      hide Owned, Free;
      panic, all := Grow(i, all, has, will);
      if panic { return; }
      WriteTable(i, all);
      CollectDone(start, old(disk), old(inodes), old(Book()), disk, inodes, Book(), all, i, count);
    }

    /** The table is read behind the first twelve words of `all_blocks`. */
    method ReadTable(i: int, all0: seq<int>) returns (all: seq<int>)
      requires Valid() && i in inodes && refs[i][TABLE] != 0 && |all0| == BLOCKS
      ensures InMemory(inodes[i], all, refs[i]) && all[..DIRECT] == all0[..DIRECT]
    {
      assert Linked(disk, inodes[i], refs[i]);
      assert refs[i][TABLE] == Ref(disk, inodes[i], TABLE);
      OwnRefs(start, Book(), i);
      TableRead(disk, inodes[i], refs[i], all0);
      all := all0[..DIRECT] + Decode(disk[inodes[i].sectors[12]]);
    }

    /** No new block: the last block's address, or the whole table. */
    method CollectSame(i: int, ghost count: int) returns (all: seq<int>)
      requires Valid() && i in inodes && i != 0 && FileBlocks(refs[i], inodes[i].size / BLOCK)
      requires 0 <= count && 0 <= inodes[i].size < MAX_BYTES
      requires (inodes[i].size + count) / BLOCK == inodes[i].size / BLOCK
      ensures Collected(start, disk, inodes, Book(), disk, inodes, Book(), all, i, count)
    {
      assert Linked(disk, inodes[i], refs[i]);
      all := seq(BLOCKS, k => 0);
      var has := inodes[i].size / BLOCK + 1;
      if has <= DIRECT {
        assert refs[i][has - 1] == Ref(disk, inodes[i], has - 1);
        all := all[has - 1 := inodes[i].sectors[has - 1]];
      } else {
        all := ReadTable(i, all);
      }
      CollectDone(start, disk, inodes, Book(), disk, inodes, Book(), all, i, count);
    }

    /** The four cases. */
    method CollectMore(i: int, count: int) returns (panic: bool, all: seq<int>)
      requires Valid() && i in inodes && i != 0 && FileBlocks(refs[i], inodes[i].size / BLOCK)
      requires 0 <= count && 0 <= inodes[i].size && inodes[i].size + count < MAX_BYTES
      modifies this
      ensures panic <==> Free(old(bits)) < Added(old(inodes[i].size), count)
      ensures !panic ==> Collected(start, old(disk), old(inodes), old(Book()), disk, inodes, Book(), all, i, count)
      ensures !panic ==> Free(bits) == Free(old(bits)) - Added(inodes[i].size, count)
    {
      hide Owned, Free, Sound, FileBlocks;
      panic := false;
      var has, will := inodes[i].size / BLOCK + 1, (inodes[i].size + count) / BLOCK + 1;
      if will == has {
        all := CollectSame(i, count);
      } else if will <= DIRECT {
        panic, all := CollectDirect(i, count);
      } else if has <= DIRECT {
        panic, all := CollectAcross(i, count);
      } else {
        panic, all := CollectBeyond(i, count);
      }
    }

    /** All the cases of `file_write` before its data loop. */
    method Collect(i: int, count: int) returns (panic: bool, all: seq<int>)
      requires Valid() && i in inodes && i != 0 && FileShape(inodes[i].size, refs[i])
      requires 0 <= count && inodes[i].size + count <= MAX_BYTES
      modifies this
      ensures panic <==> old(inodes[i].size) + count == MAX_BYTES || Free(old(bits)) < Needed(old(inodes[i]), count)
      ensures !panic ==>
                && i in inodes && i in refs && Valid() && |bits| == |old(bits)|
                && inodes == old(inodes)[i := inodes[i]] && refs == old(refs)[i := refs[i]]
                && inodes[i].size == old(inodes[i].size)
                && FileBlocks(refs[i], (inodes[i].size + count) / BLOCK) && Apart(owner, old(disk), disk, i)
                && InHand(all, refs[i], inodes[i].size / BLOCK, (inodes[i].size + count) / BLOCK)
                && Content(disk, inodes[i].size, refs[i]) == old(Content(disk, inodes[i].size, refs[i]))
                && Free(bits) == Free(old(bits)) - Needed(old(inodes[i]), count)
    {
      hide Owned, Free, FileBlocks, Linked, DiskOk;
      all := [];
      panic := FirstBlock(i);
      if panic { return; }
      var size := inodes[i].size;
      if (size + count) / BLOCK + 1 > BLOCKS { return true, all; }
      ghost var d, g := disk, Book();
      panic, all := CollectMore(i, count);
      if panic { return; }
      SameContent(d, disk, g.refs[i], refs[i], size);
    }

    /** The data loop of `file_write`: sector by sector, the first one read before it is overwritten. */
    method WriteData(i: int, all: seq<int>, buf: seq<Byte>) returns (pos: int)
      requires Valid() && i in inodes && i in refs && 0 <= inodes[i].size && inodes[i].size + |buf| < MAX_BYTES
      requires FileBlocks(refs[i], (inodes[i].size + |buf|) / BLOCK)
      requires InHand(all, refs[i], inodes[i].size / BLOCK, (inodes[i].size + |buf|) / BLOCK)
      modifies `disk, `inodes
      ensures Valid() && inodes == old(inodes)[i := old(inodes[i]).(size := old(inodes[i].size) + |buf|)]
      ensures Apart(owner, old(disk), disk, i)
      ensures Content(disk, inodes[i].size, refs[i]) == old(Content(disk, inodes[i].size, refs[i])) + buf
      ensures pos == Cursor(inodes[i].size)
    {
      hide Sound, Content, Apart, Cursor, FileBlocks, InHand;
      var first := true;
      var written := 0;
      ghost var size0 := inodes[i].size;
      ghost var text := Content(disk, size0, refs[i]);
      pos := Cursor(inodes[i].size);
      assert text == text + buf[..0];
      ApartRefl(owner, disk, i);
      while written < |buf|
        invariant 0 <= written <= |buf|
        invariant Valid() && inodes == old(inodes)[i := old(inodes[i]).(size := size0 + written)]
        invariant Apart(owner, old(disk), disk, i)
        invariant Content(disk, inodes[i].size, refs[i]) == text + buf[..written]
        invariant pos == Cursor(inodes[i].size)
        invariant first ==> written == 0
        invariant !first && written < |buf| ==> inodes[i].size % BLOCK == 0
      {
        var size := inodes[i].size;
        var off := size % BLOCK;
        var chunk := if |buf| - written < BLOCK - off then |buf| - written else BLOCK - off;
        BlockInHand(all, refs[i], size0, size, |buf|);
        var d := WriteChunk(i, all, buf[written..written + chunk], first);
        ApartTrans(owner, old(disk), disk, d, i);
        CursorMoves(size, chunk);
        TakeMore(text, buf, written, chunk);
        disk := d;
        first := false;
        inodes := inodes[i := inodes[i].(size := size + chunk)];
        pos := (pos + chunk) % WORD_LIMIT;
        written := written + chunk;
      }
      assert buf[..written] == buf;
    }

    /** The disk after one turn of the data loop. */
    method WriteChunk(i: int, all: seq<int>, chunk: seq<Byte>, first: bool) returns (d: Disk)
      requires Valid() && i in inodes && 0 <= inodes[i].size < MAX_BYTES && FileBlocksTo(refs[i], inodes[i].size / BLOCK)
      requires |all| == BLOCKS && all[inodes[i].size / BLOCK] == refs[i][inodes[i].size / BLOCK]
      requires inodes[i].size % BLOCK + |chunk| <= BLOCK && (first || inodes[i].size % BLOCK == 0)
      ensures Sound(start, d, inodes[i := inodes[i].(size := inodes[i].size + |chunk|)], Book())
      ensures Apart(owner, disk, d, i)
      ensures Content(d, inodes[i].size + |chunk|, refs[i]) == Content(disk, inodes[i].size, refs[i]) + chunk
    {
      ghost var g := Book();
      var size := inodes[i].size;
      OwnRefs(start, g, i);
      var lba := all[size / BLOCK];
      var io: Sector := seq(BLOCK, x => 0);
      if first { io := disk[lba]; }
      AppendChunk(disk, size, refs[i], io, chunk);
      io := Splice(io, size % BLOCK, chunk);
      DataWrite(start, disk, inodes, g, i, size / BLOCK, io, size + |chunk|);
      d := disk[lba := io];
    }

    /** `file_write`.  It refuses more than 71680 bytes, and fails an assertion exactly when the file would have
        71680 bytes or the bitmap has not enough clear bits.  Otherwise the file's bytes are its old bytes and
        the buffer, it has exactly the blocks of its new size, and no other file changes. */
    method FileWrite(i: int, buf: seq<Byte>) returns (r: Outcome<int>, pos: int)
      requires Valid() && i in inodes && i in refs && i != 0 && FileShape(inodes[i].size, refs[i])
      requires inodes[i].size + |buf| < WORD_LIMIT
      modifies this
      ensures r == Go(-1) <==> old(inodes[i].size) + |buf| > MAX_BYTES
      ensures r.Panic? <==> || old(inodes[i].size) + |buf| == MAX_BYTES
                            || (old(inodes[i].size) + |buf| < MAX_BYTES && Free(old(bits)) < Needed(old(inodes[i]), |buf|))
      ensures r == Go(-1) ==> disk == old(disk) && inodes == old(inodes) && Book() == old(Book())
      ensures r.Go? && r.s != -1 ==>
                && i in inodes && i in refs && Valid() && r.s == |buf|
                && inodes == old(inodes)[i := inodes[i]] && refs == old(refs)[i := refs[i]]
                && inodes[i].size == old(inodes[i].size) + |buf| && FileShape(inodes[i].size, refs[i])
                && Content(disk, inodes[i].size, refs[i]) == old(Content(disk, inodes[i].size, refs[i])) + buf
                && Apart(owner, old(disk), disk, i)
                && Free(bits) == Free(old(bits)) - Needed(old(inodes[i]), |buf|)
                && pos == Cursor(inodes[i].size)
    {
      hide Sound, Content, Free, Cursor, Needed;
      pos := 0;
      if inodes[i].size + |buf| > MAX_BYTES { return Go(-1), pos; }
      var panic, all := Collect(i, |buf|);
      if panic { return Panic, pos; }
      ghost var d := disk;
      pos := WriteData(i, all, buf);
      ApartTrans(owner, old(disk), d, disk, i);
      r := Go(|buf|);
    }

    /** The cases of `file_read` before its data loop: the addresses of blocks `first` to `last`. */
    method Gather(i: int, first: int, last: int) returns (all: seq<int>)
      requires Valid() && i in inodes && i in refs && 0 <= first <= last < BLOCKS
      requires |refs[i]| == REFS && (last >= DIRECT ==> refs[i][TABLE] != 0)
      ensures InHand(all, refs[i], first, last)
    {
      assert Linked(disk, inodes[i], refs[i]);
      all := seq(BLOCKS, k => 0);
      if first == last {
        if last < DIRECT {
          assert refs[i][last] == Ref(disk, inodes[i], last);
          all := all[last := inodes[i].sectors[last]];
        } else {
          all := ReadTable(i, all);
        }
      } else if last < DIRECT {
        all := GatherDirect(i, all, first, last + 1);
      } else if first < DIRECT {
        all := GatherDirect(i, all, first, DIRECT);
        assert inodes[i].sectors[12] != 0 by { assert refs[i][TABLE] == Ref(disk, inodes[i], TABLE); }
        ghost var was := all;
        all := ReadTable(i, all);
        assert forall k :: 0 <= k < DIRECT ==> all[k] == all[..DIRECT][k] == was[..DIRECT][k];
      } else {
        assert inodes[i].sectors[12] != 0 by { assert refs[i][TABLE] == Ref(disk, inodes[i], TABLE); }
        all := ReadTable(i, all);
      }
    }

    method GatherDirect(i: int, all0: seq<int>, from: int, to: int) returns (all: seq<int>)
      requires Valid() && i in inodes && i in refs && |all0| == BLOCKS && 0 <= from <= to <= DIRECT
      ensures |all| == BLOCKS && |refs[i]| == REFS && forall k :: from <= k < to ==> all[k] == refs[i][k]
      ensures forall k :: 0 <= k < BLOCKS && !(from <= k < to) ==> all[k] == all0[k]
    {
      assert Linked(disk, inodes[i], refs[i]);
      hide Sound;
      all := all0;
      var k := from;
      while k < to
        invariant from <= k <= to && |all| == BLOCKS
        invariant forall m :: from <= m < k ==> all[m] == refs[i][m]
        invariant forall m :: 0 <= m < BLOCKS && !(from <= m < k) ==> all[m] == all0[m]
      {
        assert refs[i][k] == Ref(disk, inodes[i], k);
        all := all[k := inodes[i].sectors[k]];
        k := k + 1;
      }
    }

    /** `file_read`.  At the end of the file it returns -1, shown as `None`; it fails an assertion exactly when the
        read would end in block 139 or later, or when `fd_pos` is one less than zero, as the writing of no bytes to an
        empty file leaves it; otherwise it returns the bytes from `pos` up to the end of the file or of the request, and
        leaves `fd_pos` behind them. */
    method FileRead(i: int, pos: int, count: int) returns (r: Outcome<Option<seq<Byte>>>, next: int)
      requires Valid() && i in inodes && i in refs && FileShape(inodes[i].size, refs[i])
      requires PosOk(inodes[i].size, pos, count)
      ensures r == Go(None) <==> pos == inodes[i].size && count > 0
      ensures r.Panic? <==> pos == Cursor(0) || (r != Go(None) && ReadEnd(inodes[i].size, pos, count) / BLOCK >= 139)
      ensures r.Go? && r.s.Some? ==>
                && next == ReadEnd(inodes[i].size, pos, count)
                && r.s.v == Content(disk, inodes[i].size, refs[i])[pos..next]
    {
      hide Sound, Content, InHand, FileShape;
      next := pos;
      var size := count;
      ShapeMeans(inodes[i].size, refs[i]);
      ReadWraps(inodes[i].size, pos, count);
      if (pos + count) % WORD_LIMIT > inodes[i].size {
        size := (inodes[i].size - pos) % WORD_LIMIT;
        if size == 0 { return Go(None), next; }
      }
      var end := (pos + size) % WORD_LIMIT;
      if pos / BLOCK >= 139 || end / BLOCK >= 139 { return Panic, next; }
      var all := Gather(i, pos / BLOCK, end / BLOCK);
      var dst := ReadData(i, all, pos, end);
      r, next := Go(Some(dst)), end;
    }

    /** The data loop of `file_read`. */
    method ReadData(i: int, all: seq<int>, pos: int, end: int) returns (dst: seq<Byte>)
      requires Valid() && i in inodes && i in refs && FileShape(inodes[i].size, refs[i])
      requires 0 <= pos <= end <= inodes[i].size && InHand(all, refs[i], pos / BLOCK, end / BLOCK)
      ensures dst == Content(disk, inodes[i].size, refs[i])[pos..end]
    {
      hide Sound, Content, FileShape, InHand;
      dst := [];
      var next := pos;
      ghost var text := Content(disk, inodes[i].size, refs[i]);
      while next < end
        invariant pos <= next <= end
        invariant dst == text[pos..next]
      {
        var off := next % BLOCK;
        var chunk := if end - next < BLOCK - off then end - next else BLOCK - off;
        ChunkRead(start, disk, inodes, Book(), i, all, pos, end, next, chunk);
        var lba := all[next / BLOCK];
        assert text[pos..next] + text[next..next + chunk] == text[pos..next + chunk];
        dst := dst + disk[lba][off..off + chunk];
        next := next + chunk;
      }
    }

    /** `inode_release`: the block addresses are collected, the table's bit and every block's bit are cleared and
        the inode is given up.  Exactly the sectors of inode `i` become free. */
    method InodeRelease(i: int)
      requires Valid() && i in inodes && i in refs && i != 0
      modifies `bits, `inodes, `refs, `owner
      ensures Valid() && inodes == old(inodes) - {i} && refs == old(refs) - {i} && |bits| == |old(bits)|
      ensures forall b :: 0 <= b < |bits| ==>
                            (bits[b] <==> old(bits)[b] && start + b in old(owner) && old(owner)[start + b].ino != i)
      ensures Free(bits) >= Free(old(bits))
    {
      ghost var d, n0, g0 := disk, inodes, Book();
      var all := AllBlocks(i);
      var cnt := DIRECT;
      hide Sound, Owned, Linked;
      if inodes[i].sectors[12] != 0 {
        cnt := BLOCKS;
        FreeBlock(i, TABLE, inodes[i].sectors[12], n0, g0);
      }
      var k := 0;
      while k < cnt
        invariant 0 <= k <= cnt && inodes == n0 && i in refs && |refs[i]| == REFS && Shrunk(start, g0, Book(), i)
        invariant forall m :: k <= m < BLOCKS ==> refs[i][m] == g0.refs[i][m]
        invariant forall m :: 0 <= m < k ==> refs[i][m] == 0
        invariant refs[i][TABLE] == 0
      {
        if all[k] != 0 { FreeBlock(i, k, all[k], n0, g0); }
        k := k + 1;
      }
      Gone(start, d, n0, g0, Book(), i);
      FreeMore(g0.bits, bits);
      inodes := inodes - {i};
      refs := refs - {i};
    }

    /** The addresses of all blocks: direct ones and, when the table exists, its entries. */
    method AllBlocks(i: int) returns (all: seq<int>)
      requires Valid() && i in inodes && i in refs
      ensures |all| == BLOCKS && |refs[i]| == REFS && |inodes[i].sectors| == 13
      ensures forall k :: 0 <= k < BLOCKS ==> all[k] == refs[i][k]
      ensures inodes[i].sectors[12] == refs[i][TABLE]
      ensures inodes[i].sectors[12] == 0 ==> forall k :: DIRECT <= k < BLOCKS ==> refs[i][k] == 0
    {
      assert Linked(disk, inodes[i], refs[i]);
      assert refs[i][TABLE] == Ref(disk, inodes[i], TABLE);
      all := GatherDirect(i, seq(BLOCKS, k => 0), 0, DIRECT);
      if inodes[i].sectors[12] != 0 {
        ghost var was := all;
        all := ReadTable(i, all);
        assert forall k :: 0 <= k < DIRECT ==> all[k] == all[..DIRECT][k] == was[..DIRECT][k];
      } else {
        forall k | DIRECT <= k < BLOCKS ensures refs[i][k] == 0 { assert refs[i][k] == Ref(disk, inodes[i], k); }
      }
    }

    /** One bit cleared; the assertion that it is not bit 0 holds. */
    method FreeBlock(i: int, k: int, lba: int, ghost n0: map<int, Inode>, ghost g0: Ledger)
      requires Sound(start, disk, n0, g0) && i in g0.refs && i != 0 && 0 <= k < REFS && Shrunk(start, g0, Book(), i)
      requires i in refs && |refs[i]| == REFS && lba == refs[i][k] != 0
      modifies `bits, `refs, `owner
      ensures i in refs && refs[i] == old(refs[i])[k := 0] && Shrunk(start, g0, Book(), i)
    {
      ghost var g := Book();
      DetachKeeps(start, g, i, k);
      assert lba - start > 0 by { RootStays(start, disk, n0, g0, g, i, k); }
      bits := bits[lba - start := false];
      refs := refs[i := refs[i][k := 0]];
      owner := owner - {lba};
      Shrinks(start, g0, g, i, k);
      assert Book() == Detach(start, g, i, k);
    }
  }
}
