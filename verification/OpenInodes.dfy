/** The list of open inodes beside the tree: who has an inode open, and which copies in memory are of dead inodes. */
module OpenInodes {
  import opened Basics
  import opened Words
  import opened Volume
  import opened Entries
  import opened DirTable
  import opened FileCode
  import opened InodeArea
  import opened Tree
  import opened FsCode
  import C = InodeCache
  import IT = InodeTable

  type Cells = seq<C.Cell>

  // ---------------------------------------------------------------- who uses an inode

  ghost function Nos(x: FileSlot): (m: multiset<int>) { if x.OnInode? then multiset{x.ino} else multiset{} }

  /** The numbers in the slots of the file table. */
  ghost function SlotNos(files: seq<FileSlot>): (m: multiset<int>) {
    if files == [] then multiset{} else SlotNos(files[..|files| - 1]) + Nos(files[|files| - 1])
  }

  lemma {:induction false} SlotSet(files: seq<FileSlot>, g: int, x: FileSlot)
    requires 0 <= g < |files|
    ensures SlotNos(files[g := x]) + Nos(files[g]) == SlotNos(files) + Nos(x)
    decreases |files|
  {
    hide Nos;
    var n := |files| - 1;
    if g == n {
      assert files[g := x][..n] == files[..n];
    } else {
      SlotSet(files[..n], g, x);
      assert files[g := x][..n] == files[..n][g := x] && files[g := x][n] == files[n] && files[..n][g] == files[g];
      var a, b, y := SlotNos(files[..n][g := x]), SlotNos(files[..n]), Nos(files[n]);
      assert SlotNos(files[g := x]) == a + y && SlotNos(files) == b + y;
      assert a + y + Nos(files[g]) == a + Nos(files[g]) + y;
    }
  }

  lemma LastSlot(files: seq<FileSlot>, i: int)
    requires files != []
    ensures IsOpen(files, i) <==> IsOpen(files[..|files| - 1], i) || files[|files| - 1] == OnInode(i)
  {
    var n := |files| - 1;
    if IsOpen(files[..n], i) {
      var g :| 0 <= g < n && files[..n][g] == OnInode(i);
      assert files[g] == OnInode(i);
    }
    if IsOpen(files, i) && files[n] != OnInode(i) {
      var g :| 0 <= g < |files| && files[g] == OnInode(i);
      assert files[..n][g] == OnInode(i);
    }
  }

  lemma {:induction false} SlotIn(files: seq<FileSlot>, i: int)
    ensures IsOpen(files, i) <==> i in SlotNos(files)
    decreases |files|
  {
    if files != [] {
      var n := |files| - 1;
      SlotIn(files[..n], i);
      LastSlot(files, i);
      hide IsOpen;
      assert i in SlotNos(files) <==> i in SlotNos(files[..n]) || i in Nos(files[n]);
    }
  }

  /** How often each inode is open: by the file table, by directories left open, and the root once. */
  ghost function Uses(files: seq<FileSlot>, held: multiset<int>): (m: multiset<int>) { SlotNos(files) + held + multiset{0} }

  // ---------------------------------------------------------------- the list

  predicate Has(list: Cells, no: int) { C.Copy(list, no, 0) < |list| }

  /** A copy of a live inode is that inode; a copy of a dead one is the empty directory that it was.  It is counted as often
      as it is open. */
  ghost predicate CellOk(c: C.Cell, inodes: map<int, Inode>, uses: multiset<int>, first: map<int, int>) {
    var no := c.node.no;
    && c.cnt == uses[no] && no in uses
    && if no in inodes then c.node == Stored(no, inodes[no]) else no in first && c.node == Stored(no, DotInode(first[no]))
  }

  /** One copy for each inode that is open. */
  ghost predicate Copies(list: Cells, inodes: map<int, Inode>, uses: multiset<int>, first: map<int, int>) {
    && C.OneCopy(list) && (forall k :: 0 <= k < |list| ==> CellOk(list[k], inodes, uses, first))
    && (forall no :: no in uses ==> Has(list, no))
  }

  function Opened(list: Cells, no: int, h: int, n: IT.Inode): (r: Cells) {
    var k := C.Copy(list, no, 0);
    if k < |list| then list[k := list[k].(cnt := list[k].cnt + 1)] else [C.Cell(h, 1, n)] + list
  }

  function Closed(list: Cells, no: int): (r: Cells) {
    var k := C.Copy(list, no, 0);
    if k == |list| then list
    else if list[k].cnt == 1 then list[..k] + list[k + 1..]
    else list[k := list[k].(cnt := list[k].cnt - 1)]
  }

  /** The copy, if there is one, is changed in place. */
  function Wrote(list: Cells, no: int, n: IT.Inode): (r: Cells) {
    var k := C.Copy(list, no, 0);
    if k < |list| then list[k := list[k].(node := n)] else list
  }

  lemma HasAt(list: Cells, k: int)
    requires 0 <= k < |list|
    ensures Has(list, list[k].node.no) && (C.OneCopy(list) ==> C.Copy(list, list[k].node.no, 0) == k)
  {
  }

  /** One cell is replaced, with the same number. */
  lemma SetCell(list: Cells, k: int, c: C.Cell, no: int)
    requires 0 <= k < |list| && c.node.no == list[k].node.no && C.OneCopy(list)
    ensures C.OneCopy(list[k := c]) && (Has(list[k := c], no) <==> Has(list, no))
  {
    var r := list[k := c];
    if Has(list, no) { HasAt(r, C.Copy(list, no, 0)); }
    if Has(r, no) { HasAt(list, C.Copy(r, no, 0)); }
  }

  lemma OpenedOk(list: Cells, inodes: map<int, Inode>, uses: multiset<int>, first: map<int, int>, no: int, h: int, n: IT.Inode)
    requires Copies(list, inodes, uses, first) && no in inodes && n == Stored(no, inodes[no])
    ensures Copies(Opened(list, no, h, n), inodes, uses + multiset{no}, first)
  {
    var k, r, u := C.Copy(list, no, 0), Opened(list, no, h, n), uses + multiset{no};
    if k < |list| {
      forall m | m in u ensures Has(r, m) { SetCell(list, k, r[k], m); if m == no { HasAt(list, k); } }
      SetCell(list, k, r[k], no);
    } else {
      C.PushOne(list, C.Cell(h, 1, n));
      forall j | 0 <= j < |r| ensures CellOk(r[j], inodes, u, first) { if j > 0 { assert r[j] == list[j - 1]; } }
      forall m | m in u ensures Has(r, m) {
        if m == no { HasAt(r, 0); } else { assert r[C.Copy(list, m, 0) + 1] == list[C.Copy(list, m, 0)]; HasAt(r, C.Copy(list, m, 0) + 1); }
      }
    }
  }

  lemma RemovedOk(list: Cells, inodes: map<int, Inode>, uses: multiset<int>, first: map<int, int>, k: int)
    requires Copies(list, inodes, uses, first) && 0 <= k < |list| && list[k].cnt == 1
    ensures Copies(list[..k] + list[k + 1..], inodes, uses - multiset{list[k].node.no}, first)
  {
    var no := list[k].node.no;
    var r, u := list[..k] + list[k + 1..], uses - multiset{no};
    assert CellOk(list[k], inodes, uses, first);
    C.RemoveOne(list, k);
    forall j | 0 <= j < |r| ensures CellOk(r[j], inodes, u, first) {
      var i := if j < k then j else j + 1;
      assert r[j] == list[i] && CellOk(list[i], inodes, uses, first);
      assert list[i].node.no != no;
      assert u[list[i].node.no] == uses[list[i].node.no];
    }
    forall m | m in u ensures Has(r, m) {
      var i := C.Copy(list, m, 0);
      assert m != no && Has(list, m);
      assert r[if i < k then i else i - 1] == list[i];
      HasAt(r, if i < k then i else i - 1);
    }
  }

  lemma ClosedOk(list: Cells, inodes: map<int, Inode>, uses: multiset<int>, first: map<int, int>, no: int)
    requires Copies(list, inodes, uses, first) && no in uses
    ensures Copies(Closed(list, no), inodes, uses - multiset{no}, first)
  {
    var k, r, u := C.Copy(list, no, 0), Closed(list, no), uses - multiset{no};
    assert Has(list, no) && CellOk(list[k], inodes, uses, first);
    if list[k].cnt == 1 {
      RemovedOk(list, inodes, uses, first, k);
    } else {
      SetCell(list, k, r[k], no);
      forall m | m in u ensures Has(r, m) { SetCell(list, k, r[k], m); }
    }
  }

  lemma WroteOk(list: Cells, inodes0: map<int, Inode>, inodes: map<int, Inode>, uses: multiset<int>, first: map<int, int>, d: int)
    requires Copies(list, inodes0, uses, first) && d in inodes0 && d in inodes && inodes == inodes0[d := inodes[d]]
    ensures Copies(Wrote(list, d, Stored(d, inodes[d])), inodes, uses, first)
  {
    var k, r := C.Copy(list, d, 0), Wrote(list, d, Stored(d, inodes[d]));
    if k < |list| {
      SetCell(list, k, r[k], d);
      forall m | m in uses ensures Has(r, m) { SetCell(list, k, r[k], m); }
    }
    forall j | 0 <= j < |r| ensures CellOk(r[j], inodes, uses, first) { assert CellOk(list[j], inodes0, uses, first); }
  }

  /** An inode dies: nobody has it open, or it is an empty directory. */
  lemma CutOk(list: Cells, inodes: map<int, Inode>, uses: multiset<int>, first: map<int, int>, c: int)
    requires Copies(list, inodes, uses, first) && c in inodes && (c in uses ==> c in first && inodes[c] == DotInode(first[c]))
    ensures Copies(list, inodes - {c}, uses, first)
  {
    forall j | 0 <= j < |list| ensures CellOk(list[j], inodes - {c}, uses, first) { assert CellOk(list[j], inodes, uses, first); }
  }

  /** An inode is made and not opened: the copies stay right exactly when a dead copy of its number is equal to it. */
  lemma MadeExactlyWhen(list: Cells, inodes: map<int, Inode>, uses: multiset<int>, first: map<int, int>, c: int, l: int)
    requires Copies(list, inodes, uses, first) && c !in inodes
    ensures Copies(list, inodes[c := DotInode(l)], uses, first[c := l]) <==> (c in uses ==> c in first && first[c] == l)
    ensures c in uses && !(c in first && first[c] == l) ==> Has(list, c) && Differs(list[C.Copy(list, c, 0)], c, DotInode(l))
  {
    var m, f := inodes[c := DotInode(l)], first[c := l];
    if c in uses {
      var k := C.Copy(list, c, 0);
      assert Has(list, c) && CellOk(list[k], inodes, uses, first);
      assert DotInode(first[c]).sectors[0] == first[c] && DotInode(l).sectors[0] == l;
      if first[c] != l { assert !CellOk(list[k], m, uses, f); }
    }
    forall j | 0 <= j < |list| && (c in uses ==> c in first && first[c] == l) ensures CellOk(list[j], m, uses, f) {
      assert CellOk(list[j], inodes, uses, first);
    }
  }

  /** A copy of the number that is not the inode. */
  ghost predicate Differs(x: C.Cell, c: int, n: Inode) { x.node.no == c && x.node != Stored(c, n) }

  /** An inode is made and entered: the copies stay right exactly when its number was not in memory. */
  lemma EnteredExactlyWhen(list: Cells, inodes: map<int, Inode>, uses: multiset<int>, first: map<int, int>, c: int, h: int)
    requires Copies(list, inodes, uses, first) && c !in inodes
    ensures Copies([C.Cell(h, 1, Stored(c, NEW_INODE))] + list, inodes[c := NEW_INODE], uses + multiset{c}, first) <==> c !in uses
    ensures c in uses ==> Has(list, c) && Differs(list[C.Copy(list, c, 0)], c, NEW_INODE)
  {
    var x := C.Cell(h, 1, Stored(c, NEW_INODE));
    var r, m, u := [x] + list, inodes[c := NEW_INODE], uses + multiset{c};
    C.PushOne(list, x);
    if c in uses {
      assert Has(list, c) && CellOk(list[C.Copy(list, c, 0)], inodes, uses, first);
    } else {
      forall j | 0 <= j < |r| ensures CellOk(r[j], m, u, first) { if j > 0 { assert r[j] == list[j - 1] && CellOk(list[j - 1], inodes, uses, first); } }
      forall k | 0 <= k < |list| ensures list[k].node.no != c { assert CellOk(list[k], inodes, uses, first); }
      forall no | no in u ensures Has(r, no) {
        if no == c { HasAt(r, 0); } else { assert r[C.Copy(list, no, 0) + 1] == list[C.Copy(list, no, 0)]; HasAt(r, C.Copy(list, no, 0) + 1); }
      }
    }
  }

  /** Closing another number leaves the first cell. */
  lemma ClosedTail(x: C.Cell, list: Cells, d: int)
    requires x.node.no != d
    ensures Closed([x] + list, d) == [x] + Closed(list, d)
  {
    CopyTail(x, list, d);
    var l, k := [x] + list, C.Copy(list, d, 0);
    if k < |list| {
      assert l[k + 1] == list[k];
      if list[k].cnt == 1 {
        assert l[..k + 1] == [x] + list[..k] && l[k + 2..] == list[k + 1..];
      } else {
        var c := list[k].(cnt := list[k].cnt - 1);
        assert l[k + 1 := c] == [x] + list[k := c];
      }
    }
  }

  lemma CopyTail(x: C.Cell, list: Cells, d: int)
    requires x.node.no != d
    ensures C.Copy([x] + list, d, 0) == 1 + C.Copy(list, d, 0)
  {
    var l, k := [x] + list, C.Copy(list, d, 0);
    var i := C.Copy(l, d, 0);
    assert l[0] == x;
    if i < |l| { assert l[i] == list[i - 1]; }
    if k < |list| { assert l[k + 1] == list[k]; }
  }

  // ---------------------------------------------------------------- calls on a directory

  /** What a call on directory `d` does to the list: it opens `d`, changes it, and closes it. */
  function Around(list: Cells, d: int, h: int, n0: IT.Inode, n: IT.Inode): (r: Cells) {
    Closed(Wrote(Opened(list, d, h, n0), d, n), d)
  }

  lemma BackAgain(u: multiset<int>, d: int, c: int)
    ensures u + multiset{d} - multiset{d} == u && u + multiset{d} + multiset{c} - multiset{d} == u + multiset{c}
    ensures u + multiset{d} + multiset{c} - multiset{c} == u + multiset{d}
  {
    assert u + multiset{d} + multiset{c} == u + multiset{c} + multiset{d};
  }

  lemma AroundOk(list: Cells, inodes0: map<int, Inode>, inodes: map<int, Inode>, u: multiset<int>, first: map<int, int>, d: int, h: int)
    requires Copies(list, inodes0, u, first) && d in inodes0 && d in inodes && inodes == inodes0[d := inodes[d]]
    ensures Copies(Around(list, d, h, Stored(d, inodes0[d]), Stored(d, inodes[d])), inodes, u, first)
  {
    hide Copies, Opened, Wrote, Closed;
    OpenedOk(list, inodes0, u, first, d, h, Stored(d, inodes0[d]));
    WroteOk(Opened(list, d, h, Stored(d, inodes0[d])), inodes0, inodes, u + multiset{d}, first, d);
    ClosedOk(Wrote(Opened(list, d, h, Stored(d, inodes0[d])), d, Stored(d, inodes[d])), inodes, u + multiset{d}, first, d);
    BackAgain(u, d, d);
  }

  /** `file_create` in `d`: the new inode is entered before `d` is closed. */
  function AfterCreate(list: Cells, d: int, h: int, n0: IT.Inode, n: IT.Inode, c: int, g: int): (r: Cells) {
    Closed([C.Cell(g, 1, Stored(c, NEW_INODE))] + Wrote(Opened(list, d, h, n0), d, n), d)
  }

  /** The first copy of `c` is the new inode, and the next one the dead directory. */
  ghost predicate Behind(list: Cells, c: int, first: map<int, int>) {
    && list != [] && list[0].cnt == 1 && list[0].node == Stored(c, NEW_INODE) && Has(list[1..], c) && c in first
    && list[1..][C.Copy(list[1..], c, 0)].node == Stored(c, DotInode(first[c]))
  }

  lemma CreateExactlyWhen(list: Cells, inodes0: map<int, Inode>, inodes: map<int, Inode>, u: multiset<int>, first: map<int, int>,
                          d: int, h: int, c: int, g: int)
    requires Copies(list, inodes0, u, first) && InodeMade(inodes0, inodes, d, c, NEW_INODE)
    ensures var r := AfterCreate(list, d, h, Stored(d, inodes0[d]), Stored(d, inodes[d]), c, g);
            && (Copies(r, inodes, u + multiset{c}, first) <==> c !in u) && (c in u ==> Behind(r, c, first))
  {
    hide Opened, Wrote, Closed;
    var m := inodes0[d := inodes[d]];
    var l2 := Wrote(Opened(list, d, h, Stored(d, inodes0[d])), d, Stored(d, inodes[d]));
    var x, l4 := C.Cell(g, 1, Stored(c, NEW_INODE)), Around(list, d, h, Stored(d, inodes0[d]), Stored(d, inodes[d]));
    AroundOk(list, inodes0, m, u, first, d, h);
    ClosedTail(x, l2, d);
    EnteredExactlyWhen(l4, m, u, first, c, g);
    assert m[c := NEW_INODE] == inodes && ([x] + l4)[1..] == l4;
    if c in u { assert Has(l4, c) && CellOk(l4[C.Copy(l4, c, 0)], m, u, first); }
  }

  lemma BehindDiffers(list: Cells, c: int, first: map<int, int>)
    requires Behind(list, c, first)
    ensures exists k :: 0 <= k < |list| && Differs(list[k], c, NEW_INODE)
  {
    var j := C.Copy(list[1..], c, 0);
    assert list[1..][j] == list[j + 1];
    assert Differs(list[j + 1], c, NEW_INODE);
  }

  lemma MkdirExactlyWhen(list: Cells, inodes0: map<int, Inode>, inodes: map<int, Inode>, u: multiset<int>, first: map<int, int>,
                         d: int, h: int, c: int, l: int)
    requires Copies(list, inodes0, u, first) && InodeMade(inodes0, inodes, d, c, DotInode(l))
    ensures var r := Around(list, d, h, Stored(d, inodes0[d]), Stored(d, inodes[d]));
            && (Copies(r, inodes, u, first[c := l]) <==> (c in u ==> c in first && first[c] == l))
            && (c in u && !(c in first && first[c] == l) ==> exists k :: 0 <= k < |r| && Differs(r[k], c, DotInode(l)))
  {
    hide Copies, Around, Differs;
    var m := inodes0[d := inodes[d]];
    var r := Around(list, d, h, Stored(d, inodes0[d]), Stored(d, inodes[d]));
    AroundOk(list, inodes0, m, u, first, d, h);
    assert m[c := DotInode(l)] == inodes;
    MadeExactlyWhen(r, m, u, first, c, l);
  }

  // ---------------------------------------------------------------- first sectors

  /** `first` has the first sector of every live directory. */
  ghost predicate Firsts(first: map<int, int>, tree: Tree, inodes: map<int, Inode>) {
    forall d :: d in tree && tree[d].Dir? ==> FirstOf(first, inodes, d)
  }

  ghost predicate FirstOf(first: map<int, int>, inodes: map<int, Inode>, d: int) {
    d in first && d in inodes && |inodes[d].sectors| == 13 && first[d] == inodes[d].sectors[0]
  }

  /** Only directories are left open beside the file table. */
  ghost predicate HeldDirs(tree: Tree, held: multiset<int>) { forall c :: c in held && c in tree ==> tree[c].Dir? }

  lemma FirstsMade(first: map<int, int>, t0: Tree, t: Tree, m0: map<int, Inode>, m: map<int, Inode>, d: int, n: Name, c: int, x: Node, y: Inode)
    requires Firsts(first, t0, m0) && d in t0 && t0[d].Dir? && t == Grow(t0, d, n, c, x) && InodeMade(m0, m, d, c, y) && c !in t0
    ensures x.File? ==> Firsts(first, t, m)
    ensures |y.sectors| == 13 ==> Firsts(first[c := y.sectors[0]], t, m)
  {
    assert FirstOf(first, m0, d);
    forall e | e in t && t[e].Dir? && e != c ensures FirstOf(first, m, e) && FirstOf(first[c := if y.sectors == [] then 0 else y.sectors[0]], m, e) {
      assert e in t0 && t0[e].Dir? && FirstOf(first, m0, e);
    }
  }

  lemma FirstsCut(first: map<int, int>, t0: Tree, t: Tree, m0: map<int, Inode>, m: map<int, Inode>, d: int, n: Name, c: int)
    requires Firsts(first, t0, m0) && d in t0 && t0[d].Dir? && n in t0[d].items && t0[d].items[n].ino == c
    requires t == Prune(t0, d, n) && InodeCut(m0, m, d, c) && c != d
    ensures Firsts(first, t, m)
  {
    assert FirstOf(first, m0, d);
    forall e | e in t && t[e].Dir? ensures FirstOf(first, m, e) { assert e in t0 && t0[e].Dir? && FirstOf(first, m0, e); }
  }
}
