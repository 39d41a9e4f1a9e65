/** The cache of open inodes over the inode table. */
module InodeCache {
  import opened Basics
  import opened Words
  import opened InodeTable

  const COUNT: int := 4096               // inodes in the table

  /** An element of `open_inodes`: its address, how often it is open, and the inode. */
  datatype Cell = Cell(h: int, cnt: int, node: Inode)

  /** The slots of the table, decoded, and the open inodes. */
  datatype State = State(stored: seq<Inode>, list: seq<Cell>)

  /** `Open` reads into the block at address `h` when no copy is open; `Push` enters the inode that `file_create` made;
      `Put` syncs an inode that is not in the list, as `sys_mkdir` and `file_create` do. */
  datatype Op = Open(no: int, h: int) | Push(h: int, node: Inode) | Close(h: int) | Change(h: int, size: int, sectors: seq<int>)
              | Sync(h: int) | Put(node: Inode) | Delete(no: int)

  const ERASED: Inode := Inode(0, 0, [0, 0, 0, 0, 0, 0, 0, 0, 0, 0, 0, 0, 0])

  /** The first open copy of a number, from position `k` on. */
  function Copy(list: seq<Cell>, no: int, k: nat): (r: nat)
    requires k <= |list|
    ensures k <= r <= |list| && (r < |list| ==> list[r].node.no == no) && forall j :: k <= j < r ==> list[j].node.no != no
    decreases |list| - k
  {
    if k == |list| || list[k].node.no == no then k else Copy(list, no, k + 1)
  }

  /** The position of an address, from position `k` on. */
  function At(list: seq<Cell>, h: int, k: nat): (r: nat)
    requires k <= |list|
    ensures k <= r <= |list| && (r < |list| ==> list[r].h == h) && forall j :: k <= j < r ==> list[j].h != h
    decreases |list| - k
  {
    if k == |list| || list[k].h == h then k else At(list, h, k + 1)
  }

  predicate Has(s: State, h: int) { At(s.list, h, 0) < |s.list| }

  predicate InMemory(s: State, no: int) { Copy(s.list, no, 0) < |s.list| }

  ghost predicate Small(n: Inode) { Storable(n) && n.no < COUNT }

  /** Callers close, change and sync inodes that they have open, and a new block has a new address. */
  ghost predicate Enabled(s: State, op: Op) {
    |s.stored| == COUNT &&
    match op
    case Open(no, h) => 0 <= no < COUNT && !Has(s, h)
    case Push(h, node) => Small(node) && !Has(s, h)
    case Close(h) => Has(s, h)
    case Change(h, size, sectors) => Has(s, h) && Storable(Inode(0, size, sectors))
    case Sync(h) => Has(s, h)
    case Put(node) => Small(node)
    case Delete(no) => 0 <= no < COUNT
  }

  /** The inode that a call syncs. */
  ghost function Synced(s: State, op: Op): (r: Option<Inode>)
    requires Enabled(s, op)
  {
    if op.Sync? then Some(s.list[At(s.list, op.h, 0)].node) else if op.Put? then Some(op.node) else None
  }

  ghost function Step(s: State, op: Op): (r: State)
    requires Enabled(s, op)
    ensures |r.stored| == COUNT
  {
    match op
    case Open(no, h) =>
      var k := Copy(s.list, no, 0);
      if k < |s.list| then s.(list := s.list[k := s.list[k].(cnt := s.list[k].cnt + 1)])
      else s.(list := [Cell(h, 1, s.stored[no])] + s.list)
    case Push(h, node) => s.(list := [Cell(h, 1, node)] + s.list)
    case Close(h) =>
      var k := At(s.list, h, 0);
      if s.list[k].cnt == 1 then s.(list := s.list[..k] + s.list[k + 1..])
      else s.(list := s.list[k := s.list[k].(cnt := s.list[k].cnt - 1)])
    case Change(h, size, sectors) =>
      var k := At(s.list, h, 0);
      s.(list := s.list[k := s.list[k].(node := Inode(s.list[k].node.no, size, sectors))])
    case Sync(h) => s.(stored := s.stored[s.list[At(s.list, h, 0)].node.no % 256 := s.list[At(s.list, h, 0)].node])
    case Put(node) => s.(stored := s.stored[node.no % 256 := node])
    case Delete(no) => s.(stored := s.stored[no := ERASED])
  }

  ghost predicate Runs(s: State, ops: seq<Op>)
    decreases |ops|
  {
    ops == [] || (Enabled(s, ops[0]) && Runs(Step(s, ops[0]), ops[1..]))
  }

  ghost function Final(s: State, ops: seq<Op>): (r: State)
    requires Runs(s, ops)
    decreases |ops|
  {
    if ops == [] then s else Final(Step(s, ops[0]), ops[1..])
  }

  // ---------------------------------------------------------------- the open count

  /** The address that an open or a push gives to its caller. */
  ghost predicate Gives(s: State, op: Op, h: int)
    requires Enabled(s, op)
  {
    match op
    case Open(no, g) => h == if InMemory(s, no) then s.list[Copy(s.list, no, 0)].h else g
    case Push(g, node) => h == g
    case _ => false
  }

  /** Openings of an address less its closings. */
  ghost function Outstanding(s: State, ops: seq<Op>, h: int): (n: int)
    requires Runs(s, ops)
    decreases |ops|
  {
    if ops == [] then 0
    else (if Gives(s, ops[0], h) then 1 else if ops[0] == Close(h) then -1 else 0) + Outstanding(Step(s, ops[0]), ops[1..], h)
  }

  ghost predicate CountsOk(s: State) {
    && (forall k :: 0 <= k < |s.list| ==> s.list[k].cnt > 0)
    && (forall j, k :: 0 <= j < k < |s.list| ==> s.list[j].h != s.list[k].h)
  }

  ghost function Count(s: State, h: int): (n: int) { if Has(s, h) then s.list[At(s.list, h, 0)].cnt else 0 }

  lemma CountIs(s: State, k: int)
    requires CountsOk(s) && 0 <= k < |s.list|
    ensures Has(s, s.list[k].h) && At(s.list, s.list[k].h, 0) == k && Count(s, s.list[k].h) == s.list[k].cnt
  {
  }

  lemma CountNone(s: State, h: int)
    requires forall k :: 0 <= k < |s.list| ==> s.list[k].h != h
    ensures Count(s, h) == 0
  {
  }

  /** One cell is replaced, by one with the same address. */
  lemma CellCount(s: State, k: int, c: Cell, h: int)
    requires CountsOk(s) && 0 <= k < |s.list| && c.h == s.list[k].h && c.cnt > 0
    ensures var r := s.(list := s.list[k := c]); CountsOk(r) && Count(r, h) == if h == c.h then c.cnt else Count(s, h)
  {
    hide Count;
    var r := s.(list := s.list[k := c]);
    if Has(s, h) {
      var j := At(s.list, h, 0);
      assert r.list[j].h == h;
      CountIs(s, j);
      CountIs(r, j);
    } else {
      forall j | 0 <= j < |r.list| ensures r.list[j].h != h { assert r.list[j].h == s.list[j].h; }
      CountNone(r, h);
      CountNone(s, h);
    }
  }

  lemma PushOk(s: State, c: Cell)
    requires CountsOk(s) && !Has(s, c.h) && c.cnt > 0
    ensures CountsOk(s.(list := [c] + s.list))
  {
    var l := [c] + s.list;
    forall k | 0 <= k < |l| ensures l[k].cnt > 0 { if k > 0 { assert l[k] == s.list[k - 1]; } }
    forall j, k | 0 <= j < k < |l| ensures l[j].h != l[k].h {
      assert l[k] == s.list[k - 1] && s.list[k - 1].h != c.h;
      if j > 0 { assert l[j] == s.list[j - 1]; }
    }
  }

  lemma PushCount(s: State, c: Cell, h: int)
    requires CountsOk(s) && !Has(s, c.h) && c.cnt > 0
    ensures var r := s.(list := [c] + s.list); CountsOk(r) && Count(r, h) == if h == c.h then c.cnt else Count(s, h)
  {
    hide Count, CountsOk;
    var r := s.(list := [c] + s.list);
    PushOk(s, c);
    if h == c.h {
      CountIs(r, 0);
    } else if Has(s, h) {
      var j := At(s.list, h, 0);
      assert r.list[j + 1] == s.list[j];
      CountIs(s, j);
      CountIs(r, j + 1);
    } else {
      forall j | 0 <= j < |r.list| ensures r.list[j].h != h { if j > 0 { assert r.list[j] == s.list[j - 1]; } }
      CountNone(r, h);
      CountNone(s, h);
    }
  }

  lemma RemoveCount(s: State, k: int, h: int)
    requires CountsOk(s) && 0 <= k < |s.list|
    ensures var r := s.(list := s.list[..k] + s.list[k + 1..]);
            CountsOk(r) && Count(r, h) == if h == s.list[k].h then 0 else Count(s, h)
  {
    hide Count;
    var r := s.(list := s.list[..k] + s.list[k + 1..]);
    assert forall j :: 0 <= j < |r.list| ==> r.list[j] == s.list[if j < k then j else j + 1];
    if h != s.list[k].h && Has(s, h) {
      var j := At(s.list, h, 0);
      var i := if j < k then j else j - 1;
      assert r.list[i] == s.list[j];
      CountIs(s, j);
      CountIs(r, i);
    } else {
      CountNone(r, h);
      if h != s.list[k].h { CountNone(s, h); }
    }
  }

  lemma CountStep(s: State, op: Op, h: int)
    requires CountsOk(s) && Enabled(s, op)
    ensures CountsOk(Step(s, op))
    ensures Count(Step(s, op), h) == Count(s, h) + (if Gives(s, op, h) then 1 else if op == Close(h) then -1 else 0)
  {
    hide CountsOk;
    match op {
      case Open(no, g) =>
        var k := Copy(s.list, no, 0);
        if k < |s.list| {
          CountPositive(s, k);
          CellCount(s, k, s.list[k].(cnt := s.list[k].cnt + 1), h);
        } else {
          PushCount(s, Cell(g, 1, s.stored[no]), h);
        }
      case Push(g, node) => PushCount(s, Cell(g, 1, node), h);
      case Close(g) =>
        var k := At(s.list, g, 0);
        CountPositive(s, k);
        if s.list[k].cnt == 1 { RemoveCount(s, k, h); } else { CellCount(s, k, s.list[k].(cnt := s.list[k].cnt - 1), h); }
      case Change(g, size, sectors) =>
        var k := At(s.list, g, 0);
        CountPositive(s, k);
        CellCount(s, k, s.list[k].(node := Inode(s.list[k].node.no, size, sectors)), h);
      case _ => SameList(s, Step(s, op), h);
    }
  }

  lemma CountPositive(s: State, k: int)
    requires CountsOk(s) && 0 <= k < |s.list|
    ensures s.list[k].cnt > 0 && Count(s, s.list[k].h) == s.list[k].cnt
  {
    CountIs(s, k);
  }

  lemma SameList(s: State, r: State, h: int)
    requires CountsOk(s) && r.list == s.list
    ensures CountsOk(r) && Count(r, h) == Count(s, h)
  {
  }

  /** In every run, the count of a cell is the number of times that its address was given out and not yet closed, and a
      cell leaves the list with the last of them. */
  lemma {:induction false} CountInRuns(s: State, ops: seq<Op>, h: int)
    requires CountsOk(s) && Runs(s, ops)
    ensures CountsOk(Final(s, ops)) && Count(Final(s, ops), h) == Count(s, h) + Outstanding(s, ops, h)
    ensures Has(Final(s, ops), h) <==> Count(s, h) + Outstanding(s, ops, h) > 0
    decreases |ops|
  {
    hide Count, CountsOk, Gives, Enabled, Step;
    if ops == [] {
      CountOrNone(s, h);
    } else {
      CountStep(s, ops[0], h);
      CountInRuns(Step(s, ops[0]), ops[1..], h);
    }
  }

  lemma CountOrNone(s: State, h: int)
    requires CountsOk(s)
    ensures Has(s, h) <==> Count(s, h) > 0
  {
  }

  // ---------------------------------------------------------------- one copy per number

  ghost predicate OneCopy(list: seq<Cell>) { forall j, k :: 0 <= j < k < |list| ==> list[j].node.no != list[k].node.no }

  /** The call brings no second copy of a number into memory: an open finds a copy, or reads a slot whose number is not in
      memory, and what is pushed is not in memory either. */
  ghost predicate Lone(s: State, op: Op)
    requires Enabled(s, op)
  {
    match op
    case Open(no, h) => InMemory(s, no) || !InMemory(s, s.stored[no].no)
    case Push(h, node) => !InMemory(s, node.no)
    case _ => true
  }

  lemma PushOne(list: seq<Cell>, c: Cell)
    requires OneCopy(list)
    ensures OneCopy([c] + list) <==> Copy(list, c.node.no, 0) == |list|
  {
    var l, k := [c] + list, Copy(list, c.node.no, 0);
    if k < |list| {
      assert l[k + 1] == list[k] && l[0] == c;
    } else {
      forall i, j | 0 <= i < j < |l| ensures l[i].node.no != l[j].node.no {
        assert l[j] == list[j - 1];
        if i > 0 { assert l[i] == list[i - 1]; }
      }
    }
  }

  lemma RemoveOne(list: seq<Cell>, k: int)
    requires OneCopy(list) && 0 <= k < |list|
    ensures OneCopy(list[..k] + list[k + 1..])
  {
    var l := list[..k] + list[k + 1..];
    assert forall j :: 0 <= j < |l| ==> l[j] == list[if j < k then j else j + 1];
  }

  /** A call keeps one copy per number exactly when it is such a call. */
  lemma OneCopyExactlyWhen(s: State, op: Op)
    requires OneCopy(s.list) && Enabled(s, op)
    ensures OneCopy(Step(s, op).list) <==> Lone(s, op)
  {
    match op
    case Open(no, h) => if !InMemory(s, no) { PushOne(s.list, Cell(h, 1, s.stored[no])); }
    case Push(h, node) => PushOne(s.list, Cell(h, 1, node));
    case Close(h) => RemoveOne(s.list, At(s.list, h, 0));
    case _ =>
  }

  ghost predicate AlwaysOne(s: State, ops: seq<Op>)
    requires Runs(s, ops)
    decreases |ops|
  {
    OneCopy(s.list) && (ops == [] || AlwaysOne(Step(s, ops[0]), ops[1..]))
  }

  ghost predicate LoneRun(s: State, ops: seq<Op>)
    requires Runs(s, ops)
    decreases |ops|
  {
    ops == [] || (Lone(s, ops[0]) && LoneRun(Step(s, ops[0]), ops[1..]))
  }

  /** Over every run: there is one copy per number in every state exactly when every call was such a call. */
  lemma {:induction false} OneCopyInRuns(s: State, ops: seq<Op>)
    requires OneCopy(s.list) && Runs(s, ops)
    ensures AlwaysOne(s, ops) <==> LoneRun(s, ops)
    decreases |ops|
  {
    hide OneCopy, Lone, Enabled, Step;
    if ops != [] {
      OneCopyExactlyWhen(s, ops[0]);
      var r := Step(s, ops[0]);
      if OneCopy(r.list) { OneCopyInRuns(r, ops[1..]); }
      assert AlwaysOne(r, ops[1..]) ==> OneCopy(r.list);
    }
  }

  // ---------------------------------------------------------------- closed and opened again

  /** A table as formatted: the root's inode, and nothing behind it. */
  ghost predicate Formatted(s: State) {
    |s.stored| == COUNT && s.list == [] && s.stored[0].no == 0 && forall i :: 0 < i < COUNT ==> s.stored[i] == ERASED
  }

  /** The run syncs an inode of this number. */
  ghost predicate SyncsNumber(s: State, ops: seq<Op>, no: int)
    requires Runs(s, ops)
    decreases |ops|
  {
    ops != [] && (|| (Synced(s, ops[0]).Some? && Synced(s, ops[0]).v.no == no)
                  || SyncsNumber(Step(s, ops[0]), ops[1..], no))
  }

  /** The run syncs an inode whose number has this low byte. */
  ghost predicate SyncsByte(s: State, ops: seq<Op>, b: int)
    requires Runs(s, ops)
    decreases |ops|
  {
    ops != [] && (|| (Synced(s, ops[0]).Some? && Synced(s, ops[0]).v.no % 256 == b)
                  || SyncsByte(Step(s, ops[0]), ops[1..], b))
  }

  ghost predicate Deletes(ops: seq<Op>, no: int) { exists k :: 0 <= k < |ops| && ops[k] == Delete(no) }

  ghost predicate HighErased(s: State) { |s.stored| == COUNT && forall i :: 256 <= i < COUNT ==> s.stored[i] == ERASED }

  /** No run writes an inode behind slot 255. */
  lemma {:induction false} HighStays(s: State, ops: seq<Op>)
    requires HighErased(s) && Runs(s, ops)
    ensures HighErased(Final(s, ops))
    decreases |ops|
  {
    if ops != [] { HighStays(Step(s, ops[0]), ops[1..]); }
  }

  lemma DeletesRest(ops: seq<Op>, no: int)
    requires ops != [] && !Deletes(ops, no)
    ensures ops[0] != Delete(no) && !Deletes(ops[1..], no)
  {
    forall k | 0 <= k < |ops[1..]| ensures ops[1..][k] != Delete(no) { assert ops[1..][k] == ops[k + 1]; }
  }

  /** Slot `i` holds an inode of another number, and keeps one, until number `i` is synced or the slot erased. */
  lemma {:induction false} StrangerStays(s: State, ops: seq<Op>, i: int)
    requires Runs(s, ops) && |s.stored| == COUNT && 0 <= i < 256 && s.stored[i].no != i
    requires !SyncsNumber(s, ops, i) && !Deletes(ops, i)
    ensures |Final(s, ops).stored| == COUNT && Final(s, ops).stored[i].no != i
    decreases |ops|
  {
    if ops != [] {
      DeletesRest(ops, i);
      StrangerStays(Step(s, ops[0]), ops[1..], i);
    }
  }

  /** A slot below 256 whose inode is not synced again keeps it exactly when no sync has its low byte. */
  lemma {:induction false} SlotStaysExactlyWhen(s: State, ops: seq<Op>, i: int)
    requires Runs(s, ops) && |s.stored| == COUNT && 0 <= i < 256 && s.stored[i].no == i
    requires !SyncsNumber(s, ops, i) && !Deletes(ops, i)
    ensures |Final(s, ops).stored| == COUNT && (Final(s, ops).stored[i] == s.stored[i] <==> !SyncsByte(s, ops, i))
    decreases |ops|
  {
    hide Deletes;
    if ops != [] {
      DeletesRest(ops, i);
      var r := Step(s, ops[0]);
      if Synced(s, ops[0]).Some? && Synced(s, ops[0]).v.no % 256 == i {
        assert r.stored[i] == Synced(s, ops[0]).v;
        StrangerStays(r, ops[1..], i);
      } else {
        assert r.stored[i] == s.stored[i];
        SlotStaysExactlyWhen(r, ops[1..], i);
      }
    }
  }

  /** The inode that opening a number gives. */
  ghost function Given(s: State, no: int): (n: Inode)
    requires 0 <= no < |s.stored|
  {
    if InMemory(s, no) then s.list[Copy(s.list, no, 0)].node else s.stored[no]
  }

  /** No copy of the number in memory differs from `n`. */
  ghost predicate Agrees(s: State, n: Inode) {
    forall k :: 0 <= k < |s.list| && s.list[k].node.no == n.no ==> s.list[k].node == n
  }

  /** The slot of the number holds `n`, or no inode of that number. */
  ghost predicate Filed(s: State, n: Inode) {
    |s.stored| == COUNT && 0 <= n.no < COUNT && (s.stored[n.no].no == n.no ==> s.stored[n.no] == n)
  }

  /** The call makes, changes, syncs or erases an inode of this number, or reads one from the slot of another number. */
  ghost predicate Touches(s: State, op: Op, no: int)
    requires Enabled(s, op)
  {
    match op
    case Open(m, h) => m != no && !InMemory(s, m) && s.stored[m].no == no
    case Push(h, node) => node.no == no
    case Close(h) => false
    case Change(h, size, sectors) => s.list[At(s.list, h, 0)].node.no == no
    case Sync(h) => s.list[At(s.list, h, 0)].node.no == no
    case Put(node) => node.no == no
    case Delete(m) => m == no
  }

  ghost predicate QuietRun(s: State, ops: seq<Op>, no: int)
    decreases |ops|
  {
    ops == [] || (Enabled(s, ops[0]) && !Touches(s, ops[0], no) && QuietRun(Step(s, ops[0]), ops[1..], no))
  }

  lemma {:induction false} QuietRuns(s: State, ops: seq<Op>, no: int)
    requires QuietRun(s, ops, no)
    ensures Runs(s, ops)
    decreases |ops|
  {
    if ops != [] { QuietRuns(Step(s, ops[0]), ops[1..], no); }
  }

  lemma AgreesStep(s: State, op: Op, n: Inode)
    requires Agrees(s, n) && Filed(s, n) && Enabled(s, op) && !Touches(s, op, n.no)
    ensures Agrees(Step(s, op), n) && Filed(Step(s, op), n)
  {
  }

  lemma {:induction false} AgreesInRuns(s: State, ops: seq<Op>, n: Inode)
    requires Agrees(s, n) && Filed(s, n) && QuietRun(s, ops, n.no)
    ensures Runs(s, ops) && Agrees(Final(s, ops), n) && Filed(Final(s, ops), n)
    decreases |ops|
  {
    hide Agrees, Filed, Touches, Enabled, Step;
    if ops != [] {
      AgreesStep(s, ops[0], n);
      AgreesInRuns(Step(s, ops[0]), ops[1..], n);
    }
  }

  /** After any run from a formatted table, and any further run in which an inode is not synced again and not deleted: with
      no copy of it in memory, opening it gives the inode that was synced exactly when its number is below 256 and no later
      sync was of a number with the same low byte.  With a copy in memory, opening gives the inode that was synced if the
      copies agreed with it then and nobody touched them since. */
  lemma ReopenedExactlyWhen(s0: State, before: seq<Op>, op: Op, after: seq<Op>)
    requires Formatted(s0) && Runs(s0, before) && Enabled(Final(s0, before), op) && Synced(Final(s0, before), op).Some?
    requires Runs(Step(Final(s0, before), op), after)
    requires var no := Synced(Final(s0, before), op).v.no;
             0 <= no < COUNT && !SyncsNumber(Step(Final(s0, before), op), after, no) && !Deletes(after, no)
    ensures var s, n := Step(Final(s0, before), op), Synced(Final(s0, before), op).v;
            var r := Final(s, after);
            && |r.stored| == COUNT && Filed(s, n)
            && (!InMemory(r, n.no) ==> (Given(r, n.no) == n <==> n.no < 256 && !SyncsByte(s, after, n.no)))
            && (InMemory(r, n.no) && Agrees(s, n) && QuietRun(s, after, n.no) ==> Given(r, n.no) == n)
  {
    hide Deletes, SyncsNumber, SyncsByte, Runs, Final, QuietRun;
    var s1 := Final(s0, before);
    var s, n := Step(s1, op), Synced(s1, op).v;
    HighStays(s0, before);
    if n.no < 256 {
      assert s.stored[n.no] == n;
      SlotStaysExactlyWhen(s, after, n.no);
    } else {
      assert HighErased(s);
      HighStays(s, after);
    }
    if Agrees(s, n) && QuietRun(s, after, n.no) { AgreesInRuns(s, after, n); }
  }

  lemma SameCopy(a: seq<Cell>, b: seq<Cell>, no: int)
    requires |a| == |b| && forall i :: 0 <= i < |a| ==> a[i].node.no == b[i].node.no
    ensures Copy(a, no, 0) == Copy(b, no, 0)
  {
    var i, j := Copy(a, no, 0), Copy(b, no, 0);
    if i < |a| { assert b[i].node.no == no; }
    if j < |b| { assert a[j].node.no == no; }
  }

  /** A copy that differs comes to the front when the copies before it are closed. */
  lemma {:induction false} Surfaces(s: State, n: Inode, k: int) returns (ops: seq<Op>)
    requires CountsOk(s) && |s.stored| == COUNT && 0 <= n.no < COUNT
    requires 0 <= k < |s.list| && s.list[k].node.no == n.no && s.list[k].node != n
    ensures QuietRun(s, ops, n.no) && Runs(s, ops) && |Final(s, ops).stored| == COUNT
    ensures InMemory(Final(s, ops), n.no) && Given(Final(s, ops), n.no) != n
    decreases k, s.list[Copy(s.list, n.no, 0)].cnt
  {
    hide CountsOk;
    var j := Copy(s.list, n.no, 0);
    ops := [];
    if s.list[j].node == n {
      var h := s.list[j].h;
      CountIs(s, j);
      CountPositive(s, j);
      CountStep(s, Close(h), h);
      var r := Step(s, Close(h));
      var rest;
      if s.list[j].cnt == 1 {
        assert r.list[k - 1] == s.list[k];
        rest := Surfaces(r, n, k - 1);
      } else {
        SameCopy(s.list, r.list, n.no);
        rest := Surfaces(r, n, k);
      }
      ops := [Close(h)] + rest;
      assert ops[1..] == rest;
    }
  }

  /** After a sync, a copy in memory is what was synced, however the run goes on without touching the number, exactly when
      no other copy was in memory that differed. */
  lemma SharedExactlyWhen(s: State, n: Inode)
    requires CountsOk(s) && Filed(s, n)
    ensures (forall ops :: QuietRun(s, ops, n.no) ==> StillGiven(s, ops, n)) <==> Agrees(s, n)
  {
    hide CountsOk, QuietRun;
    if Agrees(s, n) {
      forall ops | QuietRun(s, ops, n.no) ensures StillGiven(s, ops, n) { AgreesInRuns(s, ops, n); }
    } else {
      var k :| 0 <= k < |s.list| && s.list[k].node.no == n.no && s.list[k].node != n;
      var ops := Surfaces(s, n, k);
      assert QuietRun(s, ops, n.no) && !StillGiven(s, ops, n);
    }
  }

  /** After the run, a copy of the number that is in memory is `n`. */
  ghost predicate StillGiven(s: State, ops: seq<Op>, n: Inode) {
    Runs(s, ops) && var r := Final(s, ops); |r.stored| == COUNT && 0 <= n.no < COUNT && (InMemory(r, n.no) ==> Given(r, n.no) == n)
  }

  function New(no: int): (n: Inode) { Inode(no, 0, [0, 0, 0, 0, 0, 0, 0, 0, 0, 0, 0, 0, 0]) }

  /** One open inode, and no other, is written to, synced and closed. */
  lemma OneOpen(s: State, n: Inode, m: Inode)
    requires |s.stored| == COUNT && s.list == [Cell(1, 1, n)] && Storable(m) && m.no == n.no
    ensures Enabled(s, Change(1, m.size, m.sectors))
    ensures var s1 := Step(s, Change(1, m.size, m.sectors));
            && Enabled(s1, Sync(1)) && Enabled(Step(s1, Sync(1)), Close(1))
            && Step(Step(s1, Sync(1)), Close(1)) == State(s.stored[m.no % 256 := m], [])
  {
    assert At(s.list, 1, 0) == 0;
    var s1 := Step(s, Change(1, m.size, m.sectors));
    assert s1.list == [Cell(1, 1, m)] && At(s1.list, 1, 0) == 0;
    var s2 := Step(s1, Sync(1));
    var s3 := Step(s2, Close(1));
    assert s3.list == [];
  }

  lemma {:induction false} Then(s: State, ops: seq<Op>, op: Op)
    requires Runs(s, ops) && Enabled(Final(s, ops), op)
    ensures Runs(s, ops + [op]) && Final(s, ops + [op]) == Step(Final(s, ops), op)
    decreases |ops|
  {
    hide Enabled, Step;
    if ops == [] {
      assert [] + [op] == [op] && [op][1..] == [];
      assert Final(Step(s, op), []) == Step(s, op);
    } else {
      Then(Step(s, ops[0]), ops[1..], op);
      assert (ops + [op])[1..] == ops[1..] + [op];
    }
  }

  lemma Nothing(s: State)
    ensures Runs(s, []) && Final(s, []) == s
  {
  }

  /** On every formatted table: inode 256 is made, synced, entered, written to and synced, and closed.  Opened again it is
      an erased inode, and what is opened as the root is inode 256. */
  lemma Inode256IsLost(s0: State, sector: int)
    requires Formatted(s0) && 0 <= sector < WORD_LIMIT
    ensures var n := New(256).(size := 1, sectors := New(256).sectors[0 := sector]);
            var ops := [Put(New(256)), Push(1, New(256)), Change(1, n.size, n.sectors), Sync(1), Close(1)];
            && Runs(s0, ops)
            && var r := Final(s0, ops); |r.stored| == COUNT && Given(r, 256) == ERASED && Given(r, 0) == n
  {
    hide Runs, Final;
    var n := New(256).(size := 1, sectors := New(256).sectors[0 := sector]);
    var s1 := Step(s0, Put(New(256)));
    var s2 := Step(s1, Push(1, New(256)));
    assert s2.list == [Cell(1, 1, New(256))];
    OneOpen(s2, New(256), n);
    Nothing(s0);
    Then(s0, [], Put(New(256)));
    assert [] + [Put(New(256))] == [Put(New(256))];
    Then(s0, [Put(New(256))], Push(1, New(256)));
    assert [Put(New(256))] + [Push(1, New(256))] == [Put(New(256)), Push(1, New(256))];
    var all := [Put(New(256)), Push(1, New(256)), Change(1, n.size, n.sectors), Sync(1), Close(1)];
    assert [Put(New(256)), Push(1, New(256))] + [Change(1, n.size, n.sectors), Sync(1), Close(1)] == all;
    ChangeSyncClose(s0, [Put(New(256)), Push(1, New(256))], 1, n);
  }

  lemma ChangeSyncClose(s: State, ops: seq<Op>, h: int, n: Inode)
    requires Runs(s, ops)
    requires var r := Final(s, ops);
             && Enabled(r, Change(h, n.size, n.sectors)) && Enabled(Step(r, Change(h, n.size, n.sectors)), Sync(h))
             && Enabled(Step(Step(r, Change(h, n.size, n.sectors)), Sync(h)), Close(h))
    ensures var all := ops + [Change(h, n.size, n.sectors), Sync(h), Close(h)];
            Runs(s, all) && Final(s, all) == Step(Step(Step(Final(s, ops), Change(h, n.size, n.sectors)), Sync(h)), Close(h))
  {
    hide Enabled, Step, Runs, Final;
    var a, b, c := Change(h, n.size, n.sectors), Sync(h), Close(h);
    Then(s, ops, a);
    Then(s, ops + [a], b);
    Then(s, ops + [a] + [b], c);
    assert ops + [a] + [b] + [c] == ops + [a, b, c];
  }

  /** A directory's inode `d` of number 1 is synced and opened, and deleted while it is open; then a file of number 1 is made
      and entered: two copies.  After the file is written to as `n`, synced and closed, its slot holds `n`, and opening it
      gives the dead directory. */
  lemma DeadCopyReturns(s0: State, d: Inode, n: Inode)
    requires Formatted(s0) && Small(d) && Small(n) && d.no == 1 && n.no == 1 && d != n
    ensures var made := [Put(d), Open(1, 7), Delete(1), Put(New(1)), Push(8, New(1))];
            var all := made + [Change(8, n.size, n.sectors), Sync(8), Close(8)];
            && Runs(s0, made) && !OneCopy(Final(s0, made).list)
            && Runs(s0, all)
            && var r := Final(s0, all); |r.stored| == COUNT && r.stored[1] == n && Given(r, 1) == d && Agrees(r, d)
  {
    hide Runs, Final;
    Nothing(s0);
    Then(s0, [], Put(d));
    var s1 := Step(s0, Put(d));
    assert [] + [Put(d)] == [Put(d)];
    Then(s0, [Put(d)], Open(1, 7));
    var s2 := Step(s1, Open(1, 7));
    assert s2.list == [Cell(7, 1, d)];
    assert [Put(d)] + [Open(1, 7)] == [Put(d), Open(1, 7)];
    Then(s0, [Put(d), Open(1, 7)], Delete(1));
    assert [Put(d), Open(1, 7)] + [Delete(1)] == [Put(d), Open(1, 7), Delete(1)];
    var s3 := Step(s2, Delete(1));
    Then(s0, [Put(d), Open(1, 7), Delete(1)], Put(New(1)));
    assert [Put(d), Open(1, 7), Delete(1)] + [Put(New(1))] == [Put(d), Open(1, 7), Delete(1), Put(New(1))];
    var s4 := Step(s3, Put(New(1)));
    assert At(s4.list, 8, 0) == 1;
    Then(s0, [Put(d), Open(1, 7), Delete(1), Put(New(1))], Push(8, New(1)));
    assert [Put(d), Open(1, 7), Delete(1), Put(New(1))] + [Push(8, New(1))] == [Put(d), Open(1, 7), Delete(1), Put(New(1)), Push(8, New(1))];
    var s5 := Step(s4, Push(8, New(1)));
    assert s5.list == [Cell(8, 1, New(1)), Cell(7, 1, d)];
    assert s5.list[0].node.no == s5.list[1].node.no;
    SecondCopy(s5, d, n);
    ChangeSyncClose(s0, [Put(d), Open(1, 7), Delete(1), Put(New(1)), Push(8, New(1))], 8, n);
  }

  lemma SecondCopy(s: State, d: Inode, n: Inode)
    requires |s.stored| == COUNT && s.list == [Cell(8, 1, New(1)), Cell(7, 1, d)] && Small(n) && n.no == 1 && d.no == 1
    ensures Enabled(s, Change(8, n.size, n.sectors))
    ensures var s1 := Step(s, Change(8, n.size, n.sectors));
            && Enabled(s1, Sync(8)) && Enabled(Step(s1, Sync(8)), Close(8))
            && Step(Step(s1, Sync(8)), Close(8)) == State(s.stored[1 := n], [Cell(7, 1, d)])
    ensures Copy([Cell(7, 1, d)], 1, 0) == 0
  {
    assert At(s.list, 8, 0) == 0;
    var s1 := Step(s, Change(8, n.size, n.sectors));
    assert s1.list == [Cell(8, 1, n), Cell(7, 1, d)] && At(s1.list, 8, 0) == 0;
    var s2 := Step(s1, Sync(8));
    var s3 := Step(s2, Close(8));
    assert s3.list == [Cell(7, 1, d)];
  }

  // ---------------------------------------------------------------- the code

  function Stored(disk: Disk, lba: int): (ns: seq<Inode>)
    ensures |ns| == COUNT
  {
    seq(COUNT, no => FromSlot(Slot(disk, lba, no)))
  }

  lemma TableFrom(disk: Disk, lba: int, no: int)
    requires TableOk(disk, lba, COUNT) && 0 <= no < COUNT
    ensures TableOk(disk, lba, no + 1)
  {
  }

  lemma StoreStored(disk: Disk, lba: int, no: int, bytes: seq<Byte>)
    requires TableOk(disk, lba, COUNT) && 0 <= no < COUNT && |bytes| == INODE && TableOk(disk, lba, no + 1)
    ensures TableOk(Store(disk, lba, no, bytes), lba, COUNT)
    ensures Stored(Store(disk, lba, no, bytes), lba) == Stored(disk, lba)[no := FromSlot(bytes)]
  {
    hide Store, FromSlot, Slot;
    var d := Store(disk, lba, no, bytes);
    StoreSizes(disk, lba, no, bytes);
    forall m | 0 <= m < COUNT ensures Stored(d, lba)[m] == Stored(disk, lba)[no := FromSlot(bytes)][m] {
      TableFrom(disk, lba, m);
      StoreSlot(disk, lba, no, bytes, m);
    }
  }

  lemma ErasedSlot()
    ensures |seq<Byte>(INODE, j => 0)| == INODE && FromSlot(seq<Byte>(INODE, j => 0)) == ERASED
  {
    var s := seq<Byte>(INODE, j => 0);
    var ws := Decode(s);
    forall k | 0 <= k < FIELDS ensures ws[k] == 0 { }
    assert ws[4..17] == ERASED.sectors;
  }

  /** Whatever 76 bytes hold, it is an inode that can be stored. */
  lemma FromSlotStorable(s: seq<Byte>)
    requires |s| == INODE
    ensures Storable(FromSlot(s))
  {
    var ws := Decode(s);
    forall k | 0 <= k < FIELDS ensures 0 <= ws[k] < WORD_LIMIT { assert ws[k] == Word(s, 4 * k); }
    assert forall k :: 0 <= k < 13 ==> ws[4..17][k] == ws[k + 4];
  }

  /** The loop over `open_inodes` for a number. */
  method FindCopy(list: seq<Cell>, no: int) returns (k: int)
    ensures k == Copy(list, no, 0)
  {
    k := 0;
    while k < |list|
      invariant 0 <= k <= |list| && Copy(list, no, 0) == Copy(list, no, k)
    {
      if list[k].node.no == no { return; }
      k := k + 1;
    }
  }

  class Cache {
    const lba: int
    var disk: Disk
    var list: seq<Cell>

    ghost predicate Valid()
      reads this
    {
      TableOk(disk, lba, COUNT) && forall k :: 0 <= k < |list| ==> Storable(list[k].node)
    }

    ghost function View(): (s: State)
      reads this
    {
      State(Stored(disk, lba), list)
    }

    /** `inode_open`: the copy in memory, or whatever the slot holds, pushed to the front; `h` is the address of the block
        that is allocated when no copy is found. */
    method InodeOpen(no: int, h: int) returns (r: int)
      requires Valid() && Enabled(View(), Open(no, h))
      modifies `list
      ensures Valid() && View() == Step(old(View()), Open(no, h)) && Gives(old(View()), Open(no, h), r)
    {
      hide Slot, FromSlot;
      var k := FindCopy(list, no);
      if k < |list| {
        r := list[k].h;
        list := list[k := list[k].(cnt := list[k].cnt + 1)];
        return;
      }
      FromSlotStorable(Slot(disk, lba, no));
      list := [Cell(h, 1, FromSlot(Slot(disk, lba, no)))] + list;
      r := h;
    }

    /** `list_push` of the inode that `file_create` made. */
    method InodePush(h: int, node: Inode)
      requires Valid() && Enabled(View(), Push(h, node))
      modifies `list
      ensures Valid() && View() == Step(old(View()), Push(h, node))
    {
      list := [Cell(h, 1, node)] + list;
    }

    /** The cell at an address. */
    method Find(h: int) returns (k: int)
      requires Has(View(), h)
      ensures k == At(list, h, 0) && 0 <= k < |list|
    {
      k := 0;
      while list[k].h != h
        invariant 0 <= k < |list| && At(list, h, 0) == At(list, h, k)
        decreases |list| - k
      {
        k := k + 1;
      }
    }

    /** `inode_close` */
    method InodeClose(h: int)
      requires Valid() && Enabled(View(), Close(h))
      modifies `list
      ensures Valid() && View() == Step(old(View()), Close(h))
    {
      var k := Find(h);
      list := list[k := list[k].(cnt := list[k].cnt - 1)];
      if list[k].cnt == 0 {
        assert list[..k] + list[k + 1..] == old(list)[..k] + old(list)[k + 1..];
        list := list[..k] + list[k + 1..];
      }
    }

    /** The holder of an open inode changes its size and addresses in memory. */
    method InodeChange(h: int, size: int, sectors: seq<int>)
      requires Valid() && Enabled(View(), Change(h, size, sectors))
      modifies `list
      ensures Valid() && View() == Step(old(View()), Change(h, size, sectors))
    {
      var k := Find(h);
      list := list[k := list[k].(node := Inode(list[k].node.no, size, sectors))];
    }

    /** `inode_sync` of an inode anywhere in memory: the number is held in eight bits. */
    method InodePut(node: Inode)
      requires Valid() && Storable(node)
      modifies `disk
      ensures Valid() && View() == State(old(View()).stored[node.no % 256 := node], list)
    {
      var slot := node.no % 256;
      FromToSlot(node);
      TableFrom(disk, lba, slot);
      StoreStored(disk, lba, slot, ToSlot(node));
      disk := WriteSlot(disk, lba, slot, ToSlot(node));
    }

    /** ... and of one in the list. */
    method InodeSync(h: int)
      requires Valid() && Enabled(View(), Sync(h))
      modifies `disk
      ensures Valid() && View() == Step(old(View()), Sync(h))
    {
      var k := Find(h);
      InodePut(list[k].node);
    }

    /** `inode_delete` */
    method InodeDelete(no: int)
      requires Valid() && Enabled(View(), Delete(no))
      modifies `disk
      ensures Valid() && View() == Step(old(View()), Delete(no))
    {
      ErasedSlot();
      TableFrom(disk, lba, no);
      StoreStored(disk, lba, no, seq<Byte>(INODE, j => 0));
      disk := WriteSlot(disk, lba, no, seq<Byte>(INODE, j => 0));
    }
  }
}
