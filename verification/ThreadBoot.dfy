/** Booting: the first lists, blocks and locks, and whole runs from there. */
module ThreadBoot {
  import opened Basics
  import opened Lists
  import opened Bitmaps
  import opened TaskLists
  import opened TaskStates
  import opened ThreadCode
  import T = Threads
  import K = Kernel
  import R = KernelRuns

  lemma LooseEverywhere(all: int, ids: Ids, t: T.Tid)
    requires forall a :: a in ids ==> t !in ids[a]
    ensures forall a :: Loose(all, ids, a, t)
  {
  }

  lemma LooseInAll(all: int, ids: Ids, ready: int, t: T.Tid, s: seq<T.Tid>)
    requires all in ids && ready in ids && ready != all && t !in ids[all]
    ensures Loose(all, ids[ready := s], all, t)
  {
  }

  ghost function Entered(ids: Ids, ready: int, all: int, t: T.Tid, runs: bool): (r: Ids)
    requires ready in ids && all in ids && ready != all
    ensures r.Keys == ids.Keys
  {
    (if runs then ids[ready := ids[ready] + [t]] else ids)[all := ids[all] + [t]]
  }

  /** A new block joins the list of all tasks and, if it is to run, the ready list. */
  method Enter(q: Queues, ready: int, id: T.Tid, x: T.Task, runs: bool) returns (b: Tcb)
    requires q.Valid() && ready in q.lists && q.all in q.lists && ready in q.ids && q.all in q.ids && ready != q.all && id !in q.tcbs
    modifies q`tcbs, q`ids, q`elems, q.heads, q.elems
    ensures q.Valid() && fresh(b) && b.id == id && b.Task() == x && q.tcbs == old(q.tcbs)[id := b]
    ensures q.ids == Entered(old(q.ids), ready, q.all, id, runs)
    ensures q.elems == old(q.elems) + {b.general, b.all} && fresh(b.general) && fresh(b.all)
  {
    hide Queues.Valid, Loose;
    q.Unlisted(id);
    LooseEverywhere(q.all, q.ids, id);
    b := new Tcb(id, x);
    q.AddBlock(b);
    LooseInAll(q.all, q.ids, ready, id, q.ids[ready] + [id]);
    if runs {
      q.Append(ready, id);
    }
    q.Append(q.all, id);
  }

  /** The pid bitmap after three calls of `allocate_pid`: the pids 1, 2 and 3 are taken. */
  method FirstPids() returns (bits: Bitmap)
    ensures fresh(bits) && fresh(bits.bits) && bits.Valid() && bits.View() == [true, true, true] + seq(1021, _ => false)
  {
    bits := new Bitmap(128, 0);
    var k := 0;
    while k < 3
      invariant 0 <= k <= 3 && fresh(bits) && fresh(bits.bits) && bits.Valid() && bits.View() == seq(1024, i => i < k)
    {
      FitOne(bits.View());
      var r := bits.Scan(1);
      assert !bits.View()[k];
      bits.Set(r.start, true);
      k := k + 1;
    }
  }

  /** The lists before there is any task. */
  ghost function NoIds(ready: int, all: int, locks: set<K.Lid>): (ids: Ids) {
    map a | a in locks + {ready, all} :: []
  }

  lemma NoIdsFirst(ready: int, all: int)
    ensures NoIds(ready, all, {}) == map[ready := [], all := []]
  {
  }

  lemma NoIdsMore(ready: int, all: int, locks: set<K.Lid>, l: K.Lid)
    ensures NoIds(ready, all, locks)[l := []] == NoIds(ready, all, locks + {l})
    ensures l in NoIds(ready, all, locks) <==> l in locks + {ready, all}
  {
  }

  method EmptyQueues(ready: int, all: int, locks: set<K.Lid>) returns (q: Queues)
    requires ready != all && ready !in locks && all !in locks
    ensures q.Valid() && q.all == all && q.tcbs == map[] && q.lists.Keys == q.ids.Keys && q.ids == NoIds(ready, all, locks)
    ensures fresh(q) && fresh(q.heads) && fresh(q.elems)
  {
    hide Queues.Valid, NoIds;
    q := new Queues(ready, all);
    NoIdsFirst(ready, all);
    ghost var done: set<K.Lid> := {};
    var rest := locks;
    while rest != {}
      invariant done + rest == locks && done !! rest && q.Valid() && q.tcbs == map[] && q.lists.Keys == q.ids.Keys
      invariant q.ids == NoIds(ready, all, done) && fresh(q) && fresh(q.heads) && fresh(q.elems)
      decreases rest
    {
      SomeMember(rest);
      var l :| l in rest;
      NoIdsMore(ready, all, done, l);
      q.AddList(l);
      rest, done := rest - {l}, done + {l};
    }
    assert done == locks;
  }

  method FreeCells(locks: set<K.Lid>) returns (cells: map<K.Lid, LockCell>, ghost slots: set<LockCell>)
    ensures cells.Keys == locks && fresh(slots) && forall l :: l in cells ==> cells[l] in slots && FreeCell(cells[l], l)
  {
    cells, slots := map[], {};
    var rest := locks;
    while rest != {}
      invariant cells.Keys + rest == locks && cells.Keys !! rest
      invariant fresh(slots) && forall l :: l in cells ==> cells[l] in slots && FreeCell(cells[l], l)
      decreases rest
    {
      SomeMember(rest);
      var l :| l in rest;
      var c := new LockCell(l);
      cells, slots := cells[l := c], slots + {c};
      rest := rest - {l};
    }
  }

  lemma SomeMember(s: set<int>)
    requires s != {}
    ensures exists l :: l in s
  {
    if forall l :: l !in s { assert false; }
  }

  /** The lists with the blocks of init and main. */
  method TwoQueues(ready: int, all: int, locks: set<K.Lid>, init: T.Tid, main: T.Tid, prio: nat)
    returns (q: Queues, a: Tcb, b: Tcb)
    requires ready != all && ready !in locks && all !in locks && init != main
    ensures q.Valid() && q.all == all && q.lists.Keys == q.ids.Keys && fresh(q) && fresh(q.heads) && fresh(q.elems)
    ensures q.ids == Entered(Entered(NoIds(ready, all, locks), ready, all, init, true), ready, all, main, false)
    ensures a.id == init && b.id == main && q.tcbs == map[init := a, main := b] && fresh(a) && fresh(b)
    ensures a.Task() == T.Task(T.Ready, prio, prio, 1, -1, 0, true) && b.Task() == T.Task(T.Running, 31, 31, 2, -1, 0, false)
  {
    hide Queues.Valid, Tcb.Linked, Entered;
    q := EmptyQueues(ready, all, locks);
    a := Enter(q, ready, init, T.Task(T.Ready, prio, prio, 1, -1, 0, true), true);
    b := Enter(q, ready, main, T.Task(T.Running, 31, 31, 2, -1, 0, false), false);
  }

  /** The lists with the blocks of init, main and idle. */
  method FirstQueues(ready: int, all: int, locks: set<K.Lid>, init: T.Tid, main: T.Tid, idle: T.Tid, prio: nat)
    returns (q: Queues, a: Tcb, b: Tcb, c: Tcb)
    requires ready != all && ready !in locks && all !in locks && init != main && init != idle && main != idle
    ensures q.Valid() && q.all == all && q.lists.Keys == q.ids.Keys && fresh(q) && fresh(q.heads) && fresh(q.elems)
    ensures q.ids == NoIds(ready, all, locks)[ready := [init, idle]][all := [init, main, idle]]
    ensures a.id == init && b.id == main && c.id == idle && q.tcbs == map[init := a, main := b, idle := c]
    ensures fresh(a) && fresh(b) && fresh(c)
    ensures a.Task() == T.Task(T.Ready, prio, prio, 1, -1, 0, true) && b.Task() == T.Task(T.Running, 31, 31, 2, -1, 0, false)
    ensures c.Task() == T.Task(T.Ready, 10, 10, 3, -1, 0, false)
  {
    hide Queues.Valid, Tcb.Linked, Entered;
    q, a, b := TwoQueues(ready, all, locks, init, main, prio);
    c := Enter(q, ready, idle, T.Task(T.Ready, 10, 10, 3, -1, 0, false), true);
    ThreeEntered(ready, all, locks, init, main, idle);
  }

  lemma ThreeEntered(ready: int, all: int, locks: set<K.Lid>, init: T.Tid, main: T.Tid, idle: T.Tid)
    requires ready != all
    ensures var one := Entered(NoIds(ready, all, locks), ready, all, init, true);
            var two := Entered(one, ready, all, main, false);
            Entered(two, ready, all, idle, true) == NoIds(ready, all, locks)[ready := [init, idle]][all := [init, main, idle]]
  {
    ThreeIn(NoIds(ready, all, locks), ready, all, init, main, idle);
  }

  lemma ThreeIn(ids: Ids, ready: int, all: int, init: T.Tid, main: T.Tid, idle: T.Tid)
    requires ready != all && ready in ids && all in ids && ids[ready] == [] && ids[all] == []
    ensures var one := Entered(ids, ready, all, init, true);
            var two := Entered(one, ready, all, main, false);
            Entered(two, ready, all, idle, true) == ids[ready := [init, idle]][all := [init, main, idle]]
  {
    var one := Entered(ids, ready, all, init, true);
    var two := Entered(one, ready, all, main, false);
    var three := Entered(two, ready, all, idle, true);
    assert two[ready] == [init] && two[all] == [init, main];
    assert three[ready] == [init, idle] && three[all] == [init, main, idle];
  }

  /** `thread_init`: the lists, a pid bitmap of 128 bytes, and the blocks of init, main and idle; and free locks. */
  method Boot(ready: int, all: int, locks: set<K.Lid>, init: T.Tid, main: T.Tid, idle: T.Tid, prio: nat) returns (m: Machine)
    requires ready != all && ready !in locks && all !in locks && init != main && init != idle && main != idle
    ensures m.Valid() && m.State() == R.Boot(init, main, idle, prio, locks)
    ensures fresh(m) && fresh(m.q) && fresh(m.q.heads) && fresh(m.q.elems) && fresh(m.blocks) && fresh(m.slots) && fresh(m.pids.bits)
  {
    hide Queues.Valid, Machine.Valid, FreeCell;
    var q, a, b, c := FirstQueues(ready, all, locks, init, main, idle, prio);
    var bits := FirstPids();
    var cells, slots := FreeCells(locks);
    m := new Machine(q, ready, bits, a, b, c, cells, slots);
    FreeLocks(locks, q.ids);
  }

  lemma FreeLocks(locks: set<K.Lid>, ids: Ids)
    requires forall l :: l in locks ==> l in ids && ids[l] == []
    ensures LocksOf(FreeVals(locks), ids) == map l | l in locks :: K.Lock(1, [], None, 0)
  {
    var m := LocksOf(FreeVals(locks), ids);
    forall l | l in locks ensures l in m && m[l] == K.Lock(1, [], None, 0) { }
  }

  /** Every run of the kernel machine from boot, performed by the code on linked blocks. */
  method BootAndExecute(ready: int, all: int, locks: set<K.Lid>, init: T.Tid, main: T.Tid, idle: T.Tid, prio: nat,
                        actions: seq<K.Action>, ghost states: seq<K.State>) returns (m: Machine, panic: bool)
    requires ready != all && ready !in locks && all !in locks && init != main && init != idle && main != idle
    requires R.Run(states, actions) && states[0] == R.Boot(init, main, idle, prio, locks)
    ensures !panic && m.Valid() && m.State() == states[|actions|]
  {
    hide Queues.Valid, Machine.Valid, Machine.State, R.Run, R.Boot;
    m := Boot(ready, all, locks, init, main, idle, prio);
    panic := m.Execute(actions, states);
  }
}
