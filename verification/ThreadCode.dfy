/** thread/thread.c, thread/sync.c, userprog/wait_exit.c and device/timer.c on control blocks that are linked into
    lists by pointers.  `State()` is the state of the step machine that chains, fields and bits stand for; each routine
    is proved to do to it what the transition function of the same name says.  A method returns true where an ASSERT
    fails. */
module ThreadCode {
  import opened Basics
  import opened Lists
  import opened Bitmaps
  import opened TaskLists
  import opened TaskStates
  import T = Threads
  import K = Kernel
  import R = KernelRuns

  /** `struct lock` without the queue of its semaphore, which is the list at the same address. */
  class LockCell {
    const addr: K.Lid
    var value: nat
    var holder: Option<T.Tid>
    var repeat: nat

    /** `lock_init` */
    constructor (addr: K.Lid)
      ensures this.addr == addr && value == 1 && holder == None && repeat == 0
    {
      this.addr, value, holder, repeat := addr, 1, None, 0;
    }

    method Set(value: nat, holder: Option<T.Tid>, repeat: nat)
      modifies this
      ensures this.value == value && this.holder == holder && this.repeat == repeat
    {
      this.value, this.holder, this.repeat := value, holder, repeat;
    }
  }

  /** A lock that nobody has. */
  ghost predicate FreeCell(c: LockCell, l: K.Lid)
    reads c
  {
    c.addr == l && c.value == 1 && c.holder == None && c.repeat == 0
  }

  class Machine {
    const q: Queues
    const ready: int                 // &thread_ready_list
    var cur: Tcb                     // running_thread()
    var idle: Tcb                    // idle_thread
    var cells: map<K.Lid, LockCell>
    var pc: map<T.Tid, K.Pc>         // where a task goes on when it gets the processor
    const pids: Bitmap               // pid_pool
    const init: T.Tid
    ghost var log: seq<K.Event>
    ghost var tasks: map<T.Tid, T.Task>
    ghost var vals: map<K.Lid, Val>
    ghost var blocks: set<Tcb>
    ghost var slots: set<LockCell>

    // ---------------------------------------------------------------- the invariant

    ghost predicate BlockIn(t: T.Tid)
      requires t in q.tcbs && t in tasks
      reads `tasks, `blocks, q`tcbs, blocks
    {
      q.tcbs[t] in blocks && q.tcbs[t].id == t && q.tcbs[t].Task() == tasks[t]
    }

    /** The control blocks have these contents. */
    ghost predicate Blocks()
      reads `tasks, `blocks, q`tcbs, blocks
    {
      q.tcbs.Keys == tasks.Keys && forall t :: t in q.tcbs ==> BlockIn(t)
    }

    ghost predicate CellIn(l: K.Lid)
      requires l in cells && l in vals
      reads `cells, `vals, `slots, slots
    {
      var c := cells[l];
      c in slots && c.addr == l && vals[l] == Val(c.value, c.holder, c.repeat)
    }

    /** The locks have these contents. */
    ghost predicate Cells()
      reads `cells, `vals, `slots, slots
    {
      cells.Keys == vals.Keys && forall l :: l in cells ==> CellIn(l)
    }

    /** There are two lists and one for each lock, well linked and without a common link. */
    ghost predicate Chains()
      reads `vals, q, q.heads, q.elems
    {
      && q.Valid() && ready != q.all && ready !in vals && q.all !in vals
      && q.lists.Keys == q.ids.Keys && q.ids.Keys == vals.Keys + {ready, q.all}
    }

    ghost predicate Globals()
      reads `cur, `idle, `blocks, q`tcbs, blocks
    {
      && cur in blocks && (if cur.id in q.tcbs then q.tcbs[cur.id] == cur else cur.status == T.Died)
      && idle.id in q.tcbs && q.tcbs[idle.id] == idle
    }

    ghost predicate Valid()
      reads this, q, q.heads, q.elems, blocks, slots, pids
    {
      Blocks() && Cells() && Chains() && Globals() && pids.Valid()
    }

    /** The state of the step machine. */
    ghost function State(): (k: K.State)
      requires Valid()
      reads this, q, q.heads, q.elems, blocks, slots, pids, pids.bits
    {
      K.State(T.Sys(tasks, q.ids[q.all], q.ids[ready], cur.id, idle.id), LocksOf(vals, q.ids), pc, pids.View(), init, log)
    }

    /** A machine over the lists and blocks of init, main and idle, with free locks. */
    constructor (q: Queues, ready: int, bits: Bitmap, a: Tcb, b: Tcb, c: Tcb, cells: map<K.Lid, LockCell>, ghost slots: set<LockCell>)
      requires q.Valid() && ready != q.all && ready !in cells && q.all !in cells && bits.Valid()
      requires q.lists.Keys == q.ids.Keys && q.ids.Keys == cells.Keys + {ready, q.all}
      requires a.id != b.id && a.id != c.id && b.id != c.id && q.tcbs == map[a.id := a, b.id := b, c.id := c]
      requires forall l :: l in cells ==> cells[l] in slots && FreeCell(cells[l], l)
      ensures Valid() && this.q == q && this.ready == ready && pids == bits && cur == b && idle == c && init == a.id
      ensures vals == FreeVals(cells.Keys) && this.slots == slots
      ensures pc == map[a.id := K.Out, b.id := K.Out, c.id := K.Out] && log == [] && blocks == {a, b, c}
      ensures tasks == map[a.id := a.Task(), b.id := b.Task(), c.id := c.Task()]
    {
      hide Queues.Valid;
      this.q, this.ready, pids, cur, idle, init := q, ready, bits, b, c, a.id;
      this.cells, log := cells, [];
      this.slots, vals := slots, FreeVals(cells.Keys);
      pc := map[a.id := K.Out, b.id := K.Out, c.id := K.Out];
      tasks := map[a.id := a.Task(), b.id := b.Task(), c.id := c.Task()];
      blocks := {a, b, c};
    }

    // ---------------------------------------------------------------- single writes

    /** What the code reads is what the state says. */
    lemma ReadTask(t: T.Tid)
      requires Valid()
      ensures t in q.tcbs <==> t in State().sys.tasks
      ensures t in q.tcbs ==> q.tcbs[t].id == t && q.tcbs[t].Task() == State().sys.tasks[t]
    {
    }

    lemma ReadCur()
      requires Valid()
      ensures cur.id == State().sys.cur && idle.id == State().sys.idle && idle.id in q.tcbs && q.tcbs[idle.id] == idle && pc == State().pc
      ensures cur.id in q.tcbs <==> cur.id in State().sys.tasks
      ensures if cur.id in q.tcbs then q.tcbs[cur.id] == cur && cur.Task() == State().sys.tasks[cur.id] else cur.status == T.Died
    {
    }

    lemma ReadLock(l: K.Lid)
      requires Valid()
      ensures l in cells <==> l in State().locks
      ensures l in cells ==> var L := State().locks[l];
                cells[l].value == L.value && cells[l].holder == L.holder && cells[l].repeat == L.repeat
    {
    }

    method IsReady(t: T.Tid) returns (b: bool)
      requires Valid() && t in q.tcbs
      ensures b <==> t in State().sys.ready
    {
      b := q.Find(ready, t);
    }

    method IsWaiter(l: K.Lid, t: T.Tid) returns (b: bool)
      requires Valid() && t in q.tcbs && l in cells
      ensures b <==> t in Waiters(State(), l)
    {
      b := q.Find(l, t);
    }

    method NoneReady() returns (b: bool)
      requires Valid()
      ensures b <==> State().sys.ready == []
    {
      b := q.Empty(ready);
    }

    /** Fields of a control block are written. */
    method Write(t: T.Tid, x: T.Task)
      requires Valid() && t in q.tcbs
      modifies `tasks, blocks
      ensures Valid() && State() == old(WithTask(State(), t, x))
    {
      hide Queues.Valid, LocksOf;
      assert BlockIn(t);
      var b := q.tcbs[t];
      b.Set(x);
      tasks := tasks[t := x];
      forall u | u in q.tcbs ensures BlockIn(u) { assert old(BlockIn(u)); }
    }

    method WriteLock(l: K.Lid, v: Val)
      requires Valid() && l in cells
      modifies `vals, slots
      ensures Valid() && var k := old(State()); l in k.locks && State() == WithLock(k, l, K.Lock(v.value, k.locks[l].waiters, v.holder, v.repeat))
    {
      hide Queues.Valid, Machine.Blocks, Machine.Globals;
      assert CellIn(l);
      LocksVal(vals, q.ids, l, v);
      cells[l].Set(v.value, v.holder, v.repeat);
      vals := vals[l := v];
      forall m | m in cells ensures CellIn(m) { assert old(CellIn(m)); }
    }

    method PushReady(t: T.Tid)
      requires Valid() && t in q.tcbs && t !in State().sys.ready && Unqueued(State(), t)
      modifies q`ids, q.heads, q.elems
      ensures Valid() && var k := old(State()); State() == WithReady(k, [t] + k.sys.ready)
    {
      hide Queues.Valid, Machine.Blocks, Machine.Cells, Machine.Globals, LocksOf, Loose;
      Unlinked(vals, q.ids, ready, q.all, State(), t);
      LocksSame(vals, q.ids, ready, [t] + q.ids[ready]);
      q.Push(ready, t);
    }

    method AppendReady(t: T.Tid)
      requires Valid() && t in q.tcbs && t !in State().sys.ready && Unqueued(State(), t)
      modifies q`ids, q.heads, q.elems
      ensures Valid() && var k := old(State()); State() == WithReady(k, k.sys.ready + [t])
    {
      hide Queues.Valid, Machine.Blocks, Machine.Cells, Machine.Globals, LocksOf, Loose;
      Unlinked(vals, q.ids, ready, q.all, State(), t);
      LocksSame(vals, q.ids, ready, q.ids[ready] + [t]);
      q.Append(ready, t);
    }

    method PopReady() returns (t: T.Tid)
      requires Valid() && State().sys.ready != []
      modifies q`ids, q.heads, q.elems
      ensures Valid() && t in q.tcbs && var k := old(State()); k.sys.ready == [t] + State().sys.ready && State() == WithReady(k, State().sys.ready)
    {
      hide Queues.Valid, Machine.Blocks, Machine.Cells, Machine.Globals, LocksOf;
      LocksSame(vals, q.ids, ready, q.ids[ready][1..]);
      t := q.Pop(ready);
    }

    method RemoveReady(t: T.Tid)
      requires Valid() && t in State().sys.ready
      modifies q`ids, q.heads, q.elems
      ensures Valid() && t !in State().sys.ready && var k := old(State()); State() == WithReady(k, Without(k.sys.ready, t))
    {
      hide Queues.Valid, Machine.Blocks, Machine.Cells, Machine.Globals, LocksOf, Without;
      LocksSame(vals, q.ids, ready, Without(q.ids[ready], t));
      q.Remove(ready, t);
    }

    method RemoveAll(t: T.Tid)
      requires Valid() && t in State().sys.all
      modifies q`ids, q.heads, q.elems
      ensures Valid() && t !in State().sys.all && var k := old(State()); State() == WithAll(k, Without(k.sys.all, t))
    {
      hide Queues.Valid, Machine.Blocks, Machine.Cells, Machine.Globals, LocksOf, Without;
      LocksSame(vals, q.ids, q.all, Without(q.ids[q.all], t));
      q.Remove(q.all, t);
    }

    method AppendAll(t: T.Tid)
      requires Valid() && t in q.tcbs && t !in State().sys.all
      modifies q`ids, q.heads, q.elems
      ensures Valid() && var k := old(State()); State() == WithAll(k, k.sys.all + [t])
    {
      hide Queues.Valid, Machine.Blocks, Machine.Cells, Machine.Globals, LocksOf;
      LocksSame(vals, q.ids, q.all, q.ids[q.all] + [t]);
      q.Append(q.all, t);
    }

    method AppendWaiter(l: K.Lid, t: T.Tid)
      requires Valid() && l in State().locks && t in q.tcbs && t !in State().sys.ready && Unqueued(State(), t)
      modifies q`ids, q.heads, q.elems
      ensures Valid() && var k := old(State()); State() == WithWaiters(k, l, Waiters(k, l) + [t])
    {
      hide Queues.Valid, Machine.Blocks, Machine.Cells, Machine.Globals, LocksOf, Loose;
      LocksAre(vals, q.ids);
      LocksQueue(vals, q.ids, l, q.ids[l] + [t]);
      Unlinked(vals, q.ids, ready, q.all, State(), t);
      q.Append(l, t);
    }

    method PopWaiter(l: K.Lid) returns (t: T.Tid)
      requires Valid() && Waiters(State(), l) != []
      modifies q`ids, q.heads, q.elems
      ensures Valid() && t in q.tcbs
      ensures old(Waiters(State(), l)) == [t] + Waiters(State(), l) && State() == WithWaiters(old(State()), l, Waiters(State(), l))
    {
      hide Queues.Valid, Machine.Blocks, Machine.Cells, Machine.Globals, LocksOf;
      LocksAre(vals, q.ids);
      LocksQueue(vals, q.ids, l, q.ids[l][1..]);
      t := q.Pop(l);
    }

    // ---------------------------------------------------------------- scheduling

    method ThreadUnblock(t: T.Tid) returns (panic: bool)
      requires Valid() && t in q.tcbs && Unqueued(State(), t)
      modifies `tasks, q`ids, q.heads, q.elems, blocks
      ensures t in old(State()).sys.tasks
      ensures panic <==> T.Unblock(old(State()).sys, t).Panic?
      ensures !panic ==> Valid() && var k := old(State()); State() == k.(sys := T.Unblock(k.sys, t).s)
    {
      hide Machine.Valid, Machine.State;
      ReadTask(t);
      var b := q.tcbs[t];
      if b.status != T.Blocked && b.status != T.Waiting && b.status != T.Hanging {
        return true;
      }
      var found := IsReady(t);
      if found {
        return true;
      }
      PushReady(t);
      Write(t, b.Task().(status := T.Ready));
      return false;
    }

    /** The first half of `schedule`: a task whose slice is over goes to the end of the ready list. */
    method Requeue() returns (panic: bool)
      requires Valid() && cur.status == T.Running && Unqueued(State(), cur.id)
      modifies `tasks, q`ids, q.heads, q.elems, blocks
      ensures var y := old(State()).sys; y.cur in y.tasks && y.tasks[y.cur].status == T.Running && (panic <==> y.cur in y.ready)
      ensures !panic ==> Valid() && var k := old(State()); State() == k.(sys := T.Requeue(k.sys)) && State().sys.ready != []
    {
      hide Machine.Valid, Machine.State;
      ReadCur();
      panic := IsReady(cur.id);
      if !panic {
        AppendReady(cur.id);
        Write(cur.id, cur.Task().(ticks := cur.priority, status := T.Ready));
        ReadCur();
      }
    }

    /** The second half: the first ready task gets the processor. */
    method Dispatch() returns (panic: bool)
      requires Valid()
      modifies `cur, `tasks, q`ids, q.heads, q.elems, blocks
      ensures panic <==> T.Dispatch(old(State()).sys).Panic?
      ensures !panic ==> Valid() && var k := old(State()); State() == k.(sys := T.Dispatch(k.sys).s)
    {
      hide Machine.Valid, Machine.State;
      panic := NoneReady();
      if !panic {
        var next := PopReady();
        ReadTask(next);
        Write(next, q.tcbs[next].Task().(status := T.Running));
        SetCur(next);
      }
    }

    method Schedule() returns (panic: bool)
      requires Valid() && Unqueued(State(), idle.id) && (cur.status == T.Running ==> Unqueued(State(), cur.id))
      modifies `cur, `tasks, q`ids, q.heads, q.elems, blocks
      ensures panic <==> T.Schedule(old(State()).sys).Panic?
      ensures !panic ==> Valid() && var k := old(State()); State() == k.(sys := T.Schedule(k.sys).s)
    {
      hide Machine.Valid, Machine.State, T.Requeue, T.Dispatch, T.Unblock, Unqueued;
      ReadCur();
      if cur.status == T.Running {
        panic := Requeue();
        if panic {
          return;
        }
      }
      var empty := NoneReady();
      if empty {
        ReadCur();
        panic := ThreadUnblock(idle.id);
        if panic {
          return;
        }
      }
      panic := Dispatch();
    }

    method SetCur(t: T.Tid)
      requires Valid() && t in q.tcbs
      modifies `cur
      ensures Valid() && var k := old(State()); State() == k.(sys := k.sys.(cur := t))
    {
      assert BlockIn(t);
      cur := q.tcbs[t];
    }

    method ThreadBlock(st: T.Status) returns (panic: bool)
      requires Valid() && cur.id in q.tcbs && Unqueued(State(), idle.id)
      modifies `cur, `tasks, q`ids, q.heads, q.elems, blocks
      ensures old(cur.id) in old(State()).sys.tasks && old(cur.id) == old(State()).sys.cur
      ensures panic <==> T.Block(old(State()).sys, st).Panic?
      ensures !panic ==> Valid() && var k := old(State()); State() == k.(sys := T.Block(k.sys, st).s)
    {
      hide Machine.Valid, Machine.State, T.Schedule;
      ReadCur();
      if st != T.Blocked && st != T.Waiting && st != T.Hanging {
        return true;
      }
      Write(cur.id, cur.Task().(status := st));
      ReadCur();
      panic := Schedule();
    }

    method ThreadYield() returns (panic: bool)
      requires Valid() && cur.id in q.tcbs && Unqueued(State(), idle.id) && Unqueued(State(), cur.id)
      modifies `cur, `tasks, q`ids, q.heads, q.elems, blocks
      ensures old(cur.id) in old(State()).sys.tasks && old(cur.id) == old(State()).sys.cur
      ensures panic <==> T.Yield(old(State()).sys).Panic?
      ensures !panic ==> Valid() && var k := old(State()); State() == k.(sys := T.Yield(k.sys).s)
    {
      hide Machine.Valid, Machine.State, T.Schedule;
      ReadCur();
      var found := IsReady(cur.id);
      if found {
        return true;
      }
      AppendReady(cur.id);
      Write(cur.id, cur.Task().(status := T.Ready));
      ReadCur();
      panic := Schedule();
    }

    /** The timer interrupt. */
    method TimerHandler() returns (panic: bool)
      requires Valid() && cur.id in q.tcbs && Unqueued(State(), idle.id) && Unqueued(State(), cur.id)
      modifies `cur, `tasks, q`ids, q.heads, q.elems, blocks
      ensures old(cur.id) in old(State()).sys.tasks && old(cur.id) == old(State()).sys.cur
      ensures panic <==> T.Tick(old(State()).sys).Panic?
      ensures !panic ==> Valid() && var k := old(State()); State() == k.(sys := T.Tick(k.sys).s)
    {
      hide Machine.Valid, Machine.State, T.Schedule;
      ReadCur();
      if cur.ticks == 0 {
        panic := Schedule();
      } else {
        Write(cur.id, cur.Task().(ticks := cur.ticks - 1));
        panic := false;
      }
    }

    // ---------------------------------------------------------------- locks

    method SetPc(t: T.Tid, p: K.Pc)
      requires Valid()
      modifies `pc
      ensures Valid() && var k := old(State()); State() == k.(pc := k.pc[t := p])
    {
      hide Queues.Valid, LocksOf;
      pc := pc[t := p];
    }

    /** A lock is written, and the current task goes on to `p`. */
    method WriteLockPc(l: K.Lid, v: Val, p: K.Pc)
      requires Valid() && l in cells
      modifies `vals, `pc, slots
      ensures Valid() && State() == Wrote(old(State()), l, v, p)
    {
      hide Machine.Valid, Machine.State;
      ReadCur();
      WriteLock(l, v);
      SetPc(cur.id, p);
    }

    /** The current task joins the queue and blocks. */
    method SleepOn(l: K.Lid) returns (panic: bool)
      requires Valid() && l in cells && cur.id in q.tcbs
      requires Unqueued(State(), idle.id) && Unqueued(State(), cur.id) && cur.id !in State().sys.ready && cur.id != idle.id
      modifies `cur, `tasks, `pc, q`ids, q.heads, q.elems, blocks
      ensures var k := old(State()); l in k.locks && k.sys.cur in k.sys.tasks && (panic <==> T.Block(k.sys, T.Blocked).Panic?)
      ensures !panic ==> Valid() && State() == Slept(old(State()), l)
    {
      hide Machine.Valid, Machine.State, T.Block;
      ReadLock(l);
      ReadCur();
      AppendWaiter(l, cur.id);
      SetPc(cur.id, K.Sleep(l));
      ReadCur();
      panic := ThreadBlock(T.Blocked);
    }

    /** `sema_down` until it takes the semaphore or the processor goes to another task. */
    method SemaDown(l: K.Lid) returns (panic: bool)
      requires Valid() && l in cells && cur.id in q.tcbs && cur.id != idle.id
      requires Unqueued(State(), idle.id) && UnqueuedBut(State(), l, cur.id) && cur.id !in State().sys.ready
      modifies `cur, `tasks, `vals, `pc, q`ids, q.heads, q.elems, blocks, slots
      ensures var k := old(State()); l in k.locks && k.sys.cur in k.sys.tasks && (panic <==> K.SemaDown(k, l).Panic?)
      ensures !panic ==> Valid() && State() == K.SemaDown(old(State()), l).s
    {
      hide Machine.Valid, Machine.State, T.Block, K.SemaDown, Slept;
      ReadLock(l);
      ReadCur();
      SemaDownIs(State(), l);
      var c := cells[l];
      if c.value == 0 {
        panic := IsWaiter(l, cur.id);
        if panic {
          return;
        }
        panic := SleepOn(l);
      } else {
        panic := c.value - 1 != 0;
        WriteLockPc(l, Val(c.value - 1, c.holder, c.repeat), K.Got(l));
      }
    }

    /** The first waiter is taken from the queue and made ready. */
    method WakeOne(l: K.Lid) returns (panic: bool)
      requires Valid() && l in cells && Waiters(State(), l) != []
      requires Unqueued(WithWaiters(State(), l, Waiters(State(), l)[1..]), Waiters(State(), l)[0])
      modifies `tasks, q`ids, q.heads, q.elems, blocks
      ensures var k := old(State()); Waiters(k, l)[0] in k.sys.tasks && (panic <==> T.Unblock(k.sys, Waiters(k, l)[0]).Panic?)
      ensures !panic ==> Valid() && State() == Woke(old(State()), l)
    {
      hide Machine.Valid, Machine.State, T.Unblock;
      var blocked := PopWaiter(l);
      panic := ThreadUnblock(blocked);
    }

    method SemaUp(l: K.Lid) returns (panic: bool)
      requires Valid() && l in cells
      requires Waiters(State(), l) != [] ==> Unqueued(WithWaiters(State(), l, Waiters(State(), l)[1..]), Waiters(State(), l)[0])
      modifies `tasks, `vals, `pc, q`ids, q.heads, q.elems, blocks, slots
      ensures var k := old(State()); l in k.locks && (panic <==> K.SemaUp(k, l).Panic?)
      ensures !panic ==> Valid() && State() == K.SemaUp(old(State()), l).s
    {
      hide Machine.Valid, Machine.State, T.Unblock, K.SemaUp, Woke;
      ReadLock(l);
      ReadCur();
      SemaUpIs(State(), l);
      panic := cells[l].value != 0;
      if panic {
        return;
      }
      var none := NoWaiter(l);
      if !none {
        panic := WakeOne(l);
        if panic {
          return;
        }
        ReadLock(l);
      }
      WriteLockPc(l, Val(cells[l].value + 1, cells[l].holder, cells[l].repeat), K.Out);
    }

    method NoWaiter(l: K.Lid) returns (b: bool)
      requires Valid() && l in cells
      ensures b <==> Waiters(State(), l) == []
    {
      b := q.Empty(l);
    }

    /** `lock_acquire` up to the call of `sema_down`. */
    method LockAcquire(l: K.Lid)
      requires Valid() && l in cells
      modifies `vals, `pc, slots
      ensures Valid() && l in old(State()).locks && State() == K.LockAcquire(old(State()), l)
    {
      hide Machine.Valid, Machine.State;
      ReadLock(l);
      ReadCur();
      if cells[l].holder != Some(cur.id) {
        SetPc(cur.id, K.Down(l));
      } else {
        WriteLock(l, Val(cells[l].value, cells[l].holder, cells[l].repeat + 1));
      }
    }

    /** `lock_release` up to its first write. */
    method LockRelease(l: K.Lid) returns (panic: bool)
      requires Valid() && l in cells
      modifies `vals, `pc, slots
      ensures l in old(State()).locks && (panic <==> K.LockRelease(old(State()), l).Panic?)
      ensures !panic ==> Valid() && State() == K.LockRelease(old(State()), l).s
    {
      hide Machine.Valid, Machine.State;
      ReadLock(l);
      ReadCur();
      var c := cells[l];
      panic := false;
      if c.holder != Some(cur.id) {
        panic := true;
      } else if c.repeat > 1 {
        WriteLock(l, Val(c.value, c.holder, c.repeat - 1));
      } else if c.repeat != 1 {
        panic := true;
      } else {
        WriteLockPc(l, Val(c.value, None, c.repeat), K.Unnamed(l));
      }
    }

    /** The other steps of `lock_acquire` and `lock_release`. */
    method LockContinue() returns (panic: bool)
      requires Valid() && cur.id in q.tcbs && cur.id in pc && K.PcLock(pc[cur.id]).Some? && pc[cur.id].lock in cells && cur.id != idle.id
      requires Unqueued(State(), idle.id) && UnqueuedBut(State(), pc[cur.id].lock, cur.id) && cur.id !in State().sys.ready
      requires var l := pc[cur.id].lock; Waiters(State(), l) != [] ==>
                 Unqueued(WithWaiters(State(), l, Waiters(State(), l)[1..]), Waiters(State(), l)[0])
      modifies `cur, `tasks, `vals, `pc, q`ids, q.heads, q.elems, blocks, slots
      ensures var k := old(State()); Stepping(k) && (panic <==> K.LockStep(k, k.pc[k.sys.cur]).Panic?)
      ensures !panic ==> Valid() && var k := old(State()); State() == K.LockStep(k, k.pc[k.sys.cur]).s
    {
      hide Machine.Valid, Machine.State, K.SemaUp, K.SemaDown, Unqueued, UnqueuedBut, Waiters;
      ReadCur();
      var l := pc[cur.id].lock;
      ReadLock(l);
      LockStepIs(State());
      var c := cells[l];
      panic := false;
      match pc[cur.id]
      case Down(_) => panic := SemaDown(l);
      case Sleep(_) => panic := SemaDown(l);
      case Got(_) => WriteLockPc(l, Val(c.value, Some(cur.id), c.repeat), K.Named(l));
      case Named(_) =>
        if c.repeat != 0 {
          return true;
        }
        WriteLockPc(l, Val(c.value, c.holder, 1), K.Out);
      case Unnamed(_) => WriteLockPc(l, Val(c.value, c.holder, 0), K.Up(l));
      case Up(_) => panic := SemaUp(l);
    }

    // ---------------------------------------------------------------- processes

    /** `allocate_pid`: the scan of a full bitmap stops the kernel. */
    method AllocatePid() returns (panic: bool, pid: int)
      requires Valid()
      modifies pids.bits
      ensures panic <==> K.AllocatePid(old(State())).Panic?
      ensures !panic ==> Valid() && var k := old(State());
                1 <= pid <= |k.pids| && pid == K.AllocatePid(k).s && State() == k.(pids := k.pids[pid - 1 := true])
    {
      FitOne(pids.View());
      var r := pids.Scan(1);
      if r.Halt? {
        return true, 0;
      }
      pids.Set(r.start, true);
      return false, r.start + 1;
    }

    /** `release_pid` */
    method ReleasePid(pid: int)
      requires Valid() && 1 <= pid <= |State().pids|
      modifies pids.bits
      ensures Valid() && var k := old(State()); State() == k.(pids := k.pids[pid - 1 := false])
    {
      pids.Set(pid - 1, false);
    }

    /** Whatever is in a list has a control block. */
    lemma Absent(t: T.Tid)
      requires Valid() && t !in q.tcbs
      ensures t !in State().sys.tasks && t !in State().sys.ready && t !in State().sys.all && Unqueued(State(), t)
    {
      hide LocksOf;
      LocksAre(vals, q.ids);
      forall a | a in q.lists ensures t !in q.ids[a] {
        assert q.ListAt(a);
        OwnersKnown(q.lists[a], FieldOf(q.all, a), q.tcbs);
      }
    }

    /** A new control block. */
    method NewBlock(t: T.Tid, x: T.Task)
      requires Valid() && t !in q.tcbs && cur.id in q.tcbs
      modifies `tasks, `blocks, q`tcbs, q`elems
      ensures Valid() && t in q.tcbs && State() == WithTask(old(State()), t, x) && cur.id in q.tcbs
      ensures var b := q.tcbs[t]; fresh(b) && fresh(b.general) && fresh(b.all)
      ensures var b := q.tcbs[t]; blocks == old(blocks) + {b} && q.elems == old(q.elems) + {b.general, b.all}
    {
      hide Queues.Valid, LocksOf, Machine.Cells;
      var b := new Tcb(t, x);
      q.AddBlock(b);
      NoteBlock(b);
    }

    ghost method NoteBlock(b: Tcb)
      requires Cells() && Chains() && pids.Valid()
      requires q.tcbs.Keys == tasks.Keys + {b.id} && b.id !in tasks && q.tcbs[b.id] == b
      requires forall t :: t in tasks ==> BlockIn(t)
      requires cur in blocks && cur.id in q.tcbs && q.tcbs[cur.id] == cur && idle.id in q.tcbs && q.tcbs[idle.id] == idle
      modifies `tasks, `blocks
      ensures Valid() && tasks == old(tasks)[b.id := b.Task()] && blocks == old(blocks) + {b}
    {
      hide Queues.Valid, LocksOf, Machine.Cells, Machine.Chains;
      blocks := blocks + {b};
      tasks := tasks[b.id := b.Task()];
      forall u | u in q.tcbs ensures BlockIn(u) { if u != b.id { assert old(BlockIn(u)); } }
    }

    ghost method ForgetBlock(b: Tcb)
      requires Cells() && Chains() && Globals() && pids.Valid() && b.id in tasks && q.tcbs.Keys == tasks.Keys - {b.id}
      requires forall t :: t in q.tcbs ==> BlockIn(t)
      modifies `tasks
      ensures Valid() && tasks == old(tasks) - {b.id}
    {
      hide Queues.Valid, LocksOf, Machine.Cells, Machine.Chains;
      tasks := tasks - {b.id};
      forall u | u in q.tcbs ensures BlockIn(u) { assert old(BlockIn(u)); }
    }

    /** A control block that is in no list is freed. */
    method FreeBlock(t: T.Tid)
      requires Valid() && t in q.tcbs && t != idle.id && q.tcbs[t].status == T.Died
      requires t !in State().sys.ready && t !in State().sys.all && Unqueued(State(), t)
      modifies `tasks, q`tcbs
      ensures Valid() && var k := old(State()); State() == k.(sys := k.sys.(tasks := k.sys.tasks - {t}))
    {
      hide Queues.Valid, LocksOf, Machine.Cells;
      LocksAre(vals, q.ids);
      assert BlockIn(t);
      var b := q.tcbs[t];
      q.DropBlock(t);
      forall u | u in q.tcbs ensures BlockIn(u) { assert old(BlockIn(u)); }
      ForgetBlock(b);
    }

    /** A new task at the end of both lists. */
    method Enlist(t: T.Tid, x: T.Task)
      requires Valid() && t !in q.tcbs && cur.id in q.tcbs
      modifies `tasks, `blocks, `pc, q`tcbs, q`elems, q`ids, q.heads, q.elems
      ensures Valid() && State() == Listed(old(State()), t, x) && t in q.tcbs
      ensures var b := q.tcbs[t]; fresh(b) && fresh(b.general) && fresh(b.all)
      ensures var b := q.tcbs[t]; blocks == old(blocks) + {b} && q.elems == old(q.elems) + {b.general, b.all}
    {
      hide Machine.Valid, Machine.State;
      Absent(t);
      NewBlock(t, x);
      AppendReady(t);
      AppendAll(t);
      SetPc(t, K.Out);
    }

    method SysFork(child: T.Tid) returns (panic: bool, pid: int)
      requires Valid() && child !in q.tcbs && cur.id in q.tcbs
      modifies `tasks, `blocks, `pc, pids.bits, q`tcbs, q`elems, q`ids, q.heads, q.elems
      ensures var k := old(State()); k.sys.cur in k.sys.tasks && (panic <==> K.ForkTask(k, child).Panic?)
      ensures !panic ==> Valid() && State() == K.ForkTask(old(State()), child).s && child in q.tcbs && Grown(child)
      ensures !panic ==> child in State().sys.tasks && pid == State().sys.tasks[child].pid
    {
      hide Machine.Valid, Machine.State;
      ReadCur();
      ReadTask(child);
      FitOne(State().pids);
      panic, pid := AllocatePid();
      if panic {
        return;
      }
      ReadCur();
      Enlist(child, cur.Task().(pid := pid, status := T.Ready, ticks := cur.priority, parent := cur.pid));
    }

    /** The block of `t` is new, and nothing else is. */
    twostate predicate Grown(t: T.Tid)
      requires t in q.tcbs
      reads this, q
    {
      var b := q.tcbs[t];
      && fresh(b) && fresh(b.general) && fresh(b.all)
      && blocks == old(blocks) + {b} && q.elems == old(q.elems) + {b.general, b.all}
    }

    method ThreadStart(child: T.Tid, priority: nat) returns (panic: bool)
      requires Valid() && child !in q.tcbs && cur.id in q.tcbs
      modifies `tasks, `blocks, `pc, pids.bits, q`tcbs, q`elems, q`ids, q.heads, q.elems
      ensures panic <==> K.StartThread(old(State()), child, priority).Panic?
      ensures !panic ==> Valid() && State() == K.StartThread(old(State()), child, priority).s && child in q.tcbs && Grown(child)
    {
      hide Machine.Valid, Machine.State;
      FitOne(State().pids);
      var pid;
      panic, pid := AllocatePid();
      if panic {
        return;
      }
      Enlist(child, T.Task(T.Ready, priority, priority, pid, -1, 0, false));
    }

    method DropPc(t: T.Tid)
      requires Valid()
      modifies `pc
      ensures Valid() && var k := old(State()); State() == k.(pc := k.pc - {t})
    {
      hide Queues.Valid, LocksOf;
      pc := pc - {t};
    }

    /** The task leaves the ready list, if it is there, and the list of all tasks. */
    method Unlist(t: T.Tid)
      requires Valid() && t in q.tcbs && t in State().sys.all
      modifies q`ids, q.heads, q.elems
      ensures Valid() && State() == Unlisted(old(State()), t) && t !in State().sys.ready && t !in State().sys.all
    {
      hide Machine.Valid, Machine.State, Without;
      WithoutAbsent(State().sys.ready, t);
      var found := IsReady(t);
      if found {
        RemoveReady(t);
      }
      RemoveAll(t);
    }

    /** `thread_exit` up to the call of `schedule` */
    method ThreadExit(t: T.Tid)
      requires Valid() && t in q.tcbs && t != idle.id && Unqueued(State(), t) && t in State().sys.all
      requires 1 <= q.tcbs[t].pid <= |State().pids|
      modifies `tasks, `pc, pids.bits, q`tcbs, q`ids, q.heads, q.elems, blocks
      ensures Valid() && var k := old(State()); Listing(k, t) && State() == K.Delist(k, t)
    {
      hide Machine.Valid, Machine.State, Unlisted, K.Delist, Unqueued;
      ReadTask(t);
      var pid := q.tcbs[t].pid;
      var died := q.tcbs[t].Task().(status := T.Died);
      DelistIs(State(), t, died);
      Write(t, died);
      ReadTask(t);
      Unlist(t);
      FreeBlock(t);
      DropPc(t);
      ReleasePid(pid);
    }

    /** The elements of the list of all tasks, one after the other. */
    lemma AllSpot(i: nat)
      requires Valid() && i <= |State().sys.all|
      ensures var L := q.lists[q.all];
              && q.all in q.lists && |L.chain| == |State().sys.all| + 2 && (L.chain[i + 1] == L.tail <==> i == |State().sys.all|)
              && (i < |State().sys.all| ==> L.chain[i + 1].next == L.chain[i + 2] && L.chain[i + 1].owner == State().sys.all[i]
                                            && State().sys.all[i] in q.tcbs)
              && L.head.next == L.chain[1]
    {
      assert q.ListAt(q.all);
      ghost var L := q.lists[q.all];
      assert L.Linked(0);
      if i < |State().sys.all| {
        assert L.Linked(i + 1);
        assert IsTag(L.Elems()[i], All, q.tcbs);
      }
    }

    /** `list_traversal` with a callback: the first task it accepts. */
    method Traverse(accepts: T.Task -> bool) returns (r: Option<T.Tid>)
      requires Valid()
      ensures r == K.FirstIn(State().sys.all, Accepting(State().sys, accepts)) && (r.Some? ==> r.v in q.tcbs)
    {
      hide Machine.Valid, Machine.State, Queues.Valid;
      ghost var y := State().sys;
      AllSpot(0);
      var elem := q.lists[q.all].head.next;
      ghost var i := 0;
      assert y.all[0..] == y.all;
      while elem != q.lists[q.all].tail
        invariant 0 <= i <= |y.all| && q.all in q.lists && i + 1 < |q.lists[q.all].chain| && elem == q.lists[q.all].chain[i + 1]
        invariant K.FirstIn(y.all, Accepting(y, accepts)) == K.FirstIn(y.all[i..], Accepting(y, accepts))
        decreases |y.all| - i
      {
        AllSpot(i);
        ReadTask(y.all[i]);
        if accepts(q.tcbs[elem.owner].Task()) {
          return Some(elem.owner);
        }
        elem := elem.next;
        i := i + 1;
      }
      AllSpot(i);
      return None;
    }

    /** `init_adopt_a_child` applied to every listed task. */
    method AdoptChildren(pid: int)
      requires Valid() && forall t :: t in State().sys.all <==> t in State().sys.tasks
      modifies `tasks, blocks
      ensures Valid() && var k := old(State()); State() == k.(sys := K.Adopt(k.sys, pid))
    {
      hide Machine.Valid, Machine.State, Queues.Valid;
      ghost var k := State();
      AllSpot(0);
      var elem := q.lists[q.all].head.next;
      ghost var i := 0;
      while elem != q.lists[q.all].tail
        invariant Valid() && q.all in q.lists && 0 <= i <= |k.sys.all| && i + 1 < |q.lists[q.all].chain| && elem == q.lists[q.all].chain[i + 1]
        invariant State() == k.(sys := k.sys.(tasks := State().sys.tasks)) && AdoptedTo(k.sys, pid, i, State().sys.tasks)
        decreases |k.sys.all| - i
      {
        AllSpot(i);
        ReadTask(k.sys.all[i]);
        AdoptStep(k.sys, pid, i, State().sys.tasks);
        if q.tcbs[elem.owner].parent == pid {
          Write(elem.owner, q.tcbs[elem.owner].Task().(parent := 1));
        }
        elem := elem.next;
        i := i + 1;
      }
      AllSpot(i);
      AdoptEnd(k.sys, pid, State().sys.tasks);
    }

    ghost method Record(e: K.Event)
      requires Valid()
      modifies `log
      ensures Valid() && var k := old(State()); State() == k.(log := k.log + [e])
    {
      hide Queues.Valid, LocksOf;
      log := log + [e];
    }

    /** `sys_exit` up to the release of resources. */
    method SysExitBegin(status: int) returns (panic: bool)
      requires Valid() && cur.id in q.tcbs && forall t :: t in State().sys.all <==> t in State().sys.tasks
      modifies `tasks, `pc, `log, blocks
      ensures var k := old(State()); k.sys.cur in k.sys.tasks && (panic <==> K.ExitBegin(k, status).Panic?)
      ensures !panic ==> Valid() && State() == K.ExitBegin(old(State()), status).s
    {
      hide Machine.Valid, Machine.State, K.Adopt;
      ReadCur();
      Write(cur.id, cur.Task().(exitStatus := K.Byte(status)));
      ReadCur();
      panic := cur.parent == -1;
      if panic {
        return;
      }
      AdoptChildren(cur.pid);
      SetPc(cur.id, K.Exiting);
      Record(K.Exited(cur.id, status));
    }

    method Hang(st: T.Status, p: K.Pc) returns (panic: bool)
      requires Valid() && cur.id in q.tcbs && Unqueued(State(), idle.id)
      modifies `cur, `tasks, `pc, q`ids, q.heads, q.elems, blocks
      ensures var k := old(State()); k.sys.cur in k.sys.tasks && (panic <==> T.Block(k.sys, st).Panic?)
      ensures !panic ==> Valid() && var k := old(State()); State() == k.(sys := T.Block(k.sys, st).s, pc := k.pc[k.sys.cur := p])
    {
      hide Machine.Valid, Machine.State, T.Block, Unqueued;
      ReadCur();
      ghost var k := State();
      SetPc(cur.id, p);
      SameLocks(k, State(), idle.id);
      ReadCur();
      panic := ThreadBlock(st);
    }

    /** The rest of `sys_exit`. */
    method SysExitEnd() returns (panic: bool)
      requires Valid() && cur.id in q.tcbs && Tidy(State())
      modifies `cur, `tasks, `pc, q`ids, q.heads, q.elems, blocks
      ensures var k := old(State()); k.sys.cur in k.sys.tasks && (panic <==> K.ExitEnd(k).Panic?)
      ensures !panic ==> Valid() && State() == K.ExitEnd(old(State())).s
    {
      hide Machine.Valid, Machine.State, T.Block, T.Unblock, K.ExitEnd, Unqueued, Tidy;
      ReadCur();
      ghost var k := State();
      ExitEndIs(k);
      TidyMeans(k);
      var parent := Traverse(PidIs(cur.parent));
      if parent.None? {
        return true;
      }
      ReadTask(parent.v);
      if q.tcbs[parent.v].status == T.Waiting {
        panic := ThreadUnblock(parent.v);
        if panic {
          return;
        }
        SameLocks(k, State(), idle.id);
        ReadCur();
      }
      panic := Hang(T.Hanging, K.Zombie);
    }

    /** A hanging child is reaped. */
    method Reap(c: T.Tid)
      requires Valid() && c in q.tcbs && c != idle.id && Unqueued(State(), c) && c in State().sys.all
      requires 1 <= q.tcbs[c].pid <= |State().pids|
      modifies `tasks, `pc, `log, pids.bits, q`tcbs, q`ids, q.heads, q.elems, blocks
      ensures Valid() && Listing(old(State()), c) && State() == Reaping(old(State()), c)
    {
      hide Machine.Valid, Machine.State, Unqueued, K.Delist;
      ReadCur();
      ReadTask(c);
      ghost var k := State();
      DelistKeeps(k, c);
      ThreadExit(c);
      SetPc(cur.id, K.Out);
      Record(K.Reaped(c, k.sys.cur, k.sys.tasks[c].exitStatus));
    }

    /** `sys_wait` until it returns or the processor goes to another task; its result is the pid and status of the child
        that was reaped, the first listed that hangs, or that there is no child. */
    method SysWait() returns (panic: bool, w: Waited)
      requires Valid() && cur.id in q.tcbs && Tidy(State()) && PidsIn(State()) && State().sys.tasks[State().sys.idle].status != T.Hanging
      modifies `cur, `tasks, `pc, `log, pids.bits, q`tcbs, q`ids, q.heads, q.elems, blocks
      ensures var k := old(State()); k.sys.cur in k.sys.tasks && (panic <==> K.WaitPass(k).Panic?)
      ensures !panic ==> Valid() && State() == K.WaitPass(old(State())).s && WaitMeans(old(State()), State(), w)
    {
      hide Machine.Valid, Machine.State, T.Block, K.WaitPass, Unqueued, Tidy, Reaping, PidsIn, WaitMeans;
      w := Sleeps;
      ReadCur();
      ghost var k := State();
      WaitPassIs(k);
      TidyMeans(k);
      var child := Traverse(HangingChildOf(cur.pid));
      if child.Some? {
        ReadTask(child.v);
        w := Got(q.tcbs[child.v].pid, q.tcbs[child.v].exitStatus);
        ReapMeans(k, child.v);
        Reap(child.v);
        return false, w;
      }
      child := Traverse(ChildOf(cur.pid));
      if child.None? {
        LoneMeans(k);
        SetPc(cur.id, K.Out);
        return false, NoChild;
      }
      panic := Hang(T.Waiting, K.InWait);
      if !panic { SleepMeans(k, State().sys); }
    }

    /** `thread_exit` of the current thread. */
    method FinishThread() returns (panic: bool)
      requires Valid() && cur.id in q.tcbs && cur.id != idle.id && Unqueued(State(), idle.id) && Unqueued(State(), cur.id)
      requires cur.id in State().sys.all && Listing(State(), cur.id)
      modifies `cur, `tasks, `pc, pids.bits, q`tcbs, q`ids, q.heads, q.elems, blocks
      ensures var k := old(State()); Listing(k, k.sys.cur) && (panic <==> K.FinishThread(k).Panic?)
      ensures !panic ==> Valid() && State() == K.FinishThread(old(State())).s
    {
      hide Machine.Valid, Machine.State, Unqueued, K.Delist, T.Schedule;
      ReadCur();
      ghost var k := State();
      DelistKeeps(k, k.sys.cur);
      ThreadExit(cur.id);
      SameLocks(k, State(), idle.id);
      ReadCur();
      panic := Schedule();
    }

    // ---------------------------------------------------------------- whole runs

    /** Interrupts, yields and the idle loop. */
    method PerformSched(a: K.Action) returns (panic: bool)
      requires Valid() && Ready(State(), a) && (a.Timer? || a.YieldCpu? || a.Idle?)
      modifies `cur, `tasks, q`ids, q.heads, q.elems, blocks
      ensures panic <==> Stops(old(State()), a)
      ensures !panic ==> Valid() && Moves(old(State()), a, State())
    {
      hide Machine.Valid, Machine.State, Unqueued, Tidy, PidsIn, Listing, Stops, Moves, Ready, K.Inv, K.Enabled, T.Tick, T.Yield, T.Block;
      ghost var k := State();
      ReadCur();
      StepGives(k, a);
      TidyMeans(k);
      panic := false;
      match a
      case Timer => panic := TimerHandler();
      case YieldCpu => panic := ThreadYield();
      case Idle => panic := ThreadBlock(T.Blocked);
    }

    /** Calls of `lock_acquire` and `lock_release`. */
    method PerformLock(a: K.Action) returns (panic: bool)
      requires Valid() && Ready(State(), a) && (a.Acquire? || a.Release?)
      modifies `vals, `pc, slots
      ensures panic <==> Stops(old(State()), a)
      ensures !panic ==> Valid() && Moves(old(State()), a, State())
    {
      hide Machine.Valid, Machine.State, Unqueued, Tidy, PidsIn, Listing, Stops, Moves, Ready, K.Inv, K.Enabled, K.LockAcquire, K.LockRelease;
      ghost var k := State();
      ReadCur();
      StepGives(k, a);
      TidyMeans(k);
      panic := false;
      ReadLock(a.lock);
      match a
      case Acquire(l) => LockAcquire(l);
      case Release(l) => panic := LockRelease(l);
    }

    /** New tasks. */
    method PerformNew(a: K.Action) returns (panic: bool)
      requires Valid() && Ready(State(), a) && (a.Fork? || a.Start?)
      modifies `tasks, `blocks, `pc, pids.bits, q`tcbs, q`elems, q`ids, q.heads, q.elems
      ensures panic <==> Stops(old(State()), a)
      ensures !panic ==> Valid() && Moves(old(State()), a, State())
      ensures !panic ==> a.child in q.tcbs && Grown(a.child)
    {
      hide Machine.Valid, Machine.State, Unqueued, Tidy, PidsIn, Listing, Stops, Moves, Ready, K.Inv, K.Enabled, K.ForkTask, K.StartThread;
      ghost var k := State();
      ReadCur();
      StepGives(k, a);
      TidyMeans(k);
      panic := false;
      ReadTask(a.child);
      match a
      case Fork(c) =>
        var pid;
        panic, pid := SysFork(c);
      case Start(c, p) => panic := ThreadStart(c, p);
    }

    /** Ending, exiting and waiting. */
    method PerformEnd(a: K.Action) returns (panic: bool)
      requires Valid() && Ready(State(), a) && (a.Finish? || a.Exit? || a.Wait?)
      modifies `cur, `tasks, `pc, `log, pids.bits, q`tcbs, q`ids, q.heads, q.elems, blocks
      ensures panic <==> Stops(old(State()), a)
      ensures !panic ==> Valid() && Moves(old(State()), a, State())
    {
      hide Machine.Valid, Machine.State, Unqueued, Tidy, PidsIn, Listing, Stops, Moves, Ready, K.Inv, K.Enabled, K.FinishThread, K.ExitBegin, K.WaitPass;
      ghost var k := State();
      ReadCur();
      StepGives(k, a);
      TidyMeans(k);
      panic := false;
      match a
      case Finish => panic := FinishThread();
      case Exit(status) => panic := SysExitBegin(status);
      case Wait =>
        var w;
        panic, w := SysWait();
    }

    /** The next step of a call in progress. */
    method PerformResume(a: K.Action) returns (panic: bool)
      requires Valid() && Ready(State(), a) && a.Resume?
      modifies `cur, `tasks, `vals, `pc, `log, pids.bits, q`tcbs, q`ids, q.heads, q.elems, blocks, slots
      ensures panic <==> Stops(old(State()), a)
      ensures !panic ==> Valid() && Moves(old(State()), a, State())
    {
      hide Machine.Valid, Machine.State, Unqueued, Tidy, PidsIn, Listing, Stops, Moves, Ready, K.Inv, K.Enabled, K.WaitPass, K.ExitEnd, K.LockStep;
      ghost var k := State();
      ReadCur();
      StepGives(k, a);
      TidyMeans(k);
      panic := false;
      if pc[cur.id] == K.InWait {
        var w;
        panic, w := SysWait();
      } else if pc[cur.id] == K.Exiting {
        panic := SysExitEnd();
      } else {
        ReadLock(pc[cur.id].lock);
        panic := LockContinue();
      }
    }

    /** Any step of the kernel machine is one of these pieces of code.  In a state of a run the assertions of the code
        fail for the two fatal calls only, and afterwards the chains are well linked and apart again. */
    method Perform(a: K.Action) returns (panic: bool)
      requires Valid() && Ready(State(), a)
      modifies `cur, `tasks, `vals, `pc, `log, `blocks, pids.bits, q`tcbs, q`elems, q`ids, q.heads, q.elems, blocks, slots
      ensures panic <==> Stops(old(State()), a)
      ensures !panic ==> Valid() && Moves(old(State()), a, State()) && fresh(blocks - old(blocks)) && fresh(q.elems - old(q.elems))
    {
      hide Machine.Valid, Machine.State, Stops, Moves, Ready;
      if a.Timer? || a.YieldCpu? || a.Idle? {
        panic := PerformSched(a);
      } else if a.Acquire? || a.Release? {
        panic := PerformLock(a);
      } else if a.Fork? || a.Start? {
        panic := PerformNew(a);
      } else if a.Resume? {
        panic := PerformResume(a);
      } else {
        panic := PerformEnd(a);
      }
    }

    /** Every run of the step machine is executed by the code on linked blocks: no assertion fails, and the chains
        stand for the last state of the run. */
    method Execute(actions: seq<K.Action>, ghost states: seq<K.State>) returns (panic: bool)
      requires Valid() && R.Run(states, actions) && State() == states[0]
      modifies `cur, `tasks, `vals, `pc, `log, `blocks, pids.bits, q`tcbs, q`elems, q`ids, q.heads, q.elems, blocks, slots
      ensures !panic && Valid() && State() == states[|actions|]
    {
      hide Machine.Valid, Machine.State, Stops, Ready, K.Inv, R.Initial;
      var i := 0;
      panic := false;
      while i < |actions|
        invariant 0 <= i <= |actions| && !panic && Valid() && State() == states[i]
        invariant fresh(blocks - old(blocks)) && fresh(q.elems - old(q.elems))
      {
        RunStep(states, actions, i);
        panic := Perform(actions[i]);
        i := i + 1;
      }
    }
  }
}
