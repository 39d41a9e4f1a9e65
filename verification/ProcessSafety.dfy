/** The steps that create, end and reap tasks keep the invariant of the kernel machine. */
module ProcessSafety {
  import opened Basics
  import opened Lists
  import opened Bitmaps
  import opened Threads
  import opened Kernel
  import opened KernelSafety

  // ---------------------------------------------------------------- lists

  lemma {:induction false} WithoutRemoves(q: seq<Tid>, t: Tid)
    requires Distinct(q)
    ensures Distinct(Without(q, t)) && forall u :: u in Without(q, t) <==> u in q && u != t
  {
    if q != [] {
      TailKeepsDistinct(q);
      if q[0] != t {
        WithoutRemoves(q[1..], t);
        var w := Without(q[1..], t);
        InsertKeepsDistinct(w, 0, q[0]);
        assert w[..0] + [q[0]] + w[0..] == [q[0]] + w;
      }
    }
  }

  // ---------------------------------------------------------------- a new task

  lemma NewTaskLock(L: Lock, pc: map<Tid, Pc>, l: Lid, t: Tid)
    requires LockOk(L, pc, l) && t !in pc
    ensures LockOk(L, pc[t := Out], l)
  {
    var pc' := pc[t := Out];
    forall u ensures Owns(L, pc', l, u) == Owns(L, pc, l, u) && DueToRetry(L, pc', l, u) == DueToRetry(L, pc, l, u) { }
  }

  lemma EnlistPids(k: State, t: Tid, task: Task)
    requires PidsOk(k) && t !in k.sys.tasks && t !in k.pc && 1 <= task.pid <= |k.pids| && !k.pids[task.pid - 1]
    ensures PidsOk(Enlist(k, t, task))
  {
    var k' := Enlist(k, t, task);
    assert !PidUsed(k, task.pid);
    forall u | u in k.sys.tasks ensures k.sys.tasks[u].pid != task.pid { assert !HasPid(k, u, task.pid); }
    forall i | 0 <= i < |k.pids| ensures k'.pids[i] <==> PidUsed(k', i + 1) {
      assert k.pids[i] <==> PidUsed(k, i + 1);
      if PidUsed(k, i + 1) { var u :| HasPid(k, u, i + 1); assert HasPid(k', u, i + 1); }
      if PidUsed(k', i + 1) { var u :| HasPid(k', u, i + 1); assert u == t || HasPid(k, u, i + 1); }
      if i + 1 == task.pid { assert HasPid(k', t, i + 1); }
    }
  }

  lemma EnlistFamilies(k: State, t: Tid, task: Task)
    requires ParentsOk(k) && WaitersOk(k) && t !in k.sys.tasks && t !in k.pc && 1 <= task.pid <= |k.pids| && task.status == Ready
    requires task.parent != -1 ==> task.user && CanBeParent(k, k.sys.cur, task.parent)
    requires task.parent != task.pid
    ensures ParentsOk(Enlist(k, t, task)) && WaitersOk(Enlist(k, t, task))
  {
    var k' := Enlist(k, t, task);
    forall u | u in k'.sys.tasks ensures ParentOk(k', u) {
      if u == t {
        assert task.parent != -1 ==> CanBeParent(k', k.sys.cur, task.parent);
      } else {
        assert ParentOk(k, u);
        if k.sys.tasks[u].parent != -1 {
          var p :| CanBeParent(k, p, k.sys.tasks[u].parent);
          assert CanBeParent(k', p, k.sys.tasks[u].parent);
        }
      }
    }
    forall p | p in k'.sys.tasks && k'.sys.tasks[p].status == Waiting && p != k'.init
      ensures WaitOk(k'.sys, k'.sys.tasks[p].pid)
    {
      var pid := k.sys.tasks[p].pid;
      assert WaitOk(k.sys, pid);
      var c :| IsChild(k.sys, c, pid);
      assert IsChild(k'.sys, c, pid);
      forall c ensures !IsHangingChild(k'.sys, c, pid) { assert !IsHangingChild(k.sys, c, pid); }
    }
  }

  lemma EnlistSched(y: Sys, t: Tid, task: Task)
    requires SchedOk(y) && t !in y.tasks && task.status == Ready && task.ticks <= task.priority
    ensures SchedOk(y.(tasks := y.tasks[t := task], all := y.all + [t], ready := y.ready + [t]))
  {
    AppendKeepsDistinct(y.all, t);
    AppendKeepsDistinct(y.ready, t);
  }

  lemma EnlistPlaces(k: State, t: Tid, task: Task)
    requires Places(k) && t !in k.sys.tasks && k.sys.idle in k.sys.tasks && 1 <= task.pid <= |k.pids| && task.status == Ready
    ensures Places(Enlist(k, t, task))
  {
    var k' := Enlist(k, t, task);
    forall u | u in k'.pc
      ensures PlaceOk(k'.locks, u, k'.sys.tasks[u].status, k'.pc[u], u == k'.sys.idle)
    {
      assert u != t ==> PlaceOk(k.locks, u, k.sys.tasks[u].status, k.pc[u], u == k.sys.idle);
    }
  }

  lemma EnlistLocks(k: State, t: Tid)
    requires LocksOk(k.locks, k.pc) && t !in k.pc
    ensures LocksOk(k.locks, k.pc[t := Out])
  {
    forall l | l in k.locks ensures LockOk(k.locks[l], k.pc[t := Out], l) {
      NewTaskLock(k.locks[l], k.pc, l, t);
    }
  }

  lemma EnlistKeeps(k: State, t: Tid, task: Task)
    requires Inv(k) && t !in k.sys.tasks
    requires task.status == Ready && task.ticks <= task.priority && 1 <= task.pid <= |k.pids| && !k.pids[task.pid - 1]
    requires task.parent != -1 ==> task.user && CanBeParent(k, k.sys.cur, task.parent)
    ensures Inv(Enlist(k, t, task))
  {
    hide LocksOk, PidsOk, ParentsOk, WaitersOk, Queues;
    EnlistSched(k.sys, t, task);
    EnlistPlaces(k, t, task) by { IdleListed(k.sys); }
    EnlistLocks(k, t);
    EnlistPids(k, t, task);
    assert task.parent != task.pid by { FreshPid(k, task); }
    EnlistFamilies(k, t, task);
  }

  lemma FreshPid(k: State, task: Task)
    requires PidsOk(k) && 1 <= task.pid <= |k.pids| && !k.pids[task.pid - 1]
    requires task.parent != -1 ==> CanBeParent(k, k.sys.cur, task.parent)
    ensures task.parent != task.pid
  {
    assert !PidUsed(k, task.pid);
    assert !HasPid(k, k.sys.cur, task.pid);
  }

  lemma IdleListed(y: Sys)
    requires SchedOk(y)
    ensures y.idle in y.tasks
  {
  }

  // ---------------------------------------------------------------- a task that leaves

  lemma GoneLock(L: Lock, pc: map<Tid, Pc>, l: Lid, t: Tid)
    requires LockOk(L, pc, l) && t in pc && !Owns(L, pc, l, t) && PcLock(pc[t]) == None
    ensures LockOk(L, pc - {t}, l)
  {
    var pc' := pc - {t};
    forall u ensures Owns(L, pc', l, u) == Owns(L, pc, l, u) && DueToRetry(L, pc', l, u) == DueToRetry(L, pc, l, u) { }
  }

  lemma DelistPids(k: State, t: Tid)
    requires PidsOk(k) && t in k.sys.tasks && t != k.init && t != k.sys.idle
    ensures PidsOk(Delist(k, t))
  {
    var k' := Delist(k, t);
    var gone := k.sys.tasks[t].pid;
    forall i | 0 <= i < |k.pids| ensures k'.pids[i] <==> PidUsed(k', i + 1) {
      assert k.pids[i] <==> PidUsed(k, i + 1);
      if PidUsed(k, i + 1) && i + 1 != gone { var u :| HasPid(k, u, i + 1); assert HasPid(k', u, i + 1); }
      if PidUsed(k', i + 1) { var u :| HasPid(k', u, i + 1); assert HasPid(k, u, i + 1); }
    }
  }

  /** Whoever cannot be a parent may leave: no parent pid dangles. */
  lemma DelistFamilies(k: State, t: Tid)
    requires PidsOk(k) && ParentsOk(k) && WaitersOk(k) && t in k.sys.tasks && !CanBeParent(k, t, k.sys.tasks[t].pid)
    requires k.sys.cur in k.sys.tasks && k.sys.tasks[k.sys.cur].status == Running
    requires k.sys.tasks[t].parent == -1 || k.sys.tasks[t].parent == k.sys.tasks[k.sys.cur].pid
    ensures ParentsOk(Delist(k, t)) && WaitersOk(Delist(k, t))
  {
    var k' := Delist(k, t);
    forall u | u in k'.sys.tasks ensures ParentOk(k', u) {
      assert ParentOk(k, u);
      if k.sys.tasks[u].parent != -1 {
        var p :| CanBeParent(k, p, k.sys.tasks[u].parent);
        assert CanBeParent(k', p, k.sys.tasks[u].parent);
      }
    }
    forall p | p in k'.sys.tasks && k'.sys.tasks[p].status == Waiting && p != k'.init
      ensures WaitOk(k'.sys, k'.sys.tasks[p].pid)
    {
      var pid := k.sys.tasks[p].pid;
      assert WaitOk(k.sys, pid);
      var c :| IsChild(k.sys, c, pid);
      assert c != t;
      assert IsChild(k'.sys, c, pid);
      forall c ensures !IsHangingChild(k'.sys, c, pid) { assert !IsHangingChild(k.sys, c, pid); }
    }
  }

  lemma DelistPlaces(k: State, t: Tid)
    requires Places(k) && t in k.sys.tasks && 1 <= k.sys.tasks[t].pid <= |k.pids|
    ensures Places(Delist(k, t))
  {
    var k' := Delist(k, t);
    forall u | u in k'.pc
      ensures PlaceOk(k'.locks, u, k'.sys.tasks[u].status, k'.pc[u], u == k'.sys.idle)
    {
      assert PlaceOk(k.locks, u, k.sys.tasks[u].status, k.pc[u], u == k.sys.idle);
    }
  }

  lemma DelistLocks(k: State, t: Tid)
    requires LocksOk(k.locks, k.pc) && t in k.pc && PcLock(k.pc[t]) == None
    requires forall l :: l in k.locks ==> !Owns(k.locks[l], k.pc, l, t)
    ensures LocksOk(k.locks, k.pc - {t})
  {
    forall l | l in k.locks ensures LockOk(k.locks[l], k.pc - {t}, l) {
      GoneLock(k.locks[l], k.pc, l, t);
    }
  }

  lemma DelistQueues(y: Sys, t: Tid)
    requires SchedOk(y) && t in y.tasks && t != y.idle
    ensures var d := y.(tasks := y.tasks - {t}, all := Without(y.all, t), ready := Without(y.ready, t));
            Queues(d) && (t == y.cur ==> forall u :: u in d.tasks ==> d.tasks[u].status != Running) && (t != y.cur ==> SchedOk(d))
  {
    WithoutRemoves(y.all, t);
    WithoutRemoves(y.ready, t);
  }

  /** The running task can be a parent iff it is a process that has not begun to exit. */
  lemma Self(k: State)
    requires Inv(k)
    ensures k.sys.cur in k.sys.tasks && k.sys.cur in k.pc && k.sys.tasks[k.sys.cur].status == Running
    ensures k.sys.idle in k.sys.tasks && !k.sys.tasks[k.sys.idle].user
    ensures forall t :: t in k.sys.tasks ==> t in k.pc && 1 <= k.sys.tasks[t].pid <= |k.pids|
    ensures k.sys.tasks[k.init].pid == 1 && k.init in k.pc && k.pc[k.init] !in {Exiting, Zombie}
    ensures k.sys.tasks[k.init].user && k.sys.tasks[k.init].parent == -1
    ensures ParentOk(k, k.sys.cur)
  {
  }

  /** Forking and starting threads panic exactly when all pids are in use. */
  lemma ForkKeeps(k: State, c: Tid)
    requires Inv(k) && Enabled(k, Fork(c))
    ensures ForkTask(k, c).Panic? <==> forall i :: 0 <= i < |k.pids| ==> k.pids[i]
    ensures ForkTask(k, c).Go? ==> Inv(ForkTask(k, c).s)
  {
    hide Inv;
    Self(k);
    FitOne(k.pids);
    var me := k.sys.tasks[k.sys.cur];
    assert CanBeParent(k, k.sys.cur, me.pid);
    if FirstFit(k.pids, 1).Start? {
      EnlistKeeps(k, c, me.(pid := FirstFit(k.pids, 1).at + 1, status := Ready, ticks := me.priority, parent := me.pid));
    }
  }

  lemma StartKeeps(k: State, c: Tid, priority: nat)
    requires Inv(k) && c !in k.sys.tasks
    ensures StartThread(k, c, priority).Panic? <==> forall i :: 0 <= i < |k.pids| ==> k.pids[i]
    ensures StartThread(k, c, priority).Go? ==> Inv(StartThread(k, c, priority).s)
  {
    hide Inv;
    FitOne(k.pids);
    if FirstFit(k.pids, 1).Start? {
      EnlistKeeps(k, c, Task(Ready, priority, priority, FirstFit(k.pids, 1).at + 1, -1, 0, false));
    }
  }

  /** `thread_exit` of the running thread. */
  lemma FinishKeeps(k: State)
    requires Inv(k) && Enabled(k, Finish)
    ensures 1 <= k.sys.tasks[k.sys.cur].pid <= |k.pids| && FinishThread(k).Go? && Inv(FinishThread(k).s)
  {
    hide LocksOk, PidsOk, ParentsOk, WaitersOk, Queues;
    var me := k.sys.cur;
    Self(k);
    assert me != k.init;
    DelistQueues(k.sys, me);
    var d := Delist(k, me);
    SchedulePicks(d.sys);
    DelistPids(k, me);
    DelistFamilies(k, me) by { NotUser(k, me); }
    DelistPlaces(k, me);
    DelistLocks(k, me);
    var k' := FinishThread(k).s;
    assert k' == d.(sys := Schedule(d.sys).s);
    LifeFrame(d, k', k.sys.idle);
    ReschedPlaces(d, k'.sys);
  }

  lemma NotUser(k: State, t: Tid)
    requires ParentsOk(k) && t in k.sys.tasks && !k.sys.tasks[t].user
    ensures k.sys.tasks[t].parent == -1
  {
    assert ParentOk(k, t);
  }

  lemma ReschedPlaces(k: State, y: Sys)
    requires Places(k) && Resched(k.sys, y)
    ensures Places(k.(sys := y)) && SameBut(k.sys, y, k.sys.idle)
  {
    forall t | t in k.pc
      ensures PlaceOk(k.locks, t, y.tasks[t].status, k.pc[t], t == y.idle)
    {
      assert PlaceOk(k.locks, t, k.sys.tasks[t].status, k.pc[t], t == k.sys.idle);
    }
  }

  /** A task returns from `sys_wait`. */
  lemma ReturnKeeps(k: State, p: Pc, log: seq<Event>)
    requires Inv(k) && k.sys.cur in k.pc && k.pc[k.sys.cur] in {Out, InWait} && p in {Out, InWait}
    requires k.sys.cur != k.sys.idle
    ensures Inv(k.(pc := k.pc[k.sys.cur := p], log := log))
  {
    hide LocksOk, PidsOk, ParentsOk, WaitersOk, Queues;
    var me := k.sys.cur;
    var k' := k.(pc := k.pc[me := p], log := log);
    Self(k);
    NoLockPc(k, p);
    LifeFrame(k, k', k.sys.idle);
    forall t | t in k'.pc
      ensures PlaceOk(k'.locks, t, k'.sys.tasks[t].status, k'.pc[t], t == k'.sys.idle)
    {
      assert PlaceOk(k.locks, t, k.sys.tasks[t].status, k.pc[t], t == k.sys.idle);
    }
  }

  lemma NoLockPc(k: State, p: Pc)
    requires LocksOk(k.locks, k.pc) && k.sys.cur in k.pc && PcLock(k.pc[k.sys.cur]) == None && PcLock(p) == None
    requires p in {Exiting, Zombie} ==> forall l :: l in k.locks ==> k.locks[l].holder != Some(k.sys.cur)
    ensures LocksOk(k.locks, k.pc[k.sys.cur := p])
  {
    forall l | l in k.locks ensures LockOk(k.locks[l], k.pc[k.sys.cur := p], l) {
      OtherLock(k.locks[l], k.pc, l, k.sys.cur, p);
    }
  }

  // ---------------------------------------------------------------- wait

  /** A zombie owns nothing, is nobody's parent and is in no queue. */
  lemma ZombieFree(k: State, c: Tid)
    requires Inv(k) && c in k.sys.tasks && k.sys.tasks[c].status == Hanging
    ensures c in k.pc && k.pc[c] == Zombie && c != k.init && c != k.sys.idle && c != k.sys.cur
    ensures forall l :: l in k.locks ==> !Owns(k.locks[l], k.pc, l, c)
    ensures forall pid :: !CanBeParent(k, c, pid)
  {
    assert PlaceOk(k.locks, c, k.sys.tasks[c].status, k.pc[c], c == k.sys.idle);
    forall l | l in k.locks ensures !Owns(k.locks[l], k.pc, l, c) {
      assert LockOk(k.locks[l], k.pc, l);
      assert PhaseOk(k.locks[l], l, c, k.pc[c]);
    }
  }

  lemma ReapKeeps(k: State, c: Tid)
    requires Inv(k) && c in k.sys.tasks && k.sys.tasks[c].status == Hanging && k.sys.cur in k.sys.tasks
    requires k.sys.tasks[c].parent == k.sys.tasks[k.sys.cur].pid
    ensures 1 <= k.sys.tasks[c].pid <= |k.pids| && Inv(Delist(k, c))
  {
    hide LocksOk, PidsOk, ParentsOk, WaitersOk, Queues;
    ZombieFree(k, c);
    Self(k);
    DelistQueues(k.sys, c);
    DelistPids(k, c);
    DelistFamilies(k, c);
    DelistPlaces(k, c);
    DelistLocks(k, c);
  }

  lemma WaitSleeps(k: State)
    requires Inv(k) && k.sys.cur != k.sys.idle && k.sys.cur in k.sys.tasks && k.sys.cur in k.pc && k.pc[k.sys.cur] in {Out, InWait}
    requires WaitOk(k.sys, k.sys.tasks[k.sys.cur].pid)
    ensures Block(k.sys, Waiting).Go? && Inv(k.(sys := Block(k.sys, Waiting).s, pc := k.pc[k.sys.cur := InWait]))
  {
    hide LocksOk, PidsOk, ParentsOk, WaitersOk, Queues;
    var me := k.sys.cur;
    Self(k);
    BlockKeeps(k.sys, Waiting);
    var y := Block(k.sys, Waiting).s;
    var k' := k.(sys := y, pc := k.pc[me := InWait]);
    NoLockPc(k, InWait);
    PidsFrame(k, k');
    ParentsFrame(k, k');
    NewWaiter(k, k');
    ParkPlaces(k, y, Waiting, InWait);
  }

  /** The running task goes to sleep as WAITING inside `sys_wait`, or as HANGING for good. */
  lemma ParkPlaces(k: State, y: Sys, st: Status, p: Pc)
    requires Places(k) && k.sys.cur in k.sys.tasks && k.sys.tasks[k.sys.cur].status == Running && k.sys.cur != k.sys.idle
    requires (st == Waiting && p == InWait) || (st == Hanging && p == Zombie)
    requires Resched(SetStatus(k.sys, k.sys.cur, st), y)
    ensures Places(k.(sys := y, pc := k.pc[k.sys.cur := p]))
  {
    var k' := k.(sys := y, pc := k.pc[k.sys.cur := p]);
    forall t | t in k'.pc
      ensures PlaceOk(k'.locks, t, k'.sys.tasks[t].status, k'.pc[t], t == k'.sys.idle)
    {
      assert PlaceOk(k.locks, t, k.sys.tasks[t].status, k.pc[t], t == k.sys.idle);
    }
  }

  lemma NewWaiter(k: State, k': State)
    requires WaitersOk(k) && k.sys.cur in k.sys.tasks && WaitOk(k.sys, k.sys.tasks[k.sys.cur].pid)
    requires Resched(SetStatus(k.sys, k.sys.cur, Waiting), k'.sys) && k'.init == k.init
    ensures WaitersOk(k')
  {
    forall p | p in k'.sys.tasks && k'.sys.tasks[p].status == Waiting && p != k'.init
      ensures WaitOk(k'.sys, k'.sys.tasks[p].pid)
    {
      var pid := k.sys.tasks[p].pid;
      assert WaitOk(k.sys, pid);
      var c :| IsChild(k.sys, c, pid);
      assert IsChild(k'.sys, c, pid);
      forall c ensures !IsHangingChild(k'.sys, c, pid) { assert !IsHangingChild(k.sys, c, pid); }
    }
  }

  /** `sys_wait` reaps a zombie child, or fails for want of children, or sleeps with a live child and no zombie. */
  lemma WaitKeeps(k: State)
    requires Inv(k) && k.sys.cur != k.sys.idle && k.sys.cur in k.pc && k.pc[k.sys.cur] in {Out, InWait}
    ensures k.sys.cur in k.sys.tasks && (forall t :: t in k.sys.tasks ==> 1 <= k.sys.tasks[t].pid <= |k.pids|)
    ensures WaitPass(k).Go? && Inv(WaitPass(k).s)
  {
    hide Inv;
    Self(k);
    var me := k.sys.cur;
    var pid := k.sys.tasks[me].pid;
    match FirstIn(k.sys.all, (t: Tid) => IsHangingChild(k.sys, t, pid))
    case Some(c) =>
      ReapKeeps(k, c);
      var d := Delist(k, c);
      ZombieFree(k, c);
      ReturnKeeps(d, Out, k.log + [Reaped(c, me, k.sys.tasks[c].exitStatus)]);
    case None =>
      match FirstIn(k.sys.all, (t: Tid) => IsChild(k.sys, t, pid)) {
        case None =>
          ReturnKeeps(k, Out, k.log);
        case Some(c) =>
          AllListed(k);
          assert IsChild(k.sys, c, pid);
          assert WaitOk(k.sys, pid);
          WaitSleeps(k);
      }
  }

  lemma AllListed(k: State)
    requires Inv(k)
    ensures forall t :: t in k.sys.all <==> t in k.sys.tasks
  {
  }

  // ---------------------------------------------------------------- exit

  /** Adoption: the children of an exiting process become children of init, nobody else changes. */
  lemma AdoptFamilies(k: State, k': State)
    requires Inv(k) && k.sys.cur in k.sys.tasks && k.sys.cur in k.pc && k.pc[k.sys.cur] == Out && k.sys.tasks[k.sys.cur].parent != -1
    requires k'.init == k.init && k'.sys.tasks.Keys == k.sys.tasks.Keys && k'.pc == k.pc[k.sys.cur := Exiting]
    requires var pid := k.sys.tasks[k.sys.cur].pid;
             forall t :: t in k.sys.tasks ==>
               && k'.sys.tasks[t].pid == k.sys.tasks[t].pid && k'.sys.tasks[t].user == k.sys.tasks[t].user
               && k'.sys.tasks[t].status == k.sys.tasks[t].status
               && k'.sys.tasks[t].parent == if k.sys.tasks[t].parent == pid then 1 else k.sys.tasks[t].parent
    ensures ParentsOk(k') && WaitersOk(k')
  {
    var me := k.sys.cur;
    assert me != k.init;
    assert CanBeParent(k', k.init, 1);
    forall t | t in k'.sys.tasks ensures ParentOk(k', t) {
      assert ParentOk(k, t);
      if k.sys.tasks[t].parent != -1 {
        var p :| CanBeParent(k, p, k.sys.tasks[t].parent);
        assert p == me || CanBeParent(k', p, k.sys.tasks[t].parent);
      }
    }
    forall p | p in k'.sys.tasks && k'.sys.tasks[p].status == Waiting && p != k'.init
      ensures WaitOk(k'.sys, k'.sys.tasks[p].pid)
    {
      var pid := k.sys.tasks[p].pid;
      assert WaitOk(k.sys, pid);
      assert pid != 1 && pid != k.sys.tasks[me].pid;
      var c :| IsChild(k.sys, c, pid);
      assert IsChild(k'.sys, c, pid);
      forall c ensures !IsHangingChild(k'.sys, c, pid) { assert !IsHangingChild(k.sys, c, pid); }
    }
  }

  lemma ExitBeginKeeps(k: State, status: int)
    requires Inv(k) && Enabled(k, Exit(status))
    ensures ExitBegin(k, status).Panic? <==> k.sys.tasks[k.sys.cur].parent == -1
    ensures ExitBegin(k, status).Go? ==> Inv(ExitBegin(k, status).s)
  {
    hide LocksOk, PidsOk, ParentsOk, WaitersOk;
    Self(k);
    var me := k.sys.cur;
    if k.sys.tasks[me].parent != -1 {
      var k' := ExitBegin(k, status).s;
      AdoptFamilies(k, k');
      PidsFrame(k, k');
      NoLockPc(k, Exiting) by {
        forall l | l in k.locks ensures k.locks[l].holder != Some(me) {
          assert !Owns(k.locks[l], k.pc, l, me);
        }
      }
      ExitingPlaces(k, k');
    }
  }

  lemma ExitingPlaces(k: State, k': State)
    requires Places(k) && k.sys.cur in k.pc && k.pc[k.sys.cur] == Out && k.sys.cur != k.sys.idle
    requires k.sys.tasks[k.sys.cur].status == Running
    requires k'.locks == k.locks && k'.sys.tasks.Keys == k.sys.tasks.Keys && k'.sys.idle == k.sys.idle && k'.pc == k.pc[k.sys.cur := Exiting]
    requires forall t :: t in k.sys.tasks ==> k'.sys.tasks[t].status == k.sys.tasks[t].status
    ensures Places(k')
  {
    forall t | t in k'.pc
      ensures PlaceOk(k'.locks, t, k'.sys.tasks[t].status, k'.pc[t], t == k'.sys.idle)
    {
      assert PlaceOk(k.locks, t, k.sys.tasks[t].status, k.pc[t], t == k.sys.idle);
    }
  }

  /** `pid2thread` finds the parent of an exiting process, and it is not the process itself. */
  lemma ParentFound(k: State) returns (p: Tid)
    requires Inv(k) && k.sys.cur in k.pc && k.pc[k.sys.cur] == Exiting
    ensures k.sys.cur in k.sys.tasks
    ensures FirstIn(k.sys.all, (t: Tid) => t in k.sys.tasks && k.sys.tasks[t].pid == k.sys.tasks[k.sys.cur].parent) == Some(p)
    ensures CanBeParent(k, p, k.sys.tasks[k.sys.cur].parent) && p != k.sys.cur
  {
    var me := k.sys.cur;
    assert ParentOk(k, me);
    var q :| CanBeParent(k, q, k.sys.tasks[me].parent);
    assert q in k.sys.all;
    var f := (t: Tid) => t in k.sys.tasks && k.sys.tasks[t].pid == k.sys.tasks[me].parent;
    assert f(q);
    p := FirstIn(k.sys.all, f).v;
    assert p == q;
  }

  /** Once its parent is awake, an exiting process may hang: nobody sleeps on a zombie. */
  lemma HangKeeps(k: State)
    requires Inv(k) && k.sys.cur in k.pc && k.sys.cur in k.sys.tasks && k.pc[k.sys.cur] == Exiting && k.sys.cur != k.sys.idle
    requires forall p :: CanBeParent(k, p, k.sys.tasks[k.sys.cur].parent) ==> k.sys.tasks[p].status != Waiting
    ensures Block(k.sys, Hanging).Go? && Inv(k.(sys := Block(k.sys, Hanging).s, pc := k.pc[k.sys.cur := Zombie]))
  {
    hide LocksOk, PidsOk, ParentsOk, WaitersOk, Queues;
    var me := k.sys.cur;
    Self(k);
    BlockKeeps(k.sys, Hanging);
    var y := Block(k.sys, Hanging).s;
    var k' := k.(sys := y, pc := k.pc[me := Zombie]);
    NoLockPc(k, Zombie) by { ExitingOwnsNothing(k); }
    PidsFrame(k, k') by { assert me != k.init; }
    ParentsFrame(k, k');
    NewZombie(k, k');
    ParkPlaces(k, y, Hanging, Zombie);
  }

  lemma ExitingOwnsNothing(k: State)
    requires LocksOk(k.locks, k.pc) && k.sys.cur in k.pc && k.pc[k.sys.cur] == Exiting
    ensures forall l :: l in k.locks ==> k.locks[l].holder != Some(k.sys.cur)
  {
    forall l | l in k.locks ensures k.locks[l].holder != Some(k.sys.cur) {
      assert LockOk(k.locks[l], k.pc, l);
      assert PhaseOk(k.locks[l], l, k.sys.cur, k.pc[k.sys.cur]);
    }
  }

  lemma NewZombie(k: State, k': State)
    requires PidsOk(k) && ParentsOk(k) && WaitersOk(k) && k.sys.cur in k.sys.tasks && k'.init == k.init
    requires Places(k)
    requires forall p :: CanBeParent(k, p, k.sys.tasks[k.sys.cur].parent) ==> k.sys.tasks[p].status != Waiting
    requires Resched(SetStatus(k.sys, k.sys.cur, Hanging), k'.sys)
    ensures WaitersOk(k')
  {
    var me := k.sys.cur;
    forall p | p in k'.sys.tasks && k'.sys.tasks[p].status == Waiting && p != k'.init
      ensures WaitOk(k'.sys, k'.sys.tasks[p].pid)
    {
      var pid := k.sys.tasks[p].pid;
      assert WaitOk(k.sys, pid);
      var c :| IsChild(k.sys, c, pid);
      assert IsChild(k'.sys, c, pid);
      assert ParentOk(k, me);
      assert k.sys.tasks[me].parent != pid;
      forall c ensures !IsHangingChild(k'.sys, c, pid) { assert !IsHangingChild(k.sys, c, pid); }
    }
  }

  lemma ExitEndKeeps(k: State)
    requires Inv(k) && k.sys.cur in k.pc && k.pc[k.sys.cur] == Exiting && k.sys.cur != k.sys.idle
    ensures k.sys.cur in k.sys.tasks && ExitEnd(k).Go? && Inv(ExitEnd(k).s)
  {
    hide Inv;
    var me := k.sys.cur;
    var p := ParentFound(k);
    Self(k);
    var k1 := k;
    if k.sys.tasks[p].status == Waiting {
      WakeParent(k, p);
      k1 := k.(sys := Unblock(k.sys, p).s);
    }
    assert k1.sys.cur == me && k1.sys.tasks[me] == k.sys.tasks[me];
    forall q | CanBeParent(k1, q, k1.sys.tasks[me].parent) ensures k1.sys.tasks[q].status != Waiting {
      SamePid(k, p, q);
    }
    HangKeeps(k1);
  }

  lemma SamePid(k: State, p: Tid, q: Tid)
    requires Inv(k) && p in k.sys.tasks && q in k.sys.tasks && k.sys.tasks[p].pid == k.sys.tasks[q].pid
    ensures p == q
  {
  }

  lemma WakeParent(k: State, p: Tid)
    requires Inv(k) && p in k.sys.tasks && k.sys.tasks[p].status == Waiting
    ensures Unblock(k.sys, p).Go? && Inv(k.(sys := Unblock(k.sys, p).s))
    ensures var y := Unblock(k.sys, p).s;
            y.cur == k.sys.cur && y.idle == k.sys.idle && y.tasks == k.sys.tasks[p := k.sys.tasks[p].(status := Ready)]
  {
    hide LocksOk, PidsOk, ParentsOk, WaitersOk, Queues;
    UnblockKeeps(k.sys, p);
    var k' := k.(sys := Unblock(k.sys, p).s);
    assert p != k.sys.idle by { assert PlaceOk(k.locks, p, k.sys.tasks[p].status, k.pc[p], p == k.sys.idle); }
    LifeFrame(k, k', p);
    forall t | t in k'.pc
      ensures PlaceOk(k'.locks, t, k'.sys.tasks[t].status, k'.pc[t], t == k'.sys.idle)
    {
      assert PlaceOk(k.locks, t, k.sys.tasks[t].status, k.pc[t], t == k.sys.idle);
    }
  }
}
