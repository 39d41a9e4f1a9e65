/** What holds in every run of the kernel machine. */
module KernelRuns {
  import opened Basics
  import opened Lists
  import opened Bitmaps
  import opened Threads
  import opened Kernel
  import opened KernelSafety
  import opened ProcessSafety

  /** The calls that stop the kernel: a new task when every pid is taken, and the exit of a process without parent. */
  ghost predicate Fatal(k: State, a: Action)
    requires k.sys.cur in k.sys.tasks
  {
    || ((a.Fork? || a.Start?) && forall i :: 0 <= i < |k.pids| ==> k.pids[i])
    || (a.Exit? && k.sys.tasks[k.sys.cur].parent == -1)
  }

  /** Every enabled step keeps the invariant, and none trips an assertion except the two fatal calls. */
  lemma StepKeeps(k: State, a: Action)
    requires Inv(k) && Enabled(k, a)
    ensures Step(k, a).Panic? <==> Fatal(k, a)
    ensures Step(k, a).Go? ==> Inv(Step(k, a).s)
  {
    hide Inv;
    Self(k);
    match a
    case Timer => TimerKeeps(k);
    case YieldCpu => YieldCpuKeeps(k);
    case Idle => IdleKeeps(k);
    case Acquire(l) => AcquireStep(k, l);
    case Release(l) => ReleaseStep(k, l);
    case Fork(c) => ForkKeeps(k, c);
    case Start(c, p) => StartKeeps(k, c, p);
    case Finish => FinishKeeps(k);
    case Exit(status) => ExitBeginKeeps(k, status);
    case Wait => WaitKeeps(k);
    case Resume => ResumeKeeps(k);
  }

  lemma ResumeKeeps(k: State)
    requires Inv(k) && Enabled(k, Resume)
    ensures Step(k, Resume).Go? && Inv(Step(k, Resume).s)
  {
    hide Inv, WaitPass, ExitEnd, LockStep;
    var pc := k.pc[k.sys.cur];
    if pc == InWait { WaitKeeps(k); }
    else if pc == Exiting { ExitEndKeeps(k); }
    else {
      PcHasLock(k);
      LockStepKeeps(k, pc.lock);
    }
  }

  lemma PcHasLock(k: State)
    requires Inv(k) && k.sys.cur in k.pc && k.pc[k.sys.cur] !in {Out, Zombie, InWait, Exiting}
    ensures PcLock(k.pc[k.sys.cur]) == Some(k.pc[k.sys.cur].lock) && k.pc[k.sys.cur].lock in k.locks
  {
    hide LocksOk, PidsOk, ParentsOk, WaitersOk, Queues;
    var me := k.sys.cur;
    assert PlaceOk(k.locks, me, k.sys.tasks[me].status, k.pc[me], me == k.sys.idle);
  }

  lemma TimerKeeps(k: State)
    requires Inv(k) && Enabled(k, Timer)
    ensures Step(k, Timer).Go? && Inv(Step(k, Timer).s)
  {
    hide LocksOk, PidsOk, ParentsOk, WaitersOk, Places;
    TickKeeps(k.sys);
    if k.sys.tasks[k.sys.cur].ticks == 0 { ExpireKeeps(k.sys); }
    SchedStepKeeps(k, Tick(k.sys).s);
  }

  lemma YieldCpuKeeps(k: State)
    requires Inv(k) && Enabled(k, YieldCpu)
    ensures Step(k, YieldCpu).Go? && Inv(Step(k, YieldCpu).s)
  {
    hide LocksOk, PidsOk, ParentsOk, WaitersOk, Places;
    YieldKeeps(k.sys);
    SchedStepKeeps(k, Yield(k.sys).s);
  }

  lemma IdleKeeps(k: State)
    requires Inv(k) && Enabled(k, Idle)
    ensures Step(k, Idle).Go? && Inv(Step(k, Idle).s)
  {
    hide LocksOk, PidsOk, ParentsOk, WaitersOk, Places;
    BlockKeeps(k.sys, Blocked);
    SchedStepKeeps(k, Block(k.sys, Blocked).s);
  }

  // ---------------------------------------------------------------- runs

  /** `thread_init`: the first process, the thread that has been running since boot, and idle. */
  ghost predicate Initial(k: State) {
    exists init, main, idle, prio: nat, locks: set<Lid> :: init != main && init != idle && main != idle &&
      k == Boot(init, main, idle, prio, locks)
  }

  ghost function Boot(init: Tid, main: Tid, idle: Tid, prio: nat, locks: set<Lid>): (k: State) {
    State(Sys(map[init := Task(Ready, prio, prio, 1, -1, 0, true),
                  main := Task(Running, 31, 31, 2, -1, 0, false),
                  idle := Task(Ready, 10, 10, 3, -1, 0, false)],
              [init, main, idle], [init, idle], main, idle),
          map l | l in locks :: Lock(1, [], None, 0),
          map[init := Out, main := Out, idle := Out],
          [true, true, true] + seq(1021, _ => false),
          init, [])
  }

  lemma BootSched(init: Tid, main: Tid, idle: Tid, prio: nat, locks: set<Lid>)
    requires init != main && init != idle && main != idle
    ensures SchedOk(Boot(init, main, idle, prio, locks).sys)
  {
    var y := Boot(init, main, idle, prio, locks).sys;
    assert forall t :: t in y.tasks <==> t == init || t == main || t == idle;
    assert forall t :: t in y.all <==> t == init || t == main || t == idle;
    assert forall t :: t in y.ready <==> t == init || t == idle;
  }

  lemma BootPlaces(init: Tid, main: Tid, idle: Tid, prio: nat, locks: set<Lid>)
    requires init != main && init != idle && main != idle
    ensures var k := Boot(init, main, idle, prio, locks); Places(k) && LocksOk(k.locks, k.pc)
  {
    var k := Boot(init, main, idle, prio, locks);
    assert forall t :: t in k.pc ==> k.pc[t] == Out;
  }

  lemma BootPids(init: Tid, main: Tid, idle: Tid, prio: nat, locks: set<Lid>)
    requires init != main && init != idle && main != idle
    ensures PidsOk(Boot(init, main, idle, prio, locks))
  {
    var k := Boot(init, main, idle, prio, locks);
    assert HasPid(k, init, 1) && HasPid(k, main, 2) && HasPid(k, idle, 3);
  }

  lemma BootKeeps(init: Tid, main: Tid, idle: Tid, prio: nat, locks: set<Lid>)
    requires init != main && init != idle && main != idle
    ensures Inv(Boot(init, main, idle, prio, locks))
  {
    hide SchedOk, Places, LocksOk, PidsOk;
    BootSched(init, main, idle, prio, locks);
    BootPlaces(init, main, idle, prio, locks);
    BootPids(init, main, idle, prio, locks);
  }

  /** A run: from a booted kernel, each state is reached from the one before by an enabled step. */
  ghost predicate Run(states: seq<State>, actions: seq<Action>) {
    && |states| == |actions| + 1 && Initial(states[0])
    && forall i :: 0 <= i < |actions| ==> Leads(states[i], actions[i], states[i + 1])
  }

  ghost predicate Leads(k: State, a: Action, k': State) {
    Enabled(k, a) && Step(k, a) == Go(k')
  }

  /** The invariant holds in every state of every run. */
  lemma {:induction false} RunKeeps(states: seq<State>, actions: seq<Action>, i: nat)
    requires Run(states, actions) && i < |states|
    ensures Inv(states[i])
  {
    if i == 0 {
      var init, main, idle, prio: nat, locks: set<Lid> :| init != main && init != idle && main != idle &&
        states[0] == Boot(init, main, idle, prio, locks);
      BootKeeps(init, main, idle, prio, locks);
    } else {
      RunKeeps(states, actions, i - 1);
      assert Leads(states[i - 1], actions[i - 1], states[i]);
      StepKeeps(states[i - 1], actions[i - 1]);
    }
  }

  // ---------------------------------------------------------------- what this means

  /** Scheduler: one task runs, the ready queue is exactly the ready tasks, nobody is in two queues,
      and idle is in no lock's queue. */
  lemma QueuesInRuns(states: seq<State>, actions: seq<Action>, i: nat)
    requires Run(states, actions) && i < |states|
    ensures var k := states[i];
            && (forall t :: t in k.sys.tasks ==> (k.sys.tasks[t].status == Running <==> t == k.sys.cur))
            && Distinct(k.sys.ready) && (forall t :: t in k.sys.ready <==> t in k.sys.tasks && k.sys.tasks[t].status == Ready)
            && (forall l, t :: Queued(k.locks, l, t) ==> t !in k.sys.ready && t != k.sys.idle)
            && (forall l, m, t :: Queued(k.locks, l, t) && Queued(k.locks, m, t) ==> l == m)
  {
    RunKeeps(states, actions, i);
    var k := states[i];
    forall l, t | Queued(k.locks, l, t)
      ensures t in k.pc && k.pc[t] == Sleep(l) && k.sys.tasks[t].status == Blocked && t != k.sys.idle
    {
      assert LockOk(k.locks[l], k.pc, l);
      assert PlaceOk(k.locks, t, k.sys.tasks[t].status, k.pc[t], t == k.sys.idle);
    }
  }

  /** Locks: at most one owner, a semaphore that is 1 exactly when there is none, and a free lock with
      waiters always has a woken task that is ready to retry. */
  lemma LocksInRuns(states: seq<State>, actions: seq<Action>, i: nat, l: Lid)
    requires Run(states, actions) && i < |states| && l in states[i].locks
    ensures var k := states[i];
            var L := k.locks[l];
            && (forall t, u :: Owns(L, k.pc, l, t) && Owns(L, k.pc, l, u) ==> t == u)
            && L.value <= 1 && (L.value == 1 <==> forall t :: !Owns(L, k.pc, l, t))
            && (L.value == 1 && L.waiters != [] ==>
                 exists t :: DueToRetry(L, k.pc, l, t) && t in k.sys.tasks && k.sys.tasks[t].status in {Ready, Running})
  {
    RunKeeps(states, actions, i);
    var k := states[i];
    var L := k.locks[l];
    assert LockOk(L, k.pc, l);
    if L.value == 1 && L.waiters != [] {
      var t :| DueToRetry(L, k.pc, l, t);
      assert PlaceOk(k.locks, t, k.sys.tasks[t].status, k.pc[t], t == k.sys.idle);
    }
  }

  /** Processes: pids are distinct, a parent pid is -1 or names a listed task that is not a zombie, and a
      process other than init sleeps in wait only while it has a child and no zombie child. */
  lemma ProcessesInRuns(states: seq<State>, actions: seq<Action>, i: nat)
    requires Run(states, actions) && i < |states|
    ensures var k := states[i];
            && (forall t, u :: t in k.sys.tasks && u in k.sys.tasks && k.sys.tasks[t].pid == k.sys.tasks[u].pid ==> t == u)
            && (forall t :: t in k.sys.tasks && k.sys.tasks[t].parent != -1 ==>
                 exists p :: HasPid(k, p, k.sys.tasks[t].parent) && k.sys.tasks[p].status != Hanging)
            && (forall p :: p in k.sys.tasks && k.sys.tasks[p].status == Waiting && p != k.init ==>
                 && (exists c :: IsChild(k.sys, c, k.sys.tasks[p].pid))
                 && (forall c :: !IsHangingChild(k.sys, c, k.sys.tasks[p].pid)))
  {
    RunKeeps(states, actions, i);
    var k := states[i];
    forall t | t in k.sys.tasks && k.sys.tasks[t].parent != -1
      ensures exists p :: HasPid(k, p, k.sys.tasks[t].parent) && k.sys.tasks[p].status != Hanging
    {
      assert ParentOk(k, t);
      var p :| CanBeParent(k, p, k.sys.tasks[t].parent);
      assert PlaceOk(k.locks, p, k.sys.tasks[p].status, k.pc[p], p == k.sys.idle);
      assert HasPid(k, p, k.sys.tasks[t].parent);
    }
    forall p | p in k.sys.tasks && k.sys.tasks[p].status == Waiting && p != k.init
      ensures exists c :: IsChild(k.sys, c, k.sys.tasks[p].pid)
      ensures forall c :: !IsHangingChild(k.sys, c, k.sys.tasks[p].pid)
    {
      assert WaitOk(k.sys, k.sys.tasks[p].pid);
    }
  }
}
