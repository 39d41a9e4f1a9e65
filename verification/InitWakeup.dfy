/** Does a sleeping init always learn of a zombie child?  Not always: adoption does not wake it.  This module gives the
    exact steps after which nobody will tell it, for all interleavings; `InitRun` gives a run that takes one. */
module InitWakeup {
  import opened Basics
  import opened Lists
  import opened Bitmaps
  import opened Threads
  import opened Kernel
  import opened KernelSafety
  import opened ProcessSafety
  import opened KernelRuns

  /** A child of init on its way out; the end of its exit will wake init. */
  ghost predicate Telling(k: State, x: Tid) {
    x in k.sys.tasks && x in k.pc && k.pc[x] == Exiting && k.sys.tasks[x].parent == 1
  }

  ghost predicate SomeoneTells(k: State) { exists x :: Telling(k, x) }

  ghost predicate NoZombie(y: Sys, pid: int) { forall c :: !IsHangingChild(y, c, pid) }

  ghost predicate InitSleeps(k: State) { k.init in k.sys.tasks && k.sys.tasks[k.init].status == Waiting }

  /** Init does not sleep over a zombie child, unless somebody is about to wake it. */
  ghost predicate InitHears(k: State) { InitSleeps(k) ==> NoZombie(k.sys, 1) || SomeoneTells(k) }

  /** Whoever is on the way out stays so, with the same parent. */
  ghost predicate Exiters(k: State, k': State) {
    forall x :: x in k.sys.tasks && x in k.pc && k.pc[x] == Exiting ==>
      x in k'.sys.tasks && x in k'.pc && k'.pc[x] == Exiting && k'.sys.tasks[x].parent == k.sys.tasks[x].parent
  }

  /** Tasks stay, with their parents. */
  ghost predicate Kin(s: Sys, s': Sys) {
    forall t :: t in s.tasks ==> t in s'.tasks && s'.tasks[t].parent == s.tasks[t].parent
  }

  /** Nobody but `x` began to wait or hang, and parents are the same. */
  ghost predicate Calm(s: Sys, s': Sys, x: Tid) {
    forall t :: t in s'.tasks && t != x && s'.tasks[t].status in {Waiting, Hanging} ==>
      t in s.tasks && s.tasks[t].status == s'.tasks[t].status && s.tasks[t].parent == s'.tasks[t].parent
  }

  lemma ScheduleCalm(s: Sys, x: Tid)
    ensures Schedule(s).Go? ==> Calm(s, Schedule(s).s, x) && Kin(s, Schedule(s).s)
  {
  }

  lemma SchedCalm(s: Sys, st: Status)
    requires s.cur in s.tasks
    ensures Tick(s).Go? ==> Calm(s, Tick(s).s, s.idle) && Kin(s, Tick(s).s)
    ensures Yield(s).Go? ==> Calm(s, Yield(s).s, s.idle) && Kin(s, Yield(s).s)
    ensures Block(s, st).Go? ==> Calm(s, Block(s, st).s, s.cur) && Kin(s, Block(s, st).s)
  {
    ScheduleCalm(s, s.idle);
    ScheduleCalm(SetStatus(s, s.cur, st), s.cur);
    ScheduleCalm(SetStatus(s, s.cur, Ready).(ready := s.ready + [s.cur]), s.idle);
  }

  lemma CalmHears(k: State, k': State, x: Tid)
    requires InitHears(k) && k'.init == k.init && Calm(k.sys, k'.sys, x) && x != k.init && Exiters(k, k')
    requires x in k'.sys.tasks ==> !IsHangingChild(k'.sys, x, 1)
    ensures InitHears(k')
  {
    if InitSleeps(k') {
      if NoZombie(k.sys, 1) {
        forall c ensures !IsHangingChild(k'.sys, c, 1) { assert !IsHangingChild(k.sys, c, 1); }
      } else {
        var t :| Telling(k, t);
        assert Telling(k', t);
      }
    }
  }

  lemma IdleAwake(k: State)
    requires Inv(k)
    ensures k.sys.idle in k.sys.tasks && k.sys.idle != k.init && k.sys.tasks[k.sys.idle].status !in {Waiting, Hanging}
    ensures k.sys.cur in k.sys.tasks && k.sys.tasks[k.sys.cur].status == Running
  {
  }

  lemma LockStepCalm(k: State, pc: Pc)
    requires k.sys.cur in k.sys.tasks && PcLock(pc).Some? && pc.lock in k.locks && LockStep(k, pc).Go?
    requires k.sys.cur in k.pc && k.pc[k.sys.cur] == pc
    ensures var k' := LockStep(k, pc).s; Calm(k.sys, k'.sys, k.sys.idle) && k'.init == k.init && Exiters(k, k')
  {
    hide Schedule, Unblock;
    if k.locks[pc.lock].value == 0 {
      if pc.Down? || pc.Sleep? {
        ScheduleCalm(SetStatus(k.sys, k.sys.cur, Blocked), k.sys.idle);
      } else if pc.Up? && k.locks[pc.lock].waiters != [] {
        UnblockCalm(k.sys, k.locks[pc.lock].waiters[0]);
      }
    }
  }

  lemma UnblockCalm(s: Sys, t: Tid)
    requires t in s.tasks
    ensures Unblock(s, t).Go? ==> Calm(s, Unblock(s, t).s, s.idle) && Kin(s, Unblock(s, t).s)
  {
  }

  /** Steps of the scheduler and of locks change neither. */
  lemma PlainCalm(k: State, a: Action)
    requires Enabled(k, a) && Step(k, a).Go?
    requires a.Timer? || a.YieldCpu? || a.Idle? || a.Acquire? || a.Release? || (a.Resume? && PcLock(k.pc[k.sys.cur]).Some?)
    ensures var k' := Step(k, a).s; Calm(k.sys, k'.sys, k.sys.idle) && k'.init == k.init && Exiters(k, k')
  {
    hide Schedule;
    if a.Resume? { LockStepCalm(k, k.pc[k.sys.cur]); }
    else {
      SchedCalm(k.sys, Blocked);
    }
  }

  lemma FamilyCalm(k: State, a: Action)
    requires Enabled(k, a) && Step(k, a).Go? && (a.Fork? || a.Start? || a.Finish?)
    ensures var k' := Step(k, a).s; Calm(k.sys, k'.sys, k.sys.idle) && k'.init == k.init && Exiters(k, k')
  {
    if a.Finish? { ScheduleCalm(Delist(k, k.sys.cur).sys, k.sys.idle); }
  }

  /** Waiting: init goes to sleep only when it has no zombie child. */
  lemma SleepHears(k: State)
    requires Inv(k) && InitHears(k) && k.sys.cur in k.sys.tasks && k.sys.cur != k.sys.idle
    requires k.sys.cur in k.pc && k.pc[k.sys.cur] != Exiting
    requires NoZombie(k.sys, k.sys.tasks[k.sys.cur].pid)
    ensures Block(k.sys, Waiting).Go? && InitHears(k.(sys := Block(k.sys, Waiting).s, pc := k.pc[k.sys.cur := InWait]))
  {
    hide LocksOk, PidsOk, ParentsOk, WaitersOk, Queues, Places, Schedule;
    BlockKeeps(k.sys, Waiting);
    Self(k);
    SchedCalm(k.sys, Waiting);
    var k' := k.(sys := Block(k.sys, Waiting).s, pc := k.pc[k.sys.cur := InWait]);
    if k.sys.cur == k.init {
      forall c ensures !IsHangingChild(k'.sys, c, 1) { assert !IsHangingChild(k.sys, c, 1); }
    } else {
      assert !IsHangingChild(k'.sys, k.sys.cur, 1);
      CalmHears(k, k', k.sys.cur);
    }
  }

  lemma WaitHears(k: State)
    requires Inv(k) && InitHears(k) && Formed(k) && WaitPass(k).Go? && k.sys.cur != k.sys.idle && k.pc[k.sys.cur] in {Out, InWait}
    ensures InitHears(WaitPass(k).s)
  {
    hide Inv, Schedule, InitHears;
    AllListed(k);
    IdleAwake(k);
    var pid := k.sys.tasks[k.sys.cur].pid;
    match FirstIn(k.sys.all, (t: Tid) => IsHangingChild(k.sys, t, pid))
    case Some(c) =>
      ZombiePc(k, c);
      CalmHears(k, WaitPass(k).s, k.sys.idle);
    case None =>
      if FirstIn(k.sys.all, (t: Tid) => IsChild(k.sys, t, pid)).Some? { SleepHears(k); }
      else { CalmHears(k, WaitPass(k).s, k.sys.idle); }
  }

  lemma ZombiePc(k: State, c: Tid)
    requires Inv(k) && c in k.sys.tasks && k.sys.tasks[c].status == Hanging
    ensures c in k.pc && k.pc[c] == Zombie
  {
    hide LocksOk, PidsOk, ParentsOk, WaitersOk, Queues;
    assert PlaceOk(k.locks, c, k.sys.tasks[c].status, k.pc[c], c == k.sys.idle);
  }

  // ---------------------------------------------------------------- exit

  /** The second half of exit: if init is the parent it is awake afterwards; otherwise nothing changes for it. */
  lemma HangHears(k: State)
    requires Inv(k) && InitHears(k) && Formed(k) && k.pc[k.sys.cur] == Exiting && k.sys.cur != k.sys.idle
    ensures ExitEnd(k).Go? && InitHears(ExitEnd(k).s)
  {
    hide Inv;
    AfterHang(k);
    Self(k);
    var k' := ExitEnd(k).s;
    if InitSleeps(k') {
      assert k.sys.tasks[k.sys.cur].parent != 1;
      if NoZombie(k.sys, 1) {
        forall c ensures !IsHangingChild(k'.sys, c, 1) { assert !IsHangingChild(k.sys, c, 1); }
      } else {
        var t :| Telling(k, t);
        assert Telling(k', t);
      }
    }
  }

  /** After exit: the caller hangs, its parent is not asleep, other sleepers and zombies are as before. */
  lemma AfterHang(k: State)
    requires Inv(k) && Formed(k) && k.pc[k.sys.cur] == Exiting && k.sys.cur != k.sys.idle
    ensures ExitEnd(k).Go?
    ensures var k' := ExitEnd(k).s;
            && k'.init == k.init && k'.sys.tasks.Keys == k.sys.tasks.Keys && k'.pc == k.pc[k.sys.cur := Zombie]
            && (forall t :: t in k.sys.tasks ==> k'.sys.tasks[t].parent == k.sys.tasks[t].parent && k'.sys.tasks[t].pid == k.sys.tasks[t].pid)
            && (forall t :: t in k.sys.tasks && t != k.sys.cur ==> (k'.sys.tasks[t].status == Hanging <==> k.sys.tasks[t].status == Hanging))
            && k'.sys.tasks[k.sys.cur].status == Hanging
            && (forall t :: t in k.sys.tasks ==>
                 (k'.sys.tasks[t].status == Waiting <==> k.sys.tasks[t].status == Waiting && k.sys.tasks[t].pid != k.sys.tasks[k.sys.cur].parent))
  {
    hide Inv, SchedOk, Block, Unblock;
    var me := k.sys.cur;
    ExitEndKeeps(k);
    SchedHolds(k);
    var p := ParentFound(k);
    forall t | t in k.sys.tasks && k.sys.tasks[t].pid == k.sys.tasks[me].parent ensures t == p { SamePid(k, p, t); }
    var y := k.sys;
    if k.sys.tasks[p].status == Waiting {
      WakeParent(k, p);
      y := Unblock(k.sys, p).s;
      SchedHolds(k.(sys := y));
    }
    HangStatuses(y);
  }

  lemma SchedHolds(k: State)
    requires Inv(k)
    ensures SchedOk(k.sys)
  {
  }

  lemma HangStatuses(y: Sys)
    requires SchedOk(y) && y.cur in y.tasks && y.cur != y.idle
    ensures Block(y, Hanging).Go?
    ensures var z := Block(y, Hanging).s;
            && z.tasks.Keys == y.tasks.Keys
            && forall t :: t in y.tasks ==>
                 && z.tasks[t].parent == y.tasks[t].parent && z.tasks[t].pid == y.tasks[t].pid
                 && (z.tasks[t].status == Hanging <==> t == y.cur || y.tasks[t].status == Hanging)
                 && (z.tasks[t].status == Waiting <==> y.tasks[t].status == Waiting)
  {
    hide Schedule;
    BlockKeeps(y, Hanging);
  }

  /** The first half of exit moves the caller's children to init and changes nobody's state. */
  lemma AfterAdopt(k: State, status: int)
    requires Inv(k) && Enabled(k, Exit(status)) && k.sys.tasks[k.sys.cur].parent != -1
    ensures ExitBegin(k, status).Go?
    ensures var k1 := ExitBegin(k, status).s;
            && k1.init == k.init && k1.pc == k.pc[k.sys.cur := Exiting] && k1.sys.tasks.Keys == k.sys.tasks.Keys
            && forall t :: t in k.sys.tasks ==>
                 && k1.sys.tasks[t].pid == k.sys.tasks[t].pid && k1.sys.tasks[t].status == k.sys.tasks[t].status
                 && k1.sys.tasks[t].parent ==
                      if k.sys.tasks[t].parent == k.sys.tasks[k.sys.cur].pid then 1 else k.sys.tasks[t].parent
  {
  }

  /** Nobody on the way out is a child of init or of the task with this pid. */
  ghost predicate NobodyTells(k: State, pid: int) {
    forall x :: x in k.sys.tasks && x in k.pc && k.pc[x] == Exiting ==> k.sys.tasks[x].parent !in {1, pid}
  }

  /** An exit that nobody will tell init of: init sleeps, is not the parent, the caller has a zombie child, and nobody
      on the way out is, or by this exit becomes, a child of init. */
  ghost predicate Deaf(k: State, a: Action)
    requires k.sys.cur in k.sys.tasks
  {
    var me := k.sys.tasks[k.sys.cur];
    a.Exit? && InitSleeps(k) && me.parent != 1 && !NoZombie(k.sys, me.pid) && NobodyTells(k, me.pid)
  }

  lemma ExitHeardExactlyWhen(k: State, status: int)
    requires Inv(k) && InitHears(k) && Enabled(k, Exit(status)) && k.sys.tasks[k.sys.cur].parent != -1
    ensures ExitBegin(k, status).Go? && (InitHears(ExitBegin(k, status).s) <==> !Deaf(k, Exit(status)))
  {
    hide Inv;
    var me := k.sys.cur;
    var pid := k.sys.tasks[me].pid;
    AfterAdopt(k, status);
    NotOwnParent(k);
    var k1 := ExitBegin(k, status).s;
    assert InitSleeps(k1) <==> InitSleeps(k);
    forall c ensures IsHangingChild(k1.sys, c, 1) <==> IsHangingChild(k.sys, c, pid) || IsHangingChild(k.sys, c, 1) { }
    if NobodyTells(k, pid) && k.sys.tasks[me].parent != 1 {
      assert !SomeoneTells(k1);
      assert !SomeoneTells(k);
      if !NoZombie(k.sys, pid) {
        var c :| IsHangingChild(k.sys, c, pid);
        assert IsHangingChild(k1.sys, c, 1);
      } else {
        assert NoZombie(k.sys, 1) ==> NoZombie(k1.sys, 1);
      }
    } else {
      var x := if k.sys.tasks[me].parent == 1 then me
               else var x :| x in k.sys.tasks && x in k.pc && k.pc[x] == Exiting && k.sys.tasks[x].parent in {1, pid}; x;
      assert Telling(k1, x);
    }
  }

  lemma NotOwnParent(k: State)
    requires Inv(k)
    ensures k.sys.cur in k.sys.tasks && k.sys.cur in k.pc && k.sys.tasks[k.sys.cur].parent != k.sys.tasks[k.sys.cur].pid
    ensures k.init in k.sys.tasks && k.sys.tasks[k.init].pid == 1
  {
    assert ParentOk(k, k.sys.cur);
  }

  /** Every step leaves init informed, or about to be, exactly when it is not such an exit. */
  lemma StepHearsExactlyWhen(k: State, a: Action)
    requires Inv(k) && InitHears(k) && Enabled(k, a) && Step(k, a).Go?
    ensures InitHears(Step(k, a).s) <==> !Deaf(k, a)
  {
    hide Inv, InitHears;
    StepKeeps(k, a);
    IdleAwake(k);
    IdleAwake(Step(k, a).s);
    match a
    case Exit(status) => ExitHeardExactlyWhen(k, status);
    case Wait => WaitHears(k);
    case Resume =>
      if k.pc[k.sys.cur] == InWait { WaitHears(k); }
      else if k.pc[k.sys.cur] == Exiting { HangHears(k); }
      else { PlainCalm(k, a); CalmHears(k, Step(k, a).s, k.sys.idle); }
    case Fork(_) => FamilyCalm(k, a); CalmHears(k, Step(k, a).s, k.sys.idle);
    case Start(_, _) => FamilyCalm(k, a); CalmHears(k, Step(k, a).s, k.sys.idle);
    case Finish => FamilyCalm(k, a); CalmHears(k, Step(k, a).s, k.sys.idle);
    case _ => PlainCalm(k, a); CalmHears(k, Step(k, a).s, k.sys.idle);
  }

  /** No step up to state `i` was such an exit. */
  ghost predicate NeverDeaf(states: seq<State>, actions: seq<Action>, i: nat)
    requires |states| == |actions| + 1 && i <= |actions|
  {
    forall j :: 0 <= j < i ==> states[j].sys.cur in states[j].sys.tasks && !Deaf(states[j], actions[j])
  }

  /** Over every run: init hears in every state up to `i` exactly when no step on the way was such an exit. */
  lemma {:induction false} InitHearsInRuns(states: seq<State>, actions: seq<Action>, i: nat)
    requires Run(states, actions) && i <= |actions|
    ensures (forall j :: 0 <= j <= i ==> InitHears(states[j])) <==> NeverDeaf(states, actions, i)
  {
    hide Inv, Step, Enabled, Deaf;
    RunKeeps(states, actions, 0);
    if i == 0 {
      BootHears(states[0]);
    } else {
      InitHearsInRuns(states, actions, i - 1);
      RunKeeps(states, actions, i - 1);
      IdleAwake(states[i - 1]);
      assert Leads(states[i - 1], actions[i - 1], states[i]);
      if InitHears(states[i - 1]) { StepHearsExactlyWhen(states[i - 1], actions[i - 1]); }
      assert NeverDeaf(states, actions, i) <==> NeverDeaf(states, actions, i - 1) && !Deaf(states[i - 1], actions[i - 1]);
    }
  }

  lemma BootHears(k: State)
    requires Initial(k)
    ensures InitHears(k)
  {
  }
}
