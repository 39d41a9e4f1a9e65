/** Who is whose child, over whole runs, and what a task keeps for life. */
module Families {
  import opened Basics
  import opened Lists
  import opened Bitmaps
  import opened Threads
  import opened Kernel
  import opened KernelSafety
  import opened ProcessSafety
  import opened KernelRuns

  /** What a step does to a task that was there before and is there after it. */
  ghost predicate Kept(k: State, a: Action, x: Task, y: Task, me: bool)
    requires k.sys.cur in k.sys.tasks
  {
    && y.pid == x.pid && y.priority == x.priority && y.user == x.user
    && y.exitStatus == (if a.Exit? && me then Byte(a.status) else x.exitStatus)
    && y.parent == (if a.Exit? && x.parent == k.sys.tasks[k.sys.cur].pid then 1 else x.parent)
  }

  /** What a task that a step adds is like: last in line with a full slice, and with the lowest free pid.  A forked child
      is like its parent; a thread has no parent. */
  ghost predicate Added(k: State, a: Action, k': State, t: Tid)
    requires k.sys.cur in k.sys.tasks && t in k'.sys.tasks
  {
    var me, y := k.sys.tasks[k.sys.cur], k'.sys.tasks[t];
    && (a == Fork(t) || (a.Start? && a.child == t))
    && k'.sys.ready == k.sys.ready + [t] && k'.sys.all == k.sys.all + [t] && k'.sys.cur == k.sys.cur
    && y.status == Ready && y.ticks == y.priority
    && y.priority == (if a.Start? then a.priority else me.priority)
    && y.parent == (if a.Start? then -1 else me.pid)
    && y.user == (a.Fork? && me.user)
    && 1 <= y.pid <= |k.pids| && !k.pids[y.pid - 1] && forall i :: 0 <= i < y.pid - 1 ==> k.pids[i]
  }

  /** Whom a step removes: a thread that ends, or a zombie child that its parent reaps. */
  ghost predicate Removed(k: State, a: Action, k': State, t: Tid)
    requires k.sys.cur in k.sys.tasks && t in k.sys.tasks
  {
    || (a.Finish? && t == k.sys.cur)
    || (&& IsHangingChild(k.sys, t, k.sys.tasks[k.sys.cur].pid)
        && k'.log == k.log + [Reaped(t, k.sys.cur, k.sys.tasks[t].exitStatus)])
  }

  ghost predicate Related(k: State, a: Action, k': State)
    requires k.sys.cur in k.sys.tasks
  {
    && (forall t :: t in k.sys.tasks && t in k'.sys.tasks ==> Kept(k, a, k.sys.tasks[t], k'.sys.tasks[t], t == k.sys.cur))
    && (forall t :: t in k'.sys.tasks && t !in k.sys.tasks ==> Added(k, a, k', t))
    && (forall t :: t in k.sys.tasks && t !in k'.sys.tasks ==> Removed(k, a, k', t))
  }

  /** Tasks keep all but status and slice. */
  ghost predicate Alike(s: Sys, s': Sys) {
    s'.tasks.Keys == s.tasks.Keys && forall t :: t in s.tasks ==> SameTask(s.tasks[t], s'.tasks[t])
  }

  lemma ScheduleAlike(s: Sys)
    ensures Schedule(s).Go? ==> Alike(s, Schedule(s).s)
  {
  }

  lemma SchedAlike(s: Sys, st: Status)
    requires s.cur in s.tasks
    ensures Tick(s).Go? ==> Alike(s, Tick(s).s)
    ensures Yield(s).Go? ==> Alike(s, Yield(s).s)
    ensures Block(s, st).Go? ==> Alike(s, Block(s, st).s)
  {
    ScheduleAlike(s);
    ScheduleAlike(SetStatus(s, s.cur, st));
    ScheduleAlike(SetStatus(s, s.cur, Ready).(ready := s.ready + [s.cur]));
  }

  lemma UnblockAlike(s: Sys, t: Tid)
    requires t in s.tasks
    ensures Unblock(s, t).Go? ==> Alike(s, Unblock(s, t).s) && Unblock(s, t).s.cur == s.cur
  {
  }

  lemma AlikeRelated(k: State, a: Action, k': State)
    requires k.sys.cur in k.sys.tasks && Alike(k.sys, k'.sys) && !a.Exit?
    ensures Related(k, a, k')
  {
  }

  lemma LockRelated(k: State, a: Action)
    requires Enabled(k, a) && Step(k, a).Go?
    requires a.Acquire? || a.Release? || (a.Resume? && PcLock(k.pc[k.sys.cur]).Some?)
    ensures Related(k, a, Step(k, a).s)
  {
    LockAlike(k, a);
    AlikeRelated(k, a, Step(k, a).s);
  }

  lemma LockAlike(k: State, a: Action)
    requires Enabled(k, a) && Step(k, a).Go?
    requires a.Acquire? || a.Release? || (a.Resume? && PcLock(k.pc[k.sys.cur]).Some?)
    ensures Alike(k.sys, Step(k, a).s.sys)
  {
    hide Block, Unblock;
    SchedAlike(k.sys, Blocked);
    if a.Resume? && k.pc[k.sys.cur].Up? {
      var l := k.pc[k.sys.cur].lock;
      var q := k.locks[l].waiters;
      if q != [] && q[0] in k.sys.tasks { UnblockAlike(k.sys, q[0]); }
    }
  }

  lemma HangAlike(k: State)
    requires Formed(k) && ExitEnd(k).Go?
    ensures Alike(k.sys, ExitEnd(k).s.sys)
  {
    hide Block, Unblock;
    var me := k.sys.cur;
    var f := FirstIn(k.sys.all, (t: Tid) => t in k.sys.tasks && k.sys.tasks[t].pid == k.sys.tasks[me].parent);
    var p := f.v;
    UnblockAlike(k.sys, p);
    var y := if k.sys.tasks[p].status == Waiting then Unblock(k.sys, p).s else k.sys;
    SchedAlike(y, Hanging);
  }

  lemma FamilyRelated(k: State, a: Action)
    requires Enabled(k, a) && Step(k, a).Go? && (a.Fork? || a.Start?)
    ensures Related(k, a, Step(k, a).s)
  {
    FitOne(k.pids);
  }

  lemma FinishRelated(k: State)
    requires Enabled(k, Finish) && Step(k, Finish).Go?
    ensures Related(k, Finish, Step(k, Finish).s)
  {
    hide Schedule;
    ScheduleAlike(Delist(k, k.sys.cur).sys);
  }

  lemma ExitRelated(k: State, status: int)
    requires Inv(k) && Enabled(k, Exit(status)) && Step(k, Exit(status)).Go?
    ensures Related(k, Exit(status), Step(k, Exit(status)).s)
  {
    hide Inv;
    Self(k);
  }

  lemma WaitRelated(k: State, a: Action)
    requires Formed(k) && WaitPass(k).Go? && (a.Wait? || a.Resume?)
    ensures Related(k, a, WaitPass(k).s)
  {
    hide Block;
    SchedAlike(k.sys, Waiting);
  }

  /** Every step: pid, priority and privilege are for life; the exit status is the caller's own exit; children change parent
      only when theirs exits, and then to init; tasks come by fork and start, and go by their own end or their parent's reap. */
  lemma StepRelated(k: State, a: Action)
    requires Inv(k) && Enabled(k, a) && Step(k, a).Go?
    ensures Related(k, a, Step(k, a).s)
  {
    hide Inv, Related, LockStep, WaitPass, ExitEnd, ForkTask, StartThread, FinishThread, ExitBegin, Tick, Yield, Block;
    SchedAlike(k.sys, Blocked);
    match a
    case Timer => AlikeRelated(k, a, Step(k, a).s);
    case YieldCpu => AlikeRelated(k, a, Step(k, a).s);
    case Idle => AlikeRelated(k, a, Step(k, a).s);
    case Acquire(l) => LockRelated(k, a);
    case Release(l) => LockRelated(k, a);
    case Fork(_) => FamilyRelated(k, a);
    case Start(_, _) => FamilyRelated(k, a);
    case Finish => FinishRelated(k);
    case Exit(status) => ExitRelated(k, status);
    case Wait => WaitRelated(k, a);
    case Resume =>
      if k.pc[k.sys.cur] == InWait { WaitRelated(k, a); }
      else if k.pc[k.sys.cur] == Exiting { HangAlike(k); AlikeRelated(k, a, Step(k, a).s); }
      else { LockRelated(k, a); }
  }

  // ---------------------------------------------------------------- the order of birth

  /** `q'` is `q`, or `q` with one more at the end, or `q` without one; the others keep their order. */
  ghost predicate InOrder(q: seq<Tid>, q': seq<Tid>) {
    || q' == q || (|q'| == |q| + 1 && q'[..|q|] == q)
    || exists i :: 0 <= i < |q| && q' == q[..i] + q[i + 1..]
  }

  /** The first of its kind goes. */
  lemma {:induction false} WithoutIs(q: seq<Tid>, t: Tid) returns (i: nat)
    ensures i <= |q| && t !in q[..i] && (i < |q| ==> q[i] == t)
    ensures Without(q, t) == if i == |q| then q else q[..i] + q[i + 1..]
    decreases |q|
  {
    if q == [] || q[0] == t {
      i := 0;
    } else {
      var r := q[1..];
      var k := WithoutIs(r, t);
      i := k + 1;
      assert q[..i] == [q[0]] + r[..k];
      if i < |q| { assert [q[0]] + (r[..k] + r[k + 1..]) == q[..i] + q[i + 1..]; }
    }
  }

  lemma WithoutInOrder(q: seq<Tid>, t: Tid)
    ensures InOrder(q, Without(q, t))
  {
    var i := WithoutIs(q, t);
  }

  lemma ScheduleListed(s: Sys, st: Status)
    requires s.cur in s.tasks
    ensures Tick(s).Go? ==> Tick(s).s.all == s.all
    ensures Yield(s).Go? ==> Yield(s).s.all == s.all
    ensures Block(s, st).Go? ==> Block(s, st).s.all == s.all
  {
  }

  /** Every step keeps the list of all tasks in the order of birth. */
  lemma StepInOrder(k: State, a: Action)
    requires Enabled(k, a) && Step(k, a).Go?
    ensures InOrder(k.sys.all, Step(k, a).s.sys.all)
  {
    hide Tick, Yield, Block, InOrder, AllocatePid, FirstIn, LockStep, ExitEnd, WaitPass, FinishThread;
    SameInOrder(k.sys.all);
    ScheduleListed(k.sys, Blocked);
    if a.Fork? || a.Start? { MoreInOrder(k.sys.all, a.child); }
    if a.Finish? { FinishInOrder(k); }
    if a.Wait? { WaitInOrder(k); }
    if a.Resume? {
      if k.pc[k.sys.cur] == InWait { WaitInOrder(k); }
      else if k.pc[k.sys.cur] == Exiting { ExitListed(k); }
      else { LockListed(k, k.pc[k.sys.cur]); }
    }
  }

  lemma SameInOrder(q: seq<Tid>)
    ensures InOrder(q, q)
  {
  }

  lemma MoreInOrder(q: seq<Tid>, t: Tid)
    ensures InOrder(q, q + [t])
  {
  }

  lemma FinishInOrder(k: State)
    requires Formed(k) && FinishThread(k).Go?
    ensures InOrder(k.sys.all, FinishThread(k).s.sys.all)
  {
    WithoutInOrder(k.sys.all, k.sys.cur);
  }

  lemma WaitInOrder(k: State)
    requires Formed(k) && WaitPass(k).Go?
    ensures InOrder(k.sys.all, WaitPass(k).s.sys.all)
  {
    hide Block, InOrder;
    var pid := k.sys.tasks[k.sys.cur].pid;
    var f := FirstIn(k.sys.all, (t: Tid) => IsHangingChild(k.sys, t, pid));
    if f.Some? { WithoutInOrder(k.sys.all, f.v); }
    SameInOrder(k.sys.all);
    ScheduleListed(k.sys, Waiting);
  }

  lemma ExitListed(k: State)
    requires Formed(k) && ExitEnd(k).Go?
    ensures ExitEnd(k).s.sys.all == k.sys.all
  {
    hide Block;
    var me := k.sys.cur;
    var p := FirstIn(k.sys.all, (t: Tid) => t in k.sys.tasks && k.sys.tasks[t].pid == k.sys.tasks[me].parent).v;
    var y := if k.sys.tasks[p].status == Waiting then Unblock(k.sys, p).s else k.sys;
    ScheduleListed(y, Hanging);
  }

  lemma LockListed(k: State, pc: Pc)
    requires k.sys.cur in k.sys.tasks && PcLock(pc).Some? && pc.lock in k.locks && LockStep(k, pc).Go?
    ensures LockStep(k, pc).s.sys.all == k.sys.all
  {
    hide Block;
    ScheduleListed(k.sys, Blocked);
  }

  // ---------------------------------------------------------------- runs

  /** Step `n` is an exit of the process with this pid. */
  ghost predicate ExitOf(k: State, a: Action, pid: int) {
    a.Exit? && HasPid(k, k.sys.cur, pid)
  }

  ghost predicate Exits(states: seq<State>, actions: seq<Action>, j: nat, i: nat, pid: int)
    requires j <= i <= |actions| <= |states|
  {
    exists n :: j <= n < i && ExitOf(states[n], actions[n], pid)
  }

  /** In every run: from its fork on, for as long as it is listed, a process is the child of the process that forked it until
      that one exits, and the child of init from then on. */
  lemma {:induction false} ParentInRuns(states: seq<State>, actions: seq<Action>, j: nat, i: nat, c: Tid)
    requires Run(states, actions) && j < i < |states| && actions[j] == Fork(c)
    requires forall n :: j < n <= i ==> c in states[n].sys.tasks
    ensures states[j].sys.cur in states[j].sys.tasks
    ensures var pid := states[j].sys.tasks[states[j].sys.cur].pid;
            states[i].sys.tasks[c].parent == if Exits(states, actions, j, i, pid) then 1 else pid
    decreases i
  {
    hide Inv, Step, Kept, Added, Removed;
    var k, a := states[i - 1], actions[i - 1];
    assert Leads(states[j], actions[j], states[j + 1]);
    assert Leads(k, a, states[i]);
    RunKeeps(states, actions, i - 1);
    StepRelated(k, a);
    var pid := states[j].sys.tasks[states[j].sys.cur].pid;
    if i == j + 1 {
      assert Added(k, a, states[i], c);
      ForkedParent(k, a, states[i], c);
      assert !Exits(states, actions, j, i, pid);
    } else {
      ParentInRuns(states, actions, j, i - 1, c);
      assert Kept(k, a, k.sys.tasks[c], states[i].sys.tasks[c], c == k.sys.cur);
      NextParent(k, a, states[i], c);
      assert Exits(states, actions, j, i, pid) <==> Exits(states, actions, j, i - 1, pid) || ExitOf(k, a, pid);
    }
  }

  lemma ForkedParent(k: State, a: Action, k': State, c: Tid)
    requires k.sys.cur in k.sys.tasks && c in k'.sys.tasks && a.Fork? && Added(k, a, k', c)
    ensures k'.sys.tasks[c].parent == k.sys.tasks[k.sys.cur].pid
  {
  }

  lemma NextParent(k: State, a: Action, k': State, c: Tid)
    requires k.sys.cur in k.sys.tasks && c in k.sys.tasks && c in k'.sys.tasks
    requires Kept(k, a, k.sys.tasks[c], k'.sys.tasks[c], c == k.sys.cur)
    ensures k'.sys.tasks[c].parent == if ExitOf(k, a, k.sys.tasks[c].parent) then 1 else k.sys.tasks[c].parent
  {
  }
}
