/** Exits and reaps over a run: every reap answers one exit, with its status. */
module History {
  import opened Basics
  import opened Lists
  import opened Bitmaps
  import opened Threads
  import opened Kernel
  import opened KernelSafety
  import opened ProcessSafety
  import opened KernelRuns

  /** The latest event about `t`. */
  ghost function Last(log: seq<Event>, t: Tid): (e: Option<Event>) {
    if log == [] then None
    else if log[|log| - 1].who == t then Some(log[|log| - 1])
    else Last(log[..|log| - 1], t)
  }

  /** Every reap of a task follows, as the next event about that task, its exit, and reports the low
      byte of the exit argument; a task exits again only after its control block was reaped and reused. */
  ghost predicate Matched(log: seq<Event>) {
    forall i :: 0 <= i < |log| ==> EventOk(log[..i], log[i])
  }

  ghost predicate EventOk(before: seq<Event>, e: Event) {
    match e
    case Exited(t, _) => !(Last(before, t).Some? && Last(before, t).v.Exited?)
    case Reaped(t, _, st) => Last(before, t).Some? && Last(before, t).v.Exited? && st == Byte(Last(before, t).v.status)
  }

  /** The exit status of a task that has called exit and is not yet reaped. */
  ghost function Done(k: State, t: Tid): (r: Option<int>) {
    if t in k.pc && t in k.sys.tasks && k.pc[t] in {Exiting, Zombie} then Some(k.sys.tasks[t].exitStatus) else None
  }

  ghost predicate Recorded(log: seq<Event>, t: Tid, done: Option<int>) {
    if done.None? then !(Last(log, t).Some? && Last(log, t).v.Exited?)
    else Last(log, t).Some? && Last(log, t).v.Exited? && done.v == Byte(Last(log, t).v.status)
  }

  ghost predicate LogOk(k: State) {
    Matched(k.log) && forall t :: Recorded(k.log, t, Done(k, t))
  }

  // ---------------------------------------------------------------- scheduling changes no identity

  ghost predicate SameIds(s: Sys, s': Sys) {
    s'.tasks.Keys == s.tasks.Keys && forall t :: t in s.tasks ==> s'.tasks[t].exitStatus == s.tasks[t].exitStatus
  }

  lemma ScheduleSame(s: Sys)
    ensures Schedule(s).Go? ==> SameIds(s, Schedule(s).s)
  {
  }

  lemma SchedSame(s: Sys, st: Status)
    requires s.cur in s.tasks
    ensures Tick(s).Go? ==> SameIds(s, Tick(s).s)
    ensures Yield(s).Go? ==> SameIds(s, Yield(s).s)
    ensures Block(s, st).Go? ==> SameIds(s, Block(s, st).s)
  {
    ScheduleSame(s);
    ScheduleSame(SetStatus(s, s.cur, st));
    ScheduleSame(SetStatus(s, s.cur, Ready).(ready := s.ready + [s.cur]));
  }

  // ---------------------------------------------------------------- steps

  /** Only exit and a successful wait write history. */
  ghost predicate Quiet(k: State, k': State) {
    k'.log == k.log && forall t :: Done(k', t) == Done(k, t)
  }

  lemma QuietKeeps(k: State, k': State)
    requires LogOk(k) && Quiet(k, k')
    ensures LogOk(k')
  {
    forall t ensures Recorded(k'.log, t, Done(k', t)) { assert Recorded(k.log, t, Done(k, t)); }
  }

  lemma {:induction false} LastAppend(log: seq<Event>, e: Event, t: Tid)
    ensures Last(log + [e], t) == if e.who == t then Some(e) else Last(log, t)
  {
    assert (log + [e])[..|log|] == log;
  }

  lemma LoggedKeeps(k: State, k': State, e: Event)
    requires LogOk(k) && k'.log == k.log + [e] && EventOk(k.log, e)
    requires forall t :: t != e.who ==> Done(k', t) == Done(k, t)
    requires e.Exited? ==> Done(k', e.who) == Some(Byte(e.status))
    requires e.Reaped? ==> Done(k', e.who) == None
    ensures LogOk(k')
  {
    forall i | 0 <= i < |k'.log| ensures EventOk(k'.log[..i], k'.log[i]) {
      assert k'.log[..i] == k.log[..i];
      if i < |k.log| { assert EventOk(k.log[..i], k.log[i]); } else { assert k.log[..i] == k.log; }
    }
    forall t ensures Recorded(k'.log, t, Done(k', t)) {
      LastAppend(k.log, e, t);
      assert Recorded(k.log, t, Done(k, t));
    }
  }

  lemma LockQuiet(k: State, a: Action)
    requires Enabled(k, a) && Step(k, a).Go?
    requires a.Acquire? || a.Release? || (a.Resume? && PcLock(k.pc[k.sys.cur]).Some?)
    ensures Quiet(k, Step(k, a).s)
  {
    hide Quiet, LockStep;
    if a.Acquire? { AcquireQuiet(k, a.lock); }
    else if a.Release? { ReleaseQuiet(k, a.lock); }
    else { ContinueQuiet(k); }
  }

  lemma AcquireQuiet(k: State, l: Lid)
    requires Enabled(k, Acquire(l))
    ensures Quiet(k, LockAcquire(k, l))
  {
  }

  lemma ReleaseQuiet(k: State, l: Lid)
    requires Enabled(k, Release(l)) && LockRelease(k, l).Go?
    ensures Quiet(k, LockRelease(k, l).s)
  {
  }

  lemma ContinueQuiet(k: State)
    requires Enabled(k, Resume) && Step(k, Resume).Go? && PcLock(k.pc[k.sys.cur]).Some?
    ensures Quiet(k, Step(k, Resume).s)
  {
    SchedSame(k.sys, Blocked);
  }

  lemma SchedQuiet(k: State, a: Action)
    requires Enabled(k, a) && Step(k, a).Go? && (a.Timer? || a.YieldCpu? || a.Idle?)
    ensures Quiet(k, Step(k, a).s)
  {
    SchedSame(k.sys, Blocked);
  }

  lemma NewTaskQuiet(k: State, a: Action)
    requires Enabled(k, a) && Step(k, a).Go? && (a.Fork? || a.Start? || a.Finish?)
    ensures Quiet(k, Step(k, a).s)
  {
    if a.Finish? { ScheduleSame(Delist(k, k.sys.cur).sys); }
  }

  lemma ExitLogged(k: State, status: int)
    requires LogOk(k) && Enabled(k, Exit(status)) && ExitBegin(k, status).Go?
    ensures LogOk(ExitBegin(k, status).s)
  {
    var k' := ExitBegin(k, status).s;
    assert Recorded(k.log, k.sys.cur, Done(k, k.sys.cur));
    forall t | t != k.sys.cur ensures Done(k', t) == Done(k, t) { }
    LoggedKeeps(k, k', Exited(k.sys.cur, status));
  }

  lemma HangQuiet(k: State)
    requires Formed(k) && k.pc[k.sys.cur] == Exiting && ExitEnd(k).Go?
    ensures Quiet(k, ExitEnd(k).s)
  {
    var me := k.sys.cur;
    var f := FirstIn(k.sys.all, (t: Tid) => t in k.sys.tasks && k.sys.tasks[t].pid == k.sys.tasks[me].parent);
    var p := f.v;
    var y := if k.sys.tasks[p].status == Waiting then Unblock(k.sys, p).s else k.sys;
    assert SameIds(k.sys, y);
    SchedSame(y, Hanging);
  }

  lemma WaitLogged(k: State)
    requires Inv(k) && LogOk(k) && Formed(k) && WaitPass(k).Go? && k.pc[k.sys.cur] in {Out, InWait}
    ensures LogOk(WaitPass(k).s)
  {
    hide Inv, LogOk;
    var me := k.sys.cur;
    var pid := k.sys.tasks[me].pid;
    var k' := WaitPass(k).s;
    match FirstIn(k.sys.all, (t: Tid) => IsHangingChild(k.sys, t, pid))
    case Some(c) =>
      ZombieFree(k, c);
      IsRecorded(k, c);
      LoggedKeeps(k, k', Reaped(c, me, k.sys.tasks[c].exitStatus));
    case None =>
      SchedSame(k.sys, Waiting);
      QuietKeeps(k, k');
  }

  lemma IsRecorded(k: State, t: Tid)
    requires LogOk(k)
    ensures Recorded(k.log, t, Done(k, t))
  {
  }

  lemma StepLogged(k: State, a: Action)
    requires Inv(k) && LogOk(k) && Enabled(k, a) && Step(k, a).Go?
    ensures LogOk(Step(k, a).s)
  {
    hide Inv, LogOk, Quiet;
    match a
    case Timer => SchedQuiet(k, a); QuietKeeps(k, Step(k, a).s);
    case YieldCpu => SchedQuiet(k, a); QuietKeeps(k, Step(k, a).s);
    case Idle => SchedQuiet(k, a); QuietKeeps(k, Step(k, a).s);
    case Acquire(l) => LockQuiet(k, a); QuietKeeps(k, Step(k, a).s);
    case Release(l) => LockQuiet(k, a); QuietKeeps(k, Step(k, a).s);
    case Fork(_) => NewTaskQuiet(k, a); QuietKeeps(k, Step(k, a).s);
    case Start(_, _) => NewTaskQuiet(k, a); QuietKeeps(k, Step(k, a).s);
    case Finish => NewTaskQuiet(k, a); QuietKeeps(k, Step(k, a).s);
    case Exit(status) => ExitLogged(k, status);
    case Wait => WaitLogged(k);
    case Resume =>
      if k.pc[k.sys.cur] == InWait { WaitLogged(k); }
      else if k.pc[k.sys.cur] == Exiting { HangQuiet(k); QuietKeeps(k, Step(k, a).s); }
      else { LockQuiet(k, a); QuietKeeps(k, Step(k, a).s); }
  }

  /** In every run each exited process is reaped at most once, and its parent sees the low byte of its status. */
  lemma {:induction false} ReapedOnce(states: seq<State>, actions: seq<Action>, i: nat)
    requires Run(states, actions) && i < |states|
    ensures LogOk(states[i])
  {
    hide LogOk, Inv, Step, Enabled;
    if i == 0 {
      BootLogged(states[0]);
    } else {
      ReapedOnce(states, actions, i - 1);
      RunKeeps(states, actions, i - 1);
      assert Leads(states[i - 1], actions[i - 1], states[i]);
      StepLogged(states[i - 1], actions[i - 1]);
    }
  }

  lemma BootLogged(k: State)
    requires Initial(k)
    ensures LogOk(k)
  {
  }
}
