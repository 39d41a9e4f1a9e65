/** A run from boot at whose end init sleeps over a zombie: main ends, init (1) forks process 4 and waits, 4 forks 5,
    5 forks 6, 6 exits, and then 5 exits without having waited. */
module InitRun {
  import opened Basics
  import opened Lists
  import opened Bitmaps
  import opened Threads
  import opened Kernel
  import opened KernelRuns
  import opened InitWakeup

  ghost function P0(): (p: seq<bool>) { [true, true, true] + seq(1021, _ => false) }
  ghost function P1(): (p: seq<bool>) { P0()[1 := false] }
  ghost function P2(): (p: seq<bool>) { P1()[1 := true] }
  ghost function P3(): (p: seq<bool>) { P2()[3 := true] }
  ghost function P4(): (p: seq<bool>) { P3()[4 := true] }

  ghost function S0(): (k: State) {
    State(Sys(map[1 := Task(Ready, 31, 31, 1, -1, 0, true), 2 := Task(Running, 31, 31, 2, -1, 0, false), 3 := Task(Ready, 10, 10, 3, -1, 0, false)],
              [1, 2, 3], [1, 3], 2, 3),
          map[], map[1 := Out, 2 := Out, 3 := Out], P0(), 1, [])
  }

  ghost function S1(): (k: State) {
    State(Sys(map[1 := Task(Running, 31, 31, 1, -1, 0, true), 3 := Task(Ready, 10, 10, 3, -1, 0, false)],
              [1, 3], [3], 1, 3),
          map[], map[1 := Out, 3 := Out], P1(), 1, [])
  }

  ghost function S2(): (k: State) {
    State(Sys(map[1 := Task(Running, 31, 31, 1, -1, 0, true), 3 := Task(Ready, 10, 10, 3, -1, 0, false), 4 := Task(Ready, 31, 31, 2, 1, 0, true)],
              [1, 3, 4], [3, 4], 1, 3),
          map[], map[1 := Out, 3 := Out, 4 := Out], P2(), 1, [])
  }

  ghost function S3(): (k: State) {
    State(Sys(map[1 := Task(Waiting, 31, 31, 1, -1, 0, true), 3 := Task(Running, 10, 10, 3, -1, 0, false), 4 := Task(Ready, 31, 31, 2, 1, 0, true)],
              [1, 3, 4], [4], 3, 3),
          map[], map[1 := InWait, 3 := Out, 4 := Out], P2(), 1, [])
  }

  ghost function S4(): (k: State) {
    State(Sys(map[1 := Task(Waiting, 31, 31, 1, -1, 0, true), 3 := Task(Blocked, 10, 10, 3, -1, 0, false), 4 := Task(Running, 31, 31, 2, 1, 0, true)],
              [1, 3, 4], [], 4, 3),
          map[], map[1 := InWait, 3 := Out, 4 := Out], P2(), 1, [])
  }

  ghost function S5(): (k: State) {
    State(Sys(map[1 := Task(Waiting, 31, 31, 1, -1, 0, true), 3 := Task(Blocked, 10, 10, 3, -1, 0, false), 4 := Task(Running, 31, 31, 2, 1, 0, true), 5 := Task(Ready, 31, 31, 4, 2, 0, true)],
              [1, 3, 4, 5], [5], 4, 3),
          map[], map[1 := InWait, 3 := Out, 4 := Out, 5 := Out], P3(), 1, [])
  }

  ghost function S6(): (k: State) {
    State(Sys(map[1 := Task(Waiting, 31, 31, 1, -1, 0, true), 3 := Task(Blocked, 10, 10, 3, -1, 0, false), 4 := Task(Ready, 31, 31, 2, 1, 0, true), 5 := Task(Running, 31, 31, 4, 2, 0, true)],
              [1, 3, 4, 5], [4], 5, 3),
          map[], map[1 := InWait, 3 := Out, 4 := Out, 5 := Out], P3(), 1, [])
  }

  ghost function S7(): (k: State) {
    State(Sys(map[1 := Task(Waiting, 31, 31, 1, -1, 0, true), 3 := Task(Blocked, 10, 10, 3, -1, 0, false), 4 := Task(Ready, 31, 31, 2, 1, 0, true), 5 := Task(Running, 31, 31, 4, 2, 0, true), 6 := Task(Ready, 31, 31, 5, 4, 0, true)],
              [1, 3, 4, 5, 6], [4, 6], 5, 3),
          map[], map[1 := InWait, 3 := Out, 4 := Out, 5 := Out, 6 := Out], P4(), 1, [])
  }

  ghost function S8(): (k: State) {
    State(Sys(map[1 := Task(Waiting, 31, 31, 1, -1, 0, true), 3 := Task(Blocked, 10, 10, 3, -1, 0, false), 4 := Task(Running, 31, 31, 2, 1, 0, true), 5 := Task(Ready, 31, 31, 4, 2, 0, true), 6 := Task(Ready, 31, 31, 5, 4, 0, true)],
              [1, 3, 4, 5, 6], [6, 5], 4, 3),
          map[], map[1 := InWait, 3 := Out, 4 := Out, 5 := Out, 6 := Out], P4(), 1, [])
  }

  ghost function S9(): (k: State) {
    State(Sys(map[1 := Task(Waiting, 31, 31, 1, -1, 0, true), 3 := Task(Blocked, 10, 10, 3, -1, 0, false), 4 := Task(Ready, 31, 31, 2, 1, 0, true), 5 := Task(Ready, 31, 31, 4, 2, 0, true), 6 := Task(Running, 31, 31, 5, 4, 0, true)],
              [1, 3, 4, 5, 6], [5, 4], 6, 3),
          map[], map[1 := InWait, 3 := Out, 4 := Out, 5 := Out, 6 := Out], P4(), 1, [])
  }

  ghost function S10(): (k: State) {
    State(Sys(map[1 := Task(Waiting, 31, 31, 1, -1, 0, true), 3 := Task(Blocked, 10, 10, 3, -1, 0, false), 4 := Task(Ready, 31, 31, 2, 1, 0, true), 5 := Task(Ready, 31, 31, 4, 2, 0, true), 6 := Task(Running, 31, 31, 5, 4, 0, true)],
              [1, 3, 4, 5, 6], [5, 4], 6, 3),
          map[], map[1 := InWait, 3 := Out, 4 := Out, 5 := Out, 6 := Exiting], P4(), 1, [Exited(6, 0)])
  }

  ghost function S11(): (k: State) {
    State(Sys(map[1 := Task(Waiting, 31, 31, 1, -1, 0, true), 3 := Task(Blocked, 10, 10, 3, -1, 0, false), 4 := Task(Ready, 31, 31, 2, 1, 0, true), 5 := Task(Running, 31, 31, 4, 2, 0, true), 6 := Task(Hanging, 31, 31, 5, 4, 0, true)],
              [1, 3, 4, 5, 6], [4], 5, 3),
          map[], map[1 := InWait, 3 := Out, 4 := Out, 5 := Out, 6 := Zombie], P4(), 1, [Exited(6, 0)])
  }

  ghost function S12(): (k: State) {
    State(Sys(map[1 := Task(Waiting, 31, 31, 1, -1, 0, true), 3 := Task(Blocked, 10, 10, 3, -1, 0, false), 4 := Task(Ready, 31, 31, 2, 1, 0, true), 5 := Task(Running, 31, 31, 4, 2, 0, true), 6 := Task(Hanging, 31, 31, 5, 1, 0, true)],
              [1, 3, 4, 5, 6], [4], 5, 3),
          map[], map[1 := InWait, 3 := Out, 4 := Out, 5 := Exiting, 6 := Zombie], P4(), 1, [Exited(6, 0), Exited(5, 0)])
  }

  ghost function S13(): (k: State) {
    State(Sys(map[1 := Task(Waiting, 31, 31, 1, -1, 0, true), 3 := Task(Blocked, 10, 10, 3, -1, 0, false), 4 := Task(Running, 31, 31, 2, 1, 0, true), 5 := Task(Hanging, 31, 31, 4, 2, 0, true), 6 := Task(Hanging, 31, 31, 5, 1, 0, true)],
              [1, 3, 4, 5, 6], [], 4, 3),
          map[], map[1 := InWait, 3 := Out, 4 := Out, 5 := Zombie, 6 := Zombie], P4(), 1, [Exited(6, 0), Exited(5, 0)])
  }

  lemma Same(k: State, k': State)
    requires k.sys.tasks == k'.sys.tasks && k.sys.all == k'.sys.all && k.sys.ready == k'.sys.ready
    requires k.sys.cur == k'.sys.cur && k.sys.idle == k'.sys.idle
    requires k.locks == k'.locks && k.pc == k'.pc && k.pids == k'.pids && k.init == k'.init && k.log == k'.log
    ensures k == k'
  {
  }

  /** A wait with the child `c` and no zombie child. */
  lemma WaitSleeps(k: State, c: Tid)
    requires k.sys.cur in k.sys.tasks && forall t :: t in k.sys.tasks ==> 1 <= k.sys.tasks[t].pid <= |k.pids|
    requires c in k.sys.all && IsChild(k.sys, c, k.sys.tasks[k.sys.cur].pid)
    requires forall t :: !IsHangingChild(k.sys, t, k.sys.tasks[k.sys.cur].pid)
    requires Block(k.sys, Waiting).Go?
    ensures WaitPass(k) == Go(k.(sys := Block(k.sys, Waiting).s, pc := k.pc[k.sys.cur := InWait]))
  {
    hide Block, Delist;
    var pid := k.sys.tasks[k.sys.cur].pid;
    var f := (t: Tid) => IsChild(k.sys, t, pid);
    assert f(c);
    assert FirstIn(k.sys.all, f).Some?;
  }

  /** The rest of an exit whose parent `p` does not wait. */
  lemma ExitFinds(k: State, p: Tid)
    requires k.sys.cur in k.sys.tasks && p in k.sys.all && p in k.sys.tasks && k.sys.tasks[p].status != Waiting
    requires k.sys.tasks[p].pid == k.sys.tasks[k.sys.cur].parent
    requires forall t :: t in k.sys.tasks && k.sys.tasks[t].pid == k.sys.tasks[p].pid ==> t == p
    requires Block(k.sys, Hanging).Go?
    ensures ExitEnd(k) == Go(k.(sys := Block(k.sys, Hanging).s, pc := k.pc[k.sys.cur := Zombie]))
  {
    hide Block;
    var f := (t: Tid) => t in k.sys.tasks && k.sys.tasks[t].pid == k.sys.tasks[k.sys.cur].parent;
    assert f(p);
    var r := FirstIn(k.sys.all, f);
    assert r.Some?;
    var q := r.v;
    assert f(q);
    assert q == p;
  }

  /** The pids that the three forks get. */
  lemma FirstFits()
    ensures FirstFit(P1(), 1) == Fit.Start(1) && FirstFit(P2(), 1) == Fit.Start(3) && FirstFit(P3(), 1) == Fit.Start(4)
  {
    FitOne(P1());
    FitOne(P2());
    FitOne(P3());
  }

  lemma Step0()
    ensures Leads(S0(), Finish, S1())
  {
    assert Without([1, 2, 3], 2) == [1, 3] by { assert Without([2, 3], 2) == [3]; assert [1, 2, 3][1..] == [2, 3]; }
    assert Without([1, 3], 2) == [1, 3] by { assert Without([3], 2) == [3]; assert [1, 3][1..] == [3]; }
    var k, a := S0(), Finish;
    assert Enabled(k, a);
    assert Step(k, a).Go?;
    Same(Step(k, a).s, S1());
  }

  lemma Step1()
    ensures Leads(S1(), Fork(4), S2())
  {
    FirstFits();
    var k, a := S1(), Fork(4);
    assert Enabled(k, a);
    assert Step(k, a).Go?;
    Same(Step(k, a).s, S2());
  }

  lemma Step2()
    ensures Leads(S2(), Wait, S3())
  {
    hide WaitPass;
    var k, a := S2(), Wait;
    assert Enabled(k, a);
    assert k.sys.all[2] == 4;
    WaitSleeps(k, 4);
    Same(Step(k, a).s, S3());
  }

  lemma Step3()
    ensures Leads(S3(), Idle, S4())
  {
    var k, a := S3(), Idle;
    assert Enabled(k, a);
    assert Step(k, a).Go?;
    Same(Step(k, a).s, S4());
  }

  lemma Step4()
    ensures Leads(S4(), Fork(5), S5())
  {
    FirstFits();
    var k, a := S4(), Fork(5);
    assert Enabled(k, a);
    assert Step(k, a).Go?;
    Same(Step(k, a).s, S5());
  }

  lemma Step5()
    ensures Leads(S5(), YieldCpu, S6())
  {
    var k, a := S5(), YieldCpu;
    assert Enabled(k, a);
    assert Step(k, a).Go?;
    Same(Step(k, a).s, S6());
  }

  lemma Step6()
    ensures Leads(S6(), Fork(6), S7())
  {
    FirstFits();
    var k, a := S6(), Fork(6);
    assert Enabled(k, a);
    assert Step(k, a).Go?;
    Same(Step(k, a).s, S7());
  }

  lemma Step7()
    ensures Leads(S7(), YieldCpu, S8())
  {
    var k, a := S7(), YieldCpu;
    assert Enabled(k, a);
    assert Step(k, a).Go?;
    Same(Step(k, a).s, S8());
  }

  lemma Step8()
    ensures Leads(S8(), YieldCpu, S9())
  {
    var k, a := S8(), YieldCpu;
    assert Enabled(k, a);
    assert Step(k, a).Go?;
    Same(Step(k, a).s, S9());
  }

  lemma Step9()
    ensures Leads(S9(), Exit(0), S10())
  {
    var k, a := S9(), Exit(0);
    assert Enabled(k, a);
    assert Step(k, a).Go?;
    Same(Step(k, a).s, S10());
  }

  lemma Step10()
    ensures Leads(S10(), Resume, S11())
  {
    hide ExitEnd;
    var k, a := S10(), Resume;
    assert Enabled(k, a);
    assert k.sys.all[3] == 5;
    ExitFinds(k, 5);
    Same(Step(k, a).s, S11());
  }

  lemma Step11()
    ensures Leads(S11(), Exit(0), S12())
  {
    var k, a := S11(), Exit(0);
    assert Enabled(k, a);
    assert Step(k, a).Go?;
    Same(Step(k, a).s, S12());
  }

  lemma Step12()
    ensures Leads(S12(), Resume, S13())
  {
    hide ExitEnd;
    var k, a := S12(), Resume;
    assert Enabled(k, a);
    assert k.sys.all[2] == 4;
    ExitFinds(k, 4);
    Same(Step(k, a).s, S13());
  }

  lemma Steps0To6()
    ensures Leads(S0(), Finish, S1()) && Leads(S1(), Fork(4), S2()) && Leads(S2(), Wait, S3()) && Leads(S3(), Idle, S4())
    ensures Leads(S4(), Fork(5), S5()) && Leads(S5(), YieldCpu, S6()) && Leads(S6(), Fork(6), S7())
  {
    hide Leads, S0, S1, S2, S3, S4, S5, S6, S7;
    Step0(); Step1(); Step2(); Step3(); Step4(); Step5(); Step6();
  }

  lemma Steps7To12()
    ensures Leads(S7(), YieldCpu, S8()) && Leads(S8(), YieldCpu, S9()) && Leads(S9(), Exit(0), S10())
    ensures Leads(S10(), Resume, S11()) && Leads(S11(), Exit(0), S12()) && Leads(S12(), Resume, S13())
  {
    hide Leads, S7, S8, S9, S10, S11, S12, S13;
    Step7(); Step8(); Step9(); Step10(); Step11(); Step12();
  }

  lemma Booted()
    ensures Initial(S0())
  {
    assert S0() == Boot(1, 2, 3, 31, {}) by { Same(S0(), Boot(1, 2, 3, 31, {})); }
  }

  lemma EndsAsleep()
    ensures !InitHears(S13()) && 1 in S13().sys.tasks && S13().sys.tasks[1].status == Waiting && IsHangingChild(S13().sys, 6, 1)
  {
    assert IsHangingChild(S13().sys, 6, 1);
  }

  /** The property fails: in this run init goes to sleep as its code does, and ends asleep with a zombie as its child. */
  lemma InitMayMissAZombie() returns (states: seq<State>, actions: seq<Action>)
    ensures Run(states, actions) && |actions| == 13
    ensures var k := states[13]; !InitHears(k) && 1 in k.sys.tasks && k.sys.tasks[1].status == Waiting && IsHangingChild(k.sys, 6, 1)
  {
    hide Leads, Initial, InitHears, IsHangingChild, S0, S1, S2, S3, S4, S5, S6, S7, S8, S9, S10, S11, S12, S13;
    Booted();
    EndsAsleep();
    Steps0To6();
    Steps7To12();
    states := [S0(), S1(), S2(), S3(), S4(), S5(), S6(), S7(), S8(), S9(), S10(), S11(), S12(), S13()];
    actions := [Finish, Fork(4), Wait, Idle, Fork(5), YieldCpu, Fork(6), YieldCpu, YieldCpu, Exit(0), Resume, Exit(0), Resume];
    forall i | 0 <= i < 13 ensures Leads(states[i], actions[i], states[i + 1]) { }
  }
}
