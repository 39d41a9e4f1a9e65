/** Recursive locks count: in every run a task frees a lock exactly with as many releases as it made acquires. */
module LockDepth {
  import opened Basics
  import opened Lists
  import opened Bitmaps
  import opened Threads
  import opened Kernel
  import opened KernelSafety
  import opened ProcessSafety
  import opened KernelRuns

  /** How many acquires of `l` by `t` are not yet released: one while the first is in progress, then the repeat count. */
  ghost function Depth(k: State, l: Lid, t: Tid): (d: nat) {
    if l !in k.locks || t !in k.pc then 0
    else if k.pc[t] in {Down(l), Sleep(l), Got(l), Named(l)} then 1
    else if k.locks[l].holder == Some(t) then k.locks[l].repeat
    else 0
  }

  /** Calls of `lock_acquire(l)` by `t` among the first `i` steps. */
  ghost function Acquires(states: seq<State>, actions: seq<Action>, i: nat, l: Lid, t: Tid): (n: nat)
    requires i <= |actions| <= |states|
  {
    if i == 0 then 0
    else Acquires(states, actions, i - 1, l, t) + if actions[i - 1] == Acquire(l) && states[i - 1].sys.cur == t then 1 else 0
  }

  /** Calls of `lock_release(l)` by `t` among the first `i` steps. */
  ghost function Releases(states: seq<State>, actions: seq<Action>, i: nat, l: Lid, t: Tid): (n: nat)
    requires i <= |actions| <= |states|
  {
    if i == 0 then 0
    else Releases(states, actions, i - 1, l, t) + if actions[i - 1] == Release(l) && states[i - 1].sys.cur == t then 1 else 0
  }

  /** The change of the depth that a step is due to make. */
  ghost function Change(k: State, a: Action, l: Lid, t: Tid): (d: int) {
    if k.sys.cur != t then 0 else if a == Acquire(l) then 1 else if a == Release(l) then -1 else 0
  }

  lemma LockHolds(k: State, l: Lid)
    requires Inv(k) && l in k.locks
    ensures LockOk(k.locks[l], k.pc, l)
  {
  }

  /** Steps of the scheduler move no place and no lock. */
  lemma SchedDepth(k: State, a: Action, l: Lid, t: Tid)
    requires Enabled(k, a) && Step(k, a).Go? && (a.Timer? || a.YieldCpu? || a.Idle?)
    ensures Depth(Step(k, a).s, l, t) == Depth(k, l, t) + Change(k, a, l, t)
  {
    hide Tick, Yield, Block;
  }

  lemma CallDepth(k: State, a: Action, l: Lid, t: Tid)
    requires Inv(k) && Enabled(k, a) && Step(k, a).Go? && (a.Acquire? || a.Release?)
    ensures Depth(Step(k, a).s, l, t) == Depth(k, l, t) + Change(k, a, l, t)
  {
    hide Inv;
    if l in k.locks { LockHolds(k, l); }
  }

  lemma StepInside(k: State, l: Lid, t: Tid)
    requires Inv(k) && Enabled(k, Resume) && Step(k, Resume).Go? && PcLock(k.pc[k.sys.cur]).Some?
    ensures Depth(Step(k, Resume).s, l, t) == Depth(k, l, t)
  {
    hide Inv, Block, Unblock;
    if l in k.locks { LockHolds(k, l); }
  }

  lemma FamilyDepth(k: State, a: Action, l: Lid, t: Tid)
    requires Inv(k) && Enabled(k, a) && Step(k, a).Go? && (a.Fork? || a.Start? || a.Finish? || a.Exit?)
    ensures Depth(Step(k, a).s, l, t) == Depth(k, l, t)
  {
    hide Inv, Schedule, AllocatePid, Adopt;
    if l in k.locks { LockHolds(k, l); }
    if a.Finish? && l in k.locks { assert !Owns(k.locks[l], k.pc, l, k.sys.cur); }
  }

  lemma WaitDepth(k: State, l: Lid, t: Tid)
    requires Inv(k) && Formed(k) && WaitPass(k).Go? && k.pc[k.sys.cur] in {Out, InWait}
    ensures Depth(WaitPass(k).s, l, t) == Depth(k, l, t)
  {
    hide Inv, Block;
    var pid := k.sys.tasks[k.sys.cur].pid;
    var f := FirstIn(k.sys.all, (t: Tid) => IsHangingChild(k.sys, t, pid));
    if f.Some? && l in k.locks {
      ZombieIs(k, f.v);
      LockHolds(k, l);
      assert PhaseOk(k.locks[l], l, f.v, k.pc[f.v]);
    }
  }

  lemma ZombieIs(k: State, c: Tid)
    requires Inv(k) && c in k.sys.tasks && k.sys.tasks[c].status == Hanging
    ensures c in k.pc && k.pc[c] == Zombie
  {
    hide LocksOk, PidsOk, ParentsOk, WaitersOk, Queues;
    assert PlaceOk(k.locks, c, k.sys.tasks[c].status, k.pc[c], c == k.sys.idle);
  }

  lemma HangDepth(k: State, l: Lid, t: Tid)
    requires Formed(k) && k.pc[k.sys.cur] == Exiting && ExitEnd(k).Go?
    ensures Depth(ExitEnd(k).s, l, t) == Depth(k, l, t)
  {
    hide Block, Unblock;
  }

  /** Acquire raises the caller's depth by one, release lowers it by one, and no other step changes any depth. */
  lemma StepDepth(k: State, a: Action, l: Lid, t: Tid)
    requires Inv(k) && Enabled(k, a) && Step(k, a).Go?
    ensures Depth(Step(k, a).s, l, t) == Depth(k, l, t) + Change(k, a, l, t)
  {
    hide Inv, Depth;
    if a.Timer? || a.YieldCpu? || a.Idle? { SchedDepth(k, a, l, t); }
    else if a.Acquire? || a.Release? { CallDepth(k, a, l, t); }
    else if a.Wait? { WaitDepth(k, l, t); }
    else if a.Resume? {
      if k.pc[k.sys.cur] == InWait { WaitDepth(k, l, t); }
      else if k.pc[k.sys.cur] == Exiting { HangDepth(k, l, t); }
      else { StepInside(k, l, t); }
    }
    else { FamilyDepth(k, a, l, t); }
  }

  /** In every run the depth is the number of acquires less the number of releases. */
  lemma {:induction false} DepthInRuns(states: seq<State>, actions: seq<Action>, i: nat, l: Lid, t: Tid)
    requires Run(states, actions) && i < |states|
    ensures Depth(states[i], l, t) == Acquires(states, actions, i, l, t) - Releases(states, actions, i, l, t)
  {
    hide Inv, Step, Enabled, Depth;
    if i == 0 {
      BootDepth(states[0], l, t);
    } else {
      DepthInRuns(states, actions, i - 1, l, t);
      RunKeeps(states, actions, i - 1);
      assert Leads(states[i - 1], actions[i - 1], states[i]);
      StepDepth(states[i - 1], actions[i - 1], l, t);
    }
  }

  lemma BootDepth(k: State, l: Lid, t: Tid)
    requires Initial(k)
    ensures Depth(k, l, t) == 0
  {
  }

  /** Outside a call, a task holds a lock exactly when it has acquired it more often than released it; the repeat count
      is the difference, so the release that makes the two equal is the one that frees the lock. */
  lemma FreedWhenBalanced(states: seq<State>, actions: seq<Action>, i: nat, l: Lid, t: Tid)
    requires Run(states, actions) && i < |states| && l in states[i].locks && t in states[i].pc && states[i].pc[t] == Out
    ensures var n := Acquires(states, actions, i, l, t) - Releases(states, actions, i, l, t);
            var L := states[i].locks[l];
            && n >= 0
            && (L.holder == Some(t) <==> n > 0)
            && (n > 0 ==> L.repeat == n && L.value == 0)
  {
    DepthInRuns(states, actions, i, l, t);
    RunKeeps(states, actions, i);
    hide Inv;
    LockHolds(states[i], l);
    var L := states[i].locks[l];
    if L.holder == Some(t) { assert Owns(L, states[i].pc, l, t); }
  }
}
