/** Who gets the processor after a wake-up: the parent that an exit wakes, and the task that a release wakes. */
module WhoRuns {
  import opened Basics
  import opened Lists
  import opened Bitmaps
  import opened Threads
  import opened RoundRobin
  import opened Kernel
  import opened KernelSafety
  import opened ProcessSafety
  import opened KernelRuns

  // ---------------------------------------------------------------- exit and wait

  /** A process that exits while its parent sleeps in wait hands the processor to that parent, ahead of every ready task. */
  lemma ParentRunsNext(k: State, p: Tid)
    requires Inv(k) && k.sys.cur in k.pc && k.pc[k.sys.cur] == Exiting && k.sys.cur in k.sys.tasks && k.sys.cur != k.sys.idle
    requires HasPid(k, p, k.sys.tasks[k.sys.cur].parent) && k.sys.tasks[p].status == Waiting
    ensures ExitEnd(k).Go? && ExitEnd(k).s.sys.cur == p
    ensures ExitEnd(k).s == k.(sys := HandedOver(k.sys, p), pc := k.pc[k.sys.cur := Zombie])
  {
    hide Inv, Unblock, Block, SchedOk;
    var q := ParentFound(k);
    SamePid(k, p, q);
    SchedKnown(k);
    HandOver(k.sys, p);
  }

  /** The running task hangs and `p` runs in its place; the ready queue and all other tasks are as they were. */
  ghost function HandedOver(s: Sys, p: Tid): (z: Sys)
    requires s.cur in s.tasks && p in s.tasks
  {
    s.(cur := p, tasks := s.tasks[s.cur := s.tasks[s.cur].(status := Hanging)][p := s.tasks[p].(status := Running)])
  }

  lemma SchedKnown(k: State)
    requires Inv(k)
    ensures SchedOk(k.sys)
  {
  }

  lemma HandOver(s: Sys, p: Tid)
    requires SchedOk(s) && p in s.tasks && s.tasks[p].status == Waiting && s.cur != s.idle
    ensures Unblock(s, p).Go? && Block(Unblock(s, p).s, Hanging).Go?
    ensures s.cur in s.tasks && Block(Unblock(s, p).s, Hanging).s == HandedOver(s, p)
  {
    WokenRunsNext(s, p, Hanging);
    assert Block(Unblock(s, p).s, Hanging).s.tasks == HandedOver(s, p).tasks;
  }

  /** And the next thing that parent does is to reap exactly that child, with its status. */
  lemma ParentReapsNext(k: State, k': State, p: Tid)
    requires Inv(k) && Leads(k, Resume, k') && k.pc[k.sys.cur] == Exiting && p != k.init
    requires HasPid(k, p, k.sys.tasks[k.sys.cur].parent) && k.sys.tasks[p].status == Waiting
    ensures k'.sys.cur == p && Enabled(k', Resume) && k'.pc[p] == InWait && WaitPass(k').Go?
    ensures var k'' := WaitPass(k').s;
            && k''.log == k.log + [Reaped(k.sys.cur, p, k.sys.tasks[k.sys.cur].exitStatus)]
            && k''.sys.tasks.Keys == k.sys.tasks.Keys - {k.sys.cur} && k''.sys.cur == p && k''.pc[p] == Out
  {
    hide Inv, ExitEnd;
    Self(k);
    var me := k.sys.cur;
    var pid := k.sys.tasks[p].pid;
    ParentRunsNext(k, p);
    StepKeeps(k, Resume);
    WaitingIs(k, p);
    StillFormed(k, k');
    forall c | IsHangingChild(k'.sys, c, pid) ensures c == me { assert c != me ==> IsHangingChild(k.sys, c, pid); }
    AllListed(k');
    OnlyZombie(k', me, pid);
  }

  lemma WaitingIs(k: State, p: Tid)
    requires Inv(k) && p in k.sys.tasks && k.sys.tasks[p].status == Waiting && p != k.init
    ensures p in k.pc && k.pc[p] == InWait && p != k.sys.idle && p != k.sys.cur
    ensures forall c :: !IsHangingChild(k.sys, c, k.sys.tasks[p].pid)
  {
    hide LocksOk, PidsOk, ParentsOk;
    assert PlaceOk(k.locks, p, k.sys.tasks[p].status, k.pc[p], p == k.sys.idle);
    assert WaitOk(k.sys, k.sys.tasks[p].pid);
  }

  lemma StillFormed(k: State, k': State)
    requires Formed(k) && k'.locks == k.locks && k'.pids == k.pids && k'.sys.cur in k.sys.tasks && k.sys.cur in k.sys.tasks
    requires k'.sys.tasks.Keys == k.sys.tasks.Keys && k'.pc == k.pc[k.sys.cur := Zombie]
    requires forall t :: t in k.sys.tasks ==> k'.sys.tasks[t].pid == k.sys.tasks[t].pid
    ensures Formed(k')
  {
  }

  lemma OnlyZombie(k: State, c: Tid, pid: int)
    requires forall t :: t in k.sys.all <==> t in k.sys.tasks
    requires IsHangingChild(k.sys, c, pid) && forall t :: IsHangingChild(k.sys, t, pid) ==> t == c
    ensures FirstIn(k.sys.all, (t: Tid) => IsHangingChild(k.sys, t, pid)) == Some(c)
  {
    var f := (t: Tid) => IsHangingChild(k.sys, t, pid);
    assert c in k.sys.all && f(c);
  }

  // ---------------------------------------------------------------- release

  /** `t` sleeps inside `sema_down` on `l`. */
  ghost predicate Asleep(k: State, l: Lid, t: Tid) {
    t in k.sys.tasks && t in k.pc && k.sys.tasks[t].status == Blocked && k.pc[t] == Sleep(l)
  }

  lemma AsleepIsQueued(k: State, l: Lid, t: Tid)
    requires Inv(k)
    ensures Asleep(k, l, t) <==> Queued(k.locks, l, t)
  {
    hide PidsOk, ParentsOk, WaitersOk, Queues;
    if Queued(k.locks, l, t) { assert LockOk(k.locks[l], k.pc, l); }
    if t in k.pc { assert PlaceOk(k.locks, t, k.sys.tasks[t].status, k.pc[t], t == k.sys.idle); }
  }

  /** A release with sleepers wakes the first of them: whatever takes the processor from the releasing task, by blocking,
      by yielding or by the end of its slice, gives it to the task woken. */
  lemma WaiterRunsNext(k: State, l: Lid, st: Status)
    requires Inv(k) && Enabled(k, Resume) && k.pc[k.sys.cur] == Up(l) && k.locks[l].waiters != []
    requires st in {Blocked, Waiting, Hanging}
    ensures Step(k, Resume).Go?
    ensures var w, y := k.locks[l].waiters[0], Step(k, Resume).s.sys;
            && Asleep(k, l, w) && y.cur == k.sys.cur && y.ready == [w] + k.sys.ready
            && Block(y, st).Go? && Block(y, st).s.cur == w
            && Yield(y).Go? && Yield(y).s.cur == w
            && After(y, y.tasks[y.cur].ticks + 1).cur == w
  {
    hide Inv, SchedOk, Block, Yield, Tick, After;
    Self(k);
    var w := k.locks[l].waiters[0];
    assert Queued(k.locks, l, w);
    AsleepIsQueued(k, l, w);
    SchedKnown(k);
    UpIsFree(k, l);
    WokenRunsNext(k.sys, w, st);
    UnblockKeeps(k.sys, w);
    SliceEnds(Unblock(k.sys, w).s);
  }

  lemma UpIsFree(k: State, l: Lid)
    requires Inv(k) && k.sys.cur in k.pc && k.pc[k.sys.cur] == Up(l) && l in k.locks
    ensures k.locks[l].value == 0
  {
    assert LockOk(k.locks[l], k.pc, l);
    assert Owns(k.locks[l], k.pc, l, k.sys.cur);
  }

  // ---------------------------------------------------------------- first asleep, first woken

  /** A step leaves the sleepers of a lock alone, adds the running task at the end, or takes the first away. */
  lemma WaitersStep(k: State, a: Action, l: Lid)
    requires Enabled(k, a) && Step(k, a).Go? && l in k.locks
    ensures l in Step(k, a).s.locks
    ensures var q, q' := k.locks[l].waiters, Step(k, a).s.locks[l].waiters;
            q' == q || q' == q + [k.sys.cur] || (q != [] && q' == q[1..])
  {
    hide Block, Unblock, Tick, Yield, Schedule;
  }

  /** `t` is queued, and whenever `u` is too, `t` is ahead of it. */
  ghost predicate Ahead(q: seq<Tid>, t: Tid, u: Tid) {
    t in q && (u in q ==> exists a, b :: 0 <= a < b < |q| && q[a] == t && q[b] == u)
  }

  lemma AheadStep(q: seq<Tid>, q': seq<Tid>, t: Tid, u: Tid, x: Tid)
    requires Ahead(q, t, u) && Distinct(q) && t in q' && t != u
    requires q' == q || q' == q + [x] || (q != [] && q' == q[1..])
    ensures Ahead(q', t, u) && (u in q ==> u in q')
  {
    if u in q {
      var a, b :| 0 <= a < b < |q| && q[a] == t && q[b] == u;
      if q' == q + [x] {
        assert q'[a] == t && q'[b] == u;
      } else if q' == q[1..] {
        var i :| 0 <= i < |q'| && q'[i] == t;
        assert q[i + 1] == t;
        assert q'[a - 1] == t && q'[b - 1] == u;
      }
    } else if u in q' {
      var a :| 0 <= a < |q| && q[a] == t;
      assert q' == q + [u] && q'[a] == t && q'[|q|] == u;
    }
  }

  lemma DistinctWaiters(k: State, l: Lid)
    requires Inv(k) && l in k.locks
    ensures Distinct(k.locks[l].waiters)
  {
    assert LockOk(k.locks[l], k.pc, l);
  }

  lemma {:induction false} StaysAhead(states: seq<State>, actions: seq<Action>, i: nat, m: nat, l: Lid, t: Tid, u: Tid)
    requires Run(states, actions) && i <= m < |states| && t != u
    requires forall n :: i <= n <= m ==> Asleep(states[n], l, t)
    requires !Asleep(states[i], l, u)
    ensures l in states[m].locks && Ahead(states[m].locks[l].waiters, t, u)
    decreases m
  {
    hide Inv, Step, Enabled, Ahead;
    RunKeeps(states, actions, m);
    AsleepIsQueued(states[m], l, t);
    if i == m {
      AsleepIsQueued(states[i], l, u);
      AheadFirst(states[i].locks[l].waiters, t, u);
    } else {
      StaysAhead(states, actions, i, m - 1, l, t, u);
      RunKeeps(states, actions, m - 1);
      DistinctWaiters(states[m - 1], l);
      assert Leads(states[m - 1], actions[m - 1], states[m]);
      WaitersStep(states[m - 1], actions[m - 1], l);
      AheadStep(states[m - 1].locks[l].waiters, states[m].locks[l].waiters, t, u, states[m - 1].sys.cur);
    }
  }

  lemma AheadFirst(q: seq<Tid>, t: Tid, u: Tid)
    requires t in q && u !in q
    ensures Ahead(q, t, u)
  {
  }

  /** Semaphores are fair: in every run, as long as `t` sleeps on a lock, nobody who fell asleep on it after `t` is woken. */
  lemma {:induction false} FirstAsleepFirstWoken(states: seq<State>, actions: seq<Action>, i: nat, j: nat, m: nat, l: Lid, t: Tid, u: Tid)
    requires Run(states, actions) && i <= j <= m < |states|
    requires forall n :: i <= n <= m ==> Asleep(states[n], l, t)
    requires !Asleep(states[i], l, u) && Asleep(states[j], l, u)
    ensures Asleep(states[m], l, u)
    decreases m
  {
    hide Inv, Step, Enabled;
    if j < m {
      FirstAsleepFirstWoken(states, actions, i, j, m - 1, l, t, u);
      StaysAhead(states, actions, i, m - 1, l, t, u);
      RunKeeps(states, actions, m - 1);
      RunKeeps(states, actions, m);
      DistinctWaiters(states[m - 1], l);
      AsleepIsQueued(states[m - 1], l, u);
      AsleepIsQueued(states[m], l, t);
      AsleepIsQueued(states[m], l, u);
      assert Leads(states[m - 1], actions[m - 1], states[m]);
      WaitersStep(states[m - 1], actions[m - 1], l);
      AheadStep(states[m - 1].locks[l].waiters, states[m].locks[l].waiters, t, u, states[m - 1].sys.cur);
    }
  }
}
