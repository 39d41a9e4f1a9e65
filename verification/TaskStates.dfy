/** States of the step machine as the code changes them: one field, one list or one lock at a time, and what the
    transition functions come to in these terms. */
module TaskStates {
  import opened Basics
  import opened Lists
  import opened TaskLists
  import T = Threads
  import K = Kernel
  import R = KernelRuns

  /** What a lock holds besides its queue. */
  datatype Val = Val(value: nat, holder: Option<T.Tid>, repeat: nat)

  ghost function FreeVals(locks: set<K.Lid>): (m: map<K.Lid, Val>)
    ensures m.Keys == locks
  {
    map l | l in locks :: Val(1, None, 0)
  }

  ghost function LocksOf(vals: map<K.Lid, Val>, ids: Ids): (m: map<K.Lid, K.Lock>) {
    map l | l in vals && l in ids :: K.Lock(vals[l].value, ids[l], vals[l].holder, vals[l].repeat)
  }

  /** In no semaphore's queue. */
  ghost predicate Unqueued(k: K.State, t: T.Tid) { forall l :: l in k.locks ==> t !in k.locks[l].waiters }

  /** A block in no semaphore's queue and not ready can be put in any of them. */
  lemma Unlinked(vals: map<K.Lid, Val>, ids: Ids, ready: int, all: int, k: K.State, t: T.Tid)
    requires ids.Keys == vals.Keys + {ready, all} && ready != all && all !in vals
    requires k.locks == LocksOf(vals, ids) && Unqueued(k, t) && t !in ids[ready]
    ensures Loose(all, ids, ready, t) && forall l :: l in vals ==> Loose(all, ids, l, t)
  {
    forall b | b in ids && b != all ensures t !in ids[b] {
      if b in vals { assert k.locks[b].waiters == ids[b]; }
    }
  }

  lemma LocksSame(vals: map<K.Lid, Val>, ids: Ids, a: int, s: seq<T.Tid>)
    requires a !in vals && vals.Keys <= ids.Keys
    ensures LocksOf(vals, ids[a := s]) == LocksOf(vals, ids)
  {
  }

  lemma LocksAre(vals: map<K.Lid, Val>, ids: Ids)
    requires vals.Keys <= ids.Keys
    ensures LocksOf(vals, ids).Keys == vals.Keys && forall l :: l in vals ==> LocksOf(vals, ids)[l].waiters == ids[l]
  {
  }

  lemma LocksQueue(vals: map<K.Lid, Val>, ids: Ids, l: K.Lid, s: seq<T.Tid>)
    requires l in vals && vals.Keys <= ids.Keys
    ensures LocksOf(vals, ids).Keys == vals.Keys
    ensures LocksOf(vals, ids[l := s]) == LocksOf(vals, ids)[l := LocksOf(vals, ids)[l].(waiters := s)]
  {
  }

  lemma LocksVal(vals: map<K.Lid, Val>, ids: Ids, l: K.Lid, v: Val)
    requires l in ids
    ensures LocksOf(vals[l := v], ids) == LocksOf(vals, ids)[l := K.Lock(v.value, ids[l], v.holder, v.repeat)]
  {
  }

  /** In no queue but perhaps that of `l`. */
  ghost predicate UnqueuedBut(k: K.State, l: K.Lid, t: T.Tid) {
    forall m :: m in k.locks && m != l ==> t !in k.locks[m].waiters
  }

  ghost function WithTask(k: K.State, t: T.Tid, x: T.Task): (k': K.State) {
    k.(sys := k.sys.(tasks := k.sys.tasks[t := x]))
  }

  ghost function WithAll(k: K.State, a: seq<T.Tid>): (k': K.State) { k.(sys := k.sys.(all := a)) }

  ghost function Waiters(k: K.State, l: K.Lid): (w: seq<T.Tid>) { if l in k.locks then k.locks[l].waiters else [] }

  ghost function WithWaiters(k: K.State, l: K.Lid, w: seq<T.Tid>): (k': K.State) {
    if l in k.locks then WithLock(k, l, k.locks[l].(waiters := w)) else k
  }

  ghost function WithLock(k: K.State, l: K.Lid, L: K.Lock): (k': K.State) { k.(locks := k.locks[l := L]) }

  ghost function WithReady(k: K.State, r: seq<T.Tid>): (k': K.State) { k.(sys := k.sys.(ready := r)) }

  /** The state once the current task has joined the queue of `l` and given up the processor. */
  ghost function Slept(k: K.State, l: K.Lid): (k': K.State)
    requires k.sys.cur in k.sys.tasks && T.Block(k.sys, T.Blocked).Go?
  {
    WithWaiters(k, l, Waiters(k, l) + [k.sys.cur]).(sys := T.Block(k.sys, T.Blocked).s, pc := k.pc[k.sys.cur := K.Sleep(l)])
  }

  /** The state once the first waiter of `l` is ready. */
  ghost function Woke(k: K.State, l: K.Lid): (k': K.State)
    requires Waiters(k, l) != [] && Waiters(k, l)[0] in k.sys.tasks && T.Unblock(k.sys, Waiters(k, l)[0]).Go?
  {
    WithWaiters(k, l, Waiters(k, l)[1..]).(sys := T.Unblock(k.sys, Waiters(k, l)[0]).s)
  }

  /** A lock's fields are written and the current task goes on to `p`. */
  ghost function Wrote(k: K.State, l: K.Lid, v: Val, p: K.Pc): (k': K.State) {
    WithLock(k, l, K.Lock(v.value, Waiters(k, l), v.holder, v.repeat)).(pc := k.pc[k.sys.cur := p])
  }

  lemma SemaDownIs(k: K.State, l: K.Lid)
    requires l in k.locks && k.sys.cur in k.sys.tasks
    ensures var L, r := k.locks[l], K.SemaDown(k, l);
            if L.value == 0 then
              && (r.Panic? <==> k.sys.cur in Waiters(k, l) || T.Block(k.sys, T.Blocked).Panic?)
              && (r.Go? ==> r.s == Slept(k, l))
            else
              && (r.Panic? <==> L.value - 1 != 0)
              && (r.Go? ==> r.s == Wrote(k, l, Val(L.value - 1, L.holder, L.repeat), K.Got(l)))
  {
  }

  lemma SemaUpIs(k: K.State, l: K.Lid)
    requires l in k.locks
    ensures var L, r := k.locks[l], K.SemaUp(k, l);
            && (L.value != 0 ==> r.Panic?)
            && (L.value == 0 && L.waiters == [] ==> r == Go(Wrote(k, l, Val(1, L.holder, L.repeat), K.Out)))
            && (L.value == 0 && L.waiters != [] && L.waiters[0] in k.sys.tasks ==>
                 && (r.Panic? <==> T.Unblock(k.sys, L.waiters[0]).Panic?)
                 && (r.Go? ==> l in Woke(k, l).locks && Woke(k, l).locks[l].value == 0 && Woke(k, l).locks[l].holder == L.holder
                               && Woke(k, l).locks[l].repeat == L.repeat && r.s == Wrote(Woke(k, l), l, Val(1, L.holder, L.repeat), K.Out)))
  {
  }

  /** The current task is between two steps of `lock_acquire` or `lock_release`. */
  ghost predicate Stepping(k: K.State) {
    k.sys.cur in k.sys.tasks && k.sys.cur in k.pc && K.PcLock(k.pc[k.sys.cur]).Some? && k.pc[k.sys.cur].lock in k.locks
  }

  lemma LockStepIs(k: K.State)
    requires Stepping(k)
    ensures var pc, l := k.pc[k.sys.cur], k.pc[k.sys.cur].lock;
            var L, r := k.locks[l], K.LockStep(k, pc);
            match pc
            case Down(_) => r == K.SemaDown(k, l)
            case Sleep(_) => r == K.SemaDown(k, l)
            case Got(_) => r == Go(Wrote(k, l, Val(L.value, Some(k.sys.cur), L.repeat), K.Named(l)))
            case Named(_) => r == if L.repeat != 0 then Panic else Go(Wrote(k, l, Val(L.value, L.holder, 1), K.Out))
            case Unnamed(_) => r == Go(Wrote(k, l, Val(L.value, L.holder, 0), K.Up(l)))
            case Up(_) => r == K.SemaUp(k, l)
            case _ => true
  {
  }

  /** A new task at the end of both lists. */
  ghost function Listed(k: K.State, t: T.Tid, x: T.Task): (k': K.State) {
    k.(sys := k.sys.(tasks := k.sys.tasks[t := x], all := k.sys.all + [t], ready := k.sys.ready + [t]), pc := k.pc[t := K.Out])
  }

  lemma {:induction false} WithoutAbsent(s: seq<T.Tid>, t: T.Tid)
    ensures t !in s ==> Without(s, t) == s
    decreases |s|
  {
    if s != [] { WithoutAbsent(s[1..], t); }
  }

  ghost function Unlisted(k: K.State, t: T.Tid): (k': K.State)
    ensures k' == k.(sys := k'.sys) && k'.sys == k.sys.(all := k'.sys.all, ready := k'.sys.ready)
  {
    k.(sys := k.sys.(all := Without(k.sys.all, t), ready := Without(k.sys.ready, t)))
  }

  ghost predicate Listing(k: K.State, t: T.Tid) { t in k.sys.tasks && 1 <= k.sys.tasks[t].pid <= |k.pids| }

  lemma DelistIs(k: K.State, t: T.Tid, x: T.Task)
    requires Listing(k, t)
    ensures var u := Unlisted(WithTask(k, t, x), t);
            && K.Delist(k, t) == u.(sys := u.sys.(tasks := u.sys.tasks - {t}), pc := u.pc - {t}, pids := u.pids[k.sys.tasks[t].pid - 1 := false])
            && (Unqueued(k, t) ==> Unqueued(u, t))
  {
    hide Without;
    assert WithTask(k, t, x).sys.tasks - {t} == k.sys.tasks - {t};
  }

  /** What a callback on a control block says about its task. */
  function Accepting(y: T.Sys, accepts: T.Task -> bool): (f: T.Tid -> bool) {
    (t: T.Tid) => t in y.tasks && accepts(y.tasks[t])
  }

  /** The children of `pid` among the first `i` listed tasks have been given to init. */
  ghost predicate AdoptedTo(y: T.Sys, pid: int, i: int, tasks: map<T.Tid, T.Task>) {
    && 0 <= i <= |y.all| && tasks.Keys == y.tasks.Keys
    && forall t :: t in y.tasks ==> tasks[t] == if t in y.all[..i] && y.tasks[t].parent == pid then y.tasks[t].(parent := 1) else y.tasks[t]
  }

  lemma AdoptStep(y: T.Sys, pid: int, i: int, tasks: map<T.Tid, T.Task>)
    requires AdoptedTo(y, pid, i, tasks) && i < |y.all| && y.all[i] in tasks
    ensures var t := y.all[i];
            if tasks[t].parent == pid then AdoptedTo(y, pid, i + 1, tasks[t := tasks[t].(parent := 1)]) else AdoptedTo(y, pid, i + 1, tasks)
  {
    assert y.all[..i + 1] == y.all[..i] + [y.all[i]];
  }

  lemma AdoptEnd(y: T.Sys, pid: int, tasks: map<T.Tid, T.Task>)
    requires AdoptedTo(y, pid, |y.all|, tasks) && forall t :: t in y.all <==> t in y.tasks
    ensures y.(tasks := tasks) == K.Adopt(y, pid)
  {
    assert y.all[..|y.all|] == y.all;
    forall t | t in y.tasks ensures tasks[t] == K.Adopt(y, pid).tasks[t] { assert t in y.all; }
  }

  /** The callbacks of the traversals. */
  function PidIs(pid: int): (f: T.Task -> bool) { (x: T.Task) => x.pid == pid }

  function ChildOf(pid: int): (f: T.Task -> bool) { (x: T.Task) => x.parent == pid }

  function HangingChildOf(pid: int): (f: T.Task -> bool) { (x: T.Task) => x.parent == pid && x.status == T.Hanging }

  lemma {:induction false} FirstSame(q: seq<T.Tid>, f: T.Tid -> bool, g: T.Tid -> bool)
    requires forall t :: t in q ==> f(t) == g(t)
    ensures K.FirstIn(q, f) == K.FirstIn(q, g)
    decreases |q|
  {
    if q != [] {
      var h := q[0];
      assert h in q;
      assert f(h) == g(h);
      assert forall t :: t in q[1..] ==> t in q;
      FirstSame(q[1..], f, g);
    }
  }

  /** Whoever is in a semaphore's queue is blocked, and is not idle. */
  ghost predicate Tidy(k: K.State) {
    forall l, t :: K.Queued(k.locks, l, t) ==> t in k.sys.tasks && k.sys.tasks[t].status == T.Blocked && t != k.sys.idle
  }

  lemma TidyMeans(k: K.State)
    requires Tidy(k)
    ensures Unqueued(k, k.sys.idle) && forall t :: t in k.sys.tasks && k.sys.tasks[t].status != T.Blocked ==> Unqueued(k, t)
    ensures forall t, l :: t in k.sys.tasks && k.sys.tasks[t].status != T.Blocked ==> UnqueuedBut(k, l, t)
  {
    forall l | l in k.locks ensures k.sys.idle !in k.locks[l].waiters { assert !K.Queued(k.locks, l, k.sys.idle); }
    forall l, t | l in k.locks && t in k.sys.tasks && k.sys.tasks[t].status != T.Blocked
      ensures t !in k.locks[l].waiters
    {
      assert !K.Queued(k.locks, l, t);
    }
  }

  lemma SameLocks(k: K.State, k': K.State, t: T.Tid)
    requires k'.locks == k.locks && Unqueued(k, t)
    ensures Unqueued(k', t)
  {
  }

  /** The task that `pid2thread` finds for the current task's parent. */
  ghost function ParentOf(y: T.Sys): (p: Option<T.Tid>)
    requires y.cur in y.tasks
  {
    K.FirstIn(y.all, Accepting(y, PidIs(y.tasks[y.cur].parent)))
  }

  lemma ExitEndIs(k: K.State)
    requires k.sys.cur in k.sys.tasks
    ensures var p, r := ParentOf(k.sys), K.ExitEnd(k);
            && (p.None? ==> r.Panic?)
            && (p.Some? ==> p.v in k.sys.tasks)
            && (p.Some? && k.sys.tasks[p.v].status != T.Waiting ==>
                 && (r.Panic? <==> T.Block(k.sys, T.Hanging).Panic?)
                 && (r.Go? ==> r.s == k.(sys := T.Block(k.sys, T.Hanging).s, pc := k.pc[k.sys.cur := K.Zombie])))
            && (p.Some? && k.sys.tasks[p.v].status == T.Waiting ==>
                 var u := T.Unblock(k.sys, p.v);
                 && (u.Panic? ==> r.Panic?)
                 && (u.Go? ==> && u.s.cur in u.s.tasks
                               && (r.Panic? <==> T.Block(u.s, T.Hanging).Panic?)
                               && (r.Go? ==> r.s == k.(sys := T.Block(u.s, T.Hanging).s, pc := k.pc[k.sys.cur := K.Zombie]))))
  {
    hide T.Block;
    var y := k.sys;
    FirstSame(y.all, Accepting(y, PidIs(y.tasks[y.cur].parent)),
              (t: T.Tid) => t in k.sys.tasks && k.sys.tasks[t].pid == k.sys.tasks[k.sys.cur].parent);
  }

  ghost predicate PidsIn(k: K.State) { forall t :: t in k.sys.tasks ==> 1 <= k.sys.tasks[t].pid <= |k.pids| }

  /** The state once the current task has reaped `c`. */
  ghost function Reaping(k: K.State, c: T.Tid): (k': K.State)
    requires Listing(k, c)
  {
    var d := K.Delist(k, c);
    d.(pc := d.pc[k.sys.cur := K.Out], log := k.log + [K.Reaped(c, k.sys.cur, k.sys.tasks[c].exitStatus)])
  }

  lemma DelistKeeps(k: K.State, t: T.Tid)
    requires Listing(k, t)
    ensures var d := K.Delist(k, t);
            d.locks == k.locks && d.log == k.log && d.sys.cur == k.sys.cur && d.sys.idle == k.sys.idle && t !in d.sys.tasks
  {
    hide Without;
  }

  lemma WaitPassIs(k: K.State)
    requires k.sys.cur in k.sys.tasks && PidsIn(k)
    ensures var y, r := k.sys, K.WaitPass(k);
            var pid := y.tasks[y.cur].pid;
            var h, c := K.FirstIn(y.all, Accepting(y, HangingChildOf(pid))), K.FirstIn(y.all, Accepting(y, ChildOf(pid)));
            && (h.Some? ==> && h.v in y.all && Listing(k, h.v) && y.tasks[h.v].status == T.Hanging && r == Go(Reaping(k, h.v)))
            && (h.None? && c.None? ==> r == Go(k.(pc := k.pc[y.cur := K.Out])))
            && (h.None? && c.Some? ==>
                 && (r.Panic? <==> T.Block(y, T.Waiting).Panic?)
                 && (r.Go? ==> r.s == k.(sys := T.Block(y, T.Waiting).s, pc := k.pc[y.cur := K.InWait])))
  {
    hide T.Block, Without;
    var y := k.sys;
    var pid := y.tasks[y.cur].pid;
    FirstSame(y.all, Accepting(y, HangingChildOf(pid)), (t: T.Tid) => K.IsHangingChild(k.sys, t, pid));
    FirstSame(y.all, Accepting(y, ChildOf(pid)), (t: T.Tid) => K.IsChild(k.sys, t, pid));
  }

  /** What `sys_wait` has come to: the caller sleeps, it has no child, or a child was reaped. */
  datatype Waited = Sleeps | NoChild | Got(pid: int, status: int)

  /** What each result means, before (`k`) and after (`k'`): no child is listed; or some are and none hangs; or the first
      listed child that hangs is gone, and the caller has its pid and its exit status. */
  ghost predicate WaitMeans(k: K.State, k': K.State, w: Waited)
    requires k.sys.cur in k.sys.tasks
  {
    var me, pid := k.sys.cur, k.sys.tasks[k.sys.cur].pid;
    match w
    case NoChild => (forall t :: t in k.sys.all ==> !K.IsChild(k.sys, t, pid)) && k' == k.(pc := k.pc[me := K.Out])
    case Sleeps => && (exists t :: t in k.sys.all && K.IsChild(k.sys, t, pid))
                   && (forall t :: t in k.sys.all ==> !K.IsHangingChild(k.sys, t, pid))
                   && me in k'.pc && k'.pc[me] == K.InWait
    case Got(child, status) => exists i :: 0 <= i < |k.sys.all| && Eldest(k, k', i, child, status)
  }

  ghost predicate Eldest(k: K.State, k': K.State, i: int, child: int, status: int)
    requires k.sys.cur in k.sys.tasks && 0 <= i < |k.sys.all|
  {
    var c, pid := k.sys.all[i], k.sys.tasks[k.sys.cur].pid;
    && K.IsHangingChild(k.sys, c, pid) && (forall j :: 0 <= j < i ==> !K.IsHangingChild(k.sys, k.sys.all[j], pid))
    && child == k.sys.tasks[c].pid && status == k.sys.tasks[c].exitStatus
    && k'.sys.tasks == k.sys.tasks - {c} && k'.log == k.log + [K.Reaped(c, k.sys.cur, status)]
  }

  lemma ReapMeans(k: K.State, c: T.Tid)
    requires k.sys.cur in k.sys.tasks && Listing(k, c)
    requires K.FirstIn(k.sys.all, Accepting(k.sys, HangingChildOf(k.sys.tasks[k.sys.cur].pid))) == Some(c)
    ensures WaitMeans(k, Reaping(k, c), Got(k.sys.tasks[c].pid, k.sys.tasks[c].exitStatus))
  {
    var f := Accepting(k.sys, HangingChildOf(k.sys.tasks[k.sys.cur].pid));
    var i := K.FirstInIsFirst(k.sys.all, f);
    forall j | 0 <= j < i ensures !K.IsHangingChild(k.sys, k.sys.all[j], k.sys.tasks[k.sys.cur].pid) { assert !f(k.sys.all[j]); }
    assert Eldest(k, Reaping(k, c), i, k.sys.tasks[c].pid, k.sys.tasks[c].exitStatus);
  }

  lemma LoneMeans(k: K.State)
    requires k.sys.cur in k.sys.tasks && K.FirstIn(k.sys.all, Accepting(k.sys, ChildOf(k.sys.tasks[k.sys.cur].pid))).None?
    ensures WaitMeans(k, k.(pc := k.pc[k.sys.cur := K.Out]), NoChild)
  {
    var f := Accepting(k.sys, ChildOf(k.sys.tasks[k.sys.cur].pid));
    forall t | t in k.sys.all ensures !K.IsChild(k.sys, t, k.sys.tasks[k.sys.cur].pid) { assert !f(t); }
  }

  lemma SleepMeans(k: K.State, y: T.Sys)
    requires k.sys.cur in k.sys.tasks
    requires K.FirstIn(k.sys.all, Accepting(k.sys, HangingChildOf(k.sys.tasks[k.sys.cur].pid))).None?
    requires K.FirstIn(k.sys.all, Accepting(k.sys, ChildOf(k.sys.tasks[k.sys.cur].pid))).Some?
    ensures WaitMeans(k, k.(sys := y, pc := k.pc[k.sys.cur := K.InWait]), Sleeps)
  {
    var pid := k.sys.tasks[k.sys.cur].pid;
    var f, g := Accepting(k.sys, HangingChildOf(pid)), Accepting(k.sys, ChildOf(pid));
    forall t | t in k.sys.all ensures !K.IsHangingChild(k.sys, t, pid) { assert !f(t); }
    var c := K.FirstIn(k.sys.all, g).v;
    assert g(c) && K.IsChild(k.sys, c, pid);
  }

  /** What the code relies on in every state of a run. */
  lemma InvGives(k: K.State)
    requires K.Inv(k)
    ensures Tidy(k) && PidsIn(k) && k.sys.idle in k.sys.tasks && k.sys.tasks[k.sys.idle].status != T.Hanging
    ensures k.sys.cur in k.sys.tasks && k.sys.tasks[k.sys.cur].status == T.Running && k.sys.cur !in k.sys.ready
    ensures forall t :: t in k.sys.all <==> t in k.sys.tasks
  {
    forall l, t | K.Queued(k.locks, l, t)
      ensures t in k.sys.tasks && k.sys.tasks[t].status == T.Blocked && t != k.sys.idle
    {
      assert K.LockOk(k.locks[l], k.pc, l);
      assert K.PlaceOk(k.locks, t, k.sys.tasks[t].status, k.pc[t], t == k.sys.idle);
    }
  }

  lemma SleepsAt(k: K.State, l: K.Lid, t: T.Tid)
    requires K.LocksOk(k.locks, k.pc) && l in k.locks && t in k.locks[l].waiters
    ensures t in k.pc && k.pc[t] == K.Sleep(l)
  {
    assert K.LockOk(k.locks[l], k.pc, l);
  }

  /** The first waiter of a lock is in no other queue. */
  lemma FirstWaiter(k: K.State, l: K.Lid)
    requires K.LocksOk(k.locks, k.pc) && l in k.locks && Waiters(k, l) != []
    ensures Unqueued(WithWaiters(k, l, Waiters(k, l)[1..]), Waiters(k, l)[0])
  {
    var w := k.locks[l].waiters;
    assert K.LockOk(k.locks[l], k.pc, l);
    T.TailKeepsDistinct(w);
    SleepsAt(k, l, w[0]);
    forall m | m in k.locks && m != l ensures w[0] !in k.locks[m].waiters {
      if w[0] in k.locks[m].waiters { SleepsAt(k, m, w[0]); }
    }
  }

  /** A state of a run, and a step that may be taken in it. */
  ghost predicate Ready(k: K.State, a: K.Action) { K.Inv(k) && K.Enabled(k, a) }

  /** The step is one of the two calls that stop the kernel. */
  ghost predicate Stops(k: K.State, a: K.Action) { k.sys.cur in k.sys.tasks && R.Fatal(k, a) }

  /** The step leads to `k'`, where the invariant holds again. */
  ghost predicate Moves(k: K.State, a: K.Action, k': K.State) { R.Leads(k, a, k') && K.Inv(k') }

  /** What a step does, and what the code may rely on when it takes it. */
  lemma StepGives(k: K.State, a: K.Action)
    requires Ready(k, a)
    ensures K.Enabled(k, a) && (Stops(k, a) <==> K.Step(k, a).Panic?) && (K.Step(k, a).Go? ==> Moves(k, a, K.Step(k, a).s))
    ensures Tidy(k) && PidsIn(k) && k.sys.idle in k.sys.tasks && k.sys.tasks[k.sys.idle].status != T.Hanging
    ensures k.sys.cur in k.sys.tasks && k.sys.tasks[k.sys.cur].status == T.Running && k.sys.cur !in k.sys.ready && Listing(k, k.sys.cur)
    ensures forall t :: t in k.sys.all <==> t in k.sys.tasks
    ensures k.sys.cur in k.pc && (!a.Timer? && !a.Idle? ==> k.sys.cur != k.sys.idle)
    ensures a.Acquire? || a.Release? ==> a.lock in k.locks
    ensures a.Fork? || a.Start? ==> a.child !in k.sys.tasks
    ensures a.Resume? && k.pc[k.sys.cur] !in {K.InWait, K.Exiting} ==> Stepping(k) && HeadFree(k, k.pc[k.sys.cur].lock)
  {
    hide K.Inv, K.Step, Tidy, PidsIn;
    R.StepKeeps(k, a);
    InvGives(k);
    PidOf(k, k.sys.cur);
    if a.Resume? && k.pc[k.sys.cur] !in {K.InWait, K.Exiting} {
      R.PcHasLock(k);
      HeadIsFree(k, k.pc[k.sys.cur].lock);
    }
  }

  lemma PidOf(k: K.State, t: T.Tid)
    requires PidsIn(k) && t in k.sys.tasks
    ensures Listing(k, t)
  {
  }

  /** Once it has left the queue of `l`, its first waiter is in no queue. */
  ghost predicate HeadFree(k: K.State, l: K.Lid) {
    Waiters(k, l) != [] ==> Unqueued(WithWaiters(k, l, Waiters(k, l)[1..]), Waiters(k, l)[0])
  }

  lemma HeadIsFree(k: K.State, l: K.Lid)
    requires K.Inv(k) && l in k.locks
    ensures HeadFree(k, l)
  {
    hide K.LocksOk, Unqueued, WithWaiters;
    if Waiters(k, l) != [] { FirstWaiter(k, l); }
  }

  lemma RunStep(states: seq<K.State>, actions: seq<K.Action>, i: nat)
    requires R.Run(states, actions) && i < |actions|
    ensures Ready(states[i], actions[i]) && !Stops(states[i], actions[i])
    ensures forall k :: Moves(states[i], actions[i], k) ==> k == states[i + 1]
  {
    hide K.Inv, K.Enabled, K.Step, R.Fatal;
    R.RunKeeps(states, actions, i);
    assert R.Leads(states[i], actions[i], states[i + 1]);
    R.StepKeeps(states[i], actions[i]);
  }
}
