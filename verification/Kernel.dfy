/** The kernel as a step machine: the scheduler, recursive locks over binary semaphores
    (thread/sync.c) and the process life cycle (fork, wait, exit, pid recycling).

    One processor; the task that has it takes the next step.  Code that runs with interrupts
    disabled is one step.  `lock_acquire` and `lock_release` run with interrupts enabled, so every
    write they make outside `sema_down` and `sema_up` is a step of its own, and the timer may
    take the processor away between any two steps. */
module Kernel {
  import opened Basics
  import opened Lists
  import opened Threads
  import opened Bitmaps

  type Lid = int      // the address of a lock

  datatype Lock = Lock(value: nat, waiters: seq<Tid>, holder: Option<Tid>, repeat: nat)

  /** Where a task is inside the kernel code modelled here. */
  datatype Pc =
    | Out                  // anywhere else
    | Down(lock: Lid)      // found another holder, about to call sema_down
    | Sleep(lock: Lid)     // inside the loop of sema_down: queued, or woken and due to retry
    | Got(lock: Lid)       // sema_down returned, holder not yet written
    | Named(lock: Lid)     // holder written, repeat count not yet
    | Unnamed(lock: Lid)   // releasing: holder cleared, repeat count not yet
    | Up(lock: Lid)        // about to call sema_up
    | InWait               // inside the loop of sys_wait
    | Exiting              // in sys_exit, children given away, parent not yet told
    | Zombie               // exited, not yet reaped

  /** The history of exits (with the argument of `exit`) and of reaped children (with the status the parent saw). */
  datatype Event = Exited(who: Tid, status: int) | Reaped(who: Tid, parent: Tid, status: int)

  datatype State = State(sys: Sys, locks: map<Lid, Lock>, pc: map<Tid, Pc>, pids: seq<bool>, init: Tid, log: seq<Event>)

  datatype Action =
    | Timer
    | YieldCpu
    | Idle
    | Acquire(lock: Lid)
    | Release(lock: Lid)
    | Fork(child: Tid)
    | Start(child: Tid, priority: nat)
    | Finish
    | Exit(status: int)
    | Wait
    | Resume                // the next step of a call in progress

  // ---------------------------------------------------------------- locks

  /** `sema_down`, one pass of its loop. */
  function SemaDown(k: State, l: Lid): (r: Outcome<State>)
    requires l in k.locks && k.sys.cur in k.sys.tasks
  {
    var me, L := k.sys.cur, k.locks[l];
    if L.value == 0 then
      if me in L.waiters then Panic
      else
        var y :- Block(k.sys, Blocked);
        Go(k.(sys := y, locks := k.locks[l := L.(waiters := L.waiters + [me])], pc := k.pc[me := Sleep(l)]))
    else if L.value - 1 != 0 then Panic
    else Go(k.(locks := k.locks[l := L.(value := L.value - 1)], pc := k.pc[me := Got(l)]))
  }

  /** `sema_up` */
  function SemaUp(k: State, l: Lid): (r: Outcome<State>)
    requires l in k.locks
  {
    var me, L := k.sys.cur, k.locks[l];
    if L.value != 0 then Panic
    else if L.waiters == [] then
      Go(k.(locks := k.locks[l := L.(value := 1)], pc := k.pc[me := Out]))
    else if L.waiters[0] !in k.sys.tasks then Panic
    else
      var y :- Unblock(k.sys, L.waiters[0]);
      Go(k.(sys := y, locks := k.locks[l := L.(value := 1, waiters := L.waiters[1..])], pc := k.pc[me := Out]))
  }

  /** `lock_acquire` up to the call of `sema_down`. */
  function LockAcquire(k: State, l: Lid): (r: State)
    requires l in k.locks
  {
    var me, L := k.sys.cur, k.locks[l];
    if L.holder != Some(me) then k.(pc := k.pc[me := Down(l)])
    else k.(locks := k.locks[l := L.(repeat := L.repeat + 1)])
  }

  /** `lock_release` up to the first write after its tests. */
  function LockRelease(k: State, l: Lid): (r: Outcome<State>)
    requires l in k.locks
  {
    var me, L := k.sys.cur, k.locks[l];
    if L.holder != Some(me) then Panic
    else if L.repeat > 1 then Go(k.(locks := k.locks[l := L.(repeat := L.repeat - 1)]))
    else if L.repeat != 1 then Panic
    else Go(k.(locks := k.locks[l := L.(holder := None)], pc := k.pc[me := Unnamed(l)]))
  }

  /** The step that follows `pc`, for the states inside `lock_acquire` and `lock_release`. */
  function LockStep(k: State, pc: Pc): (r: Outcome<State>)
    requires k.sys.cur in k.sys.tasks
    requires (pc.Down? || pc.Sleep? || pc.Got? || pc.Named? || pc.Unnamed? || pc.Up?) && pc.lock in k.locks
  {
    var me, l := k.sys.cur, pc.lock;
    var L := k.locks[l];
    match pc
    case Down(_) => SemaDown(k, l)
    case Sleep(_) => SemaDown(k, l)
    case Got(_) => Go(k.(locks := k.locks[l := L.(holder := Some(me))], pc := k.pc[me := Named(l)]))
    case Named(_) => if L.repeat != 0 then Panic
                     else Go(k.(locks := k.locks[l := L.(repeat := 1)], pc := k.pc[me := Out]))
    case Unnamed(_) => Go(k.(locks := k.locks[l := L.(repeat := 0)], pc := k.pc[me := Up(l)]))
    case Up(_) => SemaUp(k, l)
  }

  // ---------------------------------------------------------------- processes

  /** `allocate_pid`: the scan of a full bitmap panics. */
  function AllocatePid(k: State): (r: Outcome<int>) {
    match FirstFit(k.pids, 1)
    case NoFit => Panic
    case Start(i) => Go(i + 1)
  }

  /** A new task at the end of both lists. */
  function Enlist(k: State, t: Tid, task: Task): (r: State)
    requires 1 <= task.pid <= |k.pids|
  {
    k.(sys := k.sys.(tasks := k.sys.tasks[t := task], all := k.sys.all + [t], ready := k.sys.ready + [t]),
       pc := k.pc[t := Out], pids := k.pids[task.pid - 1 := true])
  }

  /** `sys_fork`: the child's control block is a copy but for identity, parent, state and slice. */
  function ForkTask(k: State, child: Tid): (r: Outcome<State>)
    requires k.sys.cur in k.sys.tasks
  {
    var me := k.sys.tasks[k.sys.cur];
    FitOne(k.pids);
    var pid :- AllocatePid(k);
    Go(Enlist(k, child, me.(pid := pid, status := Ready, ticks := me.priority, parent := me.pid)))
  }

  /** `thread_start` */
  function StartThread(k: State, child: Tid, priority: nat): (r: Outcome<State>) {
    FitOne(k.pids);
    var pid :- AllocatePid(k);
    Go(Enlist(k, child, Task(Ready, priority, priority, pid, -1, 0, false)))
  }

  /** `thread_exit` without the final call of `schedule`. */
  function Delist(k: State, t: Tid): (r: State)
    requires t in k.sys.tasks && 1 <= k.sys.tasks[t].pid <= |k.pids|
  {
    k.(sys := k.sys.(tasks := k.sys.tasks - {t}, all := Without(k.sys.all, t), ready := Without(k.sys.ready, t)),
       pc := k.pc - {t}, pids := k.pids[k.sys.tasks[t].pid - 1 := false])
  }

  /** A thread ends itself. */
  function FinishThread(k: State): (r: Outcome<State>)
    requires k.sys.cur in k.sys.tasks && 1 <= k.sys.tasks[k.sys.cur].pid <= |k.pids|
  {
    var d := Delist(k, k.sys.cur);
    var y :- Schedule(d.sys);
    Go(d.(sys := y))
  }

  /** The first listed task that satisfies a list callback. */
  function FirstIn(q: seq<Tid>, p: Tid -> bool): (r: Option<Tid>)
    ensures r.None? ==> forall t :: t in q ==> !p(t)
    ensures r.Some? ==> r.v in q && p(r.v)
  {
    if q == [] then None else if p(q[0]) then Some(q[0]) else FirstIn(q[1..], p)
  }

  /** It is the first: nobody listed before satisfies the callback. */
  lemma {:induction false} FirstInIsFirst(q: seq<Tid>, p: Tid -> bool) returns (i: nat)
    requires FirstIn(q, p).Some?
    ensures i < |q| && FirstIn(q, p) == Some(q[i]) && p(q[i]) && forall j :: 0 <= j < i ==> !p(q[j])
  {
    if p(q[0]) {
      i := 0;
    } else {
      var k := FirstInIsFirst(q[1..], p);
      i := k + 1;
    }
  }

  predicate IsChild(y: Sys, t: Tid, pid: int) {
    t in y.tasks && y.tasks[t].parent == pid
  }

  predicate IsHangingChild(y: Sys, t: Tid, pid: int) {
    IsChild(y, t, pid) && y.tasks[t].status == Hanging
  }

  /** `init_adopt_a_child` over the list: the children of `pid` become children of init. */
  function Adopt(y: Sys, pid: int): (r: Sys) {
    y.(tasks := map t | t in y.tasks :: if y.tasks[t].parent == pid then y.tasks[t].(parent := 1) else y.tasks[t])
  }

  /** The status a parent sees is the low byte, as a signed number. */
  function Byte(status: int): (b: int)
    ensures -128 <= b < 128 && (status - b) % 256 == 0
  {
    var m := status % 256;
    if m < 128 then m else m - 256
  }

  /** `sys_exit` up to the release of the process's resources. */
  function ExitBegin(k: State, status: int): (r: Outcome<State>)
    requires k.sys.cur in k.sys.tasks
  {
    var me := k.sys.cur;
    var task := k.sys.tasks[me];
    if task.parent == -1 then Panic
    else
      var y := k.sys.(tasks := k.sys.tasks[me := task.(exitStatus := Byte(status))]);
      Go(k.(sys := Adopt(y, task.pid), pc := k.pc[me := Exiting], log := k.log + [Exited(me, status)]))
  }

  /** The rest of `sys_exit`: wake a waiting parent, then hang. */
  function ExitEnd(k: State): (r: Outcome<State>)
    requires k.sys.cur in k.sys.tasks
  {
    var me := k.sys.cur;
    var task := k.sys.tasks[me];
    match FirstIn(k.sys.all, (t: Tid) => t in k.sys.tasks && k.sys.tasks[t].pid == task.parent)
    case None => Panic                       // pid2thread returns NULL and is dereferenced
    case Some(p) =>
      var y :- if k.sys.tasks[p].status == Waiting then Unblock(k.sys, p) else Go(k.sys);
      var z :- Block(y, Hanging);
      Go(k.(sys := z, pc := k.pc[me := Zombie]))
  }

  /** `sys_wait`, one pass of its loop. */
  function WaitPass(k: State): (r: Outcome<State>)
    requires k.sys.cur in k.sys.tasks
    requires forall t :: t in k.sys.tasks ==> 1 <= k.sys.tasks[t].pid <= |k.pids|
  {
    var me := k.sys.cur;
    var pid := k.sys.tasks[me].pid;
    match FirstIn(k.sys.all, (t: Tid) => IsHangingChild(k.sys, t, pid))
    case Some(c) =>
      Go(Delist(k, c).(log := k.log + [Reaped(c, me, k.sys.tasks[c].exitStatus)], pc := (k.pc - {c})[me := Out]))
    case None =>
      match FirstIn(k.sys.all, (t: Tid) => IsChild(k.sys, t, pid))
      case None => Go(k.(pc := k.pc[me := Out]))
      case Some(_) =>
        var y :- Block(k.sys, Waiting);
        Go(k.(sys := y, pc := k.pc[me := InWait]))
  }

  // ---------------------------------------------------------------- steps

  /** Task `t` has passed `sema_down` on lock `l` and not yet `sema_up`. */
  ghost predicate Owns(L: Lock, pc: map<Tid, Pc>, l: Lid, t: Tid) {
    t in pc && (L.holder == Some(t) || pc[t] in {Got(l), Unnamed(l), Up(l)})
  }

  /** Every task has a place, the locks named there exist, and pids are in range. */
  ghost predicate Formed(k: State) {
    && k.sys.cur in k.sys.tasks && k.pc.Keys == k.sys.tasks.Keys
    && forall t :: t in k.pc ==> 1 <= k.sys.tasks[t].pid <= |k.pids| && (PcLock(k.pc[t]).Some? ==> PcLock(k.pc[t]).v in k.locks)
  }

  /** What the kernel relies on its callers for.  Interrupt handlers aside, idle only blocks; a lock is
      released by its holder; a new control block is a free page; only user processes fork and exit,
      only kernel threads end themselves, and neither leaves while it owns a lock. */
  ghost predicate Enabled(k: State, a: Action) {
    var me := k.sys.cur;
    && Formed(k)
    && (a.Idle? ==> me == k.sys.idle)
    && (!a.Timer? && !a.Idle? ==> me != k.sys.idle)
    && (a.Resume? ==> k.pc[me] !in {Out, Zombie})
    && (!a.Timer? && !a.Idle? && !a.Resume? ==> k.pc[me] == Out)
    && (a.Acquire? ==> a.lock in k.locks)
    && (a.Release? ==> a.lock in k.locks && k.locks[a.lock].holder == Some(me))
    && (a.Fork? || a.Start? ==> a.child !in k.sys.tasks)
    && (a.Fork? || a.Exit? ==> k.sys.tasks[me].user)
    && (a.Finish? ==> !k.sys.tasks[me].user)
    && (a.Finish? || a.Exit? ==> forall l :: l in k.locks ==> !Owns(k.locks[l], k.pc, l, me))
  }

  ghost function Step(k: State, a: Action): (r: Outcome<State>)
    requires Enabled(k, a)
  {
    var me := k.sys.cur;
    match a
    case Timer => Lift(k, Tick(k.sys))
    case YieldCpu => Lift(k, Yield(k.sys))
    case Idle => Lift(k, Block(k.sys, Blocked))
    case Acquire(l) => Go(LockAcquire(k, l))
    case Release(l) => LockRelease(k, l)
    case Fork(c) => ForkTask(k, c)
    case Start(c, p) => StartThread(k, c, p)
    case Finish => FinishThread(k)
    case Exit(status) => ExitBegin(k, status)
    case Wait => WaitPass(k)
    case Resume =>
      if k.pc[me] == InWait then WaitPass(k)
      else if k.pc[me] == Exiting then ExitEnd(k)
      else LockStep(k, k.pc[me])
  }

  function Lift(k: State, y: Outcome<Sys>): (r: Outcome<State>) {
    match y
    case Panic => Panic
    case Go(z) => Go(k.(sys := z))
  }

  // ---------------------------------------------------------------- invariants

  predicate Queued(locks: map<Lid, Lock>, l: Lid, t: Tid) {
    l in locks && t in locks[l].waiters
  }

  /** Where a task is and its state agree: a task is blocked exactly while it is queued inside
      `sema_down`, or it is idle; it hangs exactly when it has exited; and so on. */
  ghost predicate PlaceOk(locks: map<Lid, Lock>, t: Tid, status: Status, pc: Pc, idle: bool) {
    && (idle ==> pc == Out)
    && (status == Blocked && !idle ==> pc.Sleep? && Queued(locks, pc.lock, t))
    && (pc.Sleep? && Queued(locks, pc.lock, t) ==> status == Blocked)
    && (status == Waiting ==> pc == InWait)
    && (status == Hanging <==> pc == Zombie)
    && (PcLock(pc).Some? ==> PcLock(pc).v in locks)
  }

  ghost predicate Places(k: State) {
    && k.pc.Keys == k.sys.tasks.Keys
    && forall t :: t in k.pc ==> PlaceOk(k.locks, t, k.sys.tasks[t].status, k.pc[t], t == k.sys.idle)
  }

  function PcLock(pc: Pc): (r: Option<Lid>) {
    if pc in {Out, InWait, Exiting, Zombie} then None else Some(pc.lock)
  }

  /** The state of one lock: one owner at most, and a semaphore that is 1 exactly when there is none. */
  ghost predicate LockOk(L: Lock, pc: map<Tid, Pc>, l: Lid) {
    && L.value <= 1
    && (forall t :: Owns(L, pc, l, t) ==> L.value == 0)
    && (L.value == 0 ==> exists t :: Owns(L, pc, l, t))
    && (forall t, u :: Owns(L, pc, l, t) && Owns(L, pc, l, u) ==> t == u)
    && (L.value == 1 ==> L.holder == None && L.repeat == 0)
    && (forall t :: t in pc ==> PhaseOk(L, l, t, pc[t]))
    && (L.holder.Some? ==> L.holder.v in pc && (pc[L.holder.v] != Named(l) ==> L.repeat >= 1))
    && Distinct(L.waiters)
    && (forall t :: t in L.waiters ==> t in pc && pc[t] == Sleep(l))
    && (L.value == 1 && L.waiters != [] ==> exists t :: DueToRetry(L, pc, l, t))
  }

  /** What the fields of a lock are while `t` is between two steps of `lock_acquire` or `lock_release` on it. */
  ghost predicate PhaseOk(L: Lock, l: Lid, t: Tid, pc: Pc) {
    && (pc == Got(l) ==> L.holder == None && L.repeat == 0)
    && (pc == Named(l) ==> L.holder == Some(t) && L.repeat == 0)
    && (pc == Unnamed(l) ==> L.holder == None && L.repeat == 1)
    && (pc == Up(l) ==> L.holder == None && L.repeat == 0)
    && (pc in {Exiting, Zombie} ==> L.holder != Some(t))
  }

  /** A task that was woken inside `sema_down` and has yet to look at the semaphore again. */
  ghost predicate DueToRetry(L: Lock, pc: map<Tid, Pc>, l: Lid, t: Tid) {
    t in pc && pc[t] == Sleep(l) && t !in L.waiters
  }

  ghost predicate LocksOk(locks: map<Lid, Lock>, pc: map<Tid, Pc>) {
    forall l :: l in locks ==> LockOk(locks[l], pc, l)
  }

  /** A task that may be somebody's parent. */
  ghost predicate CanBeParent(k: State, t: Tid, pid: int) {
    && t in k.pc && t in k.sys.tasks && k.sys.tasks[t].pid == pid
    && k.sys.tasks[t].user && k.pc[t] !in {Exiting, Zombie}
  }

  ghost predicate HasPid(k: State, t: Tid, pid: int) {
    t in k.sys.tasks && k.sys.tasks[t].pid == pid
  }

  ghost predicate PidUsed(k: State, pid: int) {
    exists t :: HasPid(k, t, pid)
  }

  /** Pids name tasks one to one and the bitmap records exactly the pids in use; init stays. */
  ghost predicate PidsOk(k: State) {
    && (forall t :: t in k.sys.tasks ==> 1 <= k.sys.tasks[t].pid <= |k.pids|)
    && (forall t, u :: t in k.sys.tasks && u in k.sys.tasks && k.sys.tasks[t].pid == k.sys.tasks[u].pid ==> t == u)
    && (forall i :: 0 <= i < |k.pids| ==> (k.pids[i] <==> PidUsed(k, i + 1)))
    && CanBeParent(k, k.init, 1) && k.sys.tasks[k.init].parent == -1
    && k.sys.idle in k.sys.tasks && !k.sys.tasks[k.sys.idle].user
  }

  /** Every parent pid is -1 or the pid of a process that can still reap. */
  ghost predicate ParentsOk(k: State) {
    forall t :: t in k.sys.tasks ==> ParentOk(k, t)
  }

  ghost predicate ParentOk(k: State, t: Tid)
    requires t in k.sys.tasks
  {
    var task := k.sys.tasks[t];
    && (task.parent != -1 ==> task.user && exists p :: CanBeParent(k, p, task.parent))
    && task.parent != task.pid
    && (t in k.pc && k.pc[t] == Exiting ==> task.parent != -1)
  }

  /** A process other than init that waits has a child to wait for, and none that has already exited. */
  ghost predicate WaitersOk(k: State) {
    forall p :: p in k.sys.tasks && k.sys.tasks[p].status == Waiting && p != k.init ==> WaitOk(k.sys, k.sys.tasks[p].pid)
  }

  ghost predicate WaitOk(y: Sys, pid: int) {
    && (exists c :: IsChild(y, c, pid))
    && (forall c :: !IsHangingChild(y, c, pid))
  }

  ghost predicate Inv(k: State) {
    SchedOk(k.sys) && Places(k) && LocksOk(k.locks, k.pc) && PidsOk(k) && ParentsOk(k) && WaitersOk(k)
  }
}
