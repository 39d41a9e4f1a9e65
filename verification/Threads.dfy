/** Tasks, the ready queue and the scheduler of thread/thread.c, and the timer that drives it.

    The transition functions below are the specification of the code in `ThreadCode`.  A kernel `ASSERT` that does not
    hold is the outcome `Panic`. */
module Threads {
  import opened Basics
  import opened Lists

  type Tid = int      // the address of a task control block

  datatype Status = Running | Ready | Blocked | Waiting | Hanging | Died

  datatype Task = Task(status: Status, priority: nat, ticks: nat,
                       pid: int, parent: int, exitStatus: int, user: bool)

  /** Listed tasks (`all` is `thread_all_list`), the ready queue, and the task on the processor. */
  datatype Sys = Sys(tasks: map<Tid, Task>, all: seq<Tid>, ready: seq<Tid>, cur: Tid, idle: Tid)

  function SetStatus(s: Sys, t: Tid, st: Status): (r: Sys)
    requires t in s.tasks
  {
    s.(tasks := s.tasks[t := s.tasks[t].(status := st)])
  }

  /** `thread_unblock` */
  function Unblock(s: Sys, t: Tid): (r: Outcome<Sys>)
    requires t in s.tasks
  {
    if s.tasks[t].status !in {Blocked, Waiting, Hanging} || t in s.ready then Panic
    else Go(SetStatus(s, t, Ready).(ready := [t] + s.ready))
  }

  /** The running task goes to the end of the ready queue with a full slice. */
  function Requeue(s: Sys): (r: Sys)
    requires s.cur in s.tasks
  {
    var c := s.tasks[s.cur];
    s.(ready := s.ready + [s.cur], tasks := s.tasks[s.cur := c.(status := Ready, ticks := c.priority)])
  }

  /** The first ready task gets the processor. */
  function Dispatch(s: Sys): (r: Outcome<Sys>) {
    if s.ready == [] || s.ready[0] !in s.tasks then Panic
    else Go(SetStatus(s, s.ready[0], Running).(ready := s.ready[1..], cur := s.ready[0]))
  }

  /** `schedule`.  The current task may just have left the list of tasks. */
  function Schedule(s: Sys): (r: Outcome<Sys>) {
    if s.cur in s.tasks && s.tasks[s.cur].status == Running then
      if s.cur in s.ready then Panic else Dispatch(Requeue(s))
    else if s.ready == [] then
      if s.idle !in s.tasks then Panic
      else
        var w :- Unblock(s, s.idle);
        Dispatch(w)
    else Dispatch(s)
  }

  /** `thread_block` */
  function Block(s: Sys, st: Status): (r: Outcome<Sys>)
    requires s.cur in s.tasks
  {
    if st !in {Blocked, Waiting, Hanging} then Panic else Schedule(SetStatus(s, s.cur, st))
  }

  /** `thread_yield`: unlike an expired slice, a yield does not refill the slice. */
  function Yield(s: Sys): (r: Outcome<Sys>)
    requires s.cur in s.tasks
  {
    if s.cur in s.ready then Panic
    else Schedule(SetStatus(s, s.cur, Ready).(ready := s.ready + [s.cur]))
  }

  /** `intr_timer_handler` */
  function Tick(s: Sys): (r: Outcome<Sys>)
    requires s.cur in s.tasks
  {
    var c := s.tasks[s.cur];
    if c.ticks == 0 then Schedule(s)
    else Go(s.(tasks := s.tasks[s.cur := c.(ticks := c.ticks - 1)]))
  }

  /** What every scheduling operation keeps. */
  ghost predicate SchedOk(s: Sys) {
    && Queues(s)
    && s.cur in s.tasks
    && (forall t :: t in s.tasks ==> (s.tasks[t].status == Running <==> t == s.cur))
  }

  /** The part of the invariant that holds while no task has the processor. */
  ghost predicate Queues(s: Sys) {
    && Distinct(s.all) && (forall t :: t in s.all <==> t in s.tasks)
    && Distinct(s.ready) && (forall t :: t in s.ready <==> t in s.tasks && s.tasks[t].status == Ready)
    && s.idle in s.tasks && s.tasks[s.idle].status in {Running, Ready, Blocked}
    && (forall t :: t in s.tasks ==> s.tasks[t].ticks <= s.tasks[t].priority && s.tasks[t].status != Died)
  }

  /** Apart from status and slice a task is what it was. */
  ghost predicate SameTask(a: Task, b: Task) {
    b == a.(status := b.status, ticks := b.ticks)
  }

  /** From `s` to `s'` only the choice of the running task was made: a ready task, or idle,
      got the processor. */
  ghost predicate Resched(s: Sys, s': Sys) {
    && s'.all == s.all && s'.idle == s.idle && s'.tasks.Keys == s.tasks.Keys
    && s'.cur in s.tasks && (s.tasks[s'.cur].status == Ready || s'.cur == s.idle)
    && s'.tasks[s'.cur].status == Running
    && (forall t :: t in s.tasks ==> SameTask(s.tasks[t], s'.tasks[t]))
    && (forall t :: t in s.tasks && t != s'.cur ==> s'.tasks[t].status == s.tasks[t].status)
  }

  lemma DispatchKeeps(s: Sys)
    requires Queues(s) && s.ready != []
    requires forall t :: t in s.tasks ==> s.tasks[t].status != Running
    ensures Dispatch(s).Go? && SchedOk(Dispatch(s).s) && Resched(s, Dispatch(s).s)
  {
    TailKeepsDistinct(s.ready);
    var next := s.ready[0];
    assert next in s.ready;
    var r := Dispatch(s).s;
    assert forall t :: t in s.tasks && t != next ==> r.tasks[t] == s.tasks[t];
    assert Queues(r);
  }

  lemma TailKeepsDistinct<T>(c: seq<T>)
    requires Distinct(c) && c != []
    ensures Distinct(c[1..]) && forall e :: e in c[1..] <==> e in c && e != c[0]
  {
    RemoveKeepsDistinct(c, 0);
    assert c[..0] + c[1..] == c[1..];
  }

  lemma PushKeeps(s: Sys, t: Tid)
    requires Queues(s) && t in s.tasks && s.tasks[t].status in {Blocked, Waiting, Hanging}
    ensures Unblock(s, t).Go? && Queues(Unblock(s, t).s)
    ensures SchedOk(s) ==> SchedOk(Unblock(s, t).s)
  {
    InsertKeepsDistinct(s.ready, 0, t);
    assert s.ready[..0] + [t] + s.ready[0..] == [t] + s.ready;
  }

  /** `thread_unblock` keeps the invariant and its assertions hold, whenever its argument waits for something. */
  lemma UnblockKeeps(s: Sys, t: Tid)
    requires SchedOk(s) && t in s.tasks && s.tasks[t].status in {Blocked, Waiting, Hanging}
    ensures Unblock(s, t).Go? && SchedOk(Unblock(s, t).s)
  {
    PushKeeps(s, t);
  }

  /** With nobody running, `schedule` never finds an empty queue. */
  lemma SchedulePicks(s: Sys)
    requires Queues(s) && (forall t :: t in s.tasks ==> s.tasks[t].status != Running)
    ensures Schedule(s).Go? && SchedOk(Schedule(s).s) && Resched(s, Schedule(s).s)
  {
    if s.ready == [] {
      assert s.tasks[s.idle].status == Blocked;
      PushKeeps(s, s.idle);
      DispatchKeeps(Unblock(s, s.idle).s);
    } else {
      DispatchKeeps(s);
    }
  }

  lemma AppendKeepsDistinct<T>(c: seq<T>, e: T)
    requires Distinct(c) && e !in c
    ensures Distinct(c + [e])
  {
    InsertKeepsDistinct(c, |c|, e);
    assert c[..|c|] + [e] + c[|c|..] == c + [e];
  }

  lemma ExpireKeeps(s: Sys)
    requires SchedOk(s)
    ensures Schedule(s).Go? && SchedOk(Schedule(s).s) && Resched(Requeue(s), Schedule(s).s)
  {
    AppendKeepsDistinct(s.ready, s.cur);
    DispatchKeeps(Requeue(s));
  }

  lemma TickKeeps(s: Sys)
    requires SchedOk(s)
    ensures Tick(s).Go? && SchedOk(Tick(s).s)
  {
    if s.tasks[s.cur].ticks == 0 { ExpireKeeps(s); }
  }

  lemma YieldKeeps(s: Sys)
    requires SchedOk(s)
    ensures Yield(s).Go? && SchedOk(Yield(s).s)
  {
    AppendKeepsDistinct(s.ready, s.cur);
    SchedulePicks(SetStatus(s, s.cur, Ready).(ready := s.ready + [s.cur]));
  }

  /** `thread_block` keeps the invariant; idle may only block as BLOCKED. */
  lemma BlockKeeps(s: Sys, st: Status)
    requires SchedOk(s) && st in {Blocked, Waiting, Hanging}
    requires s.cur == s.idle ==> st == Blocked
    ensures Block(s, st).Go? && SchedOk(Block(s, st).s) && Resched(SetStatus(s, s.cur, st), Block(s, st).s)
  {
    SchedulePicks(SetStatus(s, s.cur, st));
  }
}
