/** How long a ready task waits when nothing but the timer happens. */
module RoundRobin {
  import opened Basics
  import opened Lists
  import opened Threads

  /** One timer interrupt (a system that would panic stays where it is; none with the invariant does). */
  ghost function Ticked(s: Sys): (r: Sys) {
    if s.cur in s.tasks && Tick(s).Go? then Tick(s).s else s
  }

  /** The system after `n` timer interrupts. */
  ghost function After(s: Sys, n: nat): (r: Sys)
    decreases n
  {
    if n == 0 then s else After(Ticked(s), n - 1)
  }

  lemma {:induction false} AfterSum(s: Sys, m: nat, n: nat)
    ensures After(s, m + n) == After(After(s, m), n)
    decreases m
  {
    if m > 0 {
      AfterSum(Ticked(s), m - 1, n);
    }
  }

  /** No timer interrupt of a run panics, and the invariant, slices within priorities included, holds throughout. */
  lemma {:induction false} AfterKeeps(s: Sys, n: nat)
    requires SchedOk(s)
    ensures SchedOk(After(s, n)) && Tick(After(s, n)).Go?
    decreases n
  {
    TickKeeps(s);
    if n > 0 {
      AfterKeeps(Ticked(s), n - 1);
    }
  }

  /** While slices last, only the running task's slice shrinks. */
  lemma {:induction false} SliceRunsDown(s: Sys, m: nat)
    requires SchedOk(s) && m <= s.tasks[s.cur].ticks
    ensures var c := s.tasks[s.cur];
            After(s, m) == s.(tasks := s.tasks[s.cur := c.(ticks := c.ticks - m)])
    decreases m
  {
    if m == 0 {
      assert s.tasks == s.tasks[s.cur := s.tasks[s.cur]];
    } else {
      TickKeeps(s);
      SliceRunsDown(Ticked(s), m - 1);
    }
  }

  /** When the slice is used up the next ready task runs and the old one is last in the queue. */
  lemma SliceEnds(s: Sys)
    requires SchedOk(s) && s.ready != []
    ensures var r := After(s, s.tasks[s.cur].ticks + 1);
            && r.cur == s.ready[0]
            && r.ready == s.ready[1..] + [s.cur]
            && SchedOk(r)
            && forall t :: t in s.ready ==> t in s.tasks && t != s.cur && r.tasks[t].ticks == s.tasks[t].ticks
  {
    var n := s.tasks[s.cur].ticks;
    SliceRunsDown(s, n);
    AfterSum(s, n, 1);
    AfterKeeps(s, n);
    AfterKeeps(s, n + 1);
    var z := After(s, n);
    assert After(z, 1) == After(Ticked(z), 0) == Tick(z).s;
    assert s.ready[0] in s.ready;
  }

  lemma ReadyListed(s: Sys)
    requires SchedOk(s)
    ensures forall i :: 0 <= i < |s.ready| ==> s.ready[i] in s.tasks
  {
    forall i | 0 <= i < |s.ready| ensures s.ready[i] in s.tasks {
      var t := s.ready[i];
      assert t in s.ready;
    }
  }

  /** Timer interrupts until the task at position `k` of the ready queue runs. */
  ghost function Delay(s: Sys, k: nat): (d: nat)
    requires SchedOk(s) && k < |s.ready|
  {
    ReadyListed(s);
    s.tasks[s.cur].ticks + 1 + SumSlices(s, s.ready[..k])
  }

  ghost function SumSlices(s: Sys, q: seq<Tid>): (d: nat)
    requires forall i :: 0 <= i < |q| ==> q[i] in s.tasks
  {
    if q == [] then 0 else s.tasks[q[0]].ticks + 1 + SumSlices(s, q[1..])
  }

  lemma {:induction false} SumSlicesSame(s: Sys, r: Sys, q: seq<Tid>)
    requires forall i :: 0 <= i < |q| ==> q[i] in s.tasks && q[i] in r.tasks && r.tasks[q[i]].ticks == s.tasks[q[i]].ticks
    ensures SumSlices(s, q) == SumSlices(r, q)
  {
    if q != [] { SumSlicesSame(s, r, q[1..]); }
  }

  /** One slice: the delay of a task is the rest of the running slice plus its delay afterwards. */
  lemma DelayStep(s: Sys, k: nat)
    requires SchedOk(s) && 0 < k < |s.ready|
    ensures var r := After(s, s.tasks[s.cur].ticks + 1);
            && SchedOk(r) && k - 1 < |r.ready| && r.ready[k - 1] == s.ready[k]
            && Delay(s, k) == s.tasks[s.cur].ticks + 1 + Delay(r, k - 1)
  {
    var r := After(s, s.tasks[s.cur].ticks + 1);
    SliceEnds(s);
    var q := r.ready[..k - 1];
    assert s.ready[..k] == [s.ready[0]] + q;
    assert forall i :: 0 <= i < |q| ==> q[i] == s.ready[i + 1] && q[i] in s.ready;
    SumSlicesSame(s, r, q);
    assert s.ready[0] in s.ready;
  }

  /** Round robin is exact: the task at position `k` gets the processor on interrupt `Delay(s, k)`
      and on none before it. */
  lemma {:induction false} ExactDelay(s: Sys, k: nat)
    requires SchedOk(s) && k < |s.ready|
    ensures After(s, Delay(s, k)).cur == s.ready[k]
    ensures forall m: nat :: m < Delay(s, k) ==> After(s, m).cur != s.ready[k]
    decreases k, 1
  {
    var n := s.tasks[s.cur].ticks;
    forall m: nat | m <= n
      ensures After(s, m).cur != s.ready[k]
    {
      SliceRunsDown(s, m);
      assert s.ready[k] in s.ready;
    }
    if k == 0 {
      SliceEnds(s);
      assert s.ready[..0] == [];
    } else {
      DelayStep(s, k);
      LaterDelay(s, k, n + 1);
    }
  }

  lemma {:induction false} LaterDelay(s: Sys, k: nat, n: nat)
    requires SchedOk(s) && 0 < k < |s.ready| && n == s.tasks[s.cur].ticks + 1
    requires var r := After(s, n);
             && SchedOk(r) && k - 1 < |r.ready| && r.ready[k - 1] == s.ready[k]
             && Delay(s, k) == n + Delay(r, k - 1)
    ensures After(s, Delay(s, k)).cur == s.ready[k]
    ensures forall m: nat :: n <= m < Delay(s, k) ==> After(s, m).cur != s.ready[k]
    decreases k, 0
  {
    hide SchedOk;
    var r := After(s, n);
    ExactDelay(r, k - 1);
    AfterSum(s, n, Delay(r, k - 1));
    forall m: nat | n <= m < Delay(s, k)
      ensures After(s, m).cur != s.ready[k]
    {
      AfterSum(s, n, m - n);
    }
  }

  // ---------------------------------------------------------------- the second turn

  /** The slice is over: the running task is last in the queue with a full slice, and the first ready one runs. */
  ghost function Turn(s: Sys): (r: Sys)
    requires SchedOk(s) && s.ready != []
  {
    ReadyListed(s);
    var c, next := s.tasks[s.cur], s.ready[0];
    s.(cur := next, ready := s.ready[1..] + [s.cur],
       tasks := s.tasks[s.cur := c.(status := Ready, ticks := c.priority)][next := s.tasks[next].(status := Running)])
  }

  lemma TickTurns(s: Sys)
    requires SchedOk(s) && s.ready != [] && s.tasks[s.cur].ticks == 0
    ensures Tick(s) == Go(Turn(s)) && SchedOk(Turn(s))
  {
    TickKeeps(s);
    var next := s.ready[0];
    assert next in s.ready && next != s.cur;
    assert (s.ready + [s.cur])[0] == next && (s.ready + [s.cur])[1..] == s.ready[1..] + [s.cur];
    assert Tick(s).s.tasks == Turn(s).tasks;
  }

  lemma TurnSame(s: Sys, z: Sys)
    requires SchedOk(s) && SchedOk(z) && s.ready != []
    requires z == s.(tasks := s.tasks[s.cur := s.tasks[s.cur].(ticks := 0)])
    ensures Turn(z) == Turn(s)
  {
    ReadyApart(s, 0);
    hide SchedOk;
    assert Turn(z).tasks == Turn(s).tasks;
  }

  lemma TurnIs(s: Sys)
    requires SchedOk(s) && s.ready != []
    ensures After(s, s.tasks[s.cur].ticks + 1) == Turn(s) && SchedOk(Turn(s))
  {
    hide SchedOk, Tick, Turn;
    CurListed(s);
    var n := s.tasks[s.cur].ticks;
    AfterSum(s, n, 1);
    AfterKeeps(s, n);
    SliceRunsDown(s, n);
    var z := After(s, n);
    TickTurns(z);
    CurListed(z);
    assert After(z, 1) == After(Ticked(z), 0);
    TurnSame(s, z);
  }

  lemma CurListed(s: Sys)
    requires SchedOk(s)
    ensures s.cur in s.tasks
  {
  }

  /** Whoever has used up its slice has a full one again, alone or not. */
  lemma SliceRefilled(s: Sys)
    requires SchedOk(s)
    ensures var r := After(s, s.tasks[s.cur].ticks + 1); s.cur in r.tasks && r.tasks[s.cur].ticks == s.tasks[s.cur].priority
  {
    var n := s.tasks[s.cur].ticks;
    if s.ready != [] {
      TurnIs(s);
      assert s.ready[0] in s.ready;
    } else {
      SliceRunsDown(s, n);
      AfterSum(s, n, 1);
      AfterKeeps(s, n);
      var z := After(s, n);
      assert After(z, 1) == After(Ticked(z), 0) == Tick(z).s;
    }
  }

  /** The system with full slices for the running task and the ready ones. */
  ghost function Refilled(s: Sys): (r: Sys) {
    s.(tasks := map t | t in s.tasks :: if t == s.cur || t in s.ready then s.tasks[t].(ticks := s.tasks[t].priority) else s.tasks[t])
  }

  /** The system when the task at position `k` of the ready queue gets the processor. */
  ghost function Part(s: Sys, k: nat): (r: Sys)
    requires k < |s.ready|
  {
    s.(cur := s.ready[k], ready := s.ready[k + 1..] + [s.cur] + s.ready[..k],
       tasks := map t | t in s.tasks :: PartTask(s, k, t))
  }

  ghost function PartTask(s: Sys, k: nat, t: Tid): (r: Task)
    requires k < |s.ready| && t in s.tasks
  {
    if t == s.ready[k] then s.tasks[t].(status := Running)
    else if t == s.cur || t in s.ready[..k] then s.tasks[t].(status := Ready, ticks := s.tasks[t].priority)
    else s.tasks[t]
  }

  lemma PartFirst(s: Sys)
    requires SchedOk(s) && s.ready != []
    ensures Turn(s) == Part(s, 0)
  {
    assert s.ready[0] in s.ready && s.ready[..0] == [];
    assert s.ready[1..] + [s.cur] + [] == s.ready[1..] + [s.cur];
    assert Turn(s).tasks == Part(s, 0).tasks;
  }

  lemma ReadyApart(s: Sys, k: nat)
    requires SchedOk(s) && k < |s.ready|
    ensures s.ready[k] in s.tasks && s.ready[k] != s.cur && s.ready[k] !in s.ready[..k] && s.ready[k] !in s.ready[k + 1..]
  {
    var t := s.ready[k];
    assert t in s.ready;
  }

  lemma PartNext(s: Sys, k: nat)
    requires SchedOk(s) && k + 1 < |s.ready| && SchedOk(Part(s, k))
    ensures Turn(Part(s, k)) == Part(s, k + 1)
  {
    hide SchedOk;
    var p, next := Part(s, k), s.ready[k + 1];
    ReadyApart(s, k);
    ReadyApart(s, k + 1);
    assert p.ready[0] == next;
    assert s.ready[..k + 1] == s.ready[..k] + [s.ready[k]];
    assert p.ready[1..] + [p.cur] == Part(s, k + 1).ready;
    forall t | t in s.tasks ensures Turn(p).tasks[t] == PartTask(s, k + 1, t) { }
    assert Turn(p).tasks == Part(s, k + 1).tasks;
  }

  lemma StatusIs(s: Sys, t: Tid)
    requires SchedOk(s) && t in s.tasks
    ensures (t in s.ready ==> s.tasks[t].status == Ready) && (t == s.cur ==> s.tasks[t].status == Running)
  {
  }

  lemma PartLast(s: Sys, k: nat)
    requires SchedOk(s) && k + 1 == |s.ready| && SchedOk(Part(s, k))
    ensures Turn(Part(s, k)) == Refilled(s)
  {
    hide SchedOk;
    var p := Part(s, k);
    CurListed(s);
    ReadyApart(s, k);
    assert p.ready[0] == s.cur;
    assert s.ready == s.ready[..k] + [s.ready[k]];
    assert p.ready[1..] + [p.cur] == s.ready;
    forall t | t in s.tasks ensures Turn(p).tasks[t] == Refilled(s).tasks[t] { StatusIs(s, t); }
    assert Turn(p).tasks == Refilled(s).tasks;
  }

  lemma {:induction false} SumSlicesMore(s: Sys, q: seq<Tid>, t: Tid)
    requires t in s.tasks && forall i :: 0 <= i < |q| ==> q[i] in s.tasks
    ensures SumSlices(s, q + [t]) == SumSlices(s, q) + s.tasks[t].ticks + 1
  {
    if q == [] {
      assert [] + [t] == [t];
    } else {
      assert (q + [t])[1..] == q[1..] + [t];
      SumSlicesMore(s, q[1..], t);
    }
  }

  /** At its delay a ready task runs with the slice it had, and those before it have full slices again. */
  lemma {:induction false} PartIs(s: Sys, k: nat)
    requires SchedOk(s) && k < |s.ready|
    ensures After(s, Delay(s, k)) == Part(s, k) && SchedOk(Part(s, k))
    decreases k
  {
    hide SchedOk, Turn;
    if k == 0 {
      TurnIs(s);
      PartFirst(s);
      assert s.ready[..0] == [];
    } else {
      PartIs(s, k - 1);
      PartNext(s, k - 1);
      ReadyApart(s, k - 1);
      var p := Part(s, k - 1);
      assert p.ready[0] == s.ready[k];
      TurnIs(p);
      AfterSum(s, Delay(s, k - 1), p.tasks[p.cur].ticks + 1);
      ReadyListed(s);
      SumSlicesMore(s, s.ready[..k - 1], s.ready[k - 1]);
      assert s.ready[..k] == s.ready[..k - 1] + [s.ready[k - 1]];
    }
  }

  /** A round: everybody's turn. */
  ghost function Round(s: Sys): (d: nat)
    requires SchedOk(s)
  {
    s.tasks[s.cur].ticks + 1 + Others(s)
  }

  /** The slices of the ready tasks. */
  ghost function Others(s: Sys): (d: nat)
    requires SchedOk(s)
  {
    ReadyListed(s);
    SumSlices(s, s.ready)
  }

  /** After one round the same task runs, the queue is in the same order, and all slices are full; nothing else has
      changed. */
  lemma FullRound(s: Sys)
    requires SchedOk(s)
    ensures After(s, Round(s)) == Refilled(s) && SchedOk(Refilled(s))
  {
    var n := |s.ready|;
    AfterKeeps(s, Round(s));
    if n == 0 {
      SliceRunsDown(s, s.tasks[s.cur].ticks);
      AfterSum(s, s.tasks[s.cur].ticks, 1);
      AfterKeeps(s, s.tasks[s.cur].ticks);
      var z := After(s, s.tasks[s.cur].ticks);
      assert After(z, 1) == After(Ticked(z), 0) == Tick(z).s;
      assert (z.ready + [z.cur])[1..] == s.ready;
      assert Tick(z).s.tasks == Refilled(s).tasks;
    } else {
      PartIs(s, n - 1);
      PartLast(s, n - 1);
      RoundSplits(s);
    }
  }

  lemma RoundSplits(s: Sys)
    requires SchedOk(s) && s.ready != [] && SchedOk(Part(s, |s.ready| - 1)) && After(s, Delay(s, |s.ready| - 1)) == Part(s, |s.ready| - 1)
    ensures After(s, Round(s)) == Turn(Part(s, |s.ready| - 1))
  {
    hide SchedOk, Turn;
    var n, p := |s.ready| - 1, Part(s, |s.ready| - 1);
    ReadyApart(s, n);
    assert p.ready[0] == s.cur;
    TurnIs(p);
    ReadyListed(s);
    SumSlicesMore(s, s.ready[..n], s.ready[n]);
    assert s.ready == s.ready[..n] + [s.ready[n]];
    AfterSum(s, Delay(s, n), p.tasks[p.cur].ticks + 1);
  }

  /** The second turn: a running task that is not alone loses the processor with its slice, gets it back after exactly the
      slices of the others, and keeps it for exactly `priority + 1` interrupts. */
  lemma SecondTurn(s: Sys)
    requires SchedOk(s) && s.ready != []
    ensures forall m: nat :: s.tasks[s.cur].ticks < m < Round(s) ==> After(s, m).cur != s.cur
    ensures forall m: nat :: Round(s) <= m <= Round(s) + s.tasks[s.cur].priority ==> After(s, m).cur == s.cur
    ensures After(s, Round(s) + s.tasks[s.cur].priority + 1).cur == s.ready[0] != s.cur
  {
    var d := Round(s);
    FullRound(s);
    var r := Refilled(s);
    AwayUntil(s);
    forall m: nat | d <= m <= d + s.tasks[s.cur].priority ensures After(s, m).cur == s.cur {
      AfterSum(s, d, m - d);
      SliceRunsDown(r, m - d);
    }
    AfterSum(s, d, s.tasks[s.cur].priority + 1);
    TurnIs(r);
    ReadyApart(s, 0);
  }

  /** Tasks behind the first ready one keep their slices when it gets the processor. */
  lemma TailSlices(s: Sys, r: Sys)
    requires SchedOk(s) && s.ready != [] && SchedOk(r) && r.ready == s.ready[1..] + [s.cur]
    requires forall t :: t in s.ready ==> t in r.tasks && t in s.tasks && r.tasks[t].ticks == s.tasks[t].ticks
    requires r.cur == s.ready[0]
    ensures Delay(r, |s.ready| - 1) == Others(s) && r.ready[|s.ready| - 1] == s.cur
  {
    var n, q := |s.ready| - 1, s.ready[1..];
    ReadyListed(s);
    assert r.ready[..n] == q;
    forall i | 0 <= i < n
      ensures q[i] in s.tasks && q[i] in r.tasks && r.tasks[q[i]].ticks == s.tasks[q[i]].ticks
    {
      var t := s.ready[i + 1];
      assert t == q[i] && t in s.ready;
    }
    SumSlicesSame(s, r, q);
    assert s.ready[0] in s.ready;
  }

  lemma TurnSlices(s: Sys, t: Tid)
    requires SchedOk(s) && s.ready != [] && t in s.ready
    ensures t in s.tasks && t in Turn(s).tasks && Turn(s).tasks[t].ticks == s.tasks[t].ticks
  {
  }

  lemma AwayUntil(s: Sys)
    requires SchedOk(s) && s.ready != []
    ensures forall m: nat :: s.tasks[s.cur].ticks < m < Round(s) ==> After(s, m).cur != s.cur
  {
    hide SchedOk;
    CurListed(s);
    var t, n, r := s.tasks[s.cur].ticks + 1, |s.ready| - 1, Turn(s);
    TurnIs(s);
    forall u | u in s.ready ensures u in r.tasks && u in s.tasks && r.tasks[u].ticks == s.tasks[u].ticks { TurnSlices(s, u); }
    TailSlices(s, r);
    ExactDelay(r, n);
    forall m: nat | t <= m < Round(s) ensures After(s, m).cur != s.cur { AfterSum(s, t, m - t); }
  }

  /** From then on rounds repeat: with full slices a round is the sum of `priority + 1` and leaves the system as it was. */
  lemma RoundsRepeat(s: Sys)
    requires SchedOk(s)
    ensures var r := Refilled(s); SchedOk(r) && After(r, Round(r)) == r
  {
    FullRound(s);
    var r := Refilled(s);
    FullRound(r);
    assert Refilled(r).tasks == r.tasks;
  }

  // ---------------------------------------------------------------- who runs next

  /** A task that is woken goes first: whatever takes the processor away next gives it to that task. */
  lemma WokenRunsNext(s: Sys, t: Tid, st: Status)
    requires SchedOk(s) && t in s.tasks && s.tasks[t].status in {Blocked, Waiting, Hanging}
    requires st in {Blocked, Waiting, Hanging} && (s.cur == s.idle ==> st == Blocked)
    ensures Unblock(s, t).Go?
    ensures var w := Unblock(s, t).s;
            && Block(w, st).Go? && Block(w, st).s.cur == t && Block(w, st).s.ready == s.ready
            && Yield(w).Go? && Yield(w).s.cur == t && Yield(w).s.ready == s.ready + [s.cur]
            && (s.tasks[s.cur].ticks == 0 ==> Tick(w).Go? && Tick(w).s.cur == t)
  {
    UnblockKeeps(s, t);
    var w := Unblock(s, t).s;
    assert w.ready[0] == t && w.ready[1..] == s.ready && w.cur == s.cur && w.idle == s.idle;
    assert w.tasks[w.cur].ticks == s.tasks[s.cur].ticks;
    hide Unblock, SchedOk;
    FirstAfterBlock(w, st);
    FirstAfterYield(w);
    if w.tasks[w.cur].ticks == 0 { TickTurns(w); }
  }

  lemma FirstAfterBlock(s: Sys, st: Status)
    requires SchedOk(s) && s.ready != [] && st in {Blocked, Waiting, Hanging} && (s.cur == s.idle ==> st == Blocked)
    ensures Block(s, st).Go? && Block(s, st).s.cur == s.ready[0] && Block(s, st).s.ready == s.ready[1..]
  {
    BlockKeeps(s, st);
  }

  lemma FirstAfterYield(s: Sys)
    requires SchedOk(s) && s.ready != []
    ensures Yield(s).Go? && SchedOk(Yield(s).s) && Yield(s).s.cur == s.ready[0] && Yield(s).s.ready == s.ready[1..] + [s.cur]
    ensures Yield(s).s.tasks.Keys == s.tasks.Keys && forall t :: t in s.tasks ==> Yield(s).s.tasks[t].ticks == s.tasks[t].ticks
  {
    YieldKeeps(s);
    assert (s.ready + [s.cur])[0] == s.ready[0] && (s.ready + [s.cur])[1..] == s.ready[1..] + [s.cur];
  }

  /** A task that yields keeps the rest of its slice, and runs again after the slices of the others. */
  lemma YieldedTurn(s: Sys)
    requires SchedOk(s) && s.ready != []
    ensures Yield(s).Go?
    ensures var y := Yield(s).s;
            && SchedOk(y) && After(y, Others(s)).cur == s.cur && s.cur in After(y, Others(s)).tasks
            && After(y, Others(s)).tasks[s.cur].ticks == s.tasks[s.cur].ticks
  {
    hide SchedOk;
    FirstAfterYield(s);
    ReadyListed(s);
    var y, n := Yield(s).s, |s.ready| - 1;
    forall u | u in s.ready ensures u in y.tasks && u in s.tasks && y.tasks[u].ticks == s.tasks[u].ticks { TurnSlices(s, u); }
    TailSlices(s, y);
    PartIs(y, n);
    CurListed(s);
  }
}
