/** Every step of the kernel machine keeps its invariant, and no assertion in the code stops it. */
module KernelSafety {
  import opened Basics
  import opened Lists
  import opened Bitmaps
  import opened Threads
  import opened Kernel

  // ---------------------------------------------------------------- locks, one at a time

  /** A task whose steps have nothing to do with lock `l` leaves it as it is. */
  lemma OtherLock(L: Lock, pc: map<Tid, Pc>, l: Lid, me: Tid, p: Pc)
    requires LockOk(L, pc, l) && me in pc && PcLock(pc[me]) != Some(l) && PcLock(p) != Some(l)
    requires p in {Exiting, Zombie} ==> L.holder != Some(me)
    ensures LockOk(L, pc[me := p], l)
  {
    var pc' := pc[me := p];
    forall t ensures Owns(L, pc', l, t) == Owns(L, pc, l, t) && DueToRetry(L, pc', l, t) == DueToRetry(L, pc, l, t) { }
  }

  lemma AcquireLock(L: Lock, pc: map<Tid, Pc>, l: Lid, me: Tid)
    requires LockOk(L, pc, l) && me in pc && pc[me] == Out
    ensures L.holder != Some(me) ==> LockOk(L, pc[me := Down(l)], l)
    ensures L.holder == Some(me) ==> LockOk(L.(repeat := L.repeat + 1), pc, l)
  {
    var pc' := pc[me := Down(l)];
    var L' := L.(repeat := L.repeat + 1);
    forall t
      ensures Owns(L, pc', l, t) == Owns(L, pc, l, t) && DueToRetry(L, pc', l, t) == DueToRetry(L, pc, l, t)
      ensures Owns(L', pc, l, t) == Owns(L, pc, l, t)
    { }
    if L.holder == Some(me) {
      assert Owns(L, pc, l, me);
      forall t | t in pc ensures PhaseOk(L', l, t, pc[t]) {
        assert PhaseOk(L, l, t, pc[t]);
        assert Owns(L, pc, l, t) ==> t == me;
      }
    }
  }

  lemma ReleaseLock(L: Lock, pc: map<Tid, Pc>, l: Lid, me: Tid)
    requires LockOk(L, pc, l) && me in pc && pc[me] == Out && L.holder == Some(me)
    ensures L.repeat >= 1
    ensures L.repeat > 1 ==> LockOk(L.(repeat := L.repeat - 1), pc, l)
    ensures L.repeat == 1 ==> LockOk(L.(holder := None), pc[me := Unnamed(l)], l)
  {
    var pc' := pc[me := Unnamed(l)];
    var L' := L.(repeat := L.repeat - 1);
    var L'' := L.(holder := None);
    assert Owns(L, pc, l, me);
    forall t
      ensures Owns(L', pc, l, t) == Owns(L, pc, l, t)
      ensures Owns(L'', pc', l, t) == Owns(L, pc, l, t)
    {
      assert Owns(L, pc, l, t) ==> t == me;
    }
    forall t | t in pc ensures (L.repeat == 1 ==> PhaseOk(L'', l, t, pc'[t])) && (L.repeat > 1 ==> PhaseOk(L', l, t, pc[t])) {
      assert PhaseOk(L, l, t, pc[t]);
      assert Owns(L, pc, l, t) ==> t == me;
    }
  }

  /** The steps of `lock_acquire` and `lock_release` that write one field. */
  lemma WriteField(L: Lock, pc: map<Tid, Pc>, l: Lid, me: Tid)
    requires LockOk(L, pc, l) && me in pc
    ensures pc[me] == Got(l) ==> LockOk(L.(holder := Some(me)), pc[me := Named(l)], l)
    ensures pc[me] == Named(l) ==> L.repeat == 0 && LockOk(L.(repeat := 1), pc[me := Out], l)
    ensures pc[me] == Unnamed(l) ==> LockOk(L.(repeat := 0), pc[me := Up(l)], l)
  {
    assert PhaseOk(L, l, me, pc[me]);
    if pc[me] in {Got(l), Named(l), Unnamed(l)} {
      var L', p := if pc[me] == Got(l) then L.(holder := Some(me)) else if pc[me] == Named(l) then L.(repeat := 1) else L.(repeat := 0),
                   if pc[me] == Got(l) then Named(l) else if pc[me] == Named(l) then Out else Up(l);
      assert Owns(L, pc, l, me);
      var pc' := pc[me := p];
      forall t ensures Owns(L', pc', l, t) == Owns(L, pc, l, t) {
        assert Owns(L, pc, l, t) ==> t == me;
      }
      forall t | t in pc ensures PhaseOk(L', l, t, pc'[t]) {
        assert PhaseOk(L, l, t, pc[t]);
        assert Owns(L, pc, l, t) ==> t == me;
      }
    }
  }

  /** `sema_down` on a free semaphore: the caller becomes the owner, whoever else was woken first. */
  lemma TakeLock(L: Lock, pc: map<Tid, Pc>, l: Lid, me: Tid)
    requires LockOk(L, pc, l) && me in pc && pc[me] in {Down(l), Sleep(l)} && me !in L.waiters && L.value != 0
    ensures L.value == 1 && LockOk(L.(value := 0), pc[me := Got(l)], l)
  {
    var L', pc' := L.(value := 0), pc[me := Got(l)];
    assert Owns(L', pc', l, me);
    forall t ensures Owns(L', pc', l, t) == (t == me) {
      assert !Owns(L, pc, l, t);
    }
  }

  /** `sema_down` on a taken semaphore: the caller queues up. */
  lemma QueueOnLock(L: Lock, pc: map<Tid, Pc>, l: Lid, me: Tid)
    requires LockOk(L, pc, l) && me in pc && pc[me] in {Down(l), Sleep(l)} && me !in L.waiters && L.value == 0
    ensures LockOk(L.(waiters := L.waiters + [me]), pc[me := Sleep(l)], l)
  {
    var L', pc' := L.(waiters := L.waiters + [me]), pc[me := Sleep(l)];
    AppendKeepsDistinct(L.waiters, me);
    forall t ensures Owns(L', pc', l, t) == Owns(L, pc, l, t) { }
  }

  /** `sema_up`: the semaphore is free and the first waiter, if any, is due to retry. */
  lemma FreeLock(L: Lock, pc: map<Tid, Pc>, l: Lid, me: Tid)
    requires LockOk(L, pc, l) && me in pc && pc[me] == Up(l)
    ensures L.value == 0
    ensures LockOk(L.(value := 1, waiters := if L.waiters == [] then [] else L.waiters[1..]), pc[me := Out], l)
  {
    var L', pc' := L.(value := 1, waiters := if L.waiters == [] then [] else L.waiters[1..]), pc[me := Out];
    assert PhaseOk(L, l, me, pc[me]) && Owns(L, pc, l, me);
    forall t ensures !Owns(L', pc', l, t) {
      assert Owns(L, pc, l, t) ==> t == me;
    }
    forall t | t in pc ensures PhaseOk(L', l, t, pc'[t]) {
      assert PhaseOk(L, l, t, pc[t]);
      assert Owns(L, pc, l, t) ==> t == me;
    }
    if L.waiters != [] {
      TailKeepsDistinct(L.waiters);
      assert L.waiters[0] in L.waiters;
      assert DueToRetry(L', pc', l, L.waiters[0]);
    }
  }

  // ---------------------------------------------------------------- frames

  /** Tasks kept their identity, and nobody started or stopped waiting, hanging or (idle aside) being blocked,
      except `x`. */
  ghost predicate SameBut(y: Sys, y': Sys, x: Tid) {
    && y'.tasks.Keys == y.tasks.Keys && y'.idle == y.idle
    && (forall t :: t in y.tasks ==> SameTask(y.tasks[t], y'.tasks[t]))
    && (forall t :: t in y.tasks && t != x && t != y.idle ==>
          (y'.tasks[t].status == y.tasks[t].status || (y.tasks[t].status in {Running, Ready} && y'.tasks[t].status in {Running, Ready})))
    && (y.idle in y.tasks ==> y'.tasks[y.idle].status !in {Waiting, Hanging})
  }

  lemma PidsFrame(k: State, k': State)
    requires PidsOk(k) && k'.pids == k.pids && k'.init == k.init
    requires k'.sys.idle == k.sys.idle && k'.sys.tasks.Keys == k.sys.tasks.Keys && k'.pc.Keys == k.pc.Keys
    requires forall t :: t in k.sys.tasks ==> k'.sys.tasks[t].pid == k.sys.tasks[t].pid && k'.sys.tasks[t].user == k.sys.tasks[t].user
    requires k'.sys.tasks[k.init].parent == -1 && k'.pc[k.init] !in {Exiting, Zombie}
    ensures PidsOk(k')
  {
    forall i | 0 <= i < |k.pids| ensures k'.pids[i] <==> PidUsed(k', i + 1) {
      assert k.pids[i] <==> PidUsed(k, i + 1);
      if PidUsed(k, i + 1) { var t :| HasPid(k, t, i + 1); assert HasPid(k', t, i + 1); }
      if PidUsed(k', i + 1) { var t :| HasPid(k', t, i + 1); assert HasPid(k, t, i + 1); }
    }
  }

  lemma ParentsFrame(k: State, k': State)
    requires ParentsOk(k) && k.sys.tasks.Keys == k'.sys.tasks.Keys == k.pc.Keys == k'.pc.Keys
    requires forall t :: t in k.sys.tasks ==>
               && k'.sys.tasks[t].pid == k.sys.tasks[t].pid && k'.sys.tasks[t].user == k.sys.tasks[t].user
               && k'.sys.tasks[t].parent == k.sys.tasks[t].parent
               && (k'.pc[t] in {Exiting, Zombie} ==> k.pc[t] in {Exiting, Zombie}) && (k'.pc[t] == Exiting ==> k.pc[t] == Exiting)
    ensures ParentsOk(k')
  {
    forall t | t in k'.sys.tasks ensures ParentOk(k', t) {
      assert ParentOk(k, t);
      if k.sys.tasks[t].parent != -1 {
        var p :| CanBeParent(k, p, k.sys.tasks[t].parent);
        assert CanBeParent(k', p, k'.sys.tasks[t].parent);
      }
    }
  }

  lemma WaitersFrame(k: State, k': State)
    requires WaitersOk(k) && k'.init == k.init && k.sys.tasks.Keys == k'.sys.tasks.Keys
    requires forall t :: t in k.sys.tasks ==>
               && k'.sys.tasks[t].pid == k.sys.tasks[t].pid && k'.sys.tasks[t].parent == k.sys.tasks[t].parent
               && (k'.sys.tasks[t].status in {Waiting, Hanging} ==> k'.sys.tasks[t].status == k.sys.tasks[t].status)
    ensures WaitersOk(k')
  {
    forall p | p in k'.sys.tasks && k'.sys.tasks[p].status == Waiting && p != k'.init
      ensures WaitOk(k'.sys, k'.sys.tasks[p].pid)
    {
      var pid := k.sys.tasks[p].pid;
      assert WaitOk(k.sys, pid);
      var c :| IsChild(k.sys, c, pid);
      assert IsChild(k'.sys, c, pid);
      forall c ensures !IsHangingChild(k'.sys, c, pid) {
        assert !IsHangingChild(k.sys, c, pid);
      }
    }
  }

  /** Steps that change no identity, and no state but that of `x`, keep what is known about processes. */
  lemma LifeFrame(k: State, k': State, x: Tid)
    requires PidsOk(k) && ParentsOk(k) && WaitersOk(k) && SameBut(k.sys, k'.sys, x)
    requires k'.pids == k.pids && k'.init == k.init && k'.pc.Keys == k.pc.Keys == k.sys.tasks.Keys
    requires forall t :: t in k.pc ==> k.pc[t] == k'.pc[t] || (k.pc[t] !in {Exiting, Zombie} && k'.pc[t] !in {Exiting, Zombie})
    requires x in k.sys.tasks ==> k'.sys.tasks[x].status !in {Waiting, Hanging}
    ensures PidsOk(k') && ParentsOk(k') && WaitersOk(k')
  {
    PidsFrame(k, k');
    ParentsFrame(k, k');
    WaitersFrame(k, k');
  }

  lemma OtherLocks(k: State, l: Lid, L: Lock, me: Tid, p: Pc)
    requires LocksOk(k.locks, k.pc) && me in k.pc && l in k.locks
    requires PcLock(k.pc[me]) in {None, Some(l)} && PcLock(p) in {None, Some(l)} && p !in {Exiting, Zombie}
    requires LockOk(L, k.pc[me := p], l)
    ensures LocksOk(k.locks[l := L], k.pc[me := p])
  {
    forall m | m in k.locks && m != l ensures LockOk(k.locks[m], k.pc[me := p], m) {
      OtherLock(k.locks[m], k.pc, m, me, p);
    }
  }

  /** Scheduling alone. */
  lemma SchedStepKeeps(k: State, y: Sys)
    requires Inv(k) && SchedOk(y) && SameBut(k.sys, y, k.sys.idle)
    ensures Inv(k.(sys := y))
  {
    hide LocksOk, PidsOk, ParentsOk, WaitersOk;
    LifeFrame(k, k.(sys := y), k.sys.idle);
  }

  /** A lock step that leaves the scheduler and the queue alone. */
  lemma QuietLockStep(k: State, l: Lid, L: Lock, p: Pc)
    requires Inv(k) && l in k.locks && k.sys.cur != k.sys.idle
    requires PcLock(k.pc[k.sys.cur]) in {None, Some(l)} && k.pc[k.sys.cur] !in {Exiting, Zombie, InWait}
    requires PcLock(p) in {None, Some(l)} && p !in {Exiting, Zombie, InWait}
    requires L.waiters == k.locks[l].waiters && LockOk(L, k.pc[k.sys.cur := p], l) && !p.Sleep?
    ensures Inv(k.(locks := k.locks[l := L], pc := k.pc[k.sys.cur := p]))
  {
    hide LockOk, LocksOk, PidsOk, ParentsOk, WaitersOk;
    var me := k.sys.cur;
    var k' := k.(locks := k.locks[l := L], pc := k.pc[me := p]);
    OtherLocks(k, l, L, me, p);
    LifeFrame(k, k', me);
    QuietPlaces(k, l, L, p);
  }

  lemma QuietPlaces(k: State, l: Lid, L: Lock, p: Pc)
    requires Places(k) && l in k.locks && k.sys.cur in k.pc && k.sys.tasks[k.sys.cur].status == Running && k.sys.cur != k.sys.idle
    requires PcLock(p) in {None, Some(l)} && p !in {Exiting, Zombie, InWait}
    requires p == Sleep(l) ==> k.sys.cur !in L.waiters
    requires L.waiters == k.locks[l].waiters
    ensures Places(k.(locks := k.locks[l := L], pc := k.pc[k.sys.cur := p]))
  {
    var me := k.sys.cur;
    var k' := k.(locks := k.locks[l := L], pc := k.pc[me := p]);
    forall t | t in k'.pc
      ensures PlaceOk(k'.locks, t, k'.sys.tasks[t].status, k'.pc[t], t == k'.sys.idle)
    {
      assert PlaceOk(k.locks, t, k.sys.tasks[t].status, k.pc[t], t == k.sys.idle);
    }
  }

  /** `sema_down` that has to wait. */
  lemma SleepStep(k: State, l: Lid)
    requires Inv(k) && l in k.locks && k.sys.cur != k.sys.idle
    requires k.pc[k.sys.cur] in {Down(l), Sleep(l)} && k.locks[l].value == 0
    ensures SemaDown(k, l).Go? && Inv(SemaDown(k, l).s)
  {
    hide LocksOk, PidsOk, ParentsOk, WaitersOk;
    var me, L := k.sys.cur, k.locks[l];
    assert PlaceOk(k.locks, me, k.sys.tasks[me].status, k.pc[me], false);
    NotQueued(k, l);
    BlockKeeps(k.sys, Blocked);
    var k' := SemaDown(k, l).s;
    QueueHere(k, l);
    OtherLocks(k, l, k'.locks[l], me, Sleep(l));
    LifeFrame(k, k', me);
    SleepPlaces(k, k', l);
  }

  lemma NotQueued(k: State, l: Lid)
    requires SchedOk(k.sys) && Places(k) && LocksOk(k.locks, k.pc) && l in k.locks
    ensures k.sys.cur !in k.locks[l].waiters
  {
    assert LockOk(k.locks[l], k.pc, l);
    assert k.sys.cur in k.pc;
    assert PlaceOk(k.locks, k.sys.cur, k.sys.tasks[k.sys.cur].status, k.pc[k.sys.cur], k.sys.cur == k.sys.idle);
  }

  lemma QueueHere(k: State, l: Lid)
    requires SchedOk(k.sys) && Places(k) && LocksOk(k.locks, k.pc) && l in k.locks
    requires k.pc[k.sys.cur] in {Down(l), Sleep(l)} && k.locks[l].value == 0
    ensures LockOk(k.locks[l].(waiters := k.locks[l].waiters + [k.sys.cur]), k.pc[k.sys.cur := Sleep(l)], l)
  {
    NotQueued(k, l);
    QueueOnLock(k.locks[l], k.pc, l, k.sys.cur);
  }

  lemma SleepPlaces(k: State, k': State, l: Lid)
    requires Places(k) && l in k.locks && k.sys.cur in k.pc && k.sys.cur != k.sys.idle
    requires Resched(SetStatus(k.sys, k.sys.cur, Blocked), k'.sys) && k.sys.tasks[k.sys.cur].status == Running
    requires k'.locks == k.locks[l := k.locks[l].(waiters := k.locks[l].waiters + [k.sys.cur])] && k'.pc == k.pc[k.sys.cur := Sleep(l)]
    ensures Places(k')
  {
    var me := k.sys.cur;
    forall t | t in k'.pc
      ensures PlaceOk(k'.locks, t, k'.sys.tasks[t].status, k'.pc[t], t == k'.sys.idle)
    {
      assert PlaceOk(k.locks, t, k.sys.tasks[t].status, k.pc[t], t == k.sys.idle);
      forall m ensures t != me ==> Queued(k'.locks, m, t) == Queued(k.locks, m, t) { }
    }
  }

  /** `sema_up` */
  lemma UpStep(k: State, l: Lid)
    requires Inv(k) && l in k.locks && k.sys.cur != k.sys.idle && k.pc[k.sys.cur] == Up(l)
    ensures SemaUp(k, l).Go? && Inv(SemaUp(k, l).s)
  {
    hide LocksOk, PidsOk, ParentsOk, WaitersOk;
    var me, L := k.sys.cur, k.locks[l];
    FreeHere(k, l);
    if L.waiters == [] {
      QuietLockStep(k, l, L.(value := 1, waiters := []), Out);
    } else {
      var w := L.waiters[0];
      FirstWaiter(k, l);
      UnblockKeeps(k.sys, w);
      var k' := SemaUp(k, l).s;
      OtherLocks(k, l, k'.locks[l], me, Out);
      LifeFrame(k, k', w);
      WakePlaces(k, k', l);
    }
  }

  lemma FreeHere(k: State, l: Lid)
    requires LocksOk(k.locks, k.pc) && l in k.locks && k.sys.cur in k.pc && k.pc[k.sys.cur] == Up(l)
    ensures k.locks[l].value == 0
    ensures var L := k.locks[l];
            LockOk(L.(value := 1, waiters := if L.waiters == [] then [] else L.waiters[1..]), k.pc[k.sys.cur := Out], l)
  {
    FreeLock(k.locks[l], k.pc, l, k.sys.cur);
  }

  lemma FirstWaiter(k: State, l: Lid)
    requires Places(k) && LocksOk(k.locks, k.pc) && l in k.locks && k.locks[l].waiters != []
    ensures var w := k.locks[l].waiters[0];
            w in k.pc && w in k.sys.tasks && w != k.sys.idle && k.pc[w] == Sleep(l) && k.sys.tasks[w].status == Blocked
    ensures Distinct(k.locks[l].waiters)
  {
    var w := k.locks[l].waiters[0];
    assert LockOk(k.locks[l], k.pc, l);
    assert w in k.locks[l].waiters;
    assert Queued(k.locks, l, w);
    assert PlaceOk(k.locks, w, k.sys.tasks[w].status, k.pc[w], w == k.sys.idle);
  }

  lemma WakePlaces(k: State, k': State, l: Lid)
    requires Places(k) && l in k.locks && k.locks[l].waiters != [] && Distinct(k.locks[l].waiters)
    requires k.sys.cur in k.pc && k.sys.cur != k.sys.idle && k.sys.tasks[k.sys.cur].status == Running && k.pc[k.sys.cur] == Up(l)
    requires var w := k.locks[l].waiters[0];
             && w in k.sys.tasks && k.pc[w] == Sleep(l) && w != k.sys.idle
             && k'.sys.tasks == k.sys.tasks[w := k.sys.tasks[w].(status := Ready)]
    requires k'.sys.idle == k.sys.idle && k'.pc == k.pc[k.sys.cur := Out]
    requires k'.locks == k.locks[l := k.locks[l].(value := 1, waiters := k.locks[l].waiters[1..])]
    ensures Places(k')
  {
    var me, w := k.sys.cur, k.locks[l].waiters[0];
    TailKeepsDistinct(k.locks[l].waiters);
    forall t | t in k'.pc
      ensures PlaceOk(k'.locks, t, k'.sys.tasks[t].status, k'.pc[t], t == k'.sys.idle)
    {
      assert PlaceOk(k.locks, t, k.sys.tasks[t].status, k.pc[t], t == k.sys.idle);
      forall m ensures Queued(k'.locks, m, t) == (Queued(k.locks, m, t) && !(t == w && m == l)) { }
    }
  }

  /** What the invariant says about one lock and the running task. */
  lemma Here(k: State, l: Lid)
    requires Inv(k) && l in k.locks
    ensures LockOk(k.locks[l], k.pc, l) && k.sys.cur in k.pc && k.sys.cur in k.sys.tasks && k.sys.cur !in k.locks[l].waiters
    ensures k.pc == k.pc[k.sys.cur := k.pc[k.sys.cur]] && k.locks == k.locks[l := k.locks[l]]
  {
    NotQueued(k, l);
  }

  lemma AcquireStep(k: State, l: Lid)
    requires Inv(k) && l in k.locks && k.sys.cur in k.pc && k.sys.cur != k.sys.idle && k.pc[k.sys.cur] == Out
    ensures Inv(LockAcquire(k, l))
  {
    hide LockOk, Inv;
    var me, L := k.sys.cur, k.locks[l];
    Here(k, l);
    AcquireLock(L, k.pc, l, me);
    if L.holder == Some(me) { QuietLockStep(k, l, L.(repeat := L.repeat + 1), Out); }
    else { QuietLockStep(k, l, L, Down(l)); }
  }

  lemma ReleaseStep(k: State, l: Lid)
    requires Inv(k) && l in k.locks && k.sys.cur in k.pc && k.sys.cur != k.sys.idle && k.pc[k.sys.cur] == Out
    requires k.locks[l].holder == Some(k.sys.cur)
    ensures LockRelease(k, l).Go? && Inv(LockRelease(k, l).s)
  {
    hide LockOk, Inv;
    var me, L := k.sys.cur, k.locks[l];
    Here(k, l);
    ReleaseLock(L, k.pc, l, me);
    if L.repeat > 1 { QuietLockStep(k, l, L.(repeat := L.repeat - 1), Out); }
    else { QuietLockStep(k, l, L.(holder := None), Unnamed(l)); }
  }

  lemma DownStep(k: State, l: Lid)
    requires Inv(k) && l in k.locks && k.sys.cur in k.pc && k.sys.cur != k.sys.idle && k.pc[k.sys.cur] in {Down(l), Sleep(l)}
    ensures k.sys.cur in k.sys.tasks && SemaDown(k, l).Go? && Inv(SemaDown(k, l).s)
  {
    hide LockOk, Inv;
    var me, L := k.sys.cur, k.locks[l];
    Here(k, l);
    if L.value == 0 { SleepStep(k, l); }
    else {
      TakeLock(L, k.pc, l, me);
      QuietLockStep(k, l, L.(value := 0), Got(l));
    }
  }

  /** No interleaving of lock operations breaks a lock or trips an assertion in thread/sync.c. */
  lemma LockStepKeeps(k: State, l: Lid)
    requires Inv(k) && l in k.locks && k.sys.cur in k.pc && k.sys.cur != k.sys.idle && PcLock(k.pc[k.sys.cur]) == Some(l)
    ensures k.sys.cur in k.sys.tasks && LockStep(k, k.pc[k.sys.cur]).Go? && Inv(LockStep(k, k.pc[k.sys.cur]).s)
  {
    hide LockOk, Inv;
    var me, L := k.sys.cur, k.locks[l];
    Here(k, l);
    WriteField(L, k.pc, l, me);
    match k.pc[me]
    case Down(_) => DownStep(k, l);
    case Sleep(_) => DownStep(k, l);
    case Got(_) => QuietLockStep(k, l, L.(holder := Some(me)), Named(l));
    case Named(_) => QuietLockStep(k, l, L.(repeat := 1), Out);
    case Unnamed(_) => QuietLockStep(k, l, L.(repeat := 0), Up(l));
    case Up(_) => UpStep(k, l);
  }
}
