/** The blocking side of device/ioqueue.c: any number of producers and consumers, the queue's lock and its
    two waiting slots, as a step machine.  `ioq_getchar` and `ioq_putchar` run with interrupts disabled, so
    a step ends only where a task gives up the processor: in `sema_down` on the queue's lock or in `ioq_wait`.
    The lock is the lock of thread/sync.c, seen through its proved property of having at most one owner. */
module WaitSlots {
  import opened Basics

  type Tid = int

  const CAPACITY: nat := 2047

  datatype Place =
    | Out                       // not in the queue's code
    | GetLock                   // consumer, blocked on the lock
    | GetSlot                   // consumer, blocked in the consumer slot, owns the lock
    | GetAwake                  // consumer, woken, owns the lock
    | PutLock(byte: char)
    | PutSlot(byte: char)
    | PutAwake(byte: char)

  /** `put` and `got` record every byte that went in and came out. */
  datatype State = State(data: seq<char>, lock: Option<Tid>, producer: Option<Tid>, consumer: Option<Tid>,
                         at: map<Tid, Place>, put: seq<char>, got: seq<char>)

  datatype Action = Get(t: Tid) | Put(t: Tid, byte: char) | Resume(t: Tid)

  /** `wakeup` on a slot: the task named there must be blocked. */
  function WakeProducer(s: State): (r: Outcome<State>) {
    match s.producer
    case None => Go(s)
    case Some(p) =>
      if p in s.at && s.at[p].PutSlot? then Go(s.(producer := None, at := s.at[p := PutAwake(s.at[p].byte)])) else Panic
  }

  function WakeConsumer(s: State): (r: Outcome<State>) {
    match s.consumer
    case None => Go(s)
    case Some(c) => if c in s.at && s.at[c].GetSlot? then Go(s.(consumer := None, at := s.at[c := GetAwake])) else Panic
  }

  /** With the lock just acquired: `ioq_wait` asserts that the slot is free. */
  function GetWaits(s: State, t: Tid): (r: Outcome<State>) {
    if s.consumer != None then Panic else Go(s.(consumer := Some(t), at := s.at[t := GetSlot]))
  }

  function PutWaits(s: State, t: Tid, byte: char): (r: Outcome<State>) {
    if s.producer != None then Panic else Go(s.(producer := Some(t), at := s.at[t := PutSlot(byte)]))
  }

  /** `ioq_getchar` from the test of its loop. */
  function GetLoop(s: State, t: Tid): (r: Outcome<State>) {
    if s.data == [] then
      if s.lock == None then GetWaits(s.(lock := Some(t)), t) else Go(s.(at := s.at[t := GetLock]))
    else
      WakeProducer(s.(data := s.data[1..], got := s.got + [s.data[0]], at := s.at[t := Out]))
  }

  /** `ioq_putchar` from the test of its loop. */
  function PutLoop(s: State, t: Tid, byte: char): (r: Outcome<State>) {
    if |s.data| == CAPACITY then
      if s.lock == None then PutWaits(s.(lock := Some(t)), t, byte) else Go(s.(at := s.at[t := PutLock(byte)]))
    else
      WakeConsumer(s.(data := s.data + [byte], put := s.put + [byte], at := s.at[t := Out]))
  }

  /** A task in a slot runs again only after it was woken; one that waits for the lock, only when the lock is free. */
  predicate Enabled(s: State, a: Action) {
    && a.t in s.at
    && (a.Get? || a.Put? ==> s.at[a.t] == Out)
    && (a.Resume? ==> s.at[a.t] != Out && !s.at[a.t].GetSlot? && !s.at[a.t].PutSlot?)
    && (a.Resume? && (s.at[a.t].GetLock? || s.at[a.t].PutLock?) ==> s.lock == None)
  }

  function Step(s: State, a: Action): (r: Outcome<State>)
    requires Enabled(s, a)
  {
    match a
    case Get(t) => GetLoop(s, t)
    case Put(t, b) => PutLoop(s, t, b)
    case Resume(t) =>
      match s.at[t]
      case GetLock => GetWaits(s.(lock := Some(t)), t)          // the queue is not looked at again
      case PutLock(b) => PutWaits(s.(lock := Some(t)), t, b)
      case GetAwake => if s.lock != Some(t) then Panic else GetLoop(s.(lock := None), t)
      case PutAwake(b) => if s.lock != Some(t) then Panic else PutLoop(s.(lock := None), t, b)
      case _ => Panic
  }

  ghost predicate HoldsLock(p: Place) {
    p.GetSlot? || p.GetAwake? || p.PutSlot? || p.PutAwake?
  }

  /** A set slot names a blocked task that owns the lock; the owner is in a slot or just woken; bytes leave in
      the order in which they came. */
  ghost predicate Inv(s: State) {
    && (forall t :: t in s.at ==> PlaceOk(s, t, s.at[t]))
    && (s.lock.Some? ==> s.lock.v in s.at && HoldsLock(s.at[s.lock.v]))
    && (s.producer.Some? ==> s.producer.v in s.at && s.at[s.producer.v].PutSlot?)
    && (s.consumer.Some? ==> s.consumer.v in s.at && s.at[s.consumer.v].GetSlot?)
    && |s.data| <= CAPACITY
    && s.put == s.got + s.data
  }

  ghost predicate PlaceOk(s: State, t: Tid, p: Place) {
    && (HoldsLock(p) ==> s.lock == Some(t))
    && (p.GetSlot? <==> s.consumer == Some(t))
    && (p.PutSlot? <==> s.producer == Some(t))
  }

  /** No assertion of the queue fails, whatever the interleaving. */
  lemma StepKeeps(s: State, a: Action)
    requires Inv(s) && Enabled(s, a)
    ensures Step(s, a).Go? && Inv(Step(s, a).s)
  {
    var t := a.t;
    Parts(s, t);
    hide PlaceOk;
    match a
    case Get(_) => GetKeeps(s, t);
    case Put(_, b) => PutKeeps(s, t, b);
    case Resume(_) =>
      match s.at[t] {
        case GetLock => GetWaitsKeeps(s, t);
        case PutLock(b) => PutWaitsKeeps(s, t, b);
        case GetAwake => FreeKeeps(s, t); GetKeeps(s.(lock := None, at := s.at[t := Out]), t);
          assert s.at[t := Out][t := GetLock] == s.at[t := GetLock] && s.at[t := Out][t := GetSlot] == s.at[t := GetSlot];
          assert s.at[t := Out][t := Out] == s.at[t := Out];
        case PutAwake(b) => FreeKeeps(s, t); PutKeeps(s.(lock := None, at := s.at[t := Out]), t, b);
          assert s.at[t := Out][t := PutLock(b)] == s.at[t := PutLock(b)] && s.at[t := Out][t := PutSlot(b)] == s.at[t := PutSlot(b)];
          assert s.at[t := Out][t := Out] == s.at[t := Out];
      }
  }

  lemma FreeKeeps(s: State, t: Tid)
    requires Inv(s) && t in s.at && (s.at[t].GetAwake? || s.at[t].PutAwake?)
    ensures Inv(s.(lock := None, at := s.at[t := Out]))
  {
    Parts(s, t);
    var s' := s.(lock := None, at := s.at[t := Out]);
    forall u | u in s'.at ensures PlaceOk(s', u, s'.at[u]) { assert PlaceOk(s, u, s.at[u]); }
  }

  lemma GetWaitsKeeps(s: State, t: Tid)
    requires Inv(s) && t in s.at && s.lock == None
    ensures var r := GetWaits(s.(lock := Some(t)), t); r.Go? && Inv(r.s)
  {
    Parts(s, t);
    var s' := GetWaits(s.(lock := Some(t)), t).s;
    forall u | u in s'.at ensures PlaceOk(s', u, s'.at[u]) { assert PlaceOk(s, u, s.at[u]); }
  }

  lemma PutWaitsKeeps(s: State, t: Tid, b: char)
    requires Inv(s) && t in s.at && s.lock == None
    ensures var r := PutWaits(s.(lock := Some(t)), t, b); r.Go? && Inv(r.s)
  {
    Parts(s, t);
    var s' := PutWaits(s.(lock := Some(t)), t, b).s;
    forall u | u in s'.at ensures PlaceOk(s', u, s'.at[u]) { assert PlaceOk(s, u, s.at[u]); }
  }

  lemma GetKeeps(s: State, t: Tid)
    requires Inv(s) && t in s.at && s.at[t] == Out
    ensures GetLoop(s, t).Go? && Inv(GetLoop(s, t).s)
  {
    if s.data == [] && s.lock == None { GetWaitsKeeps(s, t); }
    else {
      var s' := GetLoop(s, t).s;
      forall u | u in s'.at ensures PlaceOk(s', u, s'.at[u]) { assert PlaceOk(s, u, s.at[u]); }
    }
  }

  lemma PutKeeps(s: State, t: Tid, b: char)
    requires Inv(s) && t in s.at && s.at[t] == Out
    ensures PutLoop(s, t, b).Go? && Inv(PutLoop(s, t, b).s)
  {
    if |s.data| == CAPACITY && s.lock == None { PutWaitsKeeps(s, t, b); }
    else {
      var s' := PutLoop(s, t, b).s;
      forall u | u in s'.at ensures PlaceOk(s', u, s'.at[u]) { assert PlaceOk(s, u, s.at[u]); }
    }
  }

  /** The two slots are never set together, and whoever is in one owns the lock. */
  lemma OneSlot(s: State)
    requires Inv(s)
    ensures s.producer == None || s.consumer == None
    ensures s.producer.Some? ==> s.lock == s.producer
    ensures s.consumer.Some? ==> s.lock == s.consumer
  {
    if s.producer.Some? { assert PlaceOk(s, s.producer.v, s.at[s.producer.v]); }
    if s.consumer.Some? { assert PlaceOk(s, s.consumer.v, s.at[s.consumer.v]); }
  }

  // ---------------------------------------------------------------- runs

  ghost predicate Initial(s: State) {
    s == State([], None, None, None, map t | t in s.at :: Out, [], [])
  }

  ghost predicate Run(states: seq<State>, actions: seq<Action>) {
    && |states| == |actions| + 1 && Initial(states[0])
    && forall i :: 0 <= i < |actions| ==> Enabled(states[i], actions[i]) && Step(states[i], actions[i]) == Go(states[i + 1])
  }

  /** In every run the queue is a FIFO: what came out is a prefix of what went in, the rest is in the queue;
      the slots are never both set and name the owner of the lock. */
  lemma {:induction false} FifoInRuns(states: seq<State>, actions: seq<Action>, i: nat)
    requires Run(states, actions) && i < |states|
    ensures var s := states[i];
            && Inv(s) && s.put == s.got + s.data && |s.data| <= CAPACITY
            && (s.producer == None || s.consumer == None)
            && (s.producer.Some? ==> s.lock == s.producer) && (s.consumer.Some? ==> s.lock == s.consumer)
  {
    if i > 0 {
      FifoInRuns(states, actions, i - 1);
      StepKeeps(states[i - 1], actions[i - 1]);
    }
    OneSlot(states[i]);
  }

  // ---------------------------------------------------------------- calls

  /** The byte that a put in progress has still to put. */
  ghost function Pending(p: Place): (r: Option<char>) {
    if p.PutLock? || p.PutSlot? || p.PutAwake? then Some(p.byte) else None
  }

  /** Every call does what it was made for, however often it sleeps: a put returns exactly when its own byte went in, once,
      a get exactly when it took the oldest byte out, once, and until then neither touches the bytes.  No other task's call
      changes, except that a sleeper may be woken. */
  lemma CallProgress(s: State, a: Action)
    requires Inv(s) && Enabled(s, a)
    ensures Step(s, a).Go?
    ensures var r, p := Step(s, a).s, s.at[a.t];
            && r.at.Keys == s.at.Keys
            && (a.Put? || Pending(p).Some? ==>
                 var b := if a.Put? then a.byte else Pending(p).v;
                 && r.got == s.got
                 && if r.at[a.t] == Out then r.put == s.put + [b] else Pending(r.at[a.t]) == Some(b) && r.put == s.put)
            && (!a.Put? && Pending(p).None? ==>
                 && r.put == s.put
                 && if r.at[a.t] == Out then s.data != [] && r.got == s.got + [s.data[0]]
                    else (r.at[a.t].GetLock? || r.at[a.t].GetSlot?) && r.got == s.got)
            && forall t :: t in s.at && t != a.t && r.at[t] != s.at[t] ==>
                 || (s.at[t].GetSlot? && r.at[t].GetAwake?)
                 || (s.at[t].PutSlot? && r.at[t] == PutAwake(s.at[t].byte))
  {
    hide Inv;
    StepKeeps(s, a);
    Parts(s, a.t);
  }

  // ---------------------------------------------------------------- lost wakeups

  /** Nobody sleeps in a slot without cause. */
  ghost predicate Sound(s: State) {
    (s.consumer.Some? ==> s.data == []) && (s.producer.Some? ==> |s.data| == CAPACITY)
  }

  /** A task puts itself to sleep without cause exactly when it had to wait for the lock and the queue
      changed meanwhile: the loop does not test the queue again before `ioq_wait`. */
  lemma SleepsWithCauseExactlyWhen(s: State, a: Action)
    requires Inv(s) && Sound(s) && Enabled(s, a)
    ensures Step(s, a).Go?
    ensures Sound(Step(s, a).s) <==>
            !(a.Resume? && ((s.at[a.t].GetLock? && s.data != []) || (s.at[a.t].PutLock? && |s.data| != CAPACITY)))
  {
    hide Inv;
    StepKeeps(s, a);
    Parts(s, a.t);
  }

  lemma Parts(s: State, t: Tid)
    requires Inv(s) && t in s.at
    ensures s.at[t].GetAwake? || s.at[t].PutAwake? ==> s.lock == Some(t) && s.consumer == None && s.producer == None
    ensures s.lock == None ==> s.consumer == None && s.producer == None
    ensures |s.data| <= CAPACITY
  {
    assert PlaceOk(s, t, s.at[t]);
    if s.producer.Some? { assert PlaceOk(s, s.producer.v, s.at[s.producer.v]); }
    if s.consumer.Some? { assert PlaceOk(s, s.consumer.v, s.at[s.consumer.v]); }
  }

  ghost const S0 := State([], None, None, None, map[1 := Out, 2 := Out, 3 := Out], [], [])
  ghost const S1 := S0.(lock := Some(1), consumer := Some(1), at := S0.at[1 := GetSlot])
  ghost const S2 := S1.(at := S1.at[2 := GetLock])
  ghost const S3 := S2.(data := ['a'], put := ['a'], consumer := None, at := S2.at[3 := Out][1 := GetAwake])
  ghost const S4 := S3.(data := ['a', 'b'], put := ['a', 'b'], at := S3.at[3 := Out])
  ghost const S5 := S4.(lock := None, data := ['b'], got := ['a'], at := S4.at[1 := Out])
  ghost const S6 := S5.(lock := Some(2), consumer := Some(2), at := S5.at[2 := GetSlot])

  lemma SceneOpens()
    ensures Initial(S0) && Enabled(S0, Get(1)) && Enabled(S1, Get(2)) && Enabled(S2, Put(3, 'a'))
    ensures Step(S0, Get(1)) == Go(S1) && Step(S1, Get(2)) == Go(S2) && Step(S2, Put(3, 'a')) == Go(S3)
  {
    assert [] + ['a'] == ['a'];
  }

  lemma SceneCloses()
    ensures Enabled(S3, Put(3, 'b')) && Enabled(S4, Resume(1)) && Enabled(S5, Resume(2))
    ensures Step(S3, Put(3, 'b')) == Go(S4) && Step(S4, Resume(1)) == Go(S5) && Step(S5, Resume(2)) == Go(S6)
  {
    assert ['a', 'b'][1..] == ['b'] && ['a'] + ['b'] == ['a', 'b'] && [] + ['a'] == ['a'];
  }

  /** Two consumers: the second goes to sleep although a byte is waiting for it. */
  lemma SecondConsumerSleepsOn() returns (states: seq<State>, actions: seq<Action>)
    ensures Run(states, actions) && |actions| == 6
    ensures !Sound(states[6]) && states[6].consumer == Some(2) && states[6].data == ['b']
  {
    hide Step, Initial, Enabled;
    SceneOpens();
    SceneCloses();
    states := [S0, S1, S2, S3, S4, S5, S6];
    actions := [Get(1), Get(2), Put(3, 'a'), Put(3, 'b'), Resume(1), Resume(2)];
  }

  /** One consumer, and nobody else waits. */
  ghost predicate Keyboard(s: State, c: Tid) {
    c in s.at && (forall t :: t in s.at && t != c ==> s.at[t] == Out) && s.at[c] in {Out, GetSlot, GetAwake}
  }

  /** The keyboard's use: only `c` gets, and the interrupt handler, in whatever task it strikes, puts only into a queue
      that is not full. */
  ghost predicate KeyboardUse(s: State, a: Action, c: Tid) {
    (a.Get? ==> a.t == c) && (a.Put? ==> |s.data| < CAPACITY)
  }

  lemma KeyboardStep(s: State, a: Action, c: Tid)
    requires Inv(s) && Sound(s) && Keyboard(s, c) && Enabled(s, a) && KeyboardUse(s, a, c)
    ensures Step(s, a).Go? && Sound(Step(s, a).s) && Keyboard(Step(s, a).s, c)
  {
    StepKeeps(s, a);
    SleepsWithCauseExactlyWhen(s, a);
    Parts(s, c);
    assert PlaceOk(s, c, s.at[c]);
  }

  /** With one consumer and producers that never wait, nobody sleeps without cause in any state of a run. */
  lemma {:induction false} KeyboardNeverSleepsOn(states: seq<State>, actions: seq<Action>, c: Tid, i: nat)
    requires Run(states, actions) && i < |states| && c in states[0].at
    requires forall j :: 0 <= j < i ==> KeyboardUse(states[j], actions[j], c)
    ensures Sound(states[i]) && Keyboard(states[i], c)
  {
    hide Step, Inv, KeyboardUse;
    if i > 0 {
      KeyboardNeverSleepsOn(states, actions, c, i - 1);
      FifoInRuns(states, actions, i - 1);
      KeyboardStep(states[i - 1], actions[i - 1], c);
    }
  }
}
