/** Reference counts of pipes.  A pipe's slot in the file table reuses `fd_pos` as the number of descriptors
    that refer to it.  The state is the file table and the descriptor tables of the processes that have not
    exited; descriptors 0, 1 and 2 are standard input, output and error. */
module Pipes {
  import opened Basics

  const MAX_OPEN: nat := 32       // MAX_FILE_OPEN
  const PER_PROC: nat := 8        // MAX_FILES_OPEN_PER_PROC

  /** `used`: fd_inode is not NULL; `pipe`: fd_flag is PIPE_FLAG. */
  datatype File = File(pos: int, pipe: bool, used: bool)

  datatype State = State(table: seq<File>, procs: seq<seq<int>>)

  // ---------------------------------------------------------------- the operations

  /** `get_free_slot_in_global` from slot `g` on. */
  function FreeSlot(table: seq<File>, g: nat): (r: Option<nat>)
    ensures r.Some? ==> g <= r.v < |table| && !table[r.v].used && forall h :: g <= h < r.v ==> table[h].used
    ensures r.None? ==> forall h :: g <= h < |table| ==> table[h].used
    decreases |table| - g
  {
    if g >= |table| then None else if !table[g].used then Some(g) else FreeSlot(table, g + 1)
  }

  /** `pcb_fd_install` from descriptor `fd` on: the table with the slot entered, if there was room. */
  function Install(t: seq<int>, fd: nat, g: int): (r: seq<int>)
    ensures |r| == |t|
    decreases |t| - fd
  {
    if fd >= |t| then t else if t[fd] == -1 then t[fd := g] else Install(t, fd + 1, g)
  }

  /** `sys_pipe`: two descriptors and a count of two, whether or not there was room for both. */
  function Pipe(s: State, p: nat): (r: State)
    requires p < |s.procs| && FreeSlot(s.table, 3).Some?
  {
    var g := FreeSlot(s.table, 3).v;
    State(s.table[g := File(2, true, true)], s.procs[p := Install(Install(s.procs[p], 3, g), 3, g)])
  }

  /** One reference less; the page goes with the last. */
  function Drop(table: seq<File>, g: nat): (r: seq<File>)
    requires g < |table|
  {
    var f := table[g].(pos := table[g].pos - 1);
    table[g := if f.pos == 0 then f.(used := false) else f]
  }

  /** `sys_close`: the assertion on the slot number fails, or a slot without an inode is dereferenced. */
  function Close(s: State, p: nat, fd: int): (r: Outcome<State>)
    requires p < |s.procs| && fd < |s.procs[p]|
  {
    if fd <= 2 then Go(s)
    else
      var g := s.procs[p][fd];
      if !(0 <= g < |s.table|) || !s.table[g].used then Panic
      else Go(State(Drop(s.table, g), s.procs[p := s.procs[p][fd := -1]]))
  }

  /** A descriptor from 3 on that was redirected to a standard one: its slot has no inode. */
  predicate Stray(t: seq<int>) { exists fd :: 3 <= fd < |t| && 0 <= t[fd] < 3 }

  /** `update_inode_open_cnts` from descriptor `fd` on. */
  function Share(table: seq<File>, t: seq<int>, fd: nat): (r: seq<File>)
    ensures |r| == |table|
    decreases |t| - fd
  {
    if fd >= |t| then table
    else if 0 <= t[fd] < |table| then Share(table[t[fd] := table[t[fd]].(pos := table[t[fd]].pos + 1)], t, fd + 1)
    else Share(table, t, fd + 1)
  }

  /** The child has the same descriptors; a stray one makes the count follow a null pointer. */
  function Fork(s: State, p: nat): (r: Outcome<State>)
    requires p < |s.procs|
  {
    if Stray(s.procs[p]) then Panic else Go(State(Share(s.table, s.procs[p], 3), s.procs + [s.procs[p]]))
  }

  /** The loop of `release_prog_resource` over descriptors, from `fd` on. */
  function DropAll(table: seq<File>, t: seq<int>, fd: nat): (r: seq<File>)
    ensures |r| == |table|
    decreases |t| - fd
  {
    if fd >= |t| then table
    else if 0 <= t[fd] < |table| then DropAll(Drop(table, t[fd]), t, fd + 1)
    else DropAll(table, t, fd + 1)
  }

  function Exit(s: State, p: nat): (r: Outcome<State>)
    requires p < |s.procs|
  {
    if Stray(s.procs[p]) then Panic else Go(State(DropAll(s.table, s.procs[p], 3), s.procs[..p] + s.procs[p + 1..]))
  }

  /** `sys_fd_redirect` */
  function Redirect(s: State, p: nat, from: nat, to: nat): (r: State)
    requires p < |s.procs| && from < |s.procs[p]| && to < |s.procs[p]|
  {
    State(s.table, s.procs[p := s.procs[p][from := Target(s.procs[p], to)]])
  }

  function Target(t: seq<int>, to: nat): (g: int)
    requires to < |t|
  {
    if to < 3 then to else t[to]
  }

  // ---------------------------------------------------------------- counting

  /** How many descriptors from `fd` on refer to slot `g`. */
  function Count(t: seq<int>, fd: nat, g: int): (n: nat)
    decreases |t| - fd
  {
    if fd >= |t| then 0 else (if t[fd] == g then 1 else 0) + Count(t, fd + 1, g)
  }

  /** How many (process, descriptor >= 3) pairs refer to slot `g`. */
  function Refs(procs: seq<seq<int>>, g: int): (n: nat) {
    if procs == [] then 0 else Refs(procs[..|procs| - 1], g) + Count(procs[|procs| - 1], 3, g)
  }

  /** Free descriptors. */
  function Room(t: seq<int>): (n: nat) {
    Count(t, 3, -1)
  }

  ghost predicate FdsOk(t: seq<int>) {
    |t| == PER_PROC && forall fd :: 3 <= fd < |t| ==> -1 <= t[fd] < MAX_OPEN
  }

  /** A table with slots for the standard descriptors, and descriptors that are free or name a slot. */
  ghost predicate Formed(s: State) {
    && |s.table| == MAX_OPEN && (forall g :: 0 <= g < 3 ==> !s.table[g].used)
    && (forall p :: 0 <= p < |s.procs| ==> FdsOk(s.procs[p]))
  }

  ghost predicate SlotOk(f: File, refs: nat) {
    if f.used then f.pipe && f.pos == refs && refs > 0 else refs == 0
  }

  /** Every slot in use counts its references exactly, and a slot is in use exactly while it has one. */
  ghost predicate Counted(s: State) {
    |s.table| == MAX_OPEN && forall g :: 3 <= g < MAX_OPEN ==> SlotOk(s.table[g], Refs(s.procs, g))
  }

  lemma {:induction false} CountUpdate(t: seq<int>, fd: nat, i: nat, v: int, g: int)
    requires i < |t|
    ensures Count(t[i := v], fd, g) ==
            Count(t, fd, g) - (if fd <= i && t[i] == g then 1 else 0) + (if fd <= i && v == g then 1 else 0)
    decreases |t| - fd
  {
    if fd < |t| { CountUpdate(t, fd + 1, i, v, g); }
  }

  lemma {:induction false} RefsUpdate(procs: seq<seq<int>>, p: nat, t: seq<int>, g: int)
    requires p < |procs|
    ensures Refs(procs[p := t], g) == Refs(procs, g) - Count(procs[p], 3, g) + Count(t, 3, g)
    decreases |procs|
  {
    var q := procs[p := t];
    var n := |procs| - 1;
    if p < n {
      assert q[..n] == procs[..n][p := t];
      RefsUpdate(procs[..n], p, t, g);
    } else {
      assert q[..n] == procs[..n];
    }
  }

  lemma RefsAppend(procs: seq<seq<int>>, t: seq<int>, g: int)
    ensures Refs(procs + [t], g) == Refs(procs, g) + Count(t, 3, g)
  {
    assert (procs + [t])[..|procs|] == procs;
  }

  lemma {:induction false} RefsRemove(procs: seq<seq<int>>, p: nat, g: int)
    requires p < |procs|
    ensures Refs(procs[..p] + procs[p + 1..], g) == Refs(procs, g) - Count(procs[p], 3, g)
    decreases |procs|
  {
    var n := |procs| - 1;
    if p < n {
      RefsRemove(procs[..n], p, g);
      assert procs[..p] + procs[p + 1..] == (procs[..n][..p] + procs[..n][p + 1..]) + [procs[n]];
      RefsAppend(procs[..n][..p] + procs[..n][p + 1..], procs[n], g);
    } else {
      assert procs[..p] + procs[p + 1..] == procs[..n];
    }
  }

  lemma {:induction false} CountPositive(t: seq<int>, fd: nat, i: nat)
    requires fd <= i < |t|
    ensures Count(t, fd, t[i]) > 0
    decreases |t| - fd
  {
    if fd < i { CountPositive(t, fd + 1, i); }
  }

  lemma {:induction false} CountAtMostRefs(procs: seq<seq<int>>, p: nat, g: int)
    requires p < |procs|
    ensures Count(procs[p], 3, g) <= Refs(procs, g)
    decreases |procs|
  {
    if p < |procs| - 1 { CountAtMostRefs(procs[..|procs| - 1], p, g); }
  }

  /** A descriptor that is not stray refers to a slot in use. */
  lemma FdUsed(s: State, p: nat, fd: nat)
    requires Formed(s) && Counted(s) && p < |s.procs| && 3 <= fd < |s.procs[p]|
    ensures var g := s.procs[p][fd]; -1 <= g < MAX_OPEN && (g >= 0 ==> (s.table[g].used <==> g >= 3))
  {
    assert FdsOk(s.procs[p]);
    var g := s.procs[p][fd];
    if g >= 3 {
      CountPositive(s.procs[p], 3, fd);
      CountAtMostRefs(s.procs, p, g);
      assert SlotOk(s.table[g], Refs(s.procs, g));
    }
  }

  // ---------------------------------------------------------------- pipe

  lemma {:induction false} InstallCounts(t: seq<int>, fd: nat, g: int, h: int)
    requires g != -1
    ensures Count(t, fd, -1) == 0 ==> Install(t, fd, g) == t
    ensures Count(t, fd, -1) > 0 ==>
              Count(Install(t, fd, g), fd, h) == Count(t, fd, h) + (if h == g then 1 else 0) - (if h == -1 then 1 else 0)
    ensures forall i :: 0 <= i < |t| ==> Install(t, fd, g)[i] == t[i] || (i >= fd && Install(t, fd, g)[i] == g)
    decreases |t| - fd
  {
    if fd < |t| {
      if t[fd] == -1 {
        CountUpdate(t, fd, fd, g, h);
      } else {
        InstallCounts(t, fd + 1, g, h);
      }
    }
  }

  lemma PipeForms(s: State, p: nat)
    requires Formed(s) && p < |s.procs| && FreeSlot(s.table, 3).Some?
    ensures Formed(Pipe(s, p))
  {
    var g := FreeSlot(s.table, 3).v;
    var t := s.procs[p];
    var r := Pipe(s, p);
    InstallCounts(t, 3, g, g);
    InstallCounts(Install(t, 3, g), 3, g, g);
    forall q | 0 <= q < |r.procs| ensures FdsOk(r.procs[q]) { assert FdsOk(s.procs[q]); }
  }

  /** `sys_pipe` keeps the counts right exactly when the process has two free descriptors. */
  lemma PipeExactlyWhen(s: State, p: nat)
    requires Formed(s) && Counted(s) && p < |s.procs| && FreeSlot(s.table, 3).Some?
    ensures Counted(Pipe(s, p)) <==> Room(s.procs[p]) >= 2
  {
    var g := FreeSlot(s.table, 3).v;
    var t := s.procs[p];
    var t1 := Install(t, 3, g);
    var t2 := Install(t1, 3, g);
    var r := Pipe(s, p);
    assert SlotOk(s.table[g], Refs(s.procs, g));
    forall h | h != -1
      ensures Refs(r.procs, h) == Refs(s.procs, h) + (if h != g then 0 else if Room(t) >= 2 then 2 else Room(t))
    {
      InstallCounts(t, 3, g, h);
      InstallCounts(t, 3, g, -1);
      InstallCounts(t1, 3, g, h);
      RefsUpdate(s.procs, p, t2, h);
    }
    if Room(t) >= 2 {
      forall h | 3 <= h < MAX_OPEN ensures SlotOk(r.table[h], Refs(r.procs, h)) {
        assert SlotOk(s.table[h], Refs(s.procs, h));
      }
    } else {
      assert !SlotOk(r.table[g], Refs(r.procs, g));
    }
  }

  // ---------------------------------------------------------------- close

  /** `sys_close` stops exactly for a descriptor that is free or stray, and keeps the counts: the slot and its page
      are released exactly when no reference is left. */
  lemma CloseKeeps(s: State, p: nat, fd: int)
    requires Formed(s) && Counted(s) && p < |s.procs| && fd < PER_PROC
    ensures |s.procs[p]| == PER_PROC
    ensures Close(s, p, fd).Panic? <==> fd > 2 && s.procs[p][fd] < 3
    ensures Close(s, p, fd).Go? ==> Formed(Close(s, p, fd).s) && Counted(Close(s, p, fd).s)
    ensures Close(s, p, fd).Go? && fd > 2 ==>
              forall h :: h != -1 ==> Refs(Close(s, p, fd).s.procs, h) == Refs(s.procs, h) - (if h == s.procs[p][fd] then 1 else 0)
  {
    assert FdsOk(s.procs[p]);
    if fd > 2 { FdUsed(s, p, fd); }
    if fd > 2 && s.procs[p][fd] >= 3 {
      var t := s.procs[p];
      var r := Close(s, p, fd).s;
      forall h | h != -1 ensures Refs(r.procs, h) == Refs(s.procs, h) - (if h == t[fd] then 1 else 0) {
        CountUpdate(t, 3, fd, -1, h);
        RefsUpdate(s.procs, p, t[fd := -1], h);
      }
      forall h | 3 <= h < MAX_OPEN ensures SlotOk(r.table[h], Refs(r.procs, h)) {
        assert SlotOk(s.table[h], Refs(s.procs, h));
      }
      forall q | 0 <= q < |r.procs| ensures FdsOk(r.procs[q]) { assert FdsOk(s.procs[q]); }
    }
  }

  // ---------------------------------------------------------------- fork

  lemma {:induction false} ShareAdds(table: seq<File>, t: seq<int>, fd: nat, g: nat)
    requires g < |table|
    ensures Share(table, t, fd)[g] == table[g].(pos := table[g].pos + Count(t, fd, g))
    decreases |t| - fd
  {
    if fd < |t| {
      if 0 <= t[fd] < |table| {
        ShareAdds(table[t[fd] := table[t[fd]].(pos := table[t[fd]].pos + 1)], t, fd + 1, g);
      } else {
        ShareAdds(table, t, fd + 1, g);
      }
    }
  }

  lemma ForkKeeps(s: State, p: nat)
    requires Formed(s) && Counted(s) && p < |s.procs| && !Stray(s.procs[p])
    ensures Formed(Fork(s, p).s) && Counted(Fork(s, p).s)
  {
    var t := s.procs[p];
    var r := Fork(s, p).s;
    assert FdsOk(t);
    forall g | 0 <= g < MAX_OPEN ensures g >= 3 ==> SlotOk(r.table[g], Refs(r.procs, g)) {
      ShareAdds(s.table, t, 3, g);
      if g >= 3 {
        assert SlotOk(s.table[g], Refs(s.procs, g));
        RefsAppend(s.procs, t, g);
        CountAtMostRefs(s.procs, p, g);
      }
    }
    forall q | 0 <= q < |r.procs| ensures FdsOk(r.procs[q]) { assert q < |s.procs| ==> FdsOk(s.procs[q]); }
    forall g | 0 <= g < 3 ensures !r.table[g].used { ShareAdds(s.table, t, 3, g); }
  }

  // ---------------------------------------------------------------- exit

  lemma {:induction false} DropAllDrops(table: seq<File>, t: seq<int>, fd: nat, g: nat)
    requires g < |table| && (table[g].used ==> table[g].pos > 0) && (Count(t, fd, g) > 0 ==> table[g].used)
    requires table[g].used ==> Count(t, fd, g) <= table[g].pos
    ensures var f := DropAll(table, t, fd)[g];
            && f.pos == table[g].pos - Count(t, fd, g) && f.pipe == table[g].pipe
            && (f.used <==> table[g].used && f.pos > 0)
    decreases |t| - fd
  {
    if fd < |t| {
      if 0 <= t[fd] < |table| { DropAllDrops(Drop(table, t[fd]), t, fd + 1, g); }
      else { DropAllDrops(table, t, fd + 1, g); }
    }
  }

  lemma {:induction false} NotStray(t: seq<int>, fd: nat, g: nat)
    requires fd >= 3 && !Stray(t) && g < 3
    ensures Count(t, fd, g) == 0
    decreases |t| - fd
  {
    if fd < |t| { NotStray(t, fd + 1, g); }
  }

  lemma ExitKeeps(s: State, p: nat)
    requires Formed(s) && Counted(s) && p < |s.procs| && !Stray(s.procs[p])
    ensures Formed(Exit(s, p).s) && Counted(Exit(s, p).s)
    ensures forall g :: 3 <= g < MAX_OPEN ==> Refs(Exit(s, p).s.procs, g) == Refs(s.procs, g) - Count(s.procs[p], 3, g)
  {
    var t := s.procs[p];
    var r := Exit(s, p).s;
    forall g | 3 <= g < MAX_OPEN
      ensures SlotOk(r.table[g], Refs(r.procs, g)) && Refs(r.procs, g) == Refs(s.procs, g) - Count(t, 3, g)
    {
      assert SlotOk(s.table[g], Refs(s.procs, g));
      CountAtMostRefs(s.procs, p, g);
      DropAllDrops(s.table, t, 3, g);
      RefsRemove(s.procs, p, g);
    }
    forall g | 0 <= g < 3 ensures !r.table[g].used {
      NotStray(t, 3, g);
      DropAllDrops(s.table, t, 3, g);
    }
    forall q | 0 <= q < |r.procs| ensures FdsOk(r.procs[q]) {
      assert FdsOk(s.procs[q]) && (q + 1 < |s.procs| ==> FdsOk(s.procs[q + 1]));
    }
  }

  // ---------------------------------------------------------------- redirect

  /** A redirection that concerns no counted reference: of a standard descriptor, to the slot that is there already, or
      from no slot to a slot without a count. */
  predicate Harmless(t: seq<int>, from: nat, to: nat)
    requires from < |t| && to < |t|
  {
    from < 3 || t[from] == Target(t, to) || (t[from] < 3 && Target(t, to) < 3)
  }

  /** Redirection is uncounted, so it keeps the counts right exactly when it concerns no counted reference. */
  lemma RedirectExactlyWhen(s: State, p: nat, from: nat, to: nat)
    requires Formed(s) && Counted(s) && p < |s.procs| && from < PER_PROC && to < PER_PROC
    ensures |s.procs[p]| == PER_PROC && Formed(Redirect(s, p, from, to))
    ensures Counted(Redirect(s, p, from, to)) <==> Harmless(s.procs[p], from, to)
  {
    assert FdsOk(s.procs[p]);
    var t := s.procs[p];
    var v := Target(t, to);
    var r := Redirect(s, p, from, to);
    forall q | 0 <= q < |r.procs| ensures FdsOk(r.procs[q]) { assert FdsOk(s.procs[q]); }
    forall g ensures Refs(r.procs, g) == Refs(s.procs, g) - (if from >= 3 && t[from] == g then 1 else 0) + (if from >= 3 && v == g then 1 else 0) {
      CountUpdate(t, 3, from, v, g);
      RefsUpdate(s.procs, p, t[from := v], g);
    }
    if Harmless(t, from, to) {
      forall g | 3 <= g < MAX_OPEN ensures SlotOk(r.table[g], Refs(r.procs, g)) { assert SlotOk(s.table[g], Refs(s.procs, g)); }
    } else {
      var g := if v < 3 then t[from] else v;
      assert SlotOk(s.table[g], Refs(s.procs, g));
      if v >= 3 && t[from] < 3 { FdUsed(s, p, to); }
      assert !SlotOk(r.table[g], Refs(r.procs, g));
    }
  }

  // ---------------------------------------------------------------- runs

  datatype Op = MakePipe(p: nat) | CloseFd(p: nat, fd: int) | ForkProc(p: nat) | ExitProc(p: nat)
              | RedirectFd(p: nat, from: nat, to: nat)

  /** What the callers provide: a live process, descriptors within its table and, for `sys_pipe`, whose
      result from `get_free_slot_in_global` is used unchecked, a free slot. */
  ghost predicate Enabled(s: State, op: Op) {
    && op.p < |s.procs|
    && (op.MakePipe? ==> FreeSlot(s.table, 3).Some?)
    && (op.CloseFd? ==> op.fd < |s.procs[op.p]|)
    && (op.RedirectFd? ==> op.from < |s.procs[op.p]| && op.to < |s.procs[op.p]|)
  }

  /** The condition a caller can check under which an operation keeps the counts right. */
  ghost predicate Careful(s: State, op: Op)
    requires Enabled(s, op)
  {
    && (op.MakePipe? ==> Room(s.procs[op.p]) >= 2)
    && (op.RedirectFd? ==> Harmless(s.procs[op.p], op.from, op.to))
  }

  ghost function Apply(s: State, op: Op): (r: Outcome<State>)
    requires Enabled(s, op)
  {
    match op
    case MakePipe(p) => Go(Pipe(s, p))
    case CloseFd(p, fd) => Close(s, p, fd)
    case ForkProc(p) => Fork(s, p)
    case ExitProc(p) => Exit(s, p)
    case RedirectFd(p, from, to) => Go(Redirect(s, p, from, to))
  }

  /** The operation follows a descriptor that names no slot, or one without an inode. */
  ghost predicate Faults(s: State, op: Op)
    requires Enabled(s, op)
  {
    || (op.CloseFd? && op.fd > 2 && s.procs[op.p][op.fd] < 3)
    || ((op.ForkProc? || op.ExitProc?) && Stray(s.procs[op.p]))
  }

  lemma ApplyExactlyWhen(s: State, op: Op)
    requires Formed(s) && Counted(s) && Enabled(s, op)
    ensures Apply(s, op).Panic? <==> Faults(s, op)
    ensures Apply(s, op).Go? ==> Formed(Apply(s, op).s) && (Counted(Apply(s, op).s) <==> Careful(s, op))
  {
    assert FdsOk(s.procs[op.p]);
    match op
    case MakePipe(p) => PipeForms(s, p); PipeExactlyWhen(s, p);
    case CloseFd(p, fd) => CloseKeeps(s, p, fd);
    case ForkProc(p) => if !Stray(s.procs[p]) { ForkKeeps(s, p); }
    case ExitProc(p) => if !Stray(s.procs[p]) { ExitKeeps(s, p); }
    case RedirectFd(p, from, to) => RedirectExactlyWhen(s, p, from, to);
  }

  /** A run: every operation enabled where it happens, none failing an assertion. */
  ghost predicate Runs(s: State, ops: seq<Op>)
    decreases |ops|
  {
    ops == [] || (Enabled(s, ops[0]) && Apply(s, ops[0]).Go? && Runs(Apply(s, ops[0]).s, ops[1..]))
  }

  ghost predicate CarefulRun(s: State, ops: seq<Op>)
    requires Runs(s, ops)
    decreases |ops|
  {
    ops == [] || (Careful(s, ops[0]) && CarefulRun(Apply(s, ops[0]).s, ops[1..]))
  }

  ghost predicate AlwaysCounted(s: State, ops: seq<Op>)
    requires Runs(s, ops)
    decreases |ops|
  {
    Counted(s) && (ops != [] ==> AlwaysCounted(Apply(s, ops[0]).s, ops[1..]))
  }

  /** Over every run from a state with right counts: they are right in every state that is passed exactly
      when every operation was careful. */
  lemma {:induction false} CountsInRuns(s: State, ops: seq<Op>)
    requires Formed(s) && Counted(s) && Runs(s, ops)
    ensures AlwaysCounted(s, ops) <==> CarefulRun(s, ops)
    decreases |ops|
  {
    hide Formed, Counted, Careful, Enabled, Apply, Faults;
    if ops != [] {
      ApplyExactlyWhen(s, ops[0]);
      var s1 := Apply(s, ops[0]).s;
      if Counted(s1) { CountsInRuns(s1, ops[1..]); }
      assert AlwaysCounted(s1, ops[1..]) ==> Counted(s1);
    }
  }

  // ---------------------------------------------------------------- two states

  /** A process with the pipes of slots 3 and 4, and one free descriptor. */
  ghost const TWO_PIPES := State(seq(MAX_OPEN, g => if 3 <= g < 5 then File(2, true, true) else File(0, false, false)),
                                 [[0, 1, 2, 3, 3, 4, 4, -1]])

  ghost function One(b: bool): (n: nat) { if b then 1 else 0 }

  lemma CountFive(t: seq<int>, g: int)
    requires |t| == PER_PROC
    ensures Count(t, 3, g) == One(t[3] == g) + One(t[4] == g) + One(t[5] == g) + One(t[6] == g) + One(t[7] == g)
  {
    assert Count(t, 8, g) == 0;
    assert Count(t, 7, g) == One(t[7] == g);
    assert Count(t, 6, g) == One(t[6] == g) + Count(t, 7, g);
    assert Count(t, 5, g) == One(t[5] == g) + Count(t, 6, g);
    assert Count(t, 4, g) == One(t[4] == g) + Count(t, 5, g);
  }

  lemma TwoPipesCounted()
    ensures Formed(TWO_PIPES) && Counted(TWO_PIPES) && FreeSlot(TWO_PIPES.table, 3).Some?
  {
    var s := TWO_PIPES;
    forall g | 3 <= g < MAX_OPEN ensures SlotOk(s.table[g], Refs(s.procs, g)) {
      assert s.procs[..0] == [];
      CountFive(s.procs[0], g);
    }
    assert !s.table[5].used;
  }

  /** A third pipe there installs one descriptor and counts two, so its page is never freed. */
  lemma ThirdPipeOverCounts()
    ensures Formed(TWO_PIPES) && Counted(TWO_PIPES) && FreeSlot(TWO_PIPES.table, 3).Some? && !Counted(Pipe(TWO_PIPES, 0))
  {
    TwoPipesCounted();
    CountFive(TWO_PIPES.procs[0], -1);
    PipeExactlyWhen(TWO_PIPES, 0);
  }

  /** Redirecting the free descriptor 7 to descriptor 3 there makes a third reference to a pipe that counts two; and
      redirecting descriptor 3 to standard input leaves one reference where two are counted. */
  lemma RedirectMiscounts()
    ensures Formed(TWO_PIPES) && Counted(TWO_PIPES)
    ensures !Counted(Redirect(TWO_PIPES, 0, 7, 3)) && !Counted(Redirect(TWO_PIPES, 0, 3, 0))
  {
    TwoPipesCounted();
    RedirectExactlyWhen(TWO_PIPES, 0, 7, 3);
    RedirectExactlyWhen(TWO_PIPES, 0, 3, 0);
  }

  /** Redirecting descriptor 7 there to standard input is counted right, but the next exit follows a null pointer. */
  lemma StrayFaultsAtExit()
    ensures var r := Redirect(TWO_PIPES, 0, 7, 0); Formed(r) && Counted(r) && Exit(r, 0).Panic? && Fork(r, 0).Panic?
  {
    TwoPipesCounted();
    RedirectExactlyWhen(TWO_PIPES, 0, 7, 0);
    var r := Redirect(TWO_PIPES, 0, 7, 0);
    assert r.procs[0][7] == 0;
  }
}
