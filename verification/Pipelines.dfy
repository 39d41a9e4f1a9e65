/** What redirection is for: a shell pipeline connects its commands through one pipe and leaves no trace. */
module Pipelines {
  import opened Basics
  import opened Pipes

  // ---------------------------------------------------------------- who is touched

  /** The descriptor tables after an operation: fork appends a copy of the caller's whole table, exit removes the caller's,
      and any other operation touches none but the caller's. */
  lemma OthersKept(s: State, op: Op)
    requires Enabled(s, op) && Apply(s, op).Go?
    ensures var r := Apply(s, op).s;
            && |r.procs| == |s.procs| + (if op.ForkProc? then 1 else 0) - (if op.ExitProc? then 1 else 0)
            && (forall q :: 0 <= q < |s.procs| && !op.ExitProc? && (op.ForkProc? || q != op.p) ==> r.procs[q] == s.procs[q])
            && (op.ForkProc? ==> forall fd :: 0 <= fd < |s.procs[op.p]| ==>
                 |r.procs[|s.procs|]| == |s.procs[op.p]| && r.procs[|s.procs|][fd] == s.procs[op.p][fd])
            && (op.ExitProc? ==> forall q :: 0 <= q < |r.procs| ==> r.procs[q] == s.procs[if q < op.p then q else q + 1])
  {
  }

  /** Standard descriptors are never counted and change by redirection alone. */
  lemma StandardKept(s: State, op: Op, fd: nat)
    requires Formed(s) && Enabled(s, op) && Apply(s, op).Go? && !op.ExitProc? && fd < 3 && (op.RedirectFd? ==> op.from != fd)
    ensures |s.procs[op.p]| == PER_PROC && op.p < |Apply(s, op).s.procs|
    ensures |Apply(s, op).s.procs[op.p]| == PER_PROC && Apply(s, op).s.procs[op.p][fd] == s.procs[op.p][fd]
  {
    assert FdsOk(s.procs[op.p]);
    if op.MakePipe? {
      var g := FreeSlot(s.table, 3).v;
      var t := s.procs[op.p];
      InstallCounts(t, 3, g, g);
      InstallCounts(Install(t, 3, g), 3, g, g);
    }
  }

  // ---------------------------------------------------------------- round trips

  /** Redirecting a standard descriptor and then restoring it gives back the state exactly when it was the standard one. */
  lemma RedirectThenRestore(s: State, p: nat, from: nat, to: nat)
    requires p < |s.procs| && from < 3 && from < |s.procs[p]| && to < |s.procs[p]|
    ensures var r := Redirect(s, p, from, to);
            Redirect(r, p, from, from) == s <==> s.procs[p][from] == from
  {
    var t := s.procs[p];
    var r := Redirect(Redirect(s, p, from, to), p, from, from);
    assert r.procs[p] == t[from := from];
    if t[from] == from {
      assert t[from := from] == t;
      assert r.procs == s.procs;
    }
  }

  /** A child that does nothing to its descriptors and exits undoes its fork, counts included. */
  lemma ForkThenExit(s: State, p: nat)
    requires Formed(s) && Counted(s) && p < |s.procs| && !Stray(s.procs[p])
    ensures Fork(s, p).Go? && Exit(Fork(s, p).s, |s.procs|) == Go(s)
  {
    var t, f := s.procs[p], Fork(s, p).s;
    var e := Exit(f, |s.procs|).s;
    assert f.procs[..|s.procs|] + f.procs[|s.procs| + 1..] == s.procs;
    forall g | 0 <= g < |s.table| ensures e.table[g] == s.table[g] {
      ShareAdds(s.table, t, 3, g);
      if g < 3 {
        NotStray(t, 3, g);
      } else {
        assert SlotOk(s.table[g], Refs(s.procs, g));
        CountAtMostRefs(s.procs, p, g);
      }
      DropAllDrops(f.table, t, 3, g);
    }
    assert e.table == s.table;
  }

  // ---------------------------------------------------------------- the pipeline

  /** `r` and `w` are the two lowest free descriptors. */
  ghost predicate TwoFree(t: seq<int>, r: int, w: int) {
    3 <= r < w < |t| && t[r] == -1 && t[w] == -1 && forall i :: 3 <= i < w && i != r ==> t[i] != -1
  }

  lemma {:induction false} InstallLowest(t: seq<int>, fd: nat, i: nat, g: int)
    requires fd <= i < |t| && t[i] == -1 && forall j :: fd <= j < i ==> t[j] != -1
    ensures Install(t, fd, g) == t[i := g]
    decreases i - fd
  {
    if fd < i { InstallLowest(t, fd + 1, i, g); }
  }

  /** `sys_pipe` with two free descriptors: the lowest two refer to the new slot, and nothing else has changed. */
  lemma PipeInstalls(s: State, p: nat, r: nat, w: nat)
    requires p < |s.procs| && FreeSlot(s.table, 3).Some? && TwoFree(s.procs[p], r, w)
    ensures var g := FreeSlot(s.table, 3).v;
            Pipe(s, p) == State(s.table[g := File(2, true, true)], s.procs[p := s.procs[p][r := g][w := g]])
  {
    var g, t := FreeSlot(s.table, 3).v, s.procs[p];
    InstallLowest(t, 3, r, g);
    InstallLowest(t[r := g], 3, w, g);
  }

  /** The states a shell passes through while it runs `a | b | ... | z` as process `p`: the pipe is there, output goes to it
      (the first command), input too (those in between), output is restored (the last), input is restored. */
  ghost function Stages(s: State, p: nat, r: nat, w: nat): (q: seq<State>)
    requires p < |s.procs| && FreeSlot(s.table, 3).Some? && TwoFree(s.procs[p], r, w)
    ensures |q| == 5 && forall i :: 0 <= i < 5 ==> |q[i].procs| == |s.procs| && |q[i].procs[p]| == |s.procs[p]|
  {
    PipeInstalls(s, p, r, w);
    var s1 := Pipe(s, p);
    var s2 := Redirect(s1, p, 1, w);
    var s3 := Redirect(s2, p, 0, r);
    var s4 := Redirect(s3, p, 1, 1);
    [s1, s2, s3, s4, Redirect(s4, p, 0, 0)]
  }

  ghost predicate Standard(t: seq<int>) { |t| == PER_PROC && t[0] == 0 && t[1] == 1 && t[2] == 2 }

  /** The table of the shell in each stage: the two ends of the pipe, and where input and output go. */
  ghost function Shell(t: seq<int>, r: nat, w: nat, g: int, input: int, output: int): (u: seq<int>)
    requires Standard(t) && TwoFree(t, r, w)
  {
    t[r := g][w := g][0 := input][1 := output]
  }

  lemma StageTables(s: State, p: nat, r: nat, w: nat)
    requires p < |s.procs| && FreeSlot(s.table, 3).Some? && Standard(s.procs[p]) && TwoFree(s.procs[p], r, w)
    ensures var q, t, g := Stages(s, p, r, w), s.procs[p], FreeSlot(s.table, 3).v;
            && q[0].procs == s.procs[p := Shell(t, r, w, g, 0, 1)]
            && q[1].procs == s.procs[p := Shell(t, r, w, g, 0, g)]
            && q[2].procs == s.procs[p := Shell(t, r, w, g, g, g)]
            && q[3].procs == s.procs[p := Shell(t, r, w, g, g, 1)]
            && q[4] == q[0]
            && forall i :: 0 <= i < 5 ==> q[i].table == s.table[g := File(2, true, true)]
  {
    var q, t, g := Stages(s, p, r, w), s.procs[p], FreeSlot(s.table, 3).v;
    PipeInstalls(s, p, r, w);
    assert q[0].procs[p] == Shell(t, r, w, g, 0, 1);
    assert q[1].procs[p] == Shell(t, r, w, g, 0, g);
    assert q[2].procs[p] == Shell(t, r, w, g, g, g);
    assert q[3].procs[p] == Shell(t, r, w, g, g, 1);
    assert q[4].procs[p] == Shell(t, r, w, g, 0, 1);
    assert q[0].procs == s.procs[p := Shell(t, r, w, g, 0, 1)];
    assert q[1].procs == s.procs[p := Shell(t, r, w, g, 0, g)];
    assert q[2].procs == s.procs[p := Shell(t, r, w, g, g, g)];
    assert q[3].procs == s.procs[p := Shell(t, r, w, g, g, 1)];
    assert q[4].procs == q[0].procs;
  }

  lemma {:induction false} TwoFreeRoom(t: seq<int>, r: nat, w: nat)
    requires TwoFree(t, r, w) && |t| == PER_PROC
    ensures Room(t) >= 2
  {
    CountUpdate(t, 3, r, -2, -1);
    CountPositive(t[r := -2], 3, w);
  }

  /** Counts are right in every stage. */
  lemma StagesCounted(s: State, p: nat, r: nat, w: nat)
    requires Formed(s) && Counted(s) && p < |s.procs| && FreeSlot(s.table, 3).Some?
    requires Standard(s.procs[p]) && TwoFree(s.procs[p], r, w)
    ensures forall i :: 0 <= i < 5 ==> Formed(Stages(s, p, r, w)[i]) && Counted(Stages(s, p, r, w)[i])
  {
    hide Formed, Counted, FdsOk;
    var q := Stages(s, p, r, w);
    TwoFreeRoom(s.procs[p], r, w);
    PipeForms(s, p);
    PipeExactlyWhen(s, p);
    RedirectExactlyWhen(q[0], p, 1, w);
    RedirectExactlyWhen(q[1], p, 0, r);
    RedirectExactlyWhen(q[2], p, 1, 1);
    RedirectExactlyWhen(q[3], p, 0, 0);
  }

  lemma NoStray(s: State, p: nat, r: nat, w: nat)
    requires p < |s.procs| && FreeSlot(s.table, 3).Some? && !Stray(s.procs[p])
    requires Standard(s.procs[p]) && TwoFree(s.procs[p], r, w)
    ensures forall i :: 0 <= i < 5 ==> !Stray(Stages(s, p, r, w)[i].procs[p])
  {
    hide Stages;
    StageTables(s, p, r, w);
    var q, t, g := Stages(s, p, r, w), s.procs[p], FreeSlot(s.table, 3).v;
    assert g >= 3;
    forall i | 0 <= i < 5 ensures !Stray(q[i].procs[p]) {
      forall fd | 3 <= fd < |t| ensures !(0 <= q[i].procs[p][fd] < 3) { assert q[i].procs[p][fd] == t[r := g][w := g][fd]; }
    }
  }

  /** Each command of a pipeline is a child that is forked in its stage.  The first writes to the pipe and reads standard
      input, those in between read and write the pipe, the last reads it and writes standard output; and a command that
      leaves its descriptors alone leaves the state as it found it when it exits. */
  lemma CommandsConnected(s: State, p: nat, r: nat, w: nat)
    requires Formed(s) && Counted(s) && p < |s.procs| && FreeSlot(s.table, 3).Some? && !Stray(s.procs[p])
    requires Standard(s.procs[p]) && TwoFree(s.procs[p], r, w)
    ensures var q, g, n := Stages(s, p, r, w), FreeSlot(s.table, 3).v, |s.procs|;
            && (forall i :: 0 <= i < 5 ==> Fork(q[i], p).Go? && |Fork(q[i], p).s.procs| == n + 1 && Exit(Fork(q[i], p).s, n) == Go(q[i]))
            && (var c := Fork(q[1], p).s.procs[n]; |c| == PER_PROC && c[0] == 0 && c[1] == g)
            && (var c := Fork(q[2], p).s.procs[n]; |c| == PER_PROC && c[0] == g && c[1] == g)
            && (var c := Fork(q[3], p).s.procs[n]; |c| == PER_PROC && c[0] == g && c[1] == 1)
  {
    hide Stages, Formed, Counted, Stray;
    StageTables(s, p, r, w);
    StagesCounted(s, p, r, w);
    NoStray(s, p, r, w);
    var q := Stages(s, p, r, w);
    forall i | 0 <= i < 5 ensures Fork(q[i], p).Go? && Exit(Fork(q[i], p).s, |s.procs|) == Go(q[i]) { ForkThenExit(q[i], p); }
  }

  /** A pipeline leaves no trace: once the shell has closed both ends, every descriptor table is what it was before, every
      slot but the pipe's too, and the pipe's slot is free again. */
  lemma PipelineLeavesNoTrace(s: State, p: nat, r: nat, w: nat)
    requires Formed(s) && Counted(s) && p < |s.procs| && FreeSlot(s.table, 3).Some?
    requires Standard(s.procs[p]) && TwoFree(s.procs[p], r, w)
    ensures var q := Stages(s, p, r, w);
            && Close(q[4], p, r).Go? && |Close(q[4], p, r).s.procs| == |s.procs| && |Close(q[4], p, r).s.procs[p]| == PER_PROC
            && Close(Close(q[4], p, r).s, p, w).Go?
            && var e, g := Close(Close(q[4], p, r).s, p, w).s, FreeSlot(s.table, 3).v;
               && e.procs == s.procs && |e.table| == |s.table| && !e.table[g].used
               && forall h :: 0 <= h < |s.table| && h != g ==> e.table[h] == s.table[h]
  {
    hide Stages;
    StageTables(s, p, r, w);
    var q, t, g := Stages(s, p, r, w), s.procs[p], FreeSlot(s.table, 3).v;
    var c := Close(q[4], p, r).s;
    var e := Close(c, p, w).s;
    assert Shell(t, r, w, g, 0, 1) == t[r := g][w := g];
    assert c.procs[p] == t[w := g];
    assert e.procs[p] == t;
    assert e.procs == s.procs;
  }
}
