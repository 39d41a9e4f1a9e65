/** The descriptor code on its mutable tables: the loops of file.c, fork.c and wait_exit.c that look for free
    slots and adjust the reference counts, proved equal to the functions of `Pipes`. */
module PipeCode {
  import opened Basics
  import opened Pipes
  import opened Pipelines

  /** The loop of `pcb_fd_install` over one process's descriptors. */
  method InstallIn(fds: seq<int>, g: int) returns (fd: int, t: seq<int>)
    requires |fds| == PER_PROC
    ensures t == Install(fds, 3, g) && (fd == -1 <==> Room(fds) == 0)
    ensures if fd == -1 then t == fds else 3 <= fd < PER_PROC && fds[fd] == -1 && t == fds[fd := g]
    ensures forall i :: 3 <= i < (if fd == -1 then PER_PROC else fd) ==> fds[i] != -1
  {
    fd := 3;
    while fd < PER_PROC
      invariant 3 <= fd <= PER_PROC && Install(fds, 3, g) == Install(fds, fd, g) && Room(fds) == Count(fds, fd, -1)
      invariant forall i :: 3 <= i < fd ==> fds[i] != -1
    {
      if fds[fd] == -1 { return fd, fds[fd := g]; }
      fd := fd + 1;
    }
    fd, t := -1, fds;
  }

  class FileTable {
    var table: seq<File>
    var procs: seq<seq<int>>

    ghost function View(): (s: State)
      reads this
    {
      State(table, procs)
    }

    /** `get_free_slot_in_global`: -1 when every slot is taken. */
    method GetFreeSlot() returns (g: int)
      requires |table| == MAX_OPEN
      ensures g == -1 <==> FreeSlot(table, 3).None?
      ensures g != -1 ==> FreeSlot(table, 3) == Some(g)
    {
      g := 3;
      while g < MAX_OPEN
        invariant 3 <= g <= MAX_OPEN
        invariant FreeSlot(table, 3) == FreeSlot(table, g)
      {
        if !table[g].used { break; }
        g := g + 1;
      }
      if g == MAX_OPEN { g := -1; }
    }

    /** `pcb_fd_install`: the first free descriptor, or -1. */
    method InstallFd(p: nat, g: int) returns (fd: int)
      requires p < |procs| && |procs[p]| == PER_PROC
      modifies `procs
      ensures procs == old(procs)[p := Install(old(procs[p]), 3, g)]
      ensures fd == -1 <==> Room(old(procs[p])) == 0
      ensures if fd == -1 then procs == old(procs)
              else 3 <= fd < PER_PROC && old(procs[p])[fd] == -1 && procs == old(procs)[p := old(procs[p])[fd := g]]
      ensures forall i :: 3 <= i < (if fd == -1 then PER_PROC else fd) ==> old(procs[p])[i] != -1
    {
      var t;
      fd, t := InstallIn(procs[p], g);
      procs := procs[p := t];
    }

    /** `sys_pipe`: the two lowest free descriptors refer to the slot that the pipe takes, the lowest free one, which counts
        two references; a descriptor is -1 when there was no room for it.  Nothing else changes. */
    method SysPipe(p: nat) returns (reader: int, writer: int)
      requires |table| == MAX_OPEN && p < |procs| && |procs[p]| == PER_PROC && FreeSlot(table, 3).Some?
      modifies this
      ensures View() == Pipe(old(View()), p)
      ensures reader != -1 <==> Room(old(procs[p])) >= 1
      ensures writer != -1 <==> Room(old(procs[p])) >= 2
      ensures var g := FreeSlot(old(table), 3).v;
              && table == old(table)[g := File(2, true, true)]
              && (reader == -1 ==> procs == old(procs))
              && (reader != -1 && writer == -1 ==> 3 <= reader < PER_PROC && procs == old(procs)[p := old(procs[p])[reader := g]])
              && (writer != -1 ==> TwoFree(old(procs[p]), reader, writer) && procs[p][reader] == procs[p][writer] == g
                                   && procs == old(procs)[p := old(procs[p])[reader := g][writer := g]])
    {
      var g := GetFreeSlot();
      table := table[g := File(2, true, true)];
      InstallCounts(procs[p], 3, g, -1);
      reader := InstallFd(p, g);
      writer := InstallFd(p, g);
    }

    /** One reference less, and the page freed with the last one. */
    method DropRef(g: nat)
      requires g < |table|
      modifies `table
      ensures table == Drop(old(table), g)
    {
      table := table[g := table[g].(pos := table[g].pos - 1)];
      if table[g].pos == 0 {
        table := table[g := table[g].(used := false)];
      }
    }

    /** `sys_close`: it stops exactly for a free or stray descriptor.  Otherwise that descriptor is free afterwards, its
        slot has one reference less and every other slot as many as before, and the counts are right again: the slot is
        given up exactly when that was the last reference. */
    method SysClose(p: nat, fd: int) returns (r: Outcome<int>)
      requires Formed(View()) && Counted(View()) && p < |procs| && fd < PER_PROC
      modifies this
      ensures Close(old(View()), p, fd) == if r.Go? then Go(View()) else Panic
      ensures r.Panic? <==> fd > 2 && old(procs[p])[fd] < 3
      ensures r.Go? ==> r.s == (if fd > 2 then 0 else -1) && Formed(View()) && Counted(View())
      ensures r == Go(0) ==> var g := old(procs[p])[fd];
                && procs[p] == old(procs[p])[fd := -1]
                && (forall h :: 3 <= h < MAX_OPEN ==> Refs(procs, h) == old(Refs(procs, h)) - (if h == g then 1 else 0))
                && (table[g].used <==> old(Refs(procs, g)) > 1)
    {
      CloseKeeps(View(), p, fd);
      if fd <= 2 { return Go(-1); }
      var g := procs[p][fd];
      if !(0 <= g < |table|) { return Panic; }
      if !table[g].used { return Panic; }
      DropRef(g);
      procs := procs[p := procs[p][fd := -1]];
      assert SlotOk(table[g], Refs(procs, g));
      r := Go(0);
    }

    /** `update_inode_open_cnts`, run by `fork` on the child's copy of the parent's table. */
    method ForkTables(p: nat) returns (panic: bool)
      requires Formed(View()) && Counted(View()) && p < |procs|
      modifies this
      ensures panic <==> Stray(old(procs[p]))
      ensures !panic ==> Fork(old(View()), p) == Go(View())
      ensures !panic ==> procs == old(procs) + [old(procs[p])] && |table| == old(|table|)
                         && forall g :: 0 <= g < |table| ==>
                              table[g] == old(table)[g].(pos := old(table)[g].pos + Count(old(procs[p]), 3, g))
    {
      var child := procs[p];
      var fd := 3;
      while fd < |child|
        invariant 3 <= fd && procs == old(procs) && |table| == old(|table|)
        invariant Share(old(table), child, 3) == Share(table, child, fd)
        invariant forall g :: 0 <= g < |table| ==> table[g].used == old(table)[g].used
        invariant forall i :: 3 <= i < fd && i < |child| ==> !(0 <= child[i] < 3)
      {
        var g := child[fd];
        FdUsed(old(View()), p, fd);
        if g != -1 {
          if !table[g].used { return true; }
          table := table[g := table[g].(pos := table[g].pos + 1)];
        }
        fd := fd + 1;
      }
      procs := procs + [child];
      forall g | 0 <= g < |table| ensures table[g] == old(table)[g].(pos := old(table)[g].pos + Count(child, 3, g)) {
        ShareAdds(old(table), child, 3, g);
      }
      panic := false;
    }

    /** The descriptor loop of `release_prog_resource`; the process is gone afterwards. */
    method ReleaseFds(p: nat) returns (panic: bool)
      requires Formed(View()) && Counted(View()) && p < |procs|
      modifies this
      ensures panic <==> Stray(old(procs[p]))
      ensures !panic ==> Exit(old(View()), p) == Go(View()) && Counted(View())
      ensures !panic ==> procs == old(procs)[..p] + old(procs)[p + 1..]
                         && forall g :: 3 <= g < MAX_OPEN ==> Refs(procs, g) == old(Refs(procs, g)) - Count(old(procs[p]), 3, g)
    {
      var t := procs[p];
      var fd := 3;
      assert FdsOk(t);
      while fd < |t|
        invariant 3 <= fd && procs == old(procs) && |table| == MAX_OPEN
        invariant DropAll(old(table), t, 3) == DropAll(table, t, fd)
        invariant forall g :: 0 <= g < 3 ==> !table[g].used
        invariant forall g :: 3 <= g < MAX_OPEN ==> LeftOk(table[g], old(table)[g], Count(t, fd, g), Count(t, 3, g))
        invariant forall i :: 3 <= i < fd && i < |t| ==> !(0 <= t[i] < 3)
      {
        var g := t[fd];
        if g != -1 {
          if g >= 3 {
            assert LeftOk(table[g], old(table)[g], Count(t, fd, g), Count(t, 3, g));
            CountPositive(t, fd, fd);
            CountPositive(t, 3, fd);
            CountAtMostRefs(procs, p, g);
            assert SlotOk(old(table)[g], Refs(procs, g));
          }
          if !table[g].used { return true; }
          DropRef(g);
        }
        fd := fd + 1;
      }
      procs := procs[..p] + procs[p + 1..];
      ExitKeeps(old(View()), p);
      panic := false;
    }

    /** `sys_fd_redirect`: one descriptor refers to what another does, or to the standard one; no other descriptor, process
        or slot changes.  The counts stay right exactly when no counted reference is concerned. */
    method SysFdRedirect(p: nat, from: nat, to: nat)
      requires Formed(View()) && Counted(View()) && p < |procs| && from < PER_PROC && to < PER_PROC
      modifies this
      ensures View() == Redirect(old(View()), p, from, to) && Formed(View())
      ensures |procs| == old(|procs|) && |procs[p]| == PER_PROC && |old(procs[p])| == PER_PROC
      ensures procs[p][from] == if to < 3 then to else old(procs[p])[to]
      ensures table == old(table)
      ensures forall q, fd :: 0 <= q < |procs| && 0 <= fd < |old(procs[q])| && (q != p || fd != from) ==>
                |procs[q]| == |old(procs[q])| && procs[q][fd] == old(procs[q])[fd]
      ensures Counted(View()) <==> Harmless(old(procs[p]), from, to)
    {
      RedirectExactlyWhen(View(), p, from, to);
      if to < 3 {
        procs := procs[p := procs[p][from := to]];
      } else {
        procs := procs[p := procs[p][from := procs[p][to]]];
      }
    }

    /** Every operation does to the tables what the model of a run does, and so keeps the counts right exactly
        when it is careful. */
    method Perform(op: Op) returns (panic: bool)
      requires Formed(View()) && Counted(View()) && Enabled(View(), op)
      modifies this
      ensures panic <==> Faults(old(View()), op)
      ensures !panic ==> Apply(old(View()), op) == Go(View()) && Formed(View()) && (Counted(View()) <==> Careful(old(View()), op))
    {
      ApplyExactlyWhen(View(), op);
      assert FdsOk(procs[op.p]);
      panic := false;
      match op
      case MakePipe(p) => var r, w := SysPipe(p);
      case CloseFd(p, fd) => var r := SysClose(p, fd); panic := r.Panic?;
      case ForkProc(p) => panic := ForkTables(p);
      case ExitProc(p) => panic := ReleaseFds(p);
      case RedirectFd(p, from, to) => SysFdRedirect(p, from, to);
    }
  }

  /** A slot in the middle of an exit: `left` of the process's `all` references are still to be dropped. */
  ghost predicate LeftOk(f: File, was: File, left: nat, all: nat) {
    && left <= all && (was.used ==> f.pos == was.pos - (all - left))
    && (was.used && f.pos > 0 ==> f.used)
  }
}
