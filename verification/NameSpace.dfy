/** What the file system calls do to the names: which paths lead where, before and after. */
module NameSpace {
  import opened Basics
  import opened Words
  import opened Entries
  import opened DirTable
  import opened Volume
  import opened Tree
  import opened Paths
  import opened TreePaths
  import opened FsCode
  import opened FsRuns

  /** From directory `i`, these names lead to directory `d` and then through its entry `n`. */
  ghost predicate Passes(t: Tree, i: int, ns: seq<Name>, d: int, n: Name) {
    exists m :: 0 <= m < |ns| && Walk(t, i, ns[..m]) == Some(Item(d, DIRECTORY)) && ns[m] == n
  }

  /** One name further. */
  lemma PassesStep(t: Tree, i: int, ns: seq<Name>, d: int, n: Name)
    requires i in t && t[i].Dir? && ns != []
    ensures var x := ns[0];
            Passes(t, i, ns, d, n) <==>
              (i == d && x == n) || (x in t[i].items && t[i].items[x].kind == DIRECTORY && Passes(t, t[i].items[x].ino, ns[1..], d, n))
  {
    var x := ns[0];
    if Passes(t, i, ns, d, n) && !(i == d && x == n) {
      var m :| 0 <= m < |ns| && Walk(t, i, ns[..m]) == Some(Item(d, DIRECTORY)) && ns[m] == n;
      if m > 0 {
        assert ns[..m][0] == x && ns[..m][1..] == ns[1..][..m - 1];
        NotFile(t, i, ns[..m]);
        assert ns[1..][m - 1] == n;
      }
    }
    if i == d && x == n { assert ns[..0] == []; }
    if x in t[i].items && t[i].items[x].kind == DIRECTORY && Passes(t, t[i].items[x].ino, ns[1..], d, n) {
      var j := t[i].items[x].ino;
      var m :| 0 <= m < |ns[1..]| && Walk(t, j, ns[1..][..m]) == Some(Item(d, DIRECTORY)) && ns[1..][m] == n;
      assert ns[..m + 1][0] == x && ns[..m + 1][1..] == ns[1..][..m];
      assert ns[m + 1] == n;
    }
  }

  lemma NotFile(t: Tree, i: int, ns: seq<Name>)
    requires ns != [] && Walk(t, i, ns).Some? && Walk(t, i, ns).v.kind == DIRECTORY
    ensures i in t && t[i].Dir? && ns[0] in t[i].items && t[i].items[ns[0]].kind == DIRECTORY
    ensures Walk(t, i, ns) == Walk(t, t[i].items[ns[0]].ino, ns[1..])
  {
  }

  /** Directories lead to directories of the tree. */
  lemma ItemInTree(t: Tree, home: map<int, Home>, depth: map<int, nat>, i: int, x: Name)
    requires Rooted(t, home, depth) && i in t && t[i].Dir? && x in t[i].items && t[i].items[x].kind == DIRECTORY
    ensures t[i].items[x].ino in t && t[t[i].items[x].ino].Dir?
  {
    if Dots(x) {
      assert DotsOk(t, i) && ParentOk(t, home, i);
      if i != 0 { assert HomeOk(t, home, depth, i); }
    } else {
      assert ItemOk(t, home, i, x);
    }
  }

  /** A path that passes a missing entry leads nowhere. */
  lemma {:induction false} PassesMissing(t: Tree, i: int, ns: seq<Name>, d: int, n: Name)
    requires Passes(t, i, ns, d, n) && d in t && t[d].Dir? && n !in t[d].items
    ensures Walk(t, i, ns) == None
  {
    var m :| 0 <= m < |ns| && Walk(t, i, ns[..m]) == Some(Item(d, DIRECTORY)) && ns[m] == n;
    assert ns == ns[..m] + ns[m..] && ns[m..][0] == n;
    WalkOn(t, i, ns[..m], ns[m..], d);
  }

  // ---------------------------------------------------------------- a new child

  /** Paths that do not pass the new entry lead where they led. */
  lemma {:induction false} GrowKeepsPaths(t: Tree, home: map<int, Home>, depth: map<int, nat>, d: int, n: Name, c: int, x: Node, i: int, ns: seq<Name>)
    requires Rooted(t, home, depth) && d in t && t[d].Dir? && n !in t[d].items && c !in t && i in t && !Passes(t, i, ns, d, n)
    ensures Walk(Grow(t, d, n, c, x), i, ns) == Walk(t, i, ns)
    decreases |ns|
  {
    hide Rooted, Passes;
    if ns != [] && t[i].Dir? {
      PassesStep(t, i, ns, d, n);
      var r := Grow(t, d, n, c, x);
      assert r[i].Dir? && (i != d ==> r[i] == t[i]);
      assert ns[0] in r[i].items <==> ns[0] in t[i].items;
      if ns[0] in t[i].items && t[i].items[ns[0]].kind == DIRECTORY {
        ItemInTree(t, home, depth, i, ns[0]);
        GrowKeepsPaths(t, home, depth, d, n, c, x, t[i].items[ns[0]].ino, ns[1..]);
      }
    }
  }

  /** The new child is found under every path to its directory, followed by its name; and a new directory's dots lead to
      itself and to where it was made. */
  lemma GrowIsFound(t: Tree, home: map<int, Home>, depth: map<int, nat>, d: int, n: Name, c: int, x: Node, ns: seq<Name>)
    requires Rooted(t, home, depth) && d in t && t[d].Dir? && n !in t[d].items && c !in t && (x.File? || x == NewDir(c, d))
    requires Walk(t, 0, ns) == Some(Item(d, DIRECTORY))
    ensures Walk(Grow(t, d, n, c, x), 0, ns + [n]) == Some(Item(c, KindOf(x)))
    ensures x.Dir? ==> Walk(Grow(t, d, n, c, x), 0, ns + [n, DOT]) == Some(Item(c, DIRECTORY))
                       && Walk(Grow(t, d, n, c, x), 0, ns + [n, DOTDOT]) == Some(Item(d, DIRECTORY))
  {
    hide Rooted, Passes;
    var r := Grow(t, d, n, c, x);
    RootIn(t, home, depth);
    if Passes(t, 0, ns, d, n) { PassesMissing(t, 0, ns, d, n); }
    GrowKeepsPaths(t, home, depth, d, n, c, x, 0, ns);
    WalkOn(r, 0, ns, [n], d);
    assert r[d].items[n] == Item(c, KindOf(x));
    LastStep(r, d, n, c);
    if x.Dir? {
      WalkOn(r, 0, ns, [n, DOT], d);
      WalkOn(r, 0, ns, [n, DOTDOT], d);
      TwoSteps(r, d, n, c, DOT, c);
      TwoSteps(r, d, n, c, DOTDOT, d);
    }
  }

  lemma RootIn(t: Tree, home: map<int, Home>, depth: map<int, nat>)
    requires Rooted(t, home, depth)
    ensures 0 in t && t[0].Dir?
  {
  }

  lemma LastStep(t: Tree, d: int, n: Name, c: int)
    requires d in t && t[d].Dir? && n in t[d].items && t[d].items[n].ino == c && c in t && t[d].items[n].kind == KindOf(t[c])
    ensures Walk(t, d, [n]) == Some(Item(c, KindOf(t[c])))
  {
    assert [n][1..] == [];
  }

  lemma TwoSteps(t: Tree, d: int, n: Name, c: int, m: Name, e: int)
    requires d in t && t[d].Dir? && n in t[d].items && t[d].items[n] == Item(c, DIRECTORY) && c in t && t[c].Dir?
    requires m in t[c].items && t[c].items[m] == Item(e, DIRECTORY) && e in t && t[e].Dir?
    ensures Walk(t, d, [n, m]) == Some(Item(e, DIRECTORY))
  {
    assert [n, m][1..] == [m];
    LastStep(t, c, m, e);
  }

  // ---------------------------------------------------------------- a child less

  /** A file or an empty directory is entered only by its own entry, and from itself. */
  lemma OneWay(t: Tree, home: map<int, Home>, depth: map<int, nat>, d: int, n: Name, i: int, x: Name)
    requires Rooted(t, home, depth) && d in t && t[d].Dir? && n in t[d].items && !Dots(n)
    requires var c := t[d].items[n].ino; c in t && (t[c].File? || t[c].items.Keys == {DOT, DOTDOT})
    requires i in t && t[i].Dir? && i != t[d].items[n].ino && x in t[i].items && t[i].items[x].kind == DIRECTORY && !(i == d && x == n)
    ensures t[i].items[x].ino != t[d].items[n].ino
  {
    var c := t[d].items[n].ino;
    assert ItemOk(t, home, d, n);
    if Dots(x) {
      assert DotsOk(t, i) && ParentOk(t, home, i);
      if i != 0 { assert HomeOk(t, home, depth, i); }
    } else {
      assert ItemOk(t, home, i, x);
    }
  }

  /** After the removal of a file or an empty directory exactly the paths that passed its entry lead nowhere; all others lead
      where they led. */
  lemma {:induction false} PruneExactly(t: Tree, home: map<int, Home>, depth: map<int, nat>, d: int, n: Name, i: int, ns: seq<Name>)
    requires Rooted(t, home, depth) && d in t && t[d].Dir? && n in t[d].items && !Dots(n)
    requires var c := t[d].items[n].ino; c in t && c != d && (t[c].File? || t[c].items.Keys == {DOT, DOTDOT})
    requires i in t && t[i].Dir? && i != t[d].items[n].ino
    ensures Walk(Prune(t, d, n), i, ns) == if Passes(t, i, ns, d, n) then None else Walk(t, i, ns)
    decreases |ns|
  {
    hide Rooted, Passes;
    var r := Prune(t, d, n);
    if ns == [] {
      NoPass(t, i, d, n);
    } else {
      PassesStep(t, i, ns, d, n);
      assert r[i].Dir? && (i != d ==> r[i] == t[i]);
      var x := ns[0];
      if x in t[i].items && t[i].items[x].kind == DIRECTORY && !(i == d && x == n) {
        ItemInTree(t, home, depth, i, x);
        OneWay(t, home, depth, d, n, i, x);
        PruneExactly(t, home, depth, d, n, t[i].items[x].ino, ns[1..]);
      }
    }
  }

  lemma NoPass(t: Tree, i: int, d: int, n: Name)
    ensures !Passes(t, i, [], d, n)
  {
  }

  /** Removal undoes making. */
  lemma PruneGrow(t: Tree, d: int, n: Name, c: int, x: Node)
    requires d in t && t[d].Dir? && n !in t[d].items && c !in t
    ensures Grow(t, d, n, c, x)[d].Dir? && n in Grow(t, d, n, c, x)[d].items && Prune(Grow(t, d, n, c, x), d, n) == t
  {
    var r := Grow(t, d, n, c, x);
    assert r[d].items - {n} == t[d].items;
    assert Prune(r, d, n)[d] == t[d];
  }

  // ---------------------------------------------------------------- the calls

  /** `sys_mkdir` and `sys_open` with O_CREAT: the new name leads to the new inode, the least free one, with its kind; every
      path that does not pass the new entry leads where it led, and every file has the bytes it had. */
  lemma MakesNames(w: World, op: Op, home: map<int, Home>, depth: map<int, nat>, ns: seq<Name>)
    requires Rooted(w.tree, home, depth) && Sensible(w, op) && Makes(w, op) && !AllTaken(w.tree)
    ensures var r, c := Do(w, op).tree, LeastFrom(w.tree, 0);
            && (!Passes(w.tree, 0, ns, op.d, op.n) ==> Walk(r, 0, ns) == Walk(w.tree, 0, ns))
            && (Walk(w.tree, 0, ns) == Some(Item(op.d, DIRECTORY)) ==>
                 Walk(r, 0, ns + [op.n]) == Some(Item(c, if op.OpCreate? then REGULAR else DIRECTORY)))
            && (forall i :: i in w.tree && w.tree[i].File? ==> i in r && r[i] == w.tree[i])
            && (op.OpCreate? ==> c in r && r[c] == File([]))
  {
    hide Rooted, Passes;
    RootIn(w.tree, home, depth);
    var c := LeastFrom(w.tree, 0);
    var x := if op.OpCreate? then File([]) else NewDir(c, op.d);
    if !Passes(w.tree, 0, ns, op.d, op.n) { GrowKeepsPaths(w.tree, home, depth, op.d, op.n, c, x, 0, ns); }
    if Walk(w.tree, 0, ns) == Some(Item(op.d, DIRECTORY)) { GrowIsFound(w.tree, home, depth, op.d, op.n, c, x, ns); }
  }

  /** The call deletes something. */
  ghost predicate Deletes(w: World, op: Op)
    requires Sensible(w, op)
  {
    (op.OpUnlink? || op.OpRmdir?) && Do(w, op) != w
  }

  /** `sys_unlink` and `sys_rmdir`: exactly the paths that passed the entry lead nowhere, all others lead where they led, and
      every other inode has what it had. */
  lemma DeletesNames(w: World, op: Op, home: map<int, Home>, depth: map<int, nat>, ns: seq<Name>)
    requires Rooted(w.tree, home, depth) && Sensible(w, op) && Deletes(w, op)
    ensures op.n in w.tree[op.d].items
    ensures Walk(Do(w, op).tree, 0, ns) == if Passes(w.tree, 0, ns, op.d, op.n) then None else Walk(w.tree, 0, ns)
    ensures Do(w, op).tree.Keys == w.tree.Keys - {w.tree[op.d].items[op.n].ino}
    ensures forall i :: i in Do(w, op).tree && i != op.d ==> Do(w, op).tree[i] == w.tree[i]
  {
    hide Passes;
    var t := w.tree;
    assert ItemOk(t, home, op.d, op.n);
    PruneRooted(t, home, depth, op.d, op.n);
    RootIn(t, home, depth);
    PruneExactly(t, home, depth, op.d, op.n, 0, ns);
  }

  /** `rmdir` undoes `mkdir`. */
  lemma RmdirUndoesMkdir(w: World, d: int, n: Name)
    requires Sensible(w, OpMkdir(d, n)) && n !in w.tree[d].items && !AllTaken(w.tree)
    ensures Sensible(Do(w, OpMkdir(d, n)), OpRmdir(d, n)) && Do(Do(w, OpMkdir(d, n)), OpRmdir(d, n)) == w
  {
    var c := LeastFrom(w.tree, 0);
    PruneGrow(w.tree, d, n, c, NewDir(c, d));
    var v := Do(w, OpMkdir(d, n));
    assert v.tree[c].items.Keys == {DOT, DOTDOT};
  }

  /** A file that is made, closed and unlinked leaves no trace. */
  lemma UnlinkUndoesCreate(w: World, d: int, n: Name)
    requires Sensible(w, OpCreate(d, n)) && n !in w.tree[d].items && HasSlot(w.files) && !AllTaken(w.tree)
    requires FilesOk(w.files, w.tree)
    ensures var v, g := Do(w, OpCreate(d, n)), FreeFrom(w.files, 3);
            && Sensible(v, OpClose(g)) && Sensible(Do(v, OpClose(g)), OpUnlink(d, n))
            && Do(Do(v, OpClose(g)), OpUnlink(d, n)) == w
  {
    var c, g := LeastFrom(w.tree, 0), FreeFrom(w.files, 3);
    PruneGrow(w.tree, d, n, c, File([]));
    var v := Do(Do(w, OpCreate(d, n)), OpClose(g));
    assert v.files == w.files;
  }

  /** Closing undoes opening, of files in their slot and of directories. */
  lemma CloseUndoesOpen(w: World, i: int, d: int)
    requires Sensible(w, OpOpen(i, None)) && HasSlot(w.files) && Sensible(w, OpOpendir(d))
    ensures var v, g := Do(w, OpOpen(i, None)), FreeFrom(w.files, 3);
            v.files[g] == OnInode(i) && Sensible(v, OpClose(g)) && Do(v, OpClose(g)) == w
    ensures var v := Do(w, OpOpendir(d)); Sensible(v, OpClosedir(d)) && Do(v, OpClosedir(d)) == w
  {
    var g := FreeFrom(w.files, 3);
    assert w.files[g := OnInode(i)][g := Unused] == w.files;
    assert w.held + multiset{} == w.held && (w.held + multiset{d}) - multiset{d} == w.held;
  }

  /** What is written is there: the file has its old bytes and then the buffer, or is refused whole; no name and no other
      file changes. */
  lemma WriteNames(w: World, i: int, buf: seq<Byte>, j: int, ns: seq<Name>)
    requires Sensible(w, OpWrite(i, buf))
    ensures var r := Do(w, OpWrite(i, buf)).tree;
            && r.Keys == w.tree.Keys && Walk(r, j, ns) == Walk(w.tree, j, ns)
            && r[i] == File(if |w.tree[i].bytes| + |buf| > MAX_BYTES then w.tree[i].bytes else w.tree[i].bytes + buf)
            && forall k :: k in r && k != i ==> r[k] == w.tree[k]
  {
    WalkSame(w.tree, Do(w, OpWrite(i, buf)).tree, j, ns);
  }

  lemma {:induction false} WalkSame(t: Tree, r: Tree, j: int, ns: seq<Name>)
    requires r.Keys == t.Keys && forall k :: k in t && (t[k].Dir? || r[k].Dir?) ==> r[k] == t[k]
    ensures Walk(r, j, ns) == Walk(t, j, ns)
    decreases |ns|
  {
    if ns != [] && j in t && t[j].Dir? && ns[0] in t[j].items { WalkSame(t, r, t[j].items[ns[0]].ino, ns[1..]); }
  }
}
