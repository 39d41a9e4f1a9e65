/** Paths on the tree: walking down names, the path of an inode, and what washing keeps. */
module TreePaths {
  import opened Basics
  import opened Words
  import opened Entries
  import opened DirTable
  import opened Tree
  import opened Paths

  /** Where `search_file` gets from directory `i`: it follows directories and stops at a regular file. */
  ghost function Walk(t: Tree, i: int, ns: seq<Name>): (r: Option<Item>)
    decreases |ns|
  {
    if i !in t || !t[i].Dir? then None
    else if ns == [] then Some(Item(i, DIRECTORY))
    else if ns[0] !in t[i].items then None
    else
      var x := t[i].items[ns[0]];
      if x.kind == DIRECTORY then Walk(t, x.ino, ns[1..]) else Some(x)
  }

  lemma {:induction false} WalkOn(t: Tree, i: int, a: seq<Name>, b: seq<Name>, j: int)
    requires Walk(t, i, a) == Some(Item(j, DIRECTORY))
    ensures Walk(t, i, a + b) == Walk(t, j, b)
    decreases |a|
  {
    if a == [] {
      assert a + b == b;
    } else {
      assert (a + b)[1..] == a[1..] + b;
      WalkOn(t, t[i].items[a[0]].ino, a[1..], b, j);
    }
  }

  /** The names on the way from the root. */
  ghost function PathOf(t: Tree, home: map<int, Home>, depth: map<int, nat>, i: int): (ns: seq<Name>)
    requires Rooted(t, home, depth) && i in t
    ensures i == 0 <==> ns == []
    decreases if i in depth then depth[i] else 0
  {
    if i == 0 then [] else
      assert HomeOk(t, home, depth, i);
      PathOf(t, home, depth, home[i].dir) + [home[i].name]
  }

  /** A proper entry leads to the inode whose path is one name longer. */
  lemma PathDown(t: Tree, home: map<int, Home>, depth: map<int, nat>, i: int, n: Name)
    requires Rooted(t, home, depth) && i in t && t[i].Dir? && n in t[i].items && !Dots(n)
    ensures var x := t[i].items[n];
            x.ino in t && (x.kind == DIRECTORY <==> t[x.ino].Dir?)
            && PathOf(t, home, depth, x.ino) == PathOf(t, home, depth, i) + [n]
  {
    assert ItemOk(t, home, i, n);
  }

  /** `.` stays and `..` goes one up. */
  lemma PathUp(t: Tree, home: map<int, Home>, depth: map<int, nat>, i: int)
    requires Rooted(t, home, depth) && i in t && t[i].Dir?
    ensures DOT in t[i].items && t[i].items[DOT] == Item(i, DIRECTORY) && DOTDOT in t[i].items
    ensures var x := t[i].items[DOTDOT];
            x.kind == DIRECTORY && x.ino in t && t[x.ino].Dir?
            && PathOf(t, home, depth, x.ino) == Push(PathOf(t, home, depth, i), DOTDOT)
  {
    assert DotsOk(t, i) && ParentOk(t, home, i);
    if i != 0 { assert HomeOk(t, home, depth, i); }
  }

  /** Walking the path of a directory from the root arrives there. */
  lemma {:induction false} WalkTo(t: Tree, home: map<int, Home>, depth: map<int, nat>, i: int)
    requires Rooted(t, home, depth) && i in t && t[i].Dir?
    ensures Walk(t, 0, PathOf(t, home, depth, i)) == Some(Item(i, DIRECTORY))
    decreases if i in depth then depth[i] else 0
  {
    if i != 0 {
      assert HomeOk(t, home, depth, i);
      var h := home[i];
      assert ItemOk(t, home, h.dir, h.name);
      WalkTo(t, home, depth, h.dir);
      WalkOn(t, 0, PathOf(t, home, depth, h.dir), [h.name], h.dir);
    }
  }

  /** Down clean names, the path grows by exactly these names. */
  lemma {:induction false} WalkDown(t: Tree, home: map<int, Home>, depth: map<int, nat>, i: int, ns: seq<Name>)
    requires Rooted(t, home, depth) && i in t && t[i].Dir? && Clean(ns)
    requires Walk(t, i, ns).Some? && Walk(t, i, ns).v.kind == DIRECTORY
    ensures var j := Walk(t, i, ns).v.ino;
            j in t && t[j].Dir? && PathOf(t, home, depth, j) == PathOf(t, home, depth, i) + ns
    decreases |ns|
  {
    hide Rooted;
    if ns == [] {
      assert PathOf(t, home, depth, i) + ns == PathOf(t, home, depth, i);
    } else {
      PathDown(t, home, depth, i, ns[0]);
      WalkDown(t, home, depth, t[i].items[ns[0]].ino, ns[1..]);
      assert PathOf(t, home, depth, i) + [ns[0]] + ns[1..] == PathOf(t, home, depth, i) + ns;
    }
  }

  /** Following `.` and `..` on the tree and resolving them on the names lead to the same directory. */
  lemma {:induction false} WashedWalk(t: Tree, home: map<int, Home>, depth: map<int, nat>, i: int, ns: seq<Name>)
    requires Rooted(t, home, depth) && i in t && t[i].Dir?
    requires Walk(t, i, ns).Some? && Walk(t, i, ns).v.kind == DIRECTORY
    ensures var j := Walk(t, i, ns).v.ino;
            j in t && t[j].Dir? && PathOf(t, home, depth, j) == Resolve(ns, PathOf(t, home, depth, i))
            && Walk(t, 0, Resolve(ns, PathOf(t, home, depth, i))) == Walk(t, i, ns)
    decreases |ns|
  {
    hide Rooted, PathOf;
    if ns == [] {
      WalkTo(t, home, depth, i);
    } else {
      PathUp(t, home, depth, i);
      if !Dots(ns[0]) { PathDown(t, home, depth, i, ns[0]); }
      WashedWalk(t, home, depth, t[i].items[ns[0]].ino, ns[1..]);
    }
  }

  lemma WashedNames(p: Path)
    ensures Split(Washed(p)) == Resolve(Split(p), []) && Clean(Resolve(Split(p), []))
  {
    SplitPlain(p);
    ResolveClean(Split(p), []);
    SplitJoin(Resolve(Split(p), []));
  }

  /** `wash_path` keeps what a path means: where the path leads to a directory, the washed path leads to it. */
  lemma WashedDirectory(t: Tree, home: map<int, Home>, depth: map<int, nat>, p: Path)
    requires Rooted(t, home, depth) && Walk(t, 0, Split(p)).Some? && Walk(t, 0, Split(p)).v.kind == DIRECTORY
    ensures Walk(t, 0, Split(Washed(p))) == Walk(t, 0, Split(p))
  {
    WashedNames(p);
    WashedWalk(t, home, depth, 0, Split(p));
  }

  /** And where all but the last name lead to a directory, both paths look the last name up there. */
  lemma WashedEntry(t: Tree, home: map<int, Home>, depth: map<int, nat>, p: Path, m: seq<Name>, n: Name)
    requires Rooted(t, home, depth) && Split(p) == m + [n] && !Dots(n)
    requires Walk(t, 0, m).Some? && Walk(t, 0, m).v.kind == DIRECTORY
    ensures Walk(t, 0, Split(Washed(p))) == Walk(t, 0, Split(p)) == Walk(t, Walk(t, 0, m).v.ino, [n])
  {
    hide Rooted, Split, Clean, Washed;
    WashedNames(p);
    WashedWalkRoot(t, home, depth, m);
    ResolveLast(m, n, []);
    var j := Walk(t, 0, m).v.ino;
    WalkOn(t, 0, Resolve(m, []), [n], j);
    WalkOn(t, 0, m, [n], j);
  }

  lemma WashedWalkRoot(t: Tree, home: map<int, Home>, depth: map<int, nat>, m: seq<Name>)
    requires Rooted(t, home, depth) && Walk(t, 0, m).Some? && Walk(t, 0, m).v.kind == DIRECTORY
    ensures Walk(t, 0, Resolve(m, [])) == Walk(t, 0, m)
  {
    WashedWalk(t, home, depth, 0, m);
  }

  lemma {:induction false} ResolveLast(m: seq<Name>, n: Name, stack: seq<Name>)
    ensures Resolve(m + [n], stack) == Push(Resolve(m, stack), n)
    decreases |m|
  {
    if m == [] {
      assert m + [n] == [n] && [n][1..] == [];
      assert Resolve([n], stack) == Resolve([n][1..], Push(stack, n));
    } else {
      assert (m + [n])[1..] == m[1..] + [n];
      ResolveLast(m[1..], n, Push(stack, m[0]));
    }
  }

  /** After `sys_chdir` to a washed path, the path of the working directory is that string. */
  lemma CwdIsWashedPath(t: Tree, home: map<int, Home>, depth: map<int, nat>, p: Path)
    requires Rooted(t, home, depth)
    requires Walk(t, 0, Split(Washed(p))).Some? && Walk(t, 0, Split(Washed(p))).v.kind == DIRECTORY
    ensures var i := Walk(t, 0, Split(Washed(p))).v.ino; i in t && Join(PathOf(t, home, depth, i)) == Washed(p)
  {
    var ns := Resolve(Split(p), []);
    WashedNames(p);
    WalkDown(t, home, depth, 0, ns);
    assert [] + ns == ns;
  }
}
