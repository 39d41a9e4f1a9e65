/** The directory tree that the inodes stand for, and what the system calls do to it. */
module Tree {
  import opened Words
  import opened Entries
  import opened DirTable

  /** A file's bytes, or a directory's map from names, the two dots included. */
  datatype Node = File(bytes: seq<Byte>) | Dir(items: map<Name, Item>)

  type Tree = map<int, Node>

  /** The one proper entry that names an inode. */
  datatype Home = Home(dir: int, name: Name)

  function KindOf(x: Node): (k: int) { if x.Dir? then DIRECTORY else REGULAR }

  /** A directory names itself and its parent. */
  ghost predicate DotsOk(t: Tree, i: int)
    requires i in t
  {
    t[i].Dir? ==> DOT in t[i].items && t[i].items[DOT] == Item(i, DIRECTORY)
                  && DOTDOT in t[i].items && t[i].items[DOTDOT].kind == DIRECTORY
  }

  ghost predicate ItemOk(t: Tree, home: map<int, Home>, i: int, n: Name)
    requires i in t && t[i].Dir? && n in t[i].items
  {
    var c := t[i].items[n].ino;
    c in t && c != 0 && t[i].items[n].kind == KindOf(t[c]) && c in home && home[c] == Home(i, n)
  }

  ghost predicate HomeOk(t: Tree, home: map<int, Home>, depth: map<int, nat>, c: int) {
    && c in home && c in depth
    && var h := home[c];
    && h.dir in t && t[h.dir].Dir? && h.name in t[h.dir].items && !Dots(h.name) && t[h.dir].items[h.name].ino == c
    && h.dir in depth && depth[c] == depth[h.dir] + 1
  }

  ghost predicate ParentOk(t: Tree, home: map<int, Home>, c: int)
    requires c in t && DotsOk(t, c)
  {
    t[c].Dir? ==> if c == 0 then t[c].items[DOTDOT].ino == 0 else c in home && t[c].items[DOTDOT].ino == home[c].dir
  }

  /** Every inode but the root is named by exactly one proper entry, with its kind; depth counts the way up. */
  ghost predicate Rooted(t: Tree, home: map<int, Home>, depth: map<int, nat>) {
    && 0 in t && t[0].Dir? && 0 in depth && depth[0] == 0
    && (forall i :: i in t ==> DotsOk(t, i))
    && (forall i, n :: i in t && t[i].Dir? && n in t[i].items && !Dots(n) ==> ItemOk(t, home, i, n))
    && (forall c :: c in t && c != 0 ==> HomeOk(t, home, depth, c))
    && (forall c :: c in t ==> ParentOk(t, home, c))
  }

  // ---------------------------------------------------------------- the operations

  ghost function NewDir(self: int, parent: int): (x: Node) {
    Dir(map[DOT := Item(self, DIRECTORY), DOTDOT := Item(parent, DIRECTORY)])
  }

  /** A new child `c` of directory `d`. */
  ghost function Grow(t: Tree, d: int, n: Name, c: int, x: Node): (r: Tree)
    requires d in t && t[d].Dir?
  {
    t[d := Dir(t[d].items[n := Item(c, KindOf(x))])][c := x]
  }

  /** The child `n` of directory `d` is gone. */
  ghost function Prune(t: Tree, d: int, n: Name): (r: Tree)
    requires d in t && t[d].Dir? && n in t[d].items
  {
    t[d := Dir(t[d].items - {n})] - {t[d].items[n].ino}
  }

  lemma GrowRooted(t: Tree, home: map<int, Home>, depth: map<int, nat>, d: int, n: Name, c: int, x: Node)
    requires Rooted(t, home, depth) && d in t && t[d].Dir? && n !in t[d].items && c !in t
    requires x.File? || x == NewDir(c, d)
    ensures d in depth
    ensures Rooted(Grow(t, d, n, c, x), home[c := Home(d, n)], depth[c := depth[d] + 1])
  {
    assert d != 0 ==> HomeOk(t, home, depth, d);
    assert DotsOk(t, d);
    var r, h, dp := Grow(t, d, n, c, x), home[c := Home(d, n)], depth[c := depth[d] + 1];
    forall i | i in r ensures DotsOk(r, i) { if i != c { assert DotsOk(t, i); } }
    forall i, m | i in r && r[i].Dir? && m in r[i].items && !Dots(m) ensures ItemOk(r, h, i, m) {
      if i != c && !(i == d && m == n) { assert ItemOk(t, home, i, m); }
    }
    forall k | k in r && k != 0 ensures HomeOk(r, h, dp, k) { if k != c { assert HomeOk(t, home, depth, k); } }
    forall k | k in r ensures ParentOk(r, h, k) { if k != c { assert DotsOk(t, k) && ParentOk(t, home, k); } }
  }

  lemma PruneRooted(t: Tree, home: map<int, Home>, depth: map<int, nat>, d: int, n: Name)
    requires Rooted(t, home, depth) && d in t && t[d].Dir? && n in t[d].items && !Dots(n)
    requires var c := t[d].items[n].ino; c in t && (t[c].File? || t[c].items.Keys == {DOT, DOTDOT})
    ensures Rooted(Prune(t, d, n), home, depth)
    ensures t[d].items[n].ino != d
  {
    var c := t[d].items[n].ino;
    assert ItemOk(t, home, d, n) && HomeOk(t, home, depth, c);
    var r := Prune(t, d, n);
    forall i | i in r ensures DotsOk(r, i) { assert DotsOk(t, i); }
    forall i, m | i in r && r[i].Dir? && m in r[i].items && !Dots(m) ensures ItemOk(r, home, i, m) {
      assert ItemOk(t, home, i, m);
    }
    forall k | k in r && k != 0 ensures HomeOk(r, home, depth, k) {
      assert HomeOk(t, home, depth, k);
    }
    forall k | k in r ensures ParentOk(r, home, k) { assert DotsOk(t, k) && ParentOk(t, home, k); }
  }

  lemma WriteRooted(t: Tree, home: map<int, Home>, depth: map<int, nat>, c: int, x: Node)
    requires Rooted(t, home, depth) && c in t && t[c].File? && x.File?
    ensures Rooted(t[c := x], home, depth)
  {
    var r := t[c := x];
    forall i | i in r ensures DotsOk(r, i) { assert DotsOk(t, i); }
    forall i, m | i in r && r[i].Dir? && m in r[i].items && !Dots(m) ensures ItemOk(r, home, i, m) {
      assert ItemOk(t, home, i, m);
    }
    forall k | k in r && k != 0 ensures HomeOk(r, home, depth, k) { assert HomeOk(t, home, depth, k); }
    forall k | k in r ensures ParentOk(r, home, k) { assert DotsOk(t, k) && ParentOk(t, home, k); }
  }
}
