/** Control blocks and the queues that run through them: a block has one link for the ready list and every
    semaphore's queue together (`general_tag`), and one for the list of all tasks (`all_list_tag`). */
module TaskLists {
  import opened Basics
  import opened Lists
  import T = Threads

  /** `struct task_struct` */
  class Tcb {
    const id: T.Tid
    const general: Elem
    const all: Elem
    var status: T.Status
    var priority: nat
    var ticks: nat
    var pid: int
    var parent: int
    var exitStatus: int
    var user: bool

    function Task(): (x: T.Task)
      reads this
    {
      T.Task(status, priority, ticks, pid, parent, exitStatus, user)
    }

    /** The two links know the block they belong to. */
    ghost predicate Linked(t: T.Tid) {
      id == t && general.owner == t && general.field == General && all.owner == t && all.field == All
    }

    function Link(f: Field): (e: Elem) { if f == All then all else general }

    method Set(x: T.Task)
      modifies this
      ensures Task() == x
    {
      status, priority, ticks, pid := x.status, x.priority, x.ticks, x.pid;
      parent, exitStatus, user := x.parent, x.exitStatus, x.user;
    }

    constructor (id: T.Tid, task: T.Task)
      ensures Linked(id) && Task() == task && fresh(general) && fresh(all)
    {
      this.id := id;
      general := new Elem(id, General);
      all := new Elem(id, All);
      status, priority, ticks, pid := task.status, task.priority, task.ticks, task.pid;
      parent, exitStatus, user := task.parent, task.exitStatus, task.user;
    }
  }

  /** The tasks whose links these are. */
  ghost function Owners(s: seq<Elem>): (ts: seq<T.Tid>)
    ensures |ts| == |s| && forall i :: 0 <= i < |s| ==> ts[i] == s[i].owner
  {
    seq(|s|, i requires 0 <= i < |s| => s[i].owner)
  }

  type Tcbs = map<T.Tid, Tcb>

  /** `e` is the link `f` of a known block. */
  ghost predicate IsTag(e: Elem, f: Field, tcbs: Tcbs) {
    e.field == f && e.owner in tcbs && e == tcbs[e.owner].Link(f)
  }

  /** A well-linked list of such links. */
  ghost predicate Tagged(L: List, f: Field, tcbs: Tcbs)
    reads L, L.chain
  {
    L.Valid() && forall e :: e in L.Elems() ==> IsTag(e, f, tcbs)
  }

  ghost predicate Known(tcbs: Tcbs) { forall t :: t in tcbs ==> tcbs[t].Linked(t) }

  ghost predicate IsLink(f: Field) { f == General || f == All }

  /** A block is in a list exactly when its link is. */
  lemma InList(L: List, f: Field, tcbs: Tcbs, t: T.Tid)
    requires Tagged(L, f, tcbs) && Known(tcbs) && t in tcbs && IsLink(f)
    ensures tcbs[t].Link(f) in L.Elems() <==> t in Owners(L.Elems())
  {
    var s := L.Elems();
    if t in Owners(s) {
      var i :| 0 <= i < |s| && Owners(s)[i] == t;
      assert IsTag(s[i], f, tcbs);
    }
    if tcbs[t].Link(f) in s {
      var i :| 0 <= i < |s| && s[i] == tcbs[t].Link(f);
      assert Owners(s)[i] == t;
    }
  }

  /** The chain is the elements between the sentinels. */
  lemma InChain(L: List, e: Elem)
    requires L.Valid()
    ensures e in L.chain <==> e == L.head || e == L.tail || e in L.Elems()
  {
    var c := L.chain;
    if e in c {
      var i :| 0 <= i < |c| && c[i] == e;
      if 0 < i < |c| - 1 { assert L.Elems()[i - 1] == e; }
    }
  }

  /** A link of a block that is not in a list is not in its chain. */
  lemma NotInChain(L: List, f: Field, tcbs: Tcbs, t: T.Tid, g: Field)
    requires Tagged(L, f, tcbs) && Known(tcbs) && t in tcbs && IsLink(f) && IsLink(g)
    requires f != g || t !in Owners(L.Elems())
    ensures tcbs[t].Link(g) !in L.chain
  {
    InChain(L, tcbs[t].Link(g));
    InList(L, f, tcbs, t);
  }

  /** No element of `A`, and not `x`, is in the chain of `B`. */
  ghost predicate Apart(A: List, x: Elem, B: List)
    reads A, B
  {
    x !in B.chain && forall e :: e in B.chain ==> e !in A.chain
  }

  /** Two lists without a common block, or of different links, have no element in common. */
  lemma ChainsApart(A: List, f: Field, t: T.Tid, B: List, g: Field, tcbs: Tcbs)
    requires Tagged(A, f, tcbs) && Tagged(B, g, tcbs) && Known(tcbs) && IsLink(f) && IsLink(g) && A.addr != B.addr
    requires t in tcbs && (f != g || (t !in Owners(B.Elems()) && forall u :: u in Owners(A.Elems()) ==> u !in Owners(B.Elems())))
    ensures Apart(A, tcbs[t].Link(f), B)
  {
    NotInChain(B, g, tcbs, t, f);
    forall e | e in A.chain ensures e !in B.chain {
      InChain(A, e);
      InChain(B, e);
      if e in A.Elems() {
        assert IsTag(e, f, tcbs);
        NotInChain(B, g, tcbs, e.owner, f) by { InList(A, f, tcbs, e.owner); }
      }
    }
  }

  /** Whatever is in a list has a block. */
  lemma OwnersKnown(L: List, f: Field, tcbs: Tcbs)
    requires Tagged(L, f, tcbs)
    ensures forall t :: t in Owners(L.Elems()) ==> t in tcbs
  {
    var s := L.Elems();
    forall i | 0 <= i < |s| ensures Owners(s)[i] in tcbs { assert IsTag(s[i], f, tcbs); }
  }

  lemma DistinctOwners(L: List, f: Field, tcbs: Tcbs)
    requires Tagged(L, f, tcbs)
    ensures Distinct(Owners(L.Elems()))
  {
    var s := L.Elems();
    forall i, j | 0 <= i < j < |s| ensures s[i].owner != s[j].owner {
      assert s[i] == L.chain[i + 1] && s[j] == L.chain[j + 1];
      assert IsTag(s[i], f, tcbs) && IsTag(s[j], f, tcbs);
    }
  }

  lemma {:induction false} WithoutIs(q: seq<T.Tid>, i: nat)
    requires Distinct(q) && i < |q|
    ensures Without(q, q[i]) == q[..i] + q[i + 1..]
    decreases |q|
  {
    if i > 0 {
      assert q[0] != q[i];
      WithoutIs(q[1..], i - 1);
      assert q[1..][i - 1] == q[i];
      assert [q[0]] + (q[1..][..i - 1] + q[1..][i..]) == q[..i] + q[i + 1..];
    }
  }

  // ---------------------------------------------------------------- all queues together

  type Ids = map<int, seq<T.Tid>>

  /** The link that a list runs through: one list runs through `all_list_tag`, every other one through `general_tag`. */
  function FieldOf(all: int, a: int): (f: Field) { if a == all then All else General }

  /** No block is in two lists that run through its general link. */
  ghost predicate OneChain(all: int, ids: Ids) {
    forall a, b, t :: a in ids && b in ids && a != b && a != all && b != all && t in ids[a] ==> t !in ids[b]
  }

  /** The link of block `t` that the list at `a` runs through is in no list. */
  ghost predicate Loose(all: int, ids: Ids, a: int, t: T.Tid) {
    forall b :: b in ids && FieldOf(all, b) == FieldOf(all, a) ==> t !in ids[b]
  }

  lemma StillOneChain(all: int, ids: Ids, a: int, t: T.Tid, q: seq<T.Tid>)
    requires OneChain(all, ids) && a in ids && (t in ids[a] || Loose(all, ids, a, t)) && forall u :: u in q ==> u == t || u in ids[a]
    ensures OneChain(all, ids[a := q])
  {
  }

  lemma OwnersCut(s: seq<Elem>, i: nat)
    requires Distinct(Owners(s)) && i < |s|
    ensures var q := Owners(s);
            Without(q, q[i]) == Owners(s[..i] + s[i + 1..]) && forall u :: u in Without(q, q[i]) ==> u in q && u != q[i]
  {
    hide Without;
    var q := Owners(s);
    WithoutIs(q, i);
    var r := s[..i] + s[i + 1..];
    assert Owners(r) == q[..i] + q[i + 1..];
    forall u | u in q[..i] + q[i + 1..] ensures u in q && u != q[i] {
      var k :| 0 <= k < |q| - 1 && (q[..i] + q[i + 1..])[k] == u;
      assert u == q[if k < i then k else k + 1];
    }
  }

  /** Where the link of a block is in a chain. */
  lemma SpotIn(L: List, f: Field, tcbs: Tcbs, t: T.Tid) returns (i: nat)
    requires Tagged(L, f, tcbs) && t in Owners(L.Elems())
    ensures var q := Owners(L.Elems());
            && t in tcbs && i < |q| && |L.chain| == |q| + 2 && L.Valid() && L.chain[i + 1] == tcbs[t].Link(f)
            && Without(q, t) == Owners(L.Elems()[..i] + L.Elems()[i + 1..])
            && forall u :: u in Without(q, t) ==> u in q && u != t
  {
    hide Without, Owners;
    var s := L.Elems();
    var q := Owners(s);
    i :| 0 <= i < |q| && q[i] == t;
    assert s[i] in s && s[i] == L.chain[i + 1];
    assert IsTag(s[i], f, tcbs);
    DistinctOwners(L, f, tcbs);
    OwnersCut(s, i);
  }

  lemma NoTags(L: List, f: Field, tcbs: Tcbs)
    requires L.Valid() && L.Elems() == []
    ensures Tagged(L, f, tcbs) && Owners(L.Elems()) == []
    ensures forall e :: e in L.chain ==> e == L.head || e == L.tail
  {
    assert |L.chain| == 2;
  }

  lemma NoneAdded(all: int, ids: Ids, a: int)
    requires OneChain(all, ids)
    ensures OneChain(all, ids[a := []])
  {
  }

  /** The lists by address, and the blocks whose links they hold. */
  class Queues {
    const all: int
    var lists: map<int, List>
    var tcbs: Tcbs
    ghost var ids: Ids
    ghost var heads: set<List>
    ghost var elems: set<Elem>

    ghost predicate ListAt(a: int)
      requires a in lists && a in ids
      reads this, heads, elems
    {
      var L := lists[a];
      && L in heads && L.addr == a && (forall e :: e in L.chain ==> e in elems)
      && Tagged(L, FieldOf(all, a), tcbs) && ids[a] == Owners(L.Elems())
    }

    ghost predicate Valid()
      reads this, heads, elems
    {
      && Known(tcbs) && (forall t :: t in tcbs ==> tcbs[t].general in elems && tcbs[t].all in elems)
      && lists.Keys == ids.Keys && (forall a :: a in lists ==> ListAt(a))
      && OneChain(all, ids)
    }

    /** A block to be linked, and the list, share nothing with the other lists. */
    lemma OthersApart(a: int, t: T.Tid)
      requires Valid() && a in lists && t in tcbs && (t in ids[a] || Loose(all, ids, a, t))
      ensures forall b :: b in lists && b != a ==> Apart(lists[a], tcbs[t].Link(FieldOf(all, a)), lists[b])
      ensures t !in ids[a] ==> tcbs[t].Link(FieldOf(all, a)) !in lists[a].chain
    {
      if t !in ids[a] {
        assert ListAt(a);
        NotInChain(lists[a], FieldOf(all, a), tcbs, t, FieldOf(all, a));
      }
      forall b | b in lists && b != a ensures Apart(lists[a], tcbs[t].Link(FieldOf(all, a)), lists[b]) {
        assert ListAt(a) && ListAt(b);
        ChainsApart(lists[a], FieldOf(all, a), t, lists[b], FieldOf(all, b), tcbs);
      }
    }

    /** `list_push` */
    method Push(a: int, t: T.Tid)
      requires Valid() && a in lists && t in tcbs && t !in ids[a] && Loose(all, ids, a, t)
      modifies `ids, heads, elems
      ensures Valid() && ids == old(ids)[a := [t] + old(ids)[a]]
    {
      hide OneChain, Loose;
      OthersApart(a, t);
      assert ListAt(a);
      lists[a].Push(tcbs[t].Link(FieldOf(all, a)));
      StillOneChain(all, ids, a, t, [t] + ids[a]);
      ids := ids[a := [t] + ids[a]];
      forall b | b in lists ensures ListAt(b) {
        if b != a {
          assert old(ListAt(b)) && old(Apart(lists[a], tcbs[t].Link(FieldOf(all, a)), lists[b]));
          lists[b].Stays();
        }
      }
    }

    /** `list_append` */
    method Append(a: int, t: T.Tid)
      requires Valid() && a in lists && t in tcbs && t !in ids[a] && Loose(all, ids, a, t)
      modifies `ids, heads, elems
      ensures Valid() && ids == old(ids)[a := old(ids)[a] + [t]]
    {
      hide OneChain, Loose;
      OthersApart(a, t);
      assert ListAt(a);
      lists[a].Append(tcbs[t].Link(FieldOf(all, a)));
      StillOneChain(all, ids, a, t, ids[a] + [t]);
      ids := ids[a := ids[a] + [t]];
      forall b | b in lists ensures ListAt(b) {
        if b != a {
          assert old(ListAt(b)) && old(Apart(lists[a], tcbs[t].Link(FieldOf(all, a)), lists[b]));
          lists[b].Stays();
        }
      }
    }

    /** `list_pop`, and `elem2entry` of what it returns */
    method Pop(a: int) returns (t: T.Tid)
      requires Valid() && a in lists && ids[a] != []
      modifies `ids, heads, elems
      ensures Valid() && t == old(ids)[a][0] && t in tcbs && ids == old(ids)[a := old(ids)[a][1..]]
    {
      hide OneChain, Loose;
      assert ListAt(a) && IsTag(lists[a].Elems()[0], FieldOf(all, a), tcbs);
      OthersApart(a, ids[a][0]);
      var e := lists[a].Pop();
      t := e.owner;
      StillOneChain(all, ids, a, t, ids[a][1..]);
      ids := ids[a := ids[a][1..]];
      forall b | b in lists ensures ListAt(b) {
        if b != a {
          assert old(ListAt(b)) && old(Apart(lists[a], tcbs[t].Link(FieldOf(all, a)), lists[b]));
          lists[b].Stays();
        }
      }
    }

    /** `elem_find` */
    method Find(a: int, t: T.Tid) returns (found: bool)
      requires Valid() && a in lists && t in tcbs
      ensures found <==> t in ids[a]
    {
      assert ListAt(a);
      InList(lists[a], FieldOf(all, a), tcbs, t);
      found := lists[a].Find(tcbs[t].Link(FieldOf(all, a)));
    }

    /** `list_empty` */
    method Empty(a: int) returns (empty: bool)
      requires Valid() && a in lists
      ensures empty <==> ids[a] == []
    {
      assert ListAt(a);
      empty := lists[a].Empty();
    }

    /** Where the link of a listed block is in the chain. */
    lemma Spot(a: int, t: T.Tid) returns (i: nat)
      requires Valid() && a in lists && t in ids[a]
      ensures t in tcbs && i < |ids[a]| && |lists[a].chain| == |ids[a]| + 2 && lists[a].Valid()
      ensures lists[a].chain[i + 1] == tcbs[t].Link(FieldOf(all, a))
      ensures Without(ids[a], t) == Owners(lists[a].Elems()[..i] + lists[a].Elems()[i + 1..])
      ensures forall u :: u in Without(ids[a], t) ==> u in ids[a] && u != t
    {
      hide Tagged, Owners, OneChain, Without;
      assert ListAt(a);
      i := SpotIn(lists[a], FieldOf(all, a), tcbs, t);
    }

    /** `list_remove` */
    method Remove(a: int, t: T.Tid)
      requires Valid() && a in lists && t in ids[a]
      modifies `ids, heads, elems
      ensures Valid() && ids == old(ids)[a := Without(old(ids)[a], t)] && t !in ids[a]
    {
      hide OneChain, Loose, Without;
      ghost var i := Spot(a, t);
      OthersApart(a, t);
      StillOneChain(all, ids, a, t, Without(ids[a], t));
      assert ListAt(a);
      lists[a].Remove(tcbs[t].Link(FieldOf(all, a)), i + 1);
      ids := ids[a := Without(ids[a], t)];
      assert forall e :: e in lists[a].chain ==> e in old(lists[a].chain);
      forall b | b in lists ensures ListAt(b) {
        if b != a {
          assert old(ListAt(b)) && old(Apart(lists[a], tcbs[t].Link(FieldOf(all, a)), lists[b]));
          lists[b].Stays();
        }
      }
    }

    /** A block that is not there is in no list. */
    lemma Unlisted(t: T.Tid)
      requires Valid() && t !in tcbs
      ensures forall a :: a in ids ==> t !in ids[a]
    {
      forall a | a in ids ensures t !in ids[a] {
        assert ListAt(a);
        OwnersKnown(lists[a], FieldOf(all, a), tcbs);
      }
    }

    /** A block that was not there before. */
    method AddBlock(b: Tcb)
      requires Valid() && b.id !in tcbs && b.Linked(b.id)
      modifies `tcbs, `elems
      ensures Valid() && tcbs == old(tcbs)[b.id := b] && elems == old(elems) + {b.general, b.all}
    {
      elems := elems + {b.general, b.all};
      tcbs := tcbs[b.id := b];
      forall a | a in lists ensures ListAt(a) { assert old(ListAt(a)); }
    }

    /** A block that is in no list goes away. */
    method DropBlock(t: T.Tid)
      requires Valid() && forall a :: a in ids ==> t !in ids[a]
      modifies `tcbs
      ensures Valid() && tcbs == old(tcbs) - {t}
    {
      tcbs := tcbs - {t};
      forall a | a in lists ensures ListAt(a) {
        assert old(ListAt(a));
        ghost var s := lists[a].Elems();
        forall e | e in s ensures IsTag(e, FieldOf(all, a), tcbs) {
          ghost var i :| 0 <= i < |s| && s[i] == e;
          assert ids[a][i] == e.owner;
        }
      }
    }

    /** `list_init` */
    method AddList(a: int)
      requires Valid() && a !in lists
      modifies `lists, `ids, `heads, `elems
      ensures Valid() && ids == old(ids)[a := []] && lists.Keys == old(lists.Keys) + {a}
      ensures fresh(heads - old(heads)) && fresh(elems - old(elems))
    {
      hide Tagged, OneChain, Owners;
      var L := new List(a);
      NoTags(L, FieldOf(all, a), tcbs);
      NoneAdded(all, ids, a);
      lists := lists[a := L];
      ids := ids[a := []];
      heads := heads + {L};
      elems := elems + {L.head, L.tail};
      forall b | b in lists ensures ListAt(b) {
        if b != a { assert old(ListAt(b)); }
      }
    }

    /** Two empty lists. */
    constructor (ready: int, all: int)
      requires ready != all
      ensures Valid() && this.all == all && ids == map[ready := [], all := []] && tcbs == map[] && lists.Keys == {ready, all}
      ensures fresh(heads) && fresh(elems)
    {
      hide Tagged, Owners;
      this.all := all;
      lists, tcbs, ids := map[], map[], map[];
      heads, elems := {}, {};
      new;
      AddList(ready);
      AddList(all);
    }
  }
}
