/** The kernel's intrusive doubly linked list: elements carry their own links, a list is two
    sentinels.  Every operation is proved against the sequence of elements between them. */
module Lists {

  /** Which link of its structure an element is. */
  datatype Field = Head | Tail | General | All

  /** A link inside the structure at address `owner`, from which `elem2entry` gets back to that address. */
  class Elem {
    const owner: int
    const field: Field
    var prev: Elem?
    var next: Elem?

    constructor (owner: int, field: Field)
      ensures prev == null && next == null && this.owner == owner && this.field == field
    {
      this.owner, this.field := owner, field;
      prev, next := null, null;
    }
  }

  predicate Distinct<T(==)>(c: seq<T>) {
    forall i, j :: 0 <= i < j < |c| ==> c[i] != c[j]
  }

  /** The sequence without the first `e` in it. */
  function Without<T(==)>(c: seq<T>, e: T): (r: seq<T>) {
    if c == [] then [] else if c[0] == e then c[1..] else [c[0]] + Without(c[1..], e)
  }

  lemma InsertKeepsDistinct<T>(c: seq<T>, at: nat, e: T)
    requires Distinct(c) && at <= |c| && e !in c
    ensures Distinct(c[..at] + [e] + c[at..])
  {
    var d := c[..at] + [e] + c[at..];
    assert forall i :: 0 <= i < |d| ==> d[i] == if i < at then c[i] else if i == at then e else c[i - 1];
  }

  lemma RemoveKeepsDistinct<T>(c: seq<T>, at: nat)
    requires Distinct(c) && at < |c|
    ensures Distinct(c[..at] + c[at + 1..])
    ensures forall e :: e in c[..at] + c[at + 1..] <==> e in c && e != c[at]
  {
    var d := c[..at] + c[at + 1..];
    assert forall i :: 0 <= i < |d| ==> d[i] == if i < at then c[i] else c[i + 1];
    forall e | e in c && e != c[at]
      ensures e in d
    {
      var i :| 0 <= i < |c| && c[i] == e;
      assert d[if i < at then i else i - 1] == e;
    }
  }

  class List {
    const addr: int
    const head: Elem
    const tail: Elem
    ghost var chain: seq<Elem>     // the sentinels and everything between them, in order

    ghost predicate Linked(i: nat)
      requires i + 1 < |chain|
      reads this, chain
    {
      chain[i].next == chain[i + 1] && chain[i + 1].prev == chain[i]
    }

    ghost predicate Valid()
      reads this, chain
    {
      && |chain| >= 2 && chain[0] == head && chain[|chain| - 1] == tail
      && head.owner == addr && head.field == Head && tail.owner == addr && tail.field == Tail
      && Distinct(chain)
      && forall i :: 0 <= i < |chain| - 1 ==> Linked(i)
    }

    /** The elements of the list. */
    ghost function Elems(): (s: seq<Elem>)
      requires |chain| >= 2
      reads this
    {
      chain[1..|chain| - 1]
    }

    /** A list whose own links were not written is as it was. */
    twostate lemma Stays()
      requires old(Valid()) && chain == old(chain) && forall e :: e in chain ==> e.prev == old(e.prev) && e.next == old(e.next)
      ensures Valid()
    {
      forall i: nat | i < |chain| - 1 ensures Linked(i) { assert old(Linked(i)); }
    }

    /** `list_init` */
    constructor (addr: int)
      ensures Valid() && Elems() == [] && fresh(head) && fresh(tail) && this.addr == addr
    {
      var h := new Elem(addr, Head);
      var t := new Elem(addr, Tail);
      h.next := t;
      t.prev := h;
      this.addr, head, tail := addr, h, t;
      chain := [h, t];
    }

    /** `list_insert_before`: `elem` goes in front of the element at position `at` of the chain. */
    method InsertBefore(before: Elem, elem: Elem, ghost at: nat)
      requires Valid()
      requires 0 < at < |chain| && before == chain[at] && elem !in chain
      modifies this, elem, chain
      ensures Valid() && chain == old(chain[..at] + [elem] + chain[at..])
    {
      ghost var c := chain;
      assert Linked(at - 1);
      before.prev.next := elem;
      elem.prev := before.prev;
      elem.next := before;
      before.prev := elem;
      chain := c[..at] + [elem] + c[at..];
      InsertKeepsDistinct(c, at, elem);
      forall i: nat | i < |c|
        ensures Linked(i)
      {
        assert i < at - 1 ==> old(Linked(i));
        assert i > at ==> old(Linked(i - 1));
      }
    }

    /** `list_push` */
    method Push(elem: Elem)
      requires Valid() && elem !in chain
      modifies this, elem, chain
      ensures Valid() && Elems() == [elem] + old(Elems()) && forall e :: e in chain ==> e == elem || e in old(chain)
    {
      assert Linked(0);
      ghost var c := chain;
      InsertBefore(head.next, elem, 1);
      assert chain[1..|chain| - 1] == [elem] + c[1..|c| - 1];
    }

    /** `list_append` */
    method Append(elem: Elem)
      requires Valid() && elem !in chain
      modifies this, elem, chain
      ensures Valid() && Elems() == old(Elems()) + [elem] && forall e :: e in chain ==> e == elem || e in old(chain)
    {
      InsertBefore(tail, elem, |chain| - 1);
    }

    /** `list_remove`: the element's own links are left as they were. */
    method Remove(elem: Elem, ghost at: nat)
      requires Valid() && 0 < at < |chain| - 1 && chain[at] == elem
      modifies this, chain
      ensures Valid() && chain == old(chain[..at] + chain[at + 1..])
      ensures Elems() == old(Elems()[..at - 1] + Elems()[at..])
      ensures elem.prev == old(elem.prev) && elem.next == old(elem.next)
    {
      ghost var c := chain;
      assert Linked(at - 1) && Linked(at);
      elem.prev.next := elem.next;
      elem.next.prev := elem.prev;
      chain := c[..at] + c[at + 1..];
      RemoveKeepsDistinct(c, at);
      forall i: nat | i < |chain| - 1
        ensures Linked(i)
      {
        assert i < at - 1 ==> old(Linked(i));
        assert i >= at ==> old(Linked(i + 1));
      }
    }

    /** `list_pop` */
    method Pop() returns (elem: Elem)
      requires Valid() && Elems() != []
      modifies this, chain
      ensures Valid() && elem == old(Elems()[0]) && Elems() == old(Elems()[1..]) && forall e :: e in chain ==> e in old(chain)
    {
      assert Linked(0);
      elem := head.next;
      Remove(elem, 1);
    }

    /** `elem_find` */
    method Find(obj: Elem) returns (found: bool)
      requires Valid() && obj != head && obj != tail
      ensures found <==> obj in Elems()
    {
      assert Linked(0);
      var elem := head.next;
      ghost var k := 1;
      while elem != tail
        invariant 1 <= k < |chain| && elem == chain[k]
        invariant forall i :: 1 <= i < k ==> chain[i] != obj
        decreases |chain| - k
      {
        assert Linked(k);
        if elem == obj {
          assert Elems()[k - 1] == obj;
          return true;
        }
        elem := elem.next;
        k := k + 1;
      }
      return false;
    }

    /** `list_traversal`: the first element the callback accepts. */
    method Traverse(accepts: Elem -> bool) returns (elem: Elem?)
      requires Valid()
      ensures elem != null ==> exists k :: 0 <= k < |Elems()| && elem == Elems()[k] && accepts(Elems()[k])
                                  && forall i :: 0 <= i < k ==> !accepts(Elems()[i])
      ensures elem == null ==> forall e :: e in Elems() ==> !accepts(e)
    {
      ghost var s := Elems();
      assert Linked(0);
      elem := head.next;
      ghost var k := 0;
      while elem != tail
        invariant 0 <= k < |chain| - 1 && elem == chain[k + 1]
        invariant forall i :: 0 <= i < k ==> !accepts(s[i])
        decreases |chain| - k
      {
        assert Linked(k + 1);
        assert chain[k + 1] == s[k];
        if accepts(elem) {
          return elem;
        }
        elem := elem.next;
        k := k + 1;
      }
      return null;
    }

    /** `list_len` */
    method Length() returns (n: nat)
      requires Valid()
      ensures n == |Elems()|
    {
      assert Linked(0);
      var elem := head.next;
      n := 0;
      while elem != tail
        invariant 0 <= n < |chain| - 1 && elem == chain[n + 1]
        decreases |chain| - n
      {
        assert Linked(n + 1);
        elem := elem.next;
        n := n + 1;
      }
    }

    /** `list_empty` */
    method Empty() returns (e: bool)
      requires Valid()
      ensures e <==> Elems() == []
    {
      assert Linked(0);
      e := head.next == tail;
    }
  }
}
