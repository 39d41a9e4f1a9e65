/** Path strings: splitting, `wash_path` and the stack of names it computes. */
module Paths {
  import opened Basics
  import opened Words
  import opened Entries
  import opened DirTable

  const SLASH: Byte := 47

  type Path = seq<Byte>

  // ---------------------------------------------------------------- path_parse

  /** Behind the slashes at the start. */
  function Skip(p: Path): (q: Path)
    ensures |q| <= |p| && (q != [] ==> q[0] != SLASH) && (p != [] && p[0] != SLASH ==> q == p)
  {
    if p != [] && p[0] == SLASH then Skip(p[1..]) else p
  }

  /** The length of the first name. */
  function NameLength(p: Path): (n: nat)
    ensures n <= |p| && (forall i :: 0 <= i < n ==> p[i] != SLASH) && (n < |p| ==> p[n] == SLASH)
  {
    if p == [] || p[0] == SLASH then 0 else 1 + NameLength(p[1..])
  }

  /** The names of a path: its non-empty parts. */
  function Split(p: Path): (ns: seq<Name>)
    decreases |p|
  {
    var q := Skip(p);
    if q == [] then [] else [q[..NameLength(q)]] + Split(q[NameLength(q)..])
  }

  /** `path_parse`: the first name, and the rest or nothing (NULL) at the end of the string. */
  method PathParse(p: Path) returns (name: Name, rest: Option<Path>)
    ensures name == [] <==> Split(p) == []
    ensures name != [] ==> Split(p) == [name] + (if rest.Some? then Split(rest.v) else [])
    ensures name != [] && rest.Some? ==> |rest.v| < |p|
    ensures name == [] ==> rest.None?
  {
    var q := p;
    while q != [] && q[0] == SLASH
      invariant Skip(p) == Skip(q) && |q| <= |p|
      decreases |q|
    {
      q := q[1..];
    }
    assert Skip(q) == q;
    name := [];
    var k := 0;
    while k < |q| && q[k] != SLASH
      invariant 0 <= k <= |q| && name == q[..k] && NameLength(q) == k + NameLength(q[k..])
    {
      name := name + [q[k]];
      assert q[k..][1..] == q[k + 1..];
      k := k + 1;
    }
    assert NameLength(q) == k;
    if k == |q| { return name, None; }
    rest := Some(q[k..]);
  }

  // ---------------------------------------------------------------- the stack

  /** One name followed from `stack`. */
  function Push(stack: seq<Name>, n: Name): (r: seq<Name>) {
    if n == DOTDOT then (if stack == [] then [] else stack[..|stack| - 1])
    else if n == DOT then stack
    else stack + [n]
  }

  /** The names after `.` and `..` have been followed, starting from `stack`. */
  function Resolve(ns: seq<Name>, stack: seq<Name>): (r: seq<Name>)
    decreases |ns|
  {
    if ns == [] then stack else Resolve(ns[1..], Push(stack, ns[0]))
  }

  function Slashed(ns: seq<Name>): (p: Path) {
    if ns == [] then [] else Slashed(ns[..|ns| - 1]) + [SLASH] + ns[|ns| - 1]
  }

  /** The absolute path of a stack. */
  function Join(ns: seq<Name>): (p: Path) {
    if ns == [] then [SLASH] else Slashed(ns)
  }

  ghost predicate Plain(n: Name) { n != [] && forall i :: 0 <= i < |n| ==> n[i] != SLASH }

  ghost predicate AllPlain(ns: seq<Name>) { forall i :: 0 <= i < |ns| ==> Plain(ns[i]) }

  /** No `.`, no `..` and no empty part. */
  ghost predicate Clean(ns: seq<Name>) { AllPlain(ns) && forall i :: 0 <= i < |ns| ==> !Dots(ns[i]) }

  lemma {:induction false} SplitPlain(p: Path)
    ensures AllPlain(Split(p))
    decreases |p|
  {
    var q := Skip(p);
    if q != [] { SplitPlain(q[NameLength(q)..]); }
  }

  lemma {:induction false} ResolveClean(ns: seq<Name>, stack: seq<Name>)
    requires AllPlain(ns) && Clean(stack)
    ensures Clean(Resolve(ns, stack))
    decreases |ns|
  {
    if ns != [] { ResolveClean(ns[1..], Push(stack, ns[0])); }
  }

  lemma {:induction false} ResolveNothing(ns: seq<Name>, stack: seq<Name>)
    requires Clean(ns)
    ensures Resolve(ns, stack) == stack + ns
    decreases |ns|
  {
    if ns == [] {
      assert stack + ns == stack;
    } else {
      ResolveNothing(ns[1..], stack + [ns[0]]);
      assert stack + [ns[0]] + ns[1..] == stack + ns;
    }
  }

  // ---------------------------------------------------------------- joining and splitting

  lemma {:induction false} NameLengthOf(n: Name, rest: Path)
    requires forall i :: 0 <= i < |n| ==> n[i] != SLASH
    requires rest == [] || rest[0] == SLASH
    ensures NameLength(n + rest) == |n|
    decreases |n|
  {
    if n == [] {
      assert n + rest == rest;
    } else {
      assert (n + rest)[1..] == n[1..] + rest;
      NameLengthOf(n[1..], rest);
    }
  }

  lemma SplitFirst(n: Name, rest: Path)
    requires Plain(n) && (rest == [] || rest[0] == SLASH)
    ensures Split([SLASH] + n + rest) == [n] + Split(rest)
  {
    var p := [SLASH] + n + rest;
    assert p[1..] == n + rest;
    assert Skip(p) == n + rest;
    NameLengthOf(n, rest);
    assert (n + rest)[..|n|] == n && (n + rest)[|n|..] == rest;
  }

  lemma {:induction false} SlashedFront(n: Name, ns: seq<Name>)
    ensures Slashed([n] + ns) == [SLASH] + n + Slashed(ns)
    decreases |ns|
  {
    var m := [n] + ns;
    if ns == [] {
      assert m[..0] == [];
    } else {
      assert m[..|m| - 1] == [n] + ns[..|ns| - 1];
      SlashedFront(n, ns[..|ns| - 1]);
    }
  }

  lemma {:induction false} SplitSlashed(ns: seq<Name>)
    requires AllPlain(ns)
    ensures Split(Slashed(ns)) == ns
    decreases |ns|
  {
    if ns != [] {
      assert ns == [ns[0]] + ns[1..];
      SlashedFront(ns[0], ns[1..]);
      SplitSlashed(ns[1..]);
      if ns[1..] != [] {
        SlashedFront(ns[1], ns[2..]);
        assert [ns[1]] + ns[2..] == ns[1..];
      }
      SplitFirst(ns[0], Slashed(ns[1..]));
    }
  }

  /** Splitting undoes joining. */
  lemma SplitJoin(ns: seq<Name>)
    requires AllPlain(ns)
    ensures Split(Join(ns)) == ns
  {
    if ns == [] {
      assert Skip([SLASH]) == Skip([SLASH][1..]) == [];
    } else {
      SplitSlashed(ns);
    }
  }

  function Washed(p: Path): (q: Path) { Join(Resolve(Split(p), [])) }

  /** Washing leaves clean names and is idempotent. */
  lemma WashedTwice(p: Path)
    ensures Clean(Split(Washed(p))) && Washed(Washed(p)) == Washed(p)
  {
    SplitPlain(p);
    var ns := Resolve(Split(p), []);
    ResolveClean(Split(p), []);
    SplitJoin(ns);
    ResolveNothing(ns, []);
    assert [] + ns == ns;
  }

  // ---------------------------------------------------------------- wash_path

  /** `strrchr` for a slash: the last one. */
  function LastSlash(p: Path): (i: int)
    ensures -1 <= i < |p| && (i >= 0 ==> p[i] == SLASH) && forall j :: i < j < |p| ==> p[j] != SLASH
  {
    if p == [] then -1 else if p[|p| - 1] == SLASH then |p| - 1 else LastSlash(p[..|p| - 1])
  }

  method StrRChr(p: Path) returns (i: int)
    ensures i == LastSlash(p)
  {
    i := -1;
    var k := 0;
    assert p[..0] == [];
    while k < |p|
      invariant 0 <= k <= |p| && i == LastSlash(p[..k])
    {
      assert p[..k + 1][..k] == p[..k];
      if p[k] == SLASH { i := k; }
      k := k + 1;
    }
    assert p[..k] == p;
  }

  /** Cutting at the last slash drops the last name. */
  lemma CutLast(ns: seq<Name>)
    requires AllPlain(ns) && ns != []
    ensures LastSlash(Slashed(ns)) == |Slashed(ns[..|ns| - 1])|
    ensures Slashed(ns)[..LastSlash(Slashed(ns))] == Slashed(ns[..|ns| - 1])
  {
    var a, n := Slashed(ns[..|ns| - 1]), ns[|ns| - 1];
    var p := Slashed(ns);
    assert p == a + [SLASH] + n && p[|a|] == SLASH;
    assert forall j :: |a| < j < |p| ==> p[j] == n[j - |a| - 1];
  }

  /** `wash_path` */
  method WashPath(p: Path) returns (out: Path)
    requires p != [] && p[0] == SLASH
    ensures out == Washed(p)
  {
    hide Split, Join, Push;
    SplitPlain(p);
    RootOnly([]);
    var name, rest := PathParse(p);
    if name == [] { return [SLASH]; }
    out := [SLASH];
    ghost var stack: seq<Name> := [];
    ghost var ns := Split(p);
    while name != []
      invariant Clean(stack) && AllPlain(ns) && out == Join(stack) && Resolve(ns, stack) == Resolve(Split(p), [])
      invariant name == [] <==> ns == []
      invariant name != [] ==> ns[0] == name && ns[1..] == if rest.Some? then Split(rest.v) else []
      decreases |ns|
    {
      out := WashName(out, name, stack);
      PushClean(stack, name);
      stack := Push(stack, name);
      ns := ns[1..];
      name := [];
      if rest.Some? { name, rest := PathParse(rest.v); }
    }
  }

  lemma PushClean(stack: seq<Name>, n: Name)
    requires Clean(stack) && Plain(n)
    ensures Clean(Push(stack, n))
  {
  }

  lemma RootOnly(ns: seq<Name>)
    requires AllPlain(ns)
    ensures Join(ns) == [SLASH] <==> ns == []
  {
    if ns != [] { assert |ns[|ns| - 1]| > 0 && |Slashed(ns)| >= 2; }
  }

  lemma JoinMore(ns: seq<Name>, n: Name)
    ensures Join(ns + [n]) == (if ns == [] then [] else Join(ns)) + [SLASH] + n
  {
    var m := ns + [n];
    assert m[..|m| - 1] == ns && m[|m| - 1] == n;
    assert Slashed(m) == Slashed(m[..|m| - 1]) + [SLASH] + m[|m| - 1];
  }

  /** The parent of a path string: cut at the last slash, but not below the root. */
  lemma JoinLess(ns: seq<Name>)
    requires AllPlain(ns)
    ensures var i := LastSlash(Join(ns));
            i >= 0 && Join(Push(ns, DOTDOT)) == if i != 0 then Join(ns)[..i] else Join(ns)[..1]
  {
    if ns != [] {
      CutLast(ns);
      var m := ns[..|ns| - 1];
      if m == [] {
        JoinMore(m, ns[0]);
        assert m + [ns[0]] == ns;
      } else {
        RootOnly(m);
      }
    } else {
      assert LastSlash([SLASH]) == 0;
    }
  }

  /** The output buffer is edited in place: cut at the last slash for `..`, a name appended otherwise. */
  method WashName(out: Path, name: Name, ghost stack: seq<Name>) returns (r: Path)
    requires AllPlain(stack) && out == Join(stack)
    ensures r == Join(Push(stack, name))
  {
    hide Join, LastSlash;
    r := out;
    if name == DOTDOT {
      JoinLess(stack);
      var slash := StrRChr(out);
      if slash != 0 {
        r := out[..slash];
      } else {
        r := out[..1];
      }
    } else if name != DOT {
      RootOnly(stack);
      JoinMore(stack, name);
      if out != [SLASH] { r := r + [SLASH]; }
      r := r + name;
    }
  }
}
