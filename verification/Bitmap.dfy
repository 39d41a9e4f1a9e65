/** The allocation bitmap: bytes of eight bits, searched first-fit.

    The map is a buffer of `len` bytes.  The scanning code looks at one byte
    beyond the map, so the buffer of the model holds at least one byte more;
    nothing is assumed about what that byte contains.
 */
module Bitmaps {

  /** `BITMAP_MASK << k`, truncated to eight bits. */
  function Mask(k: nat): (m: bv8)
    requires k < 8
  {
    if k == 0 then 1 else if k == 1 then 2 else if k == 2 then 4 else if k == 3 then 8
    else if k == 4 then 16 else if k == 5 then 32 else if k == 6 then 64 else 128
  }

  predicate BitOf(b: bv8, k: nat)
    requires k < 8
  {
    b & Mask(k) != 0
  }

  /** A byte with bit `k` set or cleared. */
  function PutBit(b: bv8, k: nat, value: bool): (v: bv8)
    requires k < 8
    ensures forall j :: 0 <= j < 8 ==> BitOf(v, j) == if j == k then value else BitOf(b, j)
  {
    if value then b | Mask(k) else b & !Mask(k)
  }

  /** The bit test of `bitmap_scan_test`. */
  predicate Test(s: seq<bv8>, i: nat)
    requires i / 8 < |s|
  {
    BitOf(s[i / 8], i % 8)
  }

  /** The first `n` bits of a buffer as booleans (true = in use). */
  function Bits(s: seq<bv8>, n: nat): (b: seq<bool>)
    requires n <= 8 * |s|
  {
    seq(n, i requires 0 <= i < n => Test(s, i))
  }

  /** `cnt` consecutive clear bits starting at `start`. */
  predicate ClearRun(b: seq<bool>, start: nat, cnt: nat) {
    start + cnt <= |b| && forall i :: start <= i < start + cnt ==> !b[i]
  }

  datatype Fit = Start(at: nat) | NoFit

  /** First fit at or after `from`: the reference definition of allocation. */
  function FitFrom(b: seq<bool>, cnt: nat, from: nat): (f: Fit)
    decreases |b| - from
  {
    if |b| <= from then NoFit
    else if ClearRun(b, from, cnt) then Start(from)
    else FitFrom(b, cnt, from + 1)
  }

  function FirstFit(b: seq<bool>, cnt: nat): (f: Fit) {
    FitFrom(b, cnt, 0)
  }

  /** First fit is the least start of a clear run, and fails exactly when there is none. */
  lemma {:induction false} FitFromIsLeast(b: seq<bool>, cnt: nat, from: nat)
    requires cnt >= 1
    ensures match FitFrom(b, cnt, from)
            case Start(s) => from <= s && ClearRun(b, s, cnt) && forall t :: from <= t < s ==> !ClearRun(b, t, cnt)
            case NoFit => forall t :: from <= t ==> !ClearRun(b, t, cnt)
    decreases |b| - from
  {
    if from < |b| && !ClearRun(b, from, cnt) {
      FitFromIsLeast(b, cnt, from + 1);
    }
  }

  /** Whoever exhibits a least run has found first fit. */
  lemma LeastRunIsFirstFit(b: seq<bool>, cnt: nat, s: nat)
    requires cnt >= 1 && ClearRun(b, s, cnt)
    requires forall t :: 0 <= t < s ==> !ClearRun(b, t, cnt)
    ensures FirstFit(b, cnt) == Start(s)
  {
    FitFromIsLeast(b, cnt, 0);
  }

  lemma NoRunIsNoFit(b: seq<bool>, cnt: nat)
    requires cnt >= 1
    requires forall t: nat :: !ClearRun(b, t, cnt)
    ensures FirstFit(b, cnt) == NoFit
  {
    FitFromIsLeast(b, cnt, 0);
  }

  /** Allocating a single bit: the least clear one, none exactly when all are set. */
  lemma FitOne(b: seq<bool>)
    ensures match FirstFit(b, 1)
            case Start(s) => s < |b| && !b[s] && forall i :: 0 <= i < s ==> b[i]
            case NoFit => forall i :: 0 <= i < |b| ==> b[i]
  {
    FitFromIsLeast(b, 1, 0);
    assert forall i :: 0 <= i < |b| ==> (b[i] <==> !ClearRun(b, i, 1));
  }

  lemma FullByte(b: bv8)
    ensures b == 0xff <==> forall k :: 0 <= k < 8 ==> BitOf(b, k)
  {
    if forall k :: 0 <= k < 8 ==> BitOf(b, k) {
      assert BitOf(b, 0) && BitOf(b, 1) && BitOf(b, 2) && BitOf(b, 3);
      assert BitOf(b, 4) && BitOf(b, 5) && BitOf(b, 6) && BitOf(b, 7);
    }
  }

  /** Writing one byte back with bit `i` set or cleared changes the test of bit `i` only. */
  lemma SetBit(s: seq<bv8>, i: nat, value: bool, j: nat)
    requires i / 8 < |s| && j / 8 < |s|
    ensures Test(s[i / 8 := PutBit(s[i / 8], i % 8, value)], j) == if j == i then value else Test(s, j)
  {
  }

  /** After looking at every bit below `next`: the last `count` of them are clear and no more,
      and no run of `cnt` clear bits lies below `next`. */
  ghost predicate Searched(e: seq<bool>, cnt: nat, next: nat, count: nat) {
    && count <= next <= |e|
    && (forall i :: next - count <= i < next ==> !e[i])
    && (next - count > 0 ==> e[next - count - 1])
    && forall t: nat :: t + cnt <= next ==> !ClearRun(e, t, cnt)
  }

  lemma SearchStarts(b: seq<bool>, e: seq<bool>, cnt: nat)
    requires cnt >= 2 && |b| < |e| && e[..|b|] == b && FirstFit(b, 1).Start?
    ensures Searched(e, cnt, FirstFit(b, 1).at + 1, 1)
  {
    FitFromIsLeast(b, 1, 0);
    var first := FirstFit(b, 1).at;
    assert !b[first];
    forall t: nat | t < first
      ensures e[t] && !ClearRun(e, t, cnt)
    {
      assert !ClearRun(b, t, 1);
      assert e[t] == b[t];
    }
  }

  /** One more bit: either it completes the first run of `cnt`, or the search goes on. */
  lemma SearchSteps(e: seq<bool>, cnt: nat, next: nat, count: nat)
    requires cnt >= 1 && count < cnt && next < |e| && Searched(e, cnt, next, count)
    ensures var c := if e[next] then 0 else count + 1;
            if c == cnt then FirstFit(e, cnt) == Start(next - cnt + 1)
            else Searched(e, cnt, next + 1, c)
  {
    var c := if e[next] then 0 else count + 1;
    if c == cnt {
      LeastRunIsFirstFit(e, cnt, next - cnt + 1);
    } else if cnt <= next + 1 {
      assert e[next - c];
      assert !ClearRun(e, next + 1 - cnt, cnt);
    }
  }

  datatype ScanResult = Found(start: nat) | Fail | Halt

  /** What a scan of the `n`-bit map does when the bit after the map reads as `guard`:
      a single bit is searched in the map itself, a longer run in the map and the guard bit. */
  function ScanSpec(b: seq<bool>, guard: bool, cnt: nat): (r: ScanResult) {
    if FirstFit(b, 1).NoFit? then Halt
    else match FirstFit(if cnt == 1 then b else b + [guard], cnt)
      case Start(s) => Found(s)
      case NoFit => Fail
  }

  /** The scan is first fit on the map except for one family of inputs: the bit after the
      map is clear, the map has no run of `cnt` bits, and its last `cnt - 1` bits are clear. */
  lemma ScanIsFirstFitExactlyWhen(b: seq<bool>, guard: bool, cnt: nat)
    requires cnt >= 1
    requires FirstFit(b, 1).Start?
    ensures ScanSpec(b, guard, cnt) == (match FirstFit(b, cnt) case Start(s) => Found(s) case NoFit => Fail)
            <==>
            !(cnt >= 2 && !guard && FirstFit(b, cnt).NoFit? && cnt - 1 <= |b| && ClearRun(b, |b| - (cnt - 1), cnt - 1))
  {
    if cnt >= 2 {
      var e := b + [guard];
      FitFromIsLeast(b, cnt, 0);
      FitFromIsLeast(e, cnt, 0);
      forall t: nat
        ensures t + cnt <= |b| ==> ClearRun(e, t, cnt) == ClearRun(b, t, cnt)
        ensures t + cnt == |b| + 1 ==> ClearRun(e, t, cnt) == (!guard && ClearRun(b, t, cnt - 1))
      {
        RunWithGuard(b, guard, cnt, t);
      }
      assert cnt - 1 <= |b| ==> ClearRun(e, |b| - (cnt - 1), cnt) == (!guard && ClearRun(b, |b| - (cnt - 1), cnt - 1));
      if FirstFit(b, cnt).Start? {
        assert ClearRun(e, FirstFit(b, cnt).at, cnt);
      }
      if FirstFit(e, cnt).Start? {
        assert FirstFit(e, cnt).at + cnt <= |b| + 1;
      }
    }
  }

  lemma RunWithGuard(b: seq<bool>, guard: bool, cnt: nat, t: nat)
    requires cnt >= 1
    ensures t + cnt <= |b| ==> ClearRun(b + [guard], t, cnt) == ClearRun(b, t, cnt)
    ensures t + cnt == |b| + 1 ==> ClearRun(b + [guard], t, cnt) == (!guard && ClearRun(b, t, cnt - 1))
  {
    var e := b + [guard];
    assert e[|b|] == guard;
    if ClearRun(e, t, cnt) {
      forall i | t <= i < t + cnt && i < |b| ensures !b[i] { assert !e[i]; }
    }
  }

  /** A run of two pages granted although only the last page of an eight-page map is free. */
  lemma ScanRunsPastTheEnd()
    ensures var b := [true, true, true, true, true, true, true, false];
            FirstFit(b, 2) == NoFit && ScanSpec(b, false, 2) == Found(7)
  {
    var b := [true, true, true, true, true, true, true, false];
    var e := b + [false];
    forall t: nat | t < 7
      ensures !ClearRun(b, t, 1) && !ClearRun(b, t, 2) && !ClearRun(e, t, 2)
    {
      assert b[t] && e[t];
    }
    NoRunIsNoFit(b, 2);
    LeastRunIsFirstFit(b, 1, 7);
    LeastRunIsFirstFit(e, 2, 7);
  }

  // ---------------------------------------------------------------- counting clear bits

  /** The number of clear bits. */
  function Free(bits: seq<bool>): (n: nat) {
    if bits == [] then 0 else Free(bits[..|bits| - 1]) + (if bits[|bits| - 1] then 0 else 1)
  }

  lemma {:induction false} FreeUpdate(bits: seq<bool>, b: int, v: bool)
    requires 0 <= b < |bits|
    ensures Free(bits[b := v]) == Free(bits) + (if bits[b] then 1 else 0) - (if v then 1 else 0)
    decreases |bits|
  {
    var n := |bits| - 1;
    if b < n {
      assert bits[b := v][..n] == bits[..n][b := v];
      FreeUpdate(bits[..n], b, v);
    } else {
      assert bits[b := v][..n] == bits[..n];
    }
  }

  /** Clearing bits frees at least as many. */
  lemma {:induction false} FreeMore(a: seq<bool>, b: seq<bool>)
    requires |a| == |b| && forall i :: 0 <= i < |a| && b[i] ==> a[i]
    ensures Free(b) >= Free(a)
    decreases |a|
  {
    if a != [] { FreeMore(a[..|a| - 1], b[..|b| - 1]); }
  }

  lemma {:induction false} FreeNone(bits: seq<bool>)
    ensures Free(bits) == 0 <==> forall b :: 0 <= b < |bits| ==> bits[b]
    decreases |bits|
  {
    if bits != [] {
      var n := |bits| - 1;
      FreeNone(bits[..n]);
      assert (forall b :: 0 <= b < |bits| ==> bits[b]) <==> (forall b :: 0 <= b < n ==> bits[..n][b]) && bits[n];
    }
  }

  class Bitmap {
    var bits: array<bv8>
    var len: nat          // btmp_bytes_len

    ghost predicate Valid()
      reads this
    {
      len < bits.Length
    }

    ghost function View(): (b: seq<bool>)
      requires Valid()
      reads this, bits
    {
      Bits(bits[..], 8 * len)
    }

    ghost predicate Guard()
      requires Valid()
      reads this, bits
    {
      Test(bits[..], 8 * len)
    }

    /** A clear map of `n` bytes, and whatever byte comes after it. */
    constructor (n: nat, after: bv8)
      ensures Valid() && len == n && fresh(bits) && View() == seq(8 * n, i => false)
    {
      len := n;
      bits := new bv8[n + 1](i => if i == n then after else 0);
    }

    method ScanTest(i: nat) returns (r: bool)
      requires Valid() && i <= 8 * len
      ensures r == if i < 8 * len then View()[i] else Guard()
    {
      var byteIdx := i / 8;
      var bitOdd := i % 8;
      r := BitOf(bits[byteIdx], bitOdd);
    }

    /** The first two loops of `bitmap_scan`: a byte with a clear bit, then that bit. */
    method FirstClear() returns (full: bool, first: nat)
      requires Valid()
      ensures full <==> FirstFit(View(), 1) == NoFit
      ensures !full ==> FirstFit(View(), 1) == Start(first)
    {
      ghost var b := View();
      var idxByte := 0;
      while 0xff == bits[idxByte] && idxByte < len
        invariant idxByte <= len
        invariant forall i :: 0 <= i < 8 * idxByte ==> b[i]
      {
        FullByte(bits[idxByte]);
        idxByte := idxByte + 1;
      }
      if idxByte == len {
        NoRunIsNoFit(b, 1) by {
          forall t: nat ensures !ClearRun(b, t, 1) { assert t < |b| ==> b[t]; }
        }
        return true, 0;
      }
      FullByte(bits[idxByte]);
      var idxBit := 0;
      while BitOf(bits[idxByte], idxBit)
        invariant idxBit < 8
        invariant forall k :: 0 <= k < idxBit ==> BitOf(bits[idxByte], k)
        invariant exists k :: idxBit <= k < 8 && !BitOf(bits[idxByte], k)
        decreases 8 - idxBit
      {
        idxBit := idxBit + 1;
      }
      first := idxByte * 8 + idxBit;
      assert !b[first];
      forall t: nat | t < first ensures !ClearRun(b, t, 1) { assert b[t]; }
      LeastRunIsFirstFit(b, 1, first);
      full := false;
    }

    /** `bitmap_scan`.  The assertion that some byte has a clear bit comes before the test
        for -1, so a full map stops the kernel. */
    method Scan(cnt: nat) returns (r: ScanResult)
      requires Valid() && cnt >= 1
      ensures r == ScanSpec(View(), Guard(), cnt)
    {
      ghost var b := View();
      ghost var e := b + [Guard()];
      var full, first := FirstClear();
      if full {
        return Halt;
      }
      if cnt == 1 {
        return Found(first);
      }
      SearchStarts(b, e, cnt);
      var bitLeft: nat := 8 * len - first;
      var nextBit := first + 1;
      var count := 1;
      while bitLeft > 0
        invariant nextBit + bitLeft == 8 * len + 1
        invariant count < cnt && Searched(e, cnt, nextBit, count)
        decreases bitLeft
      {
        bitLeft := bitLeft - 1;
        var inUse := ScanTest(nextBit);
        SearchSteps(e, cnt, nextBit, count);
        if !inUse {
          count := count + 1;
        } else {
          count := 0;
        }
        if count == cnt {
          return Found(nextBit - cnt + 1);
        }
        nextBit := nextBit + 1;
      }
      NoRunIsNoFit(e, cnt);
      return Fail;
    }

    /** `bitmap_set`: one bit changes, in the map and in the byte after it. */
    method Set(i: nat, value: bool)
      requires Valid() && i < 8 * len
      modifies bits
      ensures View() == old(View())[i := value]
      ensures Guard() == old(Guard())
    {
      var byteIdx := i / 8;
      var bitOdd := i % 8;
      ghost var was := bits[..];
      bits[byteIdx] := PutBit(bits[byteIdx], bitOdd, value);
      assert bits[..] == was[byteIdx := bits[byteIdx]];
      forall j: nat | j <= 8 * len
        ensures Test(bits[..], j) == if j == i then value else Test(was, j)
      {
        SetBit(was, i, value, j);
      }
    }
  }
}
