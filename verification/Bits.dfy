/** Committee bitmaps: `vector<bool>` indexed like the member list. */
module Bits {

  /** How many bits are set. */
  function Count(bits: seq<bool>): nat {
    if bits == [] then 0 else (if bits[0] then 1 else 0) + Count(bits[1..])
  }

  /** The entries of `xs` whose bit is set, in index order; entries without a bit are not taken. */
  function Select<T>(bits: seq<bool>, xs: seq<T>): seq<T>
    requires |bits| <= |xs|
  {
    if bits == [] then [] else (if bits[0] then [xs[0]] else []) + Select(bits[1..], xs[1..])
  }

  function NoBits(n: nat): seq<bool> { seq(n, _ => false) }

  /** Every bit of `a` is also set in `b`. */
  predicate Within(a: seq<bool>, b: seq<bool>) {
    |a| == |b| && forall i :: 0 <= i < |a| && a[i] ==> b[i]
  }

  function And(a: seq<bool>, b: seq<bool>): seq<bool>
    requires |a| == |b|
  {
    seq(|a|, i requires 0 <= i < |a| => a[i] && b[i])
  }

  lemma CountBound(bits: seq<bool>)
    ensures Count(bits) <= |bits|
  {
  }

  lemma {:induction false} CountNone(n: nat)
    ensures Count(NoBits(n)) == 0
  {
    if n != 0 {
      assert NoBits(n)[1..] == NoBits(n - 1);
      CountNone(n - 1);
    }
  }

  lemma {:induction false} CountSelect<T>(bits: seq<bool>, xs: seq<T>)
    requires |bits| == |xs|
    ensures |Select(bits, xs)| == Count(bits)
  {
    if bits != [] {
      CountSelect(bits[1..], xs[1..]);
    }
  }

  /** Setting a clear bit adds one to the count. */
  lemma {:induction false} CountSet(bits: seq<bool>, i: nat)
    requires i < |bits| && !bits[i]
    ensures Count(bits[i := true]) == Count(bits) + 1
  {
    if i == 0 {
      assert bits[i := true][1..] == bits[1..];
    } else {
      assert bits[i := true][1..] == bits[1..][i - 1 := true];
      CountSet(bits[1..], i - 1);
    }
  }

  /** Setting a clear bit and storing its entry adds exactly that entry to the selection. */
  lemma {:induction false} SelectSet<T>(bits: seq<bool>, xs: seq<T>, i: nat, x: T)
    requires i < |bits| == |xs| && !bits[i]
    ensures multiset(Select(bits[i := true], xs[i := x])) == multiset(Select(bits, xs)) + multiset{x}
  {
    if i == 0 {
      assert bits[i := true][1..] == bits[1..] && xs[i := x][1..] == xs[1..];
    } else {
      assert bits[i := true][1..] == bits[1..][i - 1 := true] && xs[i := x][1..] == xs[1..][i - 1 := x];
      SelectSet(bits[1..], xs[1..], i - 1, x);
    }
  }

  lemma {:induction false} SelectNone<T>(xs: seq<T>)
    ensures Select(NoBits(|xs|), xs) == []
  {
    if xs != [] {
      assert NoBits(|xs|)[1..] == NoBits(|xs[1..]|);
      SelectNone(xs[1..]);
    }
  }

  lemma {:induction false} WithinCount(a: seq<bool>, b: seq<bool>)
    requires Within(a, b)
    ensures Count(a) <= Count(b)
    ensures Count(a) == Count(b) ==> a == b
  {
    if a != [] {
      WithinCount(a[1..], b[1..]);
      assert a == [a[0]] + a[1..] && b == [b[0]] + b[1..];
    }
  }

  /** Inclusion and exclusion: two bitmaps over n members share at least their sizes minus n. */
  lemma {:induction false} Overlap(a: seq<bool>, b: seq<bool>)
    requires |a| == |b|
    ensures Count(And(a, b)) >= Count(a) + Count(b) - |a|
  {
    if a != [] {
      assert And(a, b)[1..] == And(a[1..], b[1..]);
      Overlap(a[1..], b[1..]);
    }
  }

  /** The index of the i-th set bit. */
  function Nth(bits: seq<bool>, i: nat): (j: nat)
    requires i < Count(bits)
    ensures j < |bits| && bits[j]
  {
    if bits[0] && i == 0 then 0 else 1 + Nth(bits[1..], if bits[0] then i - 1 else i)
  }

  lemma {:induction false} SelectNth<T>(bits: seq<bool>, xs: seq<T>, i: nat)
    requires |bits| == |xs| && i < Count(bits)
    ensures i < |Select(bits, xs)| && Select(bits, xs)[i] == xs[Nth(bits, i)]
  {
    CountSelect(bits, xs);
    if !(bits[0] && i == 0) {
      SelectNth(bits[1..], xs[1..], if bits[0] then i - 1 else i);
    }
  }

  /** Only the entries whose bit is set matter. */
  lemma {:induction false} SelectAgrees<T>(bits: seq<bool>, xs: seq<T>, ys: seq<T>)
    requires |bits| == |xs| == |ys| && forall i :: 0 <= i < |bits| && bits[i] ==> xs[i] == ys[i]
    ensures Select(bits, xs) == Select(bits, ys)
  {
    if bits != [] {
      forall i | 0 <= i < |bits| - 1 && bits[1..][i]
        ensures xs[1..][i] == ys[1..][i]
      {
        assert bits[i + 1];
      }
      SelectAgrees(bits[1..], xs[1..], ys[1..]);
    }
  }

  /** The members whose bit is set. */
  ghost function Members(bits: seq<bool>): set<nat> { set i | 0 <= i < |bits| && bits[i] }

  lemma {:induction false} CountMembers(bits: seq<bool>)
    ensures Count(bits) == |Members(bits)|
  {
    var n := |bits|;
    if n > 0 {
      CountMembers(bits[..n - 1]);
      CountLast(bits);
      var rest := Members(bits[..n - 1]);
      assert Members(bits) == if bits[n - 1] then rest + {n - 1} else rest;
    }
  }

  lemma {:induction false} CountLast(bits: seq<bool>)
    requires bits != []
    ensures Count(bits) == Count(bits[..|bits| - 1]) + if bits[|bits| - 1] then 1 else 0
  {
    if |bits| > 1 {
      CountLast(bits[1..]);
      assert bits[1..][..|bits| - 2] == bits[..|bits| - 1][1..];
    }
  }

  /** A bitmap that is a proper part of another has a member to gain. */
  lemma MissingMember(a: seq<bool>, b: seq<bool>) returns (i: nat)
    requires Within(a, b) && a != b
    ensures i < |a| && b[i] && !a[i]
    ensures Within(a[i := true], b)
    ensures Count(a[i := true]) == Count(a) + 1 <= Count(b)
    ensures Count(a[i := true]) == Count(b) <==> a[i := true] == b
  {
    i :| 0 <= i < |a| && a[i] != b[i];
    CountSet(a, i);
    WithinCount(a[i := true], b);
  }
}
