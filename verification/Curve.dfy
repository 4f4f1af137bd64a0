/** The group behind the signatures: a commutative group whose every element is killed by `order`.
    Scalar multiplication is repeated addition, so all its laws are proved here rather than assumed. */
module Curve {

  datatype Group<!P(==, !new)> = Group(order: nat, neutral: P, add: (P, P) -> P) {

    // The laws, each named so that a proof says which instances it uses.
    predicate Unit(p: P) { add(neutral, p) == p }
    predicate Commutes(p: P, q: P) { add(p, q) == add(q, p) }
    predicate Associates(p: P, q: P, r: P) { add(add(p, q), r) == add(p, add(q, r)) }
    predicate Torsion(p: P) { Mul(order, p) == neutral }

    /** The laws an elliptic-curve group of the given order satisfies. */
    ghost predicate Lawful() {
      && order > 1
      && (forall p :: Unit(p))
      && (forall p, q :: Commutes(p, q))
      && (forall p, q, r :: Associates(p, q, r))
      && (forall p :: Torsion(p))
    }

    /** The point `k` times `p`. */
    function Mul(k: nat, p: P): P {
      if k == 0 then neutral else add(p, Mul(k - 1, p))
    }

    /** The sum of a list of points. */
    function Sum(ps: seq<P>): P {
      if ps == [] then neutral else add(ps[0], Sum(ps[1..]))
    }

    /** The sum of a list of scalars, reduced modulo the order. */
    function SumMod(xs: seq<nat>): nat
      requires order > 0
    {
      if xs == [] then 0 else (xs[0] + SumMod(xs[1..])) % order
    }

    lemma {:induction false} MulAdd(a: nat, b: nat, p: P)
      requires Lawful()
      ensures Mul(a + b, p) == add(Mul(a, p), Mul(b, p))
    {
      if a == 0 {
        assert Unit(Mul(b, p));
      } else {
        MulAdd(a - 1, b, p);
        assert Associates(p, Mul(a - 1, p), Mul(b, p));
      }
    }

    lemma Swap4(a: P, b: P, c: P, d: P)
      requires Lawful()
      ensures add(add(a, b), add(c, d)) == add(add(a, c), add(b, d))
    {
      assert Associates(a, b, add(c, d)) && Associates(b, c, d) && Commutes(b, c);
      assert Associates(c, b, d) && Associates(a, c, add(b, d));
    }

    lemma {:induction false} MulDistributes(k: nat, p: P, q: P)
      requires Lawful()
      ensures Mul(k, add(p, q)) == add(Mul(k, p), Mul(k, q))
    {
      if k == 0 {
        assert Unit(neutral);
      } else {
        MulDistributes(k - 1, p, q);
        Swap4(p, q, Mul(k - 1, p), Mul(k - 1, q));
      }
    }

    lemma {:induction false} MulNeutral(k: nat)
      requires Lawful()
      ensures Mul(k, neutral) == neutral
    {
      if k != 0 {
        MulNeutral(k - 1);
        assert Unit(neutral);
      }
    }

    lemma {:induction false} MulMul(a: nat, b: nat, p: P)
      requires Lawful()
      ensures a * b >= 0
      ensures Mul(a, Mul(b, p)) == Mul(a * b, p)
    {
      if a != 0 {
        MulMul(a - 1, b, p);
        assert a * b == b + (a - 1) * b;
        MulAdd(b, (a - 1) * b, p);
      }
    }

    /** Adding whole multiples of the order changes nothing. */
    lemma {:induction false} MulMod(a: nat, p: P)
      requires Lawful()
      ensures Mul(a % order, p) == Mul(a, p)
    {
      if a >= order {
        MulMod(a - order, p);
        assert (a - order) % order == a % order by { ModMinus(a, order); }
        MulAdd(order, a - order, p);
        assert Torsion(p) && Unit(Mul(a - order, p));
      } else {
        ModSmall(a, order);
      }
    }

    /** Two scalars that add up to a third modulo the order do so as multiples of a point. */
    lemma MulSplit(s: nat, x: nat, k: nat, p: P)
      requires Lawful()
      ensures (s + x) % order == k % order ==> add(Mul(s, p), Mul(x, p)) == Mul(k, p)
    {
      MulAdd(s, x, p);
      MulCongruent(s + x, k, p);
    }

    lemma MulCongruent(a: nat, b: nat, p: P)
      requires Lawful()
      ensures a % order == b % order ==> Mul(a, p) == Mul(b, p)
    {
      MulMod(a, p);
      MulMod(b, p);
    }

    lemma {:induction false} SumConcat(a: seq<P>, b: seq<P>)
      requires Lawful()
      ensures Sum(a + b) == add(Sum(a), Sum(b))
    {
      if a == [] {
        assert a + b == b && Unit(Sum(b));
      } else {
        assert (a + b)[1..] == a[1..] + b;
        SumConcat(a[1..], b);
        assert Associates(a[0], Sum(a[1..]), Sum(b));
      }
    }

    lemma SumPullOut(l: seq<P>, x: P, r: seq<P>)
      requires Lawful()
      ensures Sum(l + [x] + r) == add(x, Sum(l + r))
    {
      SumConcat(l, r);
      SumConcat(l, [x] + r);
      assert l + [x] + r == l + ([x] + r) && ([x] + r)[1..] == r;
      assert Associates(Sum(l), x, Sum(r)) && Commutes(Sum(l), x) && Associates(x, Sum(l), Sum(r));
    }

    /** Aggregation does not depend on the order in which the points arrived. */
    lemma {:induction false} SumPermutation(a: seq<P>, b: seq<P>)
      requires Lawful()
      requires multiset(a) == multiset(b)
      ensures Sum(a) == Sum(b)
    {
      if a == [] {
        EmptyOf(b);
      } else {
        var l, r := SplitAt(a, b);
        SumPermutation(a[1..], l + r);
        SumPullOut(l, a[0], r);
      }
    }

    lemma {:induction false} SumModConcat(a: seq<nat>, b: seq<nat>)
      requires order > 0
      ensures SumMod(a + b) == (SumMod(a) + SumMod(b)) % order
    {
      if a == [] {
        assert a + b == b;
        SumModReduced(b);
      } else {
        assert (a + b)[1..] == a[1..] + b;
        SumModConcat(a[1..], b);
        ModFold(a[0], SumMod(a[1..]) + SumMod(b), order);
        ModFold(SumMod(b), a[0] + SumMod(a[1..]), order);
      }
    }

    lemma SumModReduced(xs: seq<nat>)
      requires order > 0
      ensures SumMod(xs) < order && SumMod(xs) % order == SumMod(xs)
    {
      if xs != [] {
        ModSmall(SumMod(xs), order);
      }
    }

    lemma SumModPullOut(l: seq<nat>, x: nat, r: seq<nat>)
      requires order > 0
      ensures SumMod(l + [x] + r) == (x + SumMod(l + r)) % order
    {
      SumModConcat(l, r);
      SumModConcat(l, [x] + r);
      assert l + [x] + r == l + ([x] + r) && ([x] + r)[1..] == r;
      ModFold(SumMod(l), x + SumMod(r), order);
      ModFold(x, SumMod(l) + SumMod(r), order);
    }

    /** Nor does the aggregation of responses. */
    lemma {:induction false} SumModPermutation(a: seq<nat>, b: seq<nat>)
      requires order > 0
      requires multiset(a) == multiset(b)
      ensures SumMod(a) == SumMod(b)
    {
      if a == [] {
        EmptyOf(b);
      } else {
        var l, r := SplitAt(a, b);
        SumModPermutation(a[1..], l + r);
        SumModPullOut(l, a[0], r);
      }
    }

    /** The algebraic heart of collective signing: if every member's response opens its own commit
        point under the common challenge, the summed response opens the summed commit point. */
    lemma {:induction false} ResponsesAddUp(base: P, c: nat, ss: seq<nat>, keys: seq<P>, points: seq<P>)
      requires Lawful()
      requires |ss| == |keys| == |points|
      requires forall i :: 0 <= i < |ss| ==> add(Mul(ss[i], base), Mul(c, keys[i])) == points[i]
      ensures add(Mul(SumMod(ss), base), Mul(c, Sum(keys))) == Sum(points)
    {
      if ss == [] {
        MulNeutral(c);
        assert Unit(neutral);
      } else {
        ResponsesAddUp(base, c, ss[1..], keys[1..], points[1..]);
        var s, k := SumMod(ss[1..]), Sum(keys[1..]);
        MulMod(ss[0] + s, base);
        MulAdd(ss[0], s, base);
        MulDistributes(c, keys[0], k);
        Swap4(Mul(ss[0], base), Mul(s, base), Mul(c, keys[0]), Mul(c, k));
      }
    }
  }

  lemma EmptyOf<T>(b: seq<T>)
    requires multiset(b) == multiset{}
    ensures b == []
  {
    assert |multiset(b)| == |b|;
  }

  /** Finds the first element of `a` in a rearrangement `b` of it. */
  lemma SplitAt<T>(a: seq<T>, b: seq<T>) returns (l: seq<T>, r: seq<T>)
    requires a != [] && multiset(a) == multiset(b)
    ensures b == l + [a[0]] + r && multiset(l + r) == multiset(a[1..])
  {
    var x := a[0];
    assert x in multiset(a);
    assert x in b;
    var i :| 0 <= i < |b| && b[i] == x;
    l, r := b[..i], b[i + 1..];
    assert b == l + [x] + r;
    Extract(l, x, r);
    HeadOut(a);
    Cancel(multiset(l + r), multiset(a[1..]), x);
  }

  lemma HeadOut<T>(a: seq<T>)
    requires a != []
    ensures multiset(a) == multiset(a[1..]) + multiset{a[0]}
  {
    assert a == [a[0]] + a[1..];
  }

  lemma Cancel<T>(m: multiset<T>, m': multiset<T>, x: T)
    requires m + multiset{x} == m' + multiset{x}
    ensures m == m'
  {
    assert m == m + multiset{x} - multiset{x};
    assert m' == m' + multiset{x} - multiset{x};
  }

  lemma Extract<T>(l: seq<T>, x: T, r: seq<T>)
    ensures multiset(l + [x] + r) == multiset(l + r) + multiset{x}
  {
    assert multiset(l + r) == multiset(l) + multiset(r);
  }

  lemma ModMinus(a: nat, n: nat)
    requires 0 < n <= a
    ensures (a - n) % n == a % n
  {
    assert a == n * (a / n) + a % n;
    assert a - n == n * (a / n - 1) + a % n;
    ModUnique(a - n, n, a / n - 1, a % n);
  }

  lemma ModSmall(a: nat, n: nat)
    requires a < n
    ensures a % n == a
  {
  }

  lemma ModUnique(a: int, n: nat, k: int, r: nat)
    requires r < n && a == n * k + r
    ensures a % n == r
  {
    var d := k - a / n;
    assert n * d == a % n - r by {
      assert n * d == n * k - n * (a / n);
    }
    assert d > 0 ==> n * d >= n;
    assert d < 0 ==> n * d <= 0 - n;
  }

  /** Reducing one summand first does not change the reduced sum. */
  lemma ModFold(x: nat, y: nat, n: nat)
    requires n > 0
    ensures (x + y % n) % n == (x + y) % n
  {
    var z := x + y % n;
    assert y == n * (y / n) + y % n;
    assert z == n * (z / n) + z % n;
    assert x + y == n * (y / n + z / n) + z % n;
    ModUnique(x + y, n, y / n + z / n, z % n);
  }

  /** Subtracting and adding back the same number modulo n. */
  lemma TakeAndGiveBack(k: nat, e: nat, n: nat)
    requires n > 0
    ensures ((k - e) % n + e) % n == k % n
  {
    var x := k - e;
    assert x % n + e == n * (k / n - x / n) + k % n by {
      assert x == n * (x / n) + x % n && k == n * (k / n) + k % n;
    }
    ModUnique(x % n + e, n, k / n - x / n, k % n);
  }

  function Xor(a: bool, b: bool): bool { a != b }

  /** The laws are satisfiable: the two-element group under exclusive or. */
  lemma TwoElementGroupIsLawful()
    ensures Group(2, false, Xor).Lawful()
  {
    var g := Group(2, false, Xor);
    forall p ensures g.Torsion(p) {
      assert g.Mul(1, p) == g.add(p, g.Mul(0, p));
    }
  }
}
