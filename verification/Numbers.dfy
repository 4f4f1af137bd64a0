/** Number facts and limits that several components share. */
module Numbers {
  const MAX128: nat := 0x1_00000000_00000000_00000000_00000000
  const MAX32: nat := 0x1_00000000

  function Min(a: nat, b: nat): nat { if a < b then a else b }

  function Max(a: nat, b: nat): nat { if a >= b then a else b }

  /** The result of unsigned 128-bit arithmetic, which wraps around. */
  function Wrap128(x: int): nat { x % MAX128 }

  lemma Wrap128Fits(x: nat)
    requires x < MAX128
    ensures Wrap128(x) == x
  {
  }

  function Sum(xs: seq<nat>): nat {
    if xs == [] then 0 else xs[0] + Sum(xs[1..])
  }

  lemma MulLe(a: nat, b: nat, c: nat)
    requires b <= c
    ensures a * b <= a * c && b * a <= c * a
  {
  }
}
