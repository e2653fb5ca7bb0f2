/** Sequence adaptors of the Rust standard library that the solvers use. */
module Sequences {
  import opened Arith

  /** `iter().cycle().take(n)`: the elements of `xs` over and over, `n` of
      them. */
  function Cycle<T>(xs: seq<T>, n: nat): (r: seq<T>)
    requires |xs| > 0
    ensures |r| == n
    decreases n
  {
    if n <= |xs| then xs[..n] else xs + Cycle(xs, n - |xs|)
  }

  /** Each element of the cycle is the element of `xs` at the same place
      modulo its length. */
  lemma {:induction false} CycleAt<T>(xs: seq<T>, n: nat, i: nat)
    requires |xs| > 0 && i < n
    ensures Cycle(xs, n)[i] == xs[i % |xs|]
    decreases n
  {
    var k := |xs|;
    if n <= k || i < k {
      assert Cycle(xs, n)[i] == xs[i];
      SmallModulo(i, k);
    } else {
      assert Cycle(xs, n)[i] == Cycle(xs, n - k)[i - k];
      CycleAt(xs, n - k, i - k);
      ModuloShift(i - k, k);
    }
  }

  /** `Vec::repeat`: `k` copies of `xs`, one after the other. */
  function Repeat<T>(xs: seq<T>, k: nat): (r: seq<T>)
    ensures |r| == |xs| * k
  {
    if k == 0 then [] else xs + Repeat(xs, k - 1)
  }
}
