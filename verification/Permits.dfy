/** How many requests of `chunk` blocks each a cap on blocks in flight allows. */
module Permits {
  import opened RustInts

  /** How many blocks a request asks for: a batch, at least one, at most the cap. */
  function ChunkSize(cap: nat, batch: nat): (chunk: nat)
    requires cap >= 1
    ensures 1 <= chunk <= cap
    ensures 1 <= batch <= cap ==> chunk == batch
    ensures batch > cap ==> chunk == cap
  {
    Min(Max(batch, 1), cap)
  }

  /** `(cap / chunk).max(1)` */
  function Posts(cap: nat, chunk: nat): nat
    requires chunk >= 1
  {
    Max(cap / chunk, 1)
  }

  /** That many requests never ask for more than `cap` blocks together, and one
      more would. */
  lemma PostsFitCap(cap: nat, chunk: nat)
    requires 1 <= chunk <= cap
    ensures Posts(cap, chunk) * chunk <= cap < (Posts(cap, chunk) + 1) * chunk
  {
  }

  lemma MulMonotone(a: nat, b: nat, c: nat)
    requires a <= b
    ensures a * c <= b * c
  {
  }
}
