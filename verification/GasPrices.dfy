/** Gas price samples: prices accumulate, and finishing a block sorts them and,
    when there are too many, trims. What is kept is decided by size, not by age:
    always the largest prices ever added. */
module GasPrices {
  import opened RustInts
  import opened PaperTypes
  import opened StableSort

  predicate PriceLeq(a: u128, b: u128) {
    a <= b
  }

  lemma PriceLeqIsTotalPreorder()
    ensures TotalPreorder(PriceLeq)
  {
  }

  /** How many prices a trim keeps, and how many make it trim. */
  function KeepCount(maxBlocks: usize): usize {
    SatMulUsize(maxBlocks, 100)
  }

  function TrimAbove(maxBlocks: usize): usize {
    SatMulUsize(maxBlocks, 200)
  }

  /** The prices after `finalize_block`. */
  function Finalized(prices: seq<u128>, maxBlocks: usize): seq<u128> {
    var sorted := Sort(PriceLeq, prices);
    if |sorted| > TrimAbove(maxBlocks)
    then sorted[|sorted| - KeepCount(maxBlocks)..]
    else sorted
  }

  lemma KeepFits(maxBlocks: usize)
    ensures KeepCount(maxBlocks) <= TrimAbove(maxBlocks)
  {
  }

  /** `percentile(p)` over the stored prices. */
  function Percentile(prices: seq<u128>, p: nat): Option<u128> {
    if prices == [] then None
    else if p == 0 then Some(prices[0])
    else if p >= 100 then Some(prices[|prices| - 1])
    else
      IndexInRange(|prices| - 1, p);
      Some(prices[PercentileIndex(|prices| - 1, p)])
  }

  function PercentileIndex(last: nat, p: nat): nat {
    Min(last * p, USIZE_MAX) / 100
  }

  datatype Step = AddPrice(price: u128) | FinalizeBlock

  /** The stored prices after a history of adds and finalizes. */
  function Stored(steps: seq<Step>, maxBlocks: usize): seq<u128> {
    if steps == [] then []
    else
      var before := Stored(steps[..|steps| - 1], maxBlocks);
      match steps[|steps| - 1]
      case AddPrice(x) => before + [x]
      case FinalizeBlock => Finalized(before, maxBlocks)
  }

  /** Every price ever added. */
  function Added(steps: seq<Step>): multiset<u128> {
    if steps == [] then multiset{}
    else
      var before := Added(steps[..|steps| - 1]);
      match steps[|steps| - 1]
      case AddPrice(x) => before + multiset{x}
      case FinalizeBlock => before
  }

  // ----- what is kept

  /** `kept` are `|kept|` largest prices of `all`. */
  ghost predicate Largest(kept: multiset<u128>, all: multiset<u128>) {
    kept <= all && forall x, y :: x in all - kept && y in kept ==> x <= y
  }

  /** The dropped prices are no larger than some `k` of the stored ones. */
  ghost predicate Dominated(stored: multiset<u128>, dropped: multiset<u128>, k: nat) {
    dropped != multiset{} ==> exists top ::
      top <= stored && |top| == k && forall x, y :: x in dropped && y in top ==> x <= y
  }

  /** The prices of `s` that are at least `d`. */
  function AtLeast(s: seq<u128>, d: u128): seq<u128> {
    if s == [] then [] else if s[0] >= d then [s[0]] + AtLeast(s[1..], d) else AtLeast(s[1..], d)
  }

  lemma {:induction false} AtLeastCounts(s: seq<u128>, d: u128)
    ensures |AtLeast(s, d)| <= |s|
    ensures forall x :: multiset(AtLeast(s, d))[x] == if x >= d then multiset(s)[x] else 0
  {
    if s != [] {
      AtLeastCounts(s[1..], d);
      assert s == [s[0]] + s[1..];
    }
  }

  lemma {:induction false} SortedTail(s: seq<u128>, i: nat)
    requires Sorted(PriceLeq, s) && i < |s|
    ensures forall j :: i <= j < |s| ==> s[i] <= s[j]
    ensures Sorted(PriceLeq, s[i..])
  {
    if i == 0 {
      assert s[0..] == s;
      forall j | 0 < j < |s| ensures s[0] <= s[j] {
        assert s[j] in s[1..];
        assert PriceLeq(s[0], s[j]);
      }
    } else {
      SortedTail(s[1..], i - 1);
      assert s[1..][i - 1..] == s[i..];
      forall j | i <= j < |s| ensures s[i] <= s[j] {
        assert s[1..][i - 1] == s[i] && s[1..][j - 1] == s[j];
      }
    }
  }

  /** In a sorted list whose first `m` prices are below `d`, fewer than the rest
      are at least `d`. */
  lemma {:induction false} FewAtLeast(s: seq<u128>, d: u128, m: nat)
    requires m <= |s| && forall i :: 0 <= i < m ==> s[i] < d
    ensures |AtLeast(s, d)| <= |s| - m
  {
    if m == 0 {
      AtLeastCounts(s, d);
    } else {
      forall i | 0 <= i < m - 1 ensures s[1..][i] < d {
        assert s[1..][i] == s[i + 1];
      }
      FewAtLeast(s[1..], d, m - 1);
    }
  }

  lemma SubMultisetSize(a: multiset<u128>, b: multiset<u128>)
    requires a <= b
    ensures |a| <= |b|
  {
    assert b == a + (b - a);
    assert |b| == |a| + |b - a|;
  }

  /** Any `top` at or above `d` fits among the prices that are at least `d`. */
  lemma TopFits(s: seq<u128>, top: multiset<u128>, d: u128)
    requires top <= multiset(s) && forall y :: y in top ==> d <= y
    ensures |top| <= |AtLeast(s, d)|
  {
    AtLeastCounts(s, d);
    forall x ensures top[x] <= multiset(AtLeast(s, d))[x] {
      if x in top {
        assert top[x] <= multiset(s)[x];
      }
    }
    SubMultisetSize(top, multiset(AtLeast(s, d)));
    assert |multiset(AtLeast(s, d))| == |AtLeast(s, d)|;
  }

  /** The `k` largest of the stored prices still dominate what was dropped before. */
  lemma TrimDominates(s: seq<u128>, top: multiset<u128>, d: u128, k: nat)
    requires Sorted(PriceLeq, s) && 0 < k <= |s|
    requires top <= multiset(s) && |top| == k && forall y :: y in top ==> d <= y
    ensures d <= s[|s| - k]
  {
    var m := |s| - k;
    TopFits(s, top, d);
    if s[m] < d {
      forall i | 0 <= i <= m ensures s[i] < d {
        SortedTail(s, i);
      }
      FewAtLeast(s, d, m + 1);
    }
  }

  lemma SuffixAbove(s: seq<u128>, m: nat)
    requires Sorted(PriceLeq, s) && m < |s|
    ensures forall y :: y in multiset(s[m..]) ==> s[m] <= y
  {
    hide Sorted;
    SortedTail(s, m);
    var kept := s[m..];
    forall y | y in multiset(kept) ensures s[m] <= y {
      assert y in kept;
    }
  }

  lemma PrefixBelow(s: seq<u128>, m: nat)
    requires Sorted(PriceLeq, s) && m < |s|
    ensures forall x :: x in multiset(s[..m]) ==> x <= s[m]
  {
    hide Sorted;
    var low := s[..m];
    forall x | x in multiset(low) ensures x <= s[m] {
      var i :| 0 <= i < |low| && low[i] == x;
      SortedTail(s, i);
    }
  }

  /** A sorted list cut at `m`. */
  lemma SortedSplit(s: seq<u128>, m: nat)
    requires Sorted(PriceLeq, s) && m < |s|
    ensures forall y :: y in multiset(s[m..]) ==> s[m] <= y
    ensures forall x :: x in multiset(s[..m]) ==> x <= s[m]
    ensures multiset(s) == multiset(s[..m]) + multiset(s[m..])
  {
    hide Sorted;
    SuffixAbove(s, m);
    PrefixBelow(s, m);
    assert s == s[..m] + s[m..];
  }

  /** What was dropped before stays below the cut. */
  lemma DroppedBelow(s: seq<u128>, dropped: multiset<u128>, k: nat)
    requires Sorted(PriceLeq, s) && 0 < k <= |s| && Dominated(multiset(s), dropped, k)
    ensures forall d :: d in dropped ==> d <= s[|s| - k]
  {
    forall d | d in dropped ensures d <= s[|s| - k] {
      var top :| top <= multiset(s) && |top| == k && forall x, y :: x in dropped && y in top ==> x <= y;
      TrimDominates(s, top, d, k);
    }
  }

  lemma SortPrices(prices: seq<u128>)
    ensures Sorted(PriceLeq, Sort(PriceLeq, prices))
    ensures multiset(Sort(PriceLeq, prices)) == multiset(prices)
    ensures |Sort(PriceLeq, prices)| == |prices|
  {
    hide Sorted, Sort;
    PriceLeqIsTotalPreorder();
    SortIsStableSort(PriceLeq, prices);
    SameSize(Sort(PriceLeq, prices), prices);
  }

  lemma SameSize(s: seq<u128>, prices: seq<u128>)
    requires multiset(s) == multiset(prices)
    ensures |s| == |prices|
  {
    assert |multiset(s)| == |s| && |multiset(prices)| == |prices|;
  }

  lemma FinalizedSorts(prices: seq<u128>, maxBlocks: usize)
    ensures Sorted(PriceLeq, Finalized(prices, maxBlocks))
    ensures |prices| <= TrimAbove(maxBlocks) ==> multiset(Finalized(prices, maxBlocks)) == multiset(prices)
    ensures |prices| > TrimAbove(maxBlocks) ==> |Finalized(prices, maxBlocks)| == KeepCount(maxBlocks)
    ensures |Finalized(prices, maxBlocks)| <= TrimAbove(maxBlocks)
  {
    hide Sort;
    SortPrices(prices);
    var s := Sort(PriceLeq, prices);
    if |s| > TrimAbove(maxBlocks) && KeepCount(maxBlocks) > 0 {
      SortedTail(s, |s| - KeepCount(maxBlocks));
    }
  }

  /** One trim: what it drops, new and old, is below everything it keeps. */
  lemma TrimKeepsLargest(prices: seq<u128>, dropped: multiset<u128>, maxBlocks: usize)
    requires maxBlocks >= 1 && Dominated(multiset(prices), dropped, KeepCount(maxBlocks))
    requires |prices| > TrimAbove(maxBlocks)
    ensures multiset(Finalized(prices, maxBlocks)) <= multiset(prices)
    ensures Largest(multiset(Finalized(prices, maxBlocks)), multiset(prices) + dropped)
  {
    hide Sort, Sorted, Dominated, Largest;
    SortPrices(prices);
    CutKeepsLargest(Sort(PriceLeq, prices), dropped, KeepCount(maxBlocks));
  }

  lemma CutKeepsLargest(s: seq<u128>, dropped: multiset<u128>, k: nat)
    requires Sorted(PriceLeq, s) && 0 < k <= |s| && Dominated(multiset(s), dropped, k)
    ensures multiset(s[|s| - k..]) <= multiset(s)
    ensures Largest(multiset(s[|s| - k..]), multiset(s) + dropped)
  {
    hide Sorted, Dominated, Largest;
    var m := |s| - k;
    SortedSplit(s, m);
    DroppedBelow(s, dropped, k);
    var low, kept := multiset(s[..m]), multiset(s[m..]);
    LargestOf(kept, low + dropped, s[m]);
    assert multiset(s) + dropped == kept + (low + dropped);
  }

  lemma LargestOf(kept: multiset<u128>, rest: multiset<u128>, bar: u128)
    requires forall y :: y in kept ==> bar <= y
    requires forall x :: x in rest ==> x <= bar
    ensures Largest(kept, kept + rest)
  {
    assert kept + rest - kept == rest;
  }

  lemma AfterStep(steps: seq<Step>, step: Step, maxBlocks: usize)
    ensures Stored(steps + [step], maxBlocks) == match step
      case AddPrice(x) => Stored(steps, maxBlocks) + [x]
      case FinalizeBlock => Finalized(Stored(steps, maxBlocks), maxBlocks)
    ensures Added(steps + [step]) == match step
      case AddPrice(x) => Added(steps) + multiset{x}
      case FinalizeBlock => Added(steps)
  {
    hide Finalized;
    assert (steps + [step])[..|steps|] == steps;
  }

  /** The stored prices are among those added, and dominate the others. */
  ghost predicate Keeps(stored: multiset<u128>, added: multiset<u128>, k: nat) {
    stored <= added && Dominated(stored, added - stored, k)
  }

  lemma AddKeeps(stored: multiset<u128>, added: multiset<u128>, x: u128, k: nat)
    requires Keeps(stored, added, k)
    ensures Keeps(stored + multiset{x}, added + multiset{x}, k)
  {
    hide Dominated;
    assert added + multiset{x} - (stored + multiset{x}) == added - stored;
    AddKeepsDominated(stored, x, added - stored, k);
  }

  lemma FinalizeKeeps(prices: seq<u128>, added: multiset<u128>, maxBlocks: usize)
    requires maxBlocks >= 1 && Keeps(multiset(prices), added, KeepCount(maxBlocks))
    ensures Keeps(multiset(Finalized(prices, maxBlocks)), added, KeepCount(maxBlocks))
  {
    hide Dominated, Finalized, Sorted, Largest;
    FinalizedSorts(prices, maxBlocks);
    if |prices| > TrimAbove(maxBlocks) {
      TrimKeepsLargest(prices, added - multiset(prices), maxBlocks);
      assert multiset(prices) + (added - multiset(prices)) == added;
      var kept := Finalized(prices, maxBlocks);
      assert |multiset(kept)| == |kept|;
      LargestDominates(multiset(kept), added, KeepCount(maxBlocks));
    }
  }

  /** The invariant of every history. */
  lemma {:induction false} HistoryDominates(steps: seq<Step>, maxBlocks: usize)
    requires maxBlocks >= 1
    ensures Keeps(multiset(Stored(steps, maxBlocks)), Added(steps), KeepCount(maxBlocks))
  {
    if steps != [] {
      var init, step := steps[..|steps| - 1], steps[|steps| - 1];
      assert steps == init + [step];
      hide Stored, Added, Keeps, Finalized, KeepCount;
      AfterStep(init, step, maxBlocks);
      HistoryDominates(init, maxBlocks);
      var before, all := Stored(init, maxBlocks), Added(init);
      match step
      case AddPrice(x) =>
        AddKeeps(multiset(before), all, x, KeepCount(maxBlocks));
        assert multiset(before + [x]) == multiset(before) + multiset{x};
      case FinalizeBlock => FinalizeKeeps(before, all, maxBlocks);
    }
  }

  lemma AddKeepsDominated(stored: multiset<u128>, x: u128, dropped: multiset<u128>, k: nat)
    requires Dominated(stored, dropped, k)
    ensures Dominated(stored + multiset{x}, dropped, k)
  {
    if dropped != multiset{} {
      var top :| top <= stored && |top| == k && forall a, b :: a in dropped && b in top ==> a <= b;
      assert top <= stored + multiset{x};
    }
  }

  lemma LargestDominates(kept: multiset<u128>, all: multiset<u128>, k: nat)
    requires Largest(kept, all) && |kept| == k
    ensures Dominated(kept, all - kept, k)
  {
    assert kept <= kept;
  }

  // ----- the theorems

  /** After any history, a finalize that trims leaves exactly as many of the
      largest prices ever added as it keeps, however old they are. */
  lemma TrimLeavesLargestEver(steps: seq<Step>, maxBlocks: usize)
    requires maxBlocks >= 1 && |Stored(steps, maxBlocks)| > TrimAbove(maxBlocks)
    ensures var kept := Stored(steps + [FinalizeBlock], maxBlocks);
            |kept| == KeepCount(maxBlocks) && Largest(multiset(kept), Added(steps))
  {
    var all := steps + [FinalizeBlock];
    assert all[..|all| - 1] == steps;
    var before := Stored(steps, maxBlocks);
    HistoryDominates(steps, maxBlocks);
    FinalizedSorts(before, maxBlocks);
    TrimKeepsLargest(before, Added(steps) - multiset(before), maxBlocks);
    assert multiset(before) + (Added(steps) - multiset(before)) == Added(steps);
  }

  /** Right after a finalize the stored prices are sorted and bounded, the top
      percentile is the largest price ever added, and percentiles are monotone. */
  lemma PercentilesAfterFinalize(steps: seq<Step>, maxBlocks: usize, p: nat, q: nat)
    requires maxBlocks >= 1 && p <= q && Added(steps) != multiset{}
    ensures var stored := Stored(steps + [FinalizeBlock], maxBlocks);
      && 0 < |stored| <= TrimAbove(maxBlocks)
      && Percentile(stored, 100).value in Added(steps)
      && (forall x :: x in Added(steps) ==> x <= Percentile(stored, 100).value)
      && Percentile(stored, p).value <= Percentile(stored, q).value
  {
    var all := steps + [FinalizeBlock];
    assert all[..|all| - 1] == steps;
    var stored := Stored(all, maxBlocks);
    assert Added(all) == Added(steps);
    HistoryDominates(all, maxBlocks);
    FinalizedSorts(Stored(steps, maxBlocks), maxBlocks);
    assert stored == Finalized(Stored(steps, maxBlocks), maxBlocks);
    TopIsMaximum(stored, Added(steps), KeepCount(maxBlocks));
    MonotoneOnSorted(stored, p, q);
  }

  lemma TopIsMaximum(stored: seq<u128>, all: multiset<u128>, k: nat)
    requires k >= 1 && Sorted(PriceLeq, stored) && all != multiset{}
    requires multiset(stored) <= all && Dominated(multiset(stored), all - multiset(stored), k)
    ensures stored != [] && stored[|stored| - 1] in all
    ensures forall x :: x in all ==> x <= stored[|stored| - 1]
  {
    NonEmptyStays(multiset(stored), all, k);
    var last := stored[|stored| - 1];
    assert last in multiset(stored);
    forall y | y in multiset(stored) ensures y <= last {
      var i :| 0 <= i < |stored| && stored[i] == y;
      SortedTail(stored, i);
    }
    forall x | x in all ensures x <= last {
      BelowLast(multiset(stored), all, k, x, last);
    }
  }

  lemma NonEmptyStays(stored: multiset<u128>, all: multiset<u128>, k: nat)
    requires k >= 1 && stored <= all && Dominated(stored, all - stored, k) && all != multiset{}
    ensures stored != multiset{}
  {
    if all - stored != multiset{} {
      var top :| top <= stored && |top| == k && forall a, b :: a in all - stored && b in top ==> a <= b;
      SubMultisetSize(top, stored);
    } else {
      assert all == stored + (all - stored);
    }
  }

  lemma BelowLast(stored: multiset<u128>, all: multiset<u128>, k: nat, x: u128, last: u128)
    requires k >= 1 && stored <= all && Dominated(stored, all - stored, k) && x in all
    requires forall y :: y in stored ==> y <= last
    ensures x <= last
  {
    if x !in stored {
      assert x in all - stored;
      var top :| top <= stored && |top| == k && forall a, b :: a in all - stored && b in top ==> a <= b;
      assert top != multiset{};
      var t :| t in top;
      assert t in stored;
    }
  }

  lemma MonotoneOnSorted(s: seq<u128>, p: nat, q: nat)
    requires s != [] && Sorted(PriceLeq, s) && p <= q
    ensures Percentile(s, p).value <= Percentile(s, q).value
  {
    var i := if p >= 100 then |s| - 1 else PercentileIndex(|s| - 1, p);
    IndexInRange(|s| - 1, p);
    IndexInRange(|s| - 1, q);
    IndexMonotone(|s| - 1, p, q);
    SortedTail(s, i);
  }

  // ----- what a percentile means

  function CountAtMost(s: seq<u128>, v: u128): nat {
    if s == [] then 0 else CountAtMost(s[..|s| - 1], v) + if s[|s| - 1] <= v then 1 else 0
  }

  function CountBelow(s: seq<u128>, v: u128): nat {
    if s == [] then 0 else CountBelow(s[..|s| - 1], v) + if s[|s| - 1] < v then 1 else 0
  }

  lemma {:induction false} SortedCounts(s: seq<u128>, k: nat, v: u128)
    requires k <= |s| && (forall i :: 0 <= i < k ==> s[i] <= v) && (forall i :: k <= i < |s| ==> s[i] >= v)
    ensures CountAtMost(s, v) >= k && CountBelow(s, v) <= k
  {
    if s != [] {
      SortedCounts(s[..|s| - 1], if k == |s| then k - 1 else k, v);
    }
  }

  /** Percentile `p` of the stored prices, sorted: more than `p` percent of the others
      lie at or below it, and no more than `p` percent below it. */
  lemma PercentileRank(s: seq<u128>, p: nat)
    requires s != [] && Sorted(PriceLeq, s) && p <= 100 && (|s| - 1) * p <= USIZE_MAX
    ensures var v := Percentile(s, p).value;
            100 * CountBelow(s, v) <= (|s| - 1) * p < 100 * CountAtMost(s, v)
  {
    var n := |s| - 1;
    var i := if p == 0 then 0 else if p == 100 then n else PercentileIndex(n, p);
    IndexInRange(n, p);
    assert 100 * i <= n * p < 100 * (i + 1) by {
      if p == 0 {
        assert n * p == 0;
      }
    }
    SortedTail(s, i);
    assert s[i] == Percentile(s, p).value;
    forall k | 0 <= k < i ensures s[k] <= s[i] {
      SortedTail(s, k);
    }
    SortedCounts(s, i + 1, s[i]);
    SortedCounts(s, i, s[i]);
  }

  lemma IndexInRange(n: nat, p: nat)
    ensures p < 100 ==> PercentileIndex(n, p) <= n
    ensures PercentileIndex(n, 0) == 0
  {
    assert n * 0 == 0;
    if p < 100 {
      ProductGrows(n, p, 100);
      HundredthBounded(n * p, n);
    }
  }

  lemma IndexMonotone(n: nat, p: nat, q: nat)
    requires p <= q
    ensures PercentileIndex(n, p) <= PercentileIndex(n, q)
  {
    ProductGrows(n, p, q);
    HundredthGrows(n * p, n * q);
  }

  lemma ProductGrows(n: nat, p: nat, q: nat)
    requires p <= q
    ensures n * p <= n * q
  {
    assert n * q == n * p + n * (q - p);
  }

  lemma HundredthBounded(x: nat, n: nat)
    requires x <= n * 100
    ensures Min(x, USIZE_MAX) / 100 <= n
  {
  }

  lemma HundredthGrows(x: nat, y: nat)
    requires x <= y
    ensures Min(x, USIZE_MAX) / 100 <= Min(y, USIZE_MAX) / 100
  {
  }

  // ----- the class

  class GasPriceDistribution {
    const maxBlocks: usize
    var prices: seq<u128>
    var baseFees: seq<(u128, real)>
    ghost var steps: seq<Step>
    ghost var allFees: seq<(u128, real)>

    /** The stored prices are what the history of calls leaves; the base fees are
        the latest `maxBlocks` recorded. */
    ghost predicate Valid()
      reads this
    {
      && maxBlocks >= 10
      && prices == Stored(steps, maxBlocks)
      && baseFees == (if |allFees| <= maxBlocks then allFees else allFees[|allFees| - maxBlocks..])
    }

    constructor (maxBlocks: usize)
      ensures Valid() && steps == [] && allFees == [] && this.maxBlocks == Max(maxBlocks, 10)
    {
      this.maxBlocks := Max(maxBlocks, 10);
      prices, baseFees, steps, allFees := [], [], [], [];
    }

    method AddTxGasPrice(price: u128)
      requires Valid()
      modifies this
      ensures Valid() && steps == old(steps) + [AddPrice(price)] && allFees == old(allFees)
    {
      hide Stored;
      AfterStep(steps, AddPrice(price), maxBlocks);
      prices := prices + [price];
      steps := steps + [AddPrice(price)];
    }

    method RecordBlock(baseFee: u128, gasUsed: u64, gasLimit: u64)
      requires Valid()
      modifies this
      ensures Valid() && steps == old(steps)
      ensures allFees == old(allFees) + [(baseFee, if gasLimit > 0 then gasUsed as real / gasLimit as real else 0.5)]
    {
      hide Stored;
      var ratio := if gasLimit > 0 then gasUsed as real / gasLimit as real else 0.5;
      baseFees := baseFees + [(baseFee, ratio)];
      allFees := allFees + [(baseFee, ratio)];
      while |baseFees| > maxBlocks
        invariant prices == old(prices) && steps == old(steps) && allFees == old(allFees) + [(baseFee, ratio)]
        invariant maxBlocks <= |baseFees| <= |allFees| || baseFees == allFees
        invariant |baseFees| <= |allFees| && baseFees == allFees[|allFees| - |baseFees|..]
        decreases |baseFees|
      {
        baseFees := baseFees[1..];
      }
    }

    method FinalizeBlock()
      requires Valid()
      modifies this
      ensures Valid() && steps == old(steps) + [Step.FinalizeBlock] && allFees == old(allFees)
    {
      hide Sort, Sorted, Stored, KeepCount, TrimAbove;
      AfterStep(steps, Step.FinalizeBlock, maxBlocks);
      KeepFits(maxBlocks);
      prices := Sort(PriceLeq, prices);
      if |prices| > TrimAbove(maxBlocks) {
        var keep := |prices| - KeepCount(maxBlocks);
        prices := prices[keep..];
      }
      steps := steps + [Step.FinalizeBlock];
    }

    method PercentileOf(p: nat) returns (r: Option<u128>)
      requires Valid() && p < 256
      ensures r == Percentile(Stored(steps, maxBlocks), p)
    {
      if prices == [] {
        return None;
      }
      var q := Min(p, 100);
      if q == 0 {
        return Some(prices[0]);
      }
      if q >= 100 {
        return Some(prices[|prices| - 1]);
      }
      IndexInRange(|prices| - 1, q);
      var idx := PercentileIndex(|prices| - 1, q);
      r := Some(prices[idx]);
    }
  }

  /** A finalize leaves the prices alone up to two hundred a block, and keeps the
      hundred a block that are the largest ever added when there are more. */
  lemma FinalizeTrimsToAHundredABlock(steps: seq<Step>, maxBlocks: usize)
    requires 1 <= maxBlocks && 200 * maxBlocks <= USIZE_MAX
    ensures var before, after := Stored(steps, maxBlocks), Stored(steps + [FinalizeBlock], maxBlocks);
      if |before| <= 200 * maxBlocks then multiset(after) == multiset(before)
      else |after| == 100 * maxBlocks && Largest(multiset(after), Added(steps))
  {
    var all := steps + [FinalizeBlock];
    assert all[..|all| - 1] == steps;
    FinalizedSorts(Stored(steps, maxBlocks), maxBlocks);
    if |Stored(steps, maxBlocks)| > TrimAbove(maxBlocks) {
      TrimLeavesLargestEver(steps, maxBlocks);
    }
  }
}
