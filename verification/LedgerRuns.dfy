/** What holds over whole runs of the ledger: continuing a run equals redoing
    it, the input order does not matter, and who wins between rivals. */
module LedgerRuns {
  import opened RustInts
  import opened PaperTypes
  import opened StableSort
  import opened OrderedGroups
  import opened LedgerOrder
  import opened Ledger
  import opened DisjointChoice
  import opened Sequences

  // ----- recomputing equals continuing

  lemma {:induction false} RunBlocksInTwo(p: LedgerPolicy, g: seq<Group<Opportunity>>, h: seq<Group<Opportunity>>,
                                          t: Tally)
    ensures RunBlocks(p, g + h, t) == RunBlocks(p, h, RunBlocks(p, g, t))
  {
    hide RunBlock;
    if g == [] {
      assert g + h == h;
    } else {
      assert (g + h)[0] == g[0] && (g + h)[1..] == g[1..] + h;
      RunBlocksInTwo(p, g[1..], h, RunBlock(p, g[0].items, t));
    }
  }

  lemma {:induction false} BlockOnlyAppends(p: LedgerPolicy, opps: seq<Opportunity>, s: BlockState)
    ensures s.tally.fills <= ConsiderAll(p, opps, s).tally.fills
    ensures s.tally.skips <= ConsiderAll(p, opps, s).tally.skips
  {
    hide Gate, PoolsOf, NetWei, IdentOf;
    if opps != [] {
      BlockOnlyAppends(p, opps[1..], Consider(p, opps[0], s));
    }
  }

  lemma {:induction false} RunOnlyAppends(p: LedgerPolicy, groups: seq<Group<Opportunity>>, t: Tally)
    ensures t.fills <= RunBlocks(p, groups, t).fills
    ensures t.skips <= RunBlocks(p, groups, t).skips
  {
    hide Consider, SortOpps;
    if groups != [] {
      BlockOnlyAppends(p, SortOpps(groups[0].items), BlockState(t, {}, 0));
      RunOnlyAppends(p, groups[1..], RunBlock(p, groups[0].items, t));
    }
  }

  /** When every block of `a` is below every block of `b`, applying the ledger
      to both is running `b` from where `a` ended; so what `a` booked and
      skipped comes first and is final. */
  lemma RecomputingIsContinuing(p: LedgerPolicy, a: seq<Opportunity>, b: seq<Opportunity>)
    requires KeysPrecede(BlockOf, a, b)
    ensures FinalTally(p, a + b) == RunBlocks(p, ByBlock(b), FinalTally(p, a))
    ensures ApplyResult(p, a).fills <= ApplyResult(p, a + b).fills
    ensures ApplyResult(p, a).skips <= ApplyResult(p, a + b).skips
  {
    hide RunBlocks, Grouped;
    GroupedOfLaterKeys(BlockOf, a, b);
    RunBlocksInTwo(p, ByBlock(a), ByBlock(b), Start(p));
    RunOnlyAppends(p, ByBlock(b), FinalTally(p, a));
  }

  // ----- the past does not depend on the future

  /** The fills of blocks below `b`. */
  function FillsBelow(fills: seq<PaperFill>, b: int): seq<PaperFill> {
    if fills == [] then []
    else
      var before := FillsBelow(Init(fills), b);
      if Last(fills).id.block < b then before + [Last(fills)] else before
  }

  function SkipsBelow(skips: seq<PaperSkip>, b: int): seq<PaperSkip> {
    if skips == [] then []
    else
      var before := SkipsBelow(Init(skips), b);
      if Last(skips).id.block < b then before + [Last(skips)] else before
  }

  lemma {:induction false} FillsBelowCut(fills: seq<PaperFill>, n: nat, b: int)
    requires n <= |fills|
    requires forall i :: 0 <= i < n ==> fills[i].id.block < b
    requires forall i :: n <= i < |fills| ==> fills[i].id.block >= b
    ensures FillsBelow(fills, b) == fills[..n]
  {
    if fills != [] {
      var init, last := Init(fills), Last(fills);
      assert fills == init + [last];
      assert FillsBelow(fills, b) == FillsBelow(init, b) + if last.id.block < b then [last] else [];
      hide FillsBelow;
      if n < |fills| {
        FillsBelowCut(init, n, b);
        assert init[..n] == fills[..n];
      } else {
        FillsBelowCut(init, n - 1, b);
        assert init[..n - 1] == init && fills[..n] == fills;
      }
    }
  }

  lemma {:induction false} SkipsBelowCut(skips: seq<PaperSkip>, n: nat, b: int)
    requires n <= |skips|
    requires forall i :: 0 <= i < n ==> skips[i].id.block < b
    requires forall i :: n <= i < |skips| ==> skips[i].id.block >= b
    ensures SkipsBelow(skips, b) == skips[..n]
  {
    if skips != [] {
      var init, last := Init(skips), Last(skips);
      assert skips == init + [last];
      assert SkipsBelow(skips, b) == SkipsBelow(init, b) + if last.id.block < b then [last] else [];
      hide SkipsBelow;
      if n < |skips| {
        SkipsBelowCut(init, n, b);
        assert init[..n] == skips[..n];
      } else {
        SkipsBelowCut(init, n - 1, b);
        assert init[..n - 1] == init && skips[..n] == skips;
      }
    }
  }

  /** The outcomes that a run adds to `t` all lie in `[lo, hi)`. */
  ghost predicate AddsWithin(t: Tally, r: Tally, lo: int, hi: int) {
    && t.fills <= r.fills && t.skips <= r.skips
    && (forall i :: |t.fills| <= i < |r.fills| ==> lo <= r.fills[i].id.block < hi)
    && (forall i :: |t.skips| <= i < |r.skips| ==> lo <= r.skips[i].id.block < hi)
  }

  lemma {:induction false} BlockAddsWithin(p: LedgerPolicy, opps: seq<Opportunity>, s: BlockState, lo: int, hi: int)
    requires forall x :: x in opps ==> lo <= BlockOf(x) < hi
    ensures AddsWithin(s.tally, ConsiderAll(p, opps, s).tally, lo, hi)
  {
    hide Gate, PoolsOf, NetWei;
    if opps != [] {
      assert opps[0] in opps;
      BlockAddsWithin(p, opps[1..], Consider(p, opps[0], s), lo, hi);
    }
  }

  lemma {:induction false} RunAddsWithin(p: LedgerPolicy, groups: seq<Group<Opportunity>>, t: Tally, lo: int, hi: int)
    requires forall x :: x in Flatten(groups) ==> lo <= BlockOf(x) < hi
    ensures AddsWithin(t, RunBlocks(p, groups, t), lo, hi)
  {
    hide Consider, SortOpps;
    if groups != [] {
      var items := groups[0].items;
      SortOppsSorts(items);
      forall x | x in SortOpps(items) ensures x in items {
        assert x in multiset(SortOpps(items));
      }
      BlockAddsWithin(p, SortOpps(items), BlockState(t, {}, 0), lo, hi);
      RunAddsWithin(p, groups[1..], RunBlock(p, items, t), lo, hi);
    }
  }

  lemma GroupsWithin(opps: seq<Opportunity>, lo: int, hi: int)
    requires forall x :: x in opps ==> lo <= BlockOf(x) < hi
    ensures forall x :: x in Flatten(ByBlock(opps)) ==> lo <= BlockOf(x) < hi
  {
    GroupedKeepsItems(BlockOf, opps);
    forall x | x in Flatten(ByBlock(opps)) ensures x in opps {
      assert x in multiset(Flatten(ByBlock(opps)));
    }
  }

  /** For any input in any order and any block: what the ledger fills and skips
      below the block is what it would from the opportunities below it alone,
      and it goes on from there. */
  lemma LedgerIsCausal(p: LedgerPolicy, opps: seq<Opportunity>, b: int)
    ensures var past, all := ApplyResult(p, Below(BlockOf, opps, b)), ApplyResult(p, opps);
      && FinalTally(p, opps) == RunBlocks(p, ByBlock(From(BlockOf, opps, b)), FinalTally(p, Below(BlockOf, opps, b)))
      && past.fills <= all.fills && past.skips <= all.skips
      && FillsBelow(all.fills, b) == past.fills && SkipsBelow(all.skips, b) == past.skips
  {
    hide RunBlocks, Grouped, Below, From, FillsBelow, SkipsBelow;
    var low, high := Below(BlockOf, opps, b), From(BlockOf, opps, b);
    CutMeaning(BlockOf, opps, b);
    GroupedSplits(BlockOf, opps, b);
    RunBlocksInTwo(p, ByBlock(low), ByBlock(high), Start(p));
    GroupsWithin(low, 0, b);
    GroupsWithin(high, b, U64_MAX + 1);
    RunAddsWithin(p, ByBlock(low), Start(p), 0, b);
    RunAddsWithin(p, ByBlock(high), FinalTally(p, low), b, U64_MAX + 1);
    FillsBelowCut(ApplyResult(p, opps).fills, |ApplyResult(p, low).fills|, b);
    SkipsBelowCut(ApplyResult(p, opps).skips, |ApplyResult(p, low).skips|, b);
  }

  /** Whatever is added at or above a block, reported outcomes below it stay. */
  lemma AddingLaterKeepsThePast(p: LedgerPolicy, opps: seq<Opportunity>, more: seq<Opportunity>, b: int)
    requires forall x :: x in more ==> BlockOf(x) >= b
    ensures FillsBelow(ApplyResult(p, opps + more).fills, b) == FillsBelow(ApplyResult(p, opps).fills, b)
    ensures SkipsBelow(ApplyResult(p, opps + more).skips, b) == SkipsBelow(ApplyResult(p, opps).skips, b)
  {
    hide ApplyResult, FinalTally, Below, FillsBelow, SkipsBelow;
    LedgerIsCausal(p, opps, b);
    LedgerIsCausal(p, opps + more, b);
    BelowIgnoresLater(BlockOf, opps, more, b);
  }

  // ----- the input order does not matter

  /** No two different candidates of one block share a sort key. */
  ghost predicate NoTiesInBlock(opps: seq<Opportunity>) {
    forall x, y :: x in opps && y in opps && x.blockNumber == y.blockNumber && KeyOf(x) == KeyOf(y) ==> x == y
  }

  lemma {:induction false} SameGroupsSameRun(p: LedgerPolicy, g: seq<Group<Opportunity>>, h: seq<Group<Opportunity>>,
                                             t: Tally)
    requires |g| == |h|
    requires forall i :: 0 <= i < |g| ==> SortOpps(g[i].items) == SortOpps(h[i].items)
    ensures RunBlocks(p, g, t) == RunBlocks(p, h, t)
  {
    hide SortOpps, ConsiderAll;
    if g != [] {
      forall i | 0 <= i < |g[1..]| ensures SortOpps(g[1..][i].items) == SortOpps(h[1..][i].items) {
        assert g[1..][i] == g[i + 1] && h[1..][i] == h[i + 1];
      }
      SameGroupsSameRun(p, g[1..], h[1..], RunBlock(p, g[0].items, t));
    }
  }

  lemma {:induction false} BoundsMeaning(opps: seq<Opportunity>)
    ensures FirstBlock(opps).None? <==> opps == []
    ensures LastBlock(opps).None? <==> opps == []
    ensures forall x :: x in opps ==> FirstBlock(opps).value <= x.blockNumber <= LastBlock(opps).value
    ensures opps != [] ==> exists x :: x in opps && x.blockNumber == FirstBlock(opps).value
    ensures opps != [] ==> exists x :: x in opps && x.blockNumber == LastBlock(opps).value
  {
    if opps != [] {
      var init, x := opps[..|opps| - 1], opps[|opps| - 1];
      BoundsMeaning(init);
      assert x in opps;
      forall y | y in opps ensures FirstBlock(opps).value <= y.blockNumber <= LastBlock(opps).value {
        assert y in init || y == x;
      }
      if init != [] {
        var f :| f in init && f.blockNumber == FirstBlock(init).value;
        var l :| l in init && l.blockNumber == LastBlock(init).value;
        assert f in opps && l in opps;
      }
    }
  }

  /** The report repeats the policy and spans exactly the blocks of the input. */
  lemma ReportSpansInput(p: LedgerPolicy, opps: seq<Opportunity>)
    ensures var r := ApplyResult(p, opps);
      && r.startingGasWei == p.startingGasWei && r.reserveWei == p.reserveWei
      && (if opps == [] then r.startBlock.None? && r.endBlock.None?
          else r.startBlock.Some? && r.endBlock.Some?
               && (forall x :: x in opps ==> r.startBlock.value <= x.blockNumber <= r.endBlock.value)
               && (exists x :: x in opps && x.blockNumber == r.startBlock.value)
               && (exists x :: x in opps && x.blockNumber == r.endBlock.value))
  {
    hide FinalTally, FirstBlock, LastBlock;
    BoundsMeaning(opps);
  }

  lemma SameBounds(a: seq<Opportunity>, b: seq<Opportunity>)
    requires multiset(a) == multiset(b)
    ensures FirstBlock(a) == FirstBlock(b) && LastBlock(a) == LastBlock(b)
  {
    BoundsMeaning(a);
    BoundsMeaning(b);
    assert |multiset(a)| == |a| && |multiset(b)| == |b|;
    forall x ensures x in a <==> x in b {
      assert x in multiset(a) <==> x in multiset(b);
    }
  }

  /** Any permutation of the input gives the same result, ties aside. */
  lemma ApplyIgnoresInputOrder(p: LedgerPolicy, a: seq<Opportunity>, b: seq<Opportunity>)
    requires multiset(a) == multiset(b) && NoTiesInBlock(a)
    ensures ApplyResult(p, a) == ApplyResult(p, b)
  {
    hide SortOpps, ConsiderAll, KeyOf, FirstBlock, LastBlock;
    GroupedOfPermutation(BlockOf, a, b);
    forall i | 0 <= i < |ByBlock(a)| ensures SortOpps(ByBlock(a)[i].items) == SortOpps(ByBlock(b)[i].items) {
      GroupHasNoTies(a, i);
      SortOppsDependsOnMultiset(ByBlock(a)[i].items, ByBlock(b)[i].items);
    }
    SameGroupsSameRun(p, ByBlock(a), ByBlock(b), Start(p));
    SameBounds(a, b);
  }

  lemma GroupHasNoTies(opps: seq<Opportunity>, i: nat)
    requires NoTiesInBlock(opps) && i < |ByBlock(opps)|
    ensures DistinctKeys(ByBlock(opps)[i].items)
  {
    hide KeyOf;
    var g := ByBlock(opps)[i];
    GroupedIsFiled(BlockOf, opps);
    assert g in Grouped(BlockOf, opps);
    GroupCounts(BlockOf, opps, i);
    forall x | x in g.items ensures x in opps && BlockOf(x) == g.key {
      assert x in multiset(Grouped(BlockOf, opps)[i].items);
      assert x in multiset(opps);
    }
  }

  // ----- two candidates that compete

  /** Filled on its own: native, profitable and affordable from the start. */
  ghost predicate FillsAlone(p: LedgerPolicy, x: Opportunity) {
    NetWei(x) > 0 && x.gasCostWei <= SatSubU128(p.startingGasWei, p.reserveWei)
  }

  lemma GroupedPair(x: Opportunity, y: Opportunity)
    requires x.blockNumber == y.blockNumber
    ensures ByBlock([x]) == [Group(BlockOf(x), [x])]
    ensures ByBlock([x, y]) == [Group(BlockOf(x), [x, y])]
    ensures SortOpps([x]) == [x]
    ensures SortOpps([x, y]) == if KeyLeq(KeyOf(x), KeyOf(y)) then [x, y] else [y, x]
  {
    hide KeyOf, KeyLeq;
    var k := BlockOf(x);
    assert [x][..0] == [] && [x, y][..1] == [x] && [x] + [y] == [x, y];
    assert Grouped(BlockOf, [x]) == Upsert(Grouped(BlockOf, []), k, x);
    assert Grouped(BlockOf, [x, y]) == Upsert([Group(k, [x])], k, y);
    assert [Group(k, [x])][1..] == [] && [Group(k, [x, y])] + [] == [Group(k, [x, y])];
    assert Sort(OppLeq, [x]) == Insert(OppLeq, Sort(OppLeq, []), x);
    assert Sort(OppLeq, [x, y]) == Insert(OppLeq, [x], y);
    assert [x][1..] == [];
    assert Insert(OppLeq, [x], y) == if OppLeq(x, y) then [x] + Insert(OppLeq, [], y) else [y] + [x];
    assert [y] + [x] == [y, x];
  }

  lemma FirstOfPairWins(p: LedgerPolicy, x: Opportunity, y: Opportunity, t: Tally)
    requires FillsAlone(p, x) && NetWei(y) > 0 && !(PoolSet(x) !! PoolSet(y))
    requires t == Start(p)
    ensures ConsiderAll(p, [x], BlockState(t, {}, 0)).tally.fills == Book(t, x).fills
    ensures ConsiderAll(p, [x, y], BlockState(t, {}, 0)).tally.fills == Book(t, x).fills
  {
    hide PoolsOf, NetWei, IdentOf, U256ToU128;
    PoolsOfIsPoolSet(x);
    PoolsOfIsPoolSet(y);
    var q :| q in PoolSet(x) && q in PoolSet(y);
    assert q in SeqSet(PoolsOf(x)) && q in SeqSet(PoolsOf(y));
    var s1 := Consider(p, x, BlockState(t, {}, 0));
    assert s1 == BlockState(Book(t, x), {} + SeqSet(PoolsOf(x)), 1);
    assert Conflicts(y, s1.used);
    var s2 := Consider(p, y, s1);
    assert Gate(p, y, s1.tally.wallet, s1.count, s1.used).Some?;
    assert s2.tally.fills == s1.tally.fills;
    assert [x][1..] == [] && [x, y][1..] == [y] && [y][1..] == [];
    assert ConsiderAll(p, [x], BlockState(t, {}, 0)) == ConsiderAll(p, [], s1);
    assert ConsiderAll(p, [x, y], BlockState(t, {}, 0)) == ConsiderAll(p, [y], s1);
    assert ConsiderAll(p, [y], s1) == ConsiderAll(p, [], s2);
  }

  lemma PairFills(p: LedgerPolicy, x: Opportunity, y: Opportunity)
    requires FillsAlone(p, x) && FillsAlone(p, y) && !(PoolSet(x) !! PoolSet(y))
    requires x.blockNumber == y.blockNumber
    ensures ApplyResult(p, [x]).fills == Book(Start(p), x).fills
    ensures ApplyResult(p, [x, y]).fills == Book(Start(p), if KeyLeq(KeyOf(x), KeyOf(y)) then x else y).fills
  {
    hide PoolSet, KeyOf, KeyLeq, Book, Consider, ConsiderAll, SortOpps, Grouped;
    GroupedPair(x, y);
    FirstOfPairWins(p, x, y, Start(p));
    FirstOfPairWins(p, y, x, Start(p));
    RunOneGroup(p, Group(BlockOf(x), [x]));
    RunOneGroup(p, Group(BlockOf(x), [x, y]));
  }

  function IdText(x: Opportunity): string {
    if x.canonicalId.Some? then x.canonicalId.value else ""
  }

  lemma BeforeIsStrict(a: string)
    ensures !ByteBefore(a, a)
  {
  }

  /** Of two rivals for a pool in one block the higher net is filled, whichever
      comes first in the input; equal nets go to the one anchored to a
      transaction, then to the lower transaction index, then to the smaller id, byte
      by byte, none counting as the empty one. */
  lemma RivalsAreDecidedByKey(p: LedgerPolicy, x: Opportunity, y: Opportunity)
    requires FillsAlone(p, x) && FillsAlone(p, y) && !(PoolSet(x) !! PoolSet(y))
    requires x.blockNumber == y.blockNumber
    requires || NetWei(x) > NetWei(y)
             || (NetWei(x) == NetWei(y) && !x.mempoolOnly && y.mempoolOnly)
             || (NetWei(x) == NetWei(y) && x.mempoolOnly == y.mempoolOnly && x.txIndex < y.txIndex)
             || (NetWei(x) == NetWei(y) && x.mempoolOnly == y.mempoolOnly && x.txIndex == y.txIndex
                 && ByteBefore(IdText(x), IdText(y)))
    ensures ApplyResult(p, [x, y]).fills == Book(Start(p), x).fills
    ensures ApplyResult(p, [y, x]).fills == Book(Start(p), x).fills
  {
    hide PoolSet, ConsiderAll, SortOpps, Grouped, Book, FillsAlone, NetWei, ByteBefore;
    PairFills(p, x, y);
    PairFills(p, y, x);
    StringLeqIsByteOrder(IdText(x), IdText(y));
    StringLeqIsByteOrder(IdText(y), IdText(x));
    StringLeqTotal(IdText(x), IdText(y));
    BeforeIsStrict(IdText(x));
  }

  lemma RunOneGroup(p: LedgerPolicy, g: Group<Opportunity>)
    ensures RunBlocks(p, [g], Start(p)) == ConsiderAll(p, SortOpps(g.items), BlockState(Start(p), {}, 0)).tally
  {
    hide ConsiderAll, SortOpps;
    assert [g][1..] == [];
    assert RunBlocks(p, [g], Start(p)) == RunBlocks(p, [], RunBlock(p, g.items, Start(p)));
  }

  /** Blocks must not be shared: a later pass that adds a better rival for a
      pool in an already reported block takes the earlier fill back. */
  lemma SharedBlockRevisesFills(p: LedgerPolicy, x: Opportunity, y: Opportunity)
    requires FillsAlone(p, x) && FillsAlone(p, y) && !(PoolSet(x) !! PoolSet(y))
    requires x.blockNumber == y.blockNumber && NetWei(x) < NetWei(y)
    ensures !(ApplyResult(p, [x]).fills <= ApplyResult(p, [x] + [y]).fills)
  {
    hide PoolSet, ConsiderAll, SortOpps, Grouped;
    PairFills(p, x, y);
    assert [x] + [y] == [x, y];
    assert ApplyResult(p, [x]).fills[0].netWei == NetWei(x);
    assert ApplyResult(p, [x, y]).fills[0].netWei == NetWei(y);
  }

  /** Ties are decided by input order, so distinct keys are needed. */
  lemma TieGoesToTheFirst(p: LedgerPolicy, x: Opportunity, y: Opportunity)
    requires FillsAlone(p, x) && FillsAlone(p, y) && !(PoolSet(x) !! PoolSet(y))
    requires x.blockNumber == y.blockNumber && KeyOf(x) == KeyOf(y)
    ensures ApplyResult(p, [x, y]).fills == Book(Start(p), x).fills
    ensures ApplyResult(p, [y, x]).fills == Book(Start(p), y).fills
  {
    hide PoolSet, ConsiderAll, SortOpps, Grouped;
    PairFills(p, x, y);
    PairFills(p, y, x);
    KeyLeqTotal(KeyOf(x), KeyOf(y));
  }
}
