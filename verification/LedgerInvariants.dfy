/** What every run of `Apply` keeps: the wallet chain, the gates on each fill,
    disjoint pools and the cap per block, the totals, and one outcome for every
    opportunity. */
module LedgerInvariants {
  import opened RustInts
  import opened PaperTypes
  import opened OrderedGroups
  import opened LedgerOrder
  import opened Ledger
  import opened DisjointChoice
  import opened Multisets
  import opened FillSums
  import opened Sequences

  // ----- money

  /** Each fill starts from the wallet the previous one left. */
  ghost predicate Chained(start: int, fills: seq<PaperFill>, end: int) {
    if fills == [] then end == start
    else Last(fills).walletAfter == end && Chained(start, Init(fills), Last(fills).walletBefore)
  }

  /** A fill that passed its gates and was credited once. */
  ghost predicate SoundFill(p: LedgerPolicy, f: PaperFill) {
    && f.netWei > 0
    && f.gasWei <= SatSubU128(f.walletBefore, p.reserveWei)
    && f.walletAfter == Min(f.walletBefore + f.netWei, U128_MAX)
    && (f.netWei == f.grossWei - f.gasWei <==> -TWO_127 <= f.grossWei - f.gasWei < TWO_127)
  }

  ghost predicate Steady(p: LedgerPolicy, t: Tally) {
    && (forall f :: f in t.fills ==> SoundFill(p, f))
    && BestOf(t.fills, t.best)
    && Chained(p.startingGasWei, t.fills, t.wallet)
    && t.peak == t.wallet && t.maxDrawdown == 0
    && t.wallet == Min(p.startingGasWei + NetSum(t.fills), U128_MAX)
    && t.gross == Min(GrossSum(t.fills), U128_MAX)
    && t.gas == Min(GasSum(t.fills), U128_MAX)
    && NetSum(t.fills) >= 0
    && (NetSum(t.fills) < TWO_127 ==> t.net == NetSum(t.fills))
  }

  lemma ChainedAppend(fills: seq<PaperFill>, f: PaperFill)
    ensures forall start :: Chained(start, fills + [f], f.walletAfter) <==> Chained(start, fills, f.walletBefore)
  {
    assert Init(fills + [f]) == fills && Last(fills + [f]) == f;
  }

  lemma BookIsSound(p: LedgerPolicy, t: Tally, opp: Opportunity)
    requires NetWei(opp) > 0 && opp.gasCostWei <= SatSubU128(t.wallet, p.reserveWei)
    ensures Book(t, opp).fills == t.fills + [Last(Book(t, opp).fills)]
    ensures SoundFill(p, Last(Book(t, opp).fills))
  {
    hide PoolsOf, IdentOf, WrapI128, AsI128;
  }

  lemma BookKeepsSteady(p: LedgerPolicy, t: Tally, opp: Opportunity)
    requires Steady(p, t)
    requires NetWei(opp) > 0 && opp.gasCostWei <= SatSubU128(t.wallet, p.reserveWei)
    ensures Steady(p, Book(t, opp))
  {
    hide PoolsOf, IdentOf, WrapI128, AsI128, SoundFill, Chained, GrossSum, GasSum, NetSum, U256ToU128, BestOf;
    BookIsSound(p, t, opp);
    BestSnoc(t.fills, Last(Book(t, opp).fills), t.best);
    SumsAppend(t.fills, Last(Book(t, opp).fills));
    ChainedAppend(t.fills, Last(Book(t, opp).fills));
  }

  lemma {:induction false} BlockKeepsSteady(p: LedgerPolicy, opps: seq<Opportunity>, s: BlockState)
    requires Steady(p, s.tally)
    ensures Steady(p, ConsiderAll(p, opps, s).tally)
  {
    hide Conflicts, Book, IdentOf, IsNativeEligible, NetWei;
    if opps != [] {
      if Gate(p, opps[0], s.tally.wallet, s.count, s.used).None? {
        BookKeepsSteady(p, s.tally, opps[0]);
      }
      BlockKeepsSteady(p, opps[1..], Consider(p, opps[0], s));
    }
  }

  lemma {:induction false} RunKeepsSteady(p: LedgerPolicy, groups: seq<Group<Opportunity>>, t: Tally)
    requires Steady(p, t)
    ensures Steady(p, RunBlocks(p, groups, t))
  {
    hide Steady, Consider, SortOpps;
    if groups != [] {
      BlockKeepsSteady(p, SortOpps(groups[0].items), BlockState(t, {}, 0));
      RunKeepsSteady(p, groups[1..], RunBlock(p, groups[0].items, t));
    }
  }

  // ----- pools and the cap, block by block

  /** Fills of one block touch pairwise disjoint pools. */
  ghost predicate Apart(fills: seq<PaperFill>) {
    fills != [] ==>
      && (forall f :: f in Init(fills) && f.id.block == Last(fills).id.block ==> SeqSet(f.pools) !! SeqSet(Last(fills).pools))
      && Apart(Init(fills))
  }

  function CountIn(fills: seq<PaperFill>, b: int): nat {
    if fills == [] then 0 else CountIn(Init(fills), b) + if Last(fills).id.block == b then 1 else 0
  }

  /** No fill lies beyond block `b`, and no block exceeds the cap. */
  ghost predicate Capped(p: LedgerPolicy, fills: seq<PaperFill>, b: int) {
    && Apart(fills)
    && (forall f :: f in fills ==> f.id.block <= b)
    && (forall c :: CountIn(fills, c) <= p.Cap())
  }

  ghost predicate MidBlock(p: LedgerPolicy, b: int, s: BlockState) {
    && Capped(p, s.tally.fills, b)
    && CountIn(s.tally.fills, b) == s.count
    && (forall f :: f in s.tally.fills && f.id.block == b ==> SeqSet(f.pools) <= s.used)
  }

  lemma FillKeepsMidBlock(p: LedgerPolicy, b: int, s: BlockState, opp: Opportunity)
    requires MidBlock(p, b, s) && BlockOf(opp) == b
    requires Gate(p, opp, s.tally.wallet, s.count, s.used).None?
    ensures MidBlock(p, b, Consider(p, opp, s))
  {
    hide PoolsOf, NetWei;
    var s' := Consider(p, opp, s);
    var fills, fills' := s.tally.fills, s'.tally.fills;
    assert Init(fills') == fills && Last(fills').pools == PoolsOf(opp) && Last(fills').id.block == b;
    forall q | q in SeqSet(PoolsOf(opp)) ensures q !in s.used {
    }
    forall c ensures CountIn(fills', c) <= p.Cap() {
      assert CountIn(fills', c) == CountIn(fills, c) + if b == c then 1 else 0;
    }
    forall f | f in fills' ensures f.id.block <= b && (f.id.block == b ==> SeqSet(f.pools) <= s'.used) {
      assert f in fills || f == Last(fills');
    }
  }

  lemma {:induction false} BlockKeepsMidBlock(p: LedgerPolicy, b: int, opps: seq<Opportunity>, s: BlockState)
    requires MidBlock(p, b, s)
    requires forall x :: x in opps ==> BlockOf(x) == b
    ensures MidBlock(p, b, ConsiderAll(p, opps, s))
  {
    hide PoolsOf, NetWei, Conflicts, Book, IdentOf;
    if opps != [] {
      assert opps[0] in opps;
      if Gate(p, opps[0], s.tally.wallet, s.count, s.used).None? {
        FillKeepsMidBlock(p, b, s, opps[0]);
      }
      BlockKeepsMidBlock(p, b, opps[1..], Consider(p, opps[0], s));
    }
  }

  lemma {:induction false} NoneCountedBeyond(fills: seq<PaperFill>, b: int)
    requires forall f :: f in fills ==> f.id.block < b
    ensures CountIn(fills, b) == 0
  {
    if fills != [] {
      assert Last(fills) in fills;
      NoneCountedBeyond(Init(fills), b);
    }
  }

  lemma {:induction false} RunKeepsCapped(p: LedgerPolicy, groups: seq<Group<Opportunity>>, t: Tally, b: int)
    requires Capped(p, t.fills, b)
    requires Filed(BlockOf, groups) && (groups != [] ==> b < groups[0].key)
    ensures exists b' :: Capped(p, RunBlocks(p, groups, t).fills, b')
  {
    hide ConsiderAll, SortOpps;
    if groups == [] {
      assert Capped(p, RunBlocks(p, groups, t).fills, b);
    } else {
      var g := groups[0];
      assert g in groups;
      SortOppsSorts(g.items);
      forall x | x in SortOpps(g.items) ensures BlockOf(x) == g.key {
        assert x in multiset(SortOpps(g.items));
        assert x in g.items;
      }
      NoneCountedBeyond(t.fills, g.key);
      BlockKeepsMidBlock(p, g.key, SortOpps(g.items), BlockState(t, {}, 0));
      RunKeepsCapped(p, groups[1..], RunBlock(p, g.items, t), g.key);
      assert RunBlocks(p, groups, t) == RunBlocks(p, groups[1..], RunBlock(p, g.items, t));
    }
  }

  // ----- one outcome for every opportunity

  function FillIds(fills: seq<PaperFill>): multiset<Ident> {
    if fills == [] then multiset{} else FillIds(Init(fills)) + multiset{Last(fills).id}
  }

  function SkipIds(skips: seq<PaperSkip>): multiset<Ident> {
    if skips == [] then multiset{} else SkipIds(Init(skips)) + multiset{Last(skips).id}
  }

  function OppIds(opps: seq<Opportunity>): multiset<Ident> {
    Image(IdentOf, opps)
  }

  function Outcomes(fills: seq<PaperFill>, skips: seq<PaperSkip>): multiset<Ident> {
    FillIds(fills) + SkipIds(skips)
  }

  lemma SkipIdsAppend(skips: seq<PaperSkip>, k: PaperSkip)
    ensures SkipIds(skips + [k]) == SkipIds(skips) + multiset{k.id}
  {
    assert Init(skips + [k]) == skips;
  }

  lemma FillIdsAppend(fills: seq<PaperFill>, f: PaperFill)
    ensures FillIds(fills + [f]) == FillIds(fills) + multiset{f.id}
  {
    assert Init(fills + [f]) == fills;
  }

  lemma ConsiderGivesOneOutcome(p: LedgerPolicy, opp: Opportunity, s: BlockState)
    ensures Outcomes(Consider(p, opp, s).tally.fills, Consider(p, opp, s).tally.skips)
         == Outcomes(s.tally.fills, s.tally.skips) + multiset{IdentOf(opp)}
  {
    hide PoolsOf, NetWei, IdentOf, Conflicts, FillIds, SkipIds;
    match Gate(p, opp, s.tally.wallet, s.count, s.used)
    case Some(reason) => SkipIdsAppend(s.tally.skips, PaperSkip(IdentOf(opp), reason));
    case None => FillIdsAppend(s.tally.fills, FillOf(opp, s.tally.wallet, SatAddU128(s.tally.wallet, AsU128(NetWei(opp)))));
  }

  lemma {:induction false} BlockGivesOneOutcomeEach(p: LedgerPolicy, opps: seq<Opportunity>, s: BlockState)
    ensures Outcomes(ConsiderAll(p, opps, s).tally.fills, ConsiderAll(p, opps, s).tally.skips)
         == Outcomes(s.tally.fills, s.tally.skips) + OppIds(opps)
  {
    hide Consider, Outcomes, IdentOf;
    if opps != [] {
      ConsiderGivesOneOutcome(p, opps[0], s);
      BlockGivesOneOutcomeEach(p, opps[1..], Consider(p, opps[0], s));
    }
  }

  lemma {:induction false} RunGivesOneOutcomeEach(p: LedgerPolicy, groups: seq<Group<Opportunity>>, t: Tally)
    ensures Outcomes(RunBlocks(p, groups, t).fills, RunBlocks(p, groups, t).skips)
         == Outcomes(t.fills, t.skips) + OppIds(Flatten(groups))
  {
    hide Consider, Outcomes, SortOpps, ConsiderAll;
    if groups != [] {
      var items := groups[0].items;
      SortOppsSorts(items);
      ImageOfPermutation(IdentOf, SortOpps(items), items);
      BlockGivesOneOutcomeEach(p, SortOpps(items), BlockState(t, {}, 0));
      RunGivesOneOutcomeEach(p, groups[1..], RunBlock(p, items, t));
      ImageAppend(IdentOf, items, Flatten(groups[1..]));
    }
  }

  // ----- the theorem

  lemma ApplyKeepsInvariants(p: LedgerPolicy, opps: seq<Opportunity>)
    ensures var r := ApplyResult(p, opps);
      && Chained(p.startingGasWei, r.fills, r.endingGasWei)
      && (forall f :: f in r.fills ==> SoundFill(p, f))
      && BestOf(r.fills, r.bestNetWei)
      && r.maxDrawdownWei == 0
      && r.endingGasWei == Min(p.startingGasWei + NetSum(r.fills), U128_MAX)
      && r.grossWei == Min(GrossSum(r.fills), U128_MAX)
      && r.gasWei == Min(GasSum(r.fills), U128_MAX)
      && (NetSum(r.fills) < TWO_127 ==> r.netProfitWei == NetSum(r.fills))
      && Apart(r.fills)
      && (forall b :: CountIn(r.fills, b) <= p.Cap())
      && FillIds(r.fills) + SkipIds(r.skips) == OppIds(opps)
  {
    hide RunBlocks, Grouped, SoundFill, Chained, FillIds, SkipIds, Image, Apart, CountIn, BestOf;
    var groups := ByBlock(opps);
    StartIsSteady(p);
    RunKeepsSteady(p, groups, Start(p));
    GroupedIsFiled(BlockOf, opps);
    GroupedKeepsItems(BlockOf, opps);
    StartIsCapped(p, groups);
    RunGivesOneOutcomeEach(p, groups, Start(p));
    ImageOfPermutation(IdentOf, Flatten(groups), opps);
  }

  /** The wallet at the end is what the fills leave. */
  lemma WalletAfterRun(p: LedgerPolicy, opps: seq<Opportunity>)
    ensures var t := FinalTally(p, opps);
      t.wallet == WalletOf(p, t.fills) && SatSubU128(t.wallet, p.reserveWei) == Spare(p, t.fills)
  {
    hide RunBlocks, Grouped, NetSum;
    ApplyKeepsInvariants(p, opps);
  }

  lemma StartIsSteady(p: LedgerPolicy)
    ensures Steady(p, Start(p))
    ensures Outcomes(Start(p).fills, Start(p).skips) == multiset{}
  {
  }

  lemma StartIsCapped(p: LedgerPolicy, groups: seq<Group<Opportunity>>)
    requires Filed(BlockOf, groups)
    ensures exists b :: Capped(p, RunBlocks(p, groups, Start(p)).fills, b)
  {
    hide RunBlocks;
    RunKeepsCapped(p, groups, Start(p), if groups == [] then 0 else groups[0].key - 1);
  }

  // ----- gross, gas and net

  ghost predicate SmallOpps(opps: seq<Opportunity>) {
    forall x :: x in opps ==> U256ToU128(x.expectedProfit) < TWO_127 && x.gasCostWei < TWO_127
  }

  ghost predicate SmallFills(fills: seq<PaperFill>) {
    forall f :: f in fills ==> f.grossWei < TWO_127 && f.gasWei < TWO_127
  }

  lemma {:induction false} BlockKeepsSmall(p: LedgerPolicy, opps: seq<Opportunity>, s: BlockState)
    requires SmallOpps(opps) && SmallFills(s.tally.fills)
    ensures SmallFills(ConsiderAll(p, opps, s).tally.fills)
  {
    hide Gate, NetWei, PoolsOf, IdentOf, U256ToU128;
    if opps != [] {
      assert opps[0] in opps;
      BlockKeepsSmall(p, opps[1..], Consider(p, opps[0], s));
    }
  }

  lemma {:induction false} RunKeepsSmall(p: LedgerPolicy, groups: seq<Group<Opportunity>>, t: Tally)
    requires SmallOpps(Flatten(groups)) && SmallFills(t.fills)
    ensures SmallFills(RunBlocks(p, groups, t).fills)
  {
    hide ConsiderAll, SortOpps, SmallFills, U256ToU128;
    if groups != [] {
      var items := groups[0].items;
      SortOppsSorts(items);
      forall x | x in SortOpps(items) ensures x in items {
        assert x in multiset(SortOpps(items));
      }
      BlockKeepsSmall(p, SortOpps(items), BlockState(t, {}, 0));
      RunKeepsSmall(p, groups[1..], RunBlock(p, items, t));
    }
  }

  lemma FillsAreSmall(p: LedgerPolicy, opps: seq<Opportunity>)
    requires SmallOpps(opps)
    ensures SmallFills(ApplyResult(p, opps).fills)
  {
    hide RunBlocks, Grouped, U256ToU128;
    GroupedKeepsItems(BlockOf, opps);
    forall x | x in Flatten(ByBlock(opps)) ensures x in opps {
      assert x in multiset(Flatten(ByBlock(opps)));
    }
    RunKeepsSmall(p, ByBlock(opps), Start(p));
  }

  lemma {:induction false} FillSumsBalance(p: LedgerPolicy, fills: seq<PaperFill>)
    requires SmallFills(fills) && forall f :: f in fills ==> SoundFill(p, f)
    ensures NetSum(fills) == GrossSum(fills) - GasSum(fills)
  {
    if fills != [] {
      assert Last(fills) in fills;
      FillSumsBalance(p, Init(fills));
    }
  }

  /** Gross minus gas is net, when profits and gas are below 2^127 and no total
      saturates. */
  lemma GrossMinusGasIsNet(p: LedgerPolicy, opps: seq<Opportunity>)
    requires SmallOpps(opps)
    ensures var r := ApplyResult(p, opps);
      r.grossWei < TWO_127 && r.gasWei < U128_MAX ==> r.netProfitWei == r.grossWei - r.gasWei
  {
    hide SoundFill, Chained, Apart, FillIds, SkipIds, OppIds, RunBlocks, Grouped, SmallOpps, SmallFills;
    var r := ApplyResult(p, opps);
    ApplyKeepsInvariants(p, opps);
    FillsAreSmall(p, opps);
    FillSumsBalance(p, r.fills);
  }
}
