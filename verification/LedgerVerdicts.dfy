/** Why the ledger fills or skips a candidate, said from the fills it has reported
    so far and nothing else: no wallet, no conflict set and no count is kept. */
module LedgerVerdicts {
  import opened RustInts
  import opened PaperTypes
  import opened OrderedGroups
  import opened LedgerOrder
  import opened Ledger
  import opened LedgerRuns
  import opened LedgerInvariants
  import opened DisjointChoice
  import opened FillSums
  import opened Sequences

  // ----- the verdict

  /** A fill of the candidate's block shares a pool with it. */
  ghost predicate Taken(fills: seq<PaperFill>, x: Opportunity) {
    exists f :: f in fills && f.id.block == x.blockNumber && !(SeqSet(f.pools) !! PoolSet(x))
  }

  ghost function Verdict(p: LedgerPolicy, fills: seq<PaperFill>, x: Opportunity): Option<SkipReason> {
    if NetWei(x) <= 0 then Some(NonPositiveNet)
    else if CountIn(fills, x.blockNumber) >= Max(1, Min(p.maxFillsPerBlock, 32)) then Some(MaxFillsPerBlock)
    else if x.gasCostWei > Spare(p, fills) then Some(InsufficientGas)
    else if Taken(fills, x) then Some(PoolConflict)
    else None
  }

  /** The fill of candidate `x` after the fills so far. */
  ghost predicate IsFillOf(p: LedgerPolicy, fills: seq<PaperFill>, x: Opportunity, f: PaperFill) {
    && Names(f.id, x)
    && f.grossWei == Min(x.expectedProfit, U128_MAX) && f.gasWei == x.gasCostWei && f.netWei == NetWei(x)
    && f.walletBefore == WalletOf(p, fills) && f.walletAfter == WalletOf(p, fills + [f])
    && SeqSet(f.pools) == PoolSet(x)
    && f.mempoolOnly == x.mempoolOnly && f.borrowedWei == 0 && !f.stateDrift
  }

  /** Considering the candidates of `turn` one after another, each by its verdict,
      reports these fills and skips. */
  ghost predicate Judged(p: LedgerPolicy, turn: seq<Opportunity>, fills: seq<PaperFill>, skips: seq<PaperSkip>) {
    if turn == [] then fills == [] && skips == []
    else
      var before, x := Init(turn), Last(turn);
      || (fills != [] && Verdict(p, Init(fills), x).None? && IsFillOf(p, Init(fills), x, Last(fills))
          && Judged(p, before, Init(fills), skips))
      || (skips != [] && Verdict(p, fills, x) == Some(Last(skips).reason) && Names(Last(skips).id, x)
          && Judged(p, before, fills, Init(skips)))
  }

  // ----- the loop's accumulators agree with the reported fills

  /** The conflict set is the pools of the block's fills, the count their number. */
  ghost predicate Tracks(p: LedgerPolicy, b: int, s: BlockState) {
    && Steady(p, s.tally)
    && CountIn(s.tally.fills, b) == s.count
    && (forall q :: q in s.used <==> exists f :: f in s.tally.fills && f.id.block == b && q in f.pools)
  }

  lemma WalletTracked(p: LedgerPolicy, t: Tally)
    requires Steady(p, t)
    ensures t.wallet == WalletOf(p, t.fills)
    ensures SatSubU128(t.wallet, p.reserveWei) == Spare(p, t.fills)
  {
    hide NetSum, GrossSum, GasSum, Chained, SoundFill;
  }

  lemma ConflictsTracked(p: LedgerPolicy, b: int, s: BlockState, x: Opportunity)
    requires Tracks(p, b, s) && BlockOf(x) == b
    ensures Conflicts(x, s.used) <==> Taken(s.tally.fills, x)
  {
    hide Steady, CountIn, PoolsOf, PoolSet;
    PoolsOfIsPoolSet(x);
    if Conflicts(x, s.used) {
      var q :| q in PoolsOf(x) && q in s.used;
      var f :| f in s.tally.fills && f.id.block == b && q in f.pools;
      assert q in SeqSet(PoolsOf(x)) && q in SeqSet(f.pools);
    }
    if Taken(s.tally.fills, x) {
      var f :| f in s.tally.fills && f.id.block == x.blockNumber && !(SeqSet(f.pools) !! PoolSet(x));
      var q :| q in SeqSet(f.pools) && q in PoolSet(x);
      assert q in SeqSet(PoolsOf(x));
    }
  }

  /** The loop's gates give the verdict. */
  lemma GatesGiveVerdict(p: LedgerPolicy, b: int, s: BlockState, x: Opportunity)
    requires Tracks(p, b, s) && BlockOf(x) == b
    ensures Gate(p, x, s.tally.wallet, s.count, s.used) == Verdict(p, s.tally.fills, x)
  {
    hide Steady, Conflicts, Taken, CountIn, NetWei, Spare;
    WalletTracked(p, s.tally);
    ConflictsTracked(p, b, s, x);
  }

  lemma BookedFill(p: LedgerPolicy, t: Tally, x: Opportunity)
    requires Steady(p, t) && NetWei(x) > 0
    ensures Book(t, x).fills == t.fills + [Last(Book(t, x).fills)]
    ensures IsFillOf(p, t.fills, x, Last(Book(t, x).fills))
  {
    hide NetWei, PoolsOf, PoolSet, NetSum, GrossSum, GasSum, Chained, SoundFill;
    var f := Last(Book(t, x).fills);
    PoolsOfIsPoolSet(x);
    SumsAppend(t.fills, f);
  }

  lemma FillKeepsTracks(p: LedgerPolicy, b: int, s: BlockState, x: Opportunity)
    requires Tracks(p, b, s) && BlockOf(x) == b && Gate(p, x, s.tally.wallet, s.count, s.used).None?
    ensures Tracks(p, b, Consider(p, x, s))
  {
    hide Steady, NetWei, PoolsOf, Conflicts;
    var s' := Consider(p, x, s);
    var f := Last(s'.tally.fills);
    BookKeepsSteady(p, s.tally, x);
    assert Init(s'.tally.fills) == s.tally.fills && f.id.block == b && f.pools == PoolsOf(x);
    forall q ensures q in s'.used <==> exists g :: g in s'.tally.fills && g.id.block == b && q in g.pools {
      if q in s.used {
        var g :| g in s.tally.fills && g.id.block == b && q in g.pools;
        assert g in s'.tally.fills;
      }
      if q in PoolsOf(x) {
        assert f in s'.tally.fills;
      }
    }
  }

  /** One candidate, by its verdict. */
  lemma ConsiderIsJudged(p: LedgerPolicy, b: int, turn: seq<Opportunity>, s: BlockState, x: Opportunity)
    requires Tracks(p, b, s) && BlockOf(x) == b && Judged(p, turn, s.tally.fills, s.tally.skips)
    ensures var s' := Consider(p, x, s); Tracks(p, b, s') && Judged(p, turn + [x], s'.tally.fills, s'.tally.skips)
  {
    hide Steady, Verdict, IsFillOf, Book;
    var s' := Consider(p, x, s);
    GatesGiveVerdict(p, b, s, x);
    assert Init(turn + [x]) == turn && Last(turn + [x]) == x;
    if Gate(p, x, s.tally.wallet, s.count, s.used).None? {
      FillKeepsTracks(p, b, s, x);
      GateMeansProfit(p, x, s);
      BookedFill(p, s.tally, x);
      assert s'.tally == Book(s.tally, x);
      BookKeepsSkips(s.tally, x);
      assert Init(s'.tally.fills) == s.tally.fills;
    } else {
      assert Init(s'.tally.skips) == s.tally.skips;
      SkipKeepsSteady(p, s.tally, s'.tally.skips);
    }
  }

  lemma GateMeansProfit(p: LedgerPolicy, x: Opportunity, s: BlockState)
    requires Gate(p, x, s.tally.wallet, s.count, s.used).None?
    ensures NetWei(x) > 0
  {
    hide NetWei, Conflicts;
  }

  lemma BookKeepsSkips(t: Tally, x: Opportunity)
    ensures Book(t, x).skips == t.skips
  {
    hide NetWei, PoolsOf;
  }

  lemma SkipKeepsSteady(p: LedgerPolicy, t: Tally, skips: seq<PaperSkip>)
    requires Steady(p, t)
    ensures Steady(p, t.(skips := skips))
  {
  }

  lemma {:induction false} BlockIsJudged(p: LedgerPolicy, b: int, turn: seq<Opportunity>, l: seq<Opportunity>,
                                         s: BlockState)
    requires Tracks(p, b, s) && Judged(p, turn, s.tally.fills, s.tally.skips)
    requires forall x :: x in l ==> BlockOf(x) == b
    ensures var s' := ConsiderAll(p, l, s);
      Steady(p, s'.tally) && Judged(p, turn + l, s'.tally.fills, s'.tally.skips)
    decreases |l|
  {
    hide Consider, Judged, Steady;
    if l == [] {
      assert turn + l == turn;
    } else {
      assert l[0] in l;
      ConsiderIsJudged(p, b, turn, s, l[0]);
      BlockIsJudged(p, b, turn + [l[0]], l[1..], Consider(p, l[0], s));
      assert turn + [l[0]] + l[1..] == turn + l;
    }
  }

  /** A block that no fill is in yet starts with nothing taken. */
  lemma NewBlockTracks(p: LedgerPolicy, b: int, t: Tally)
    requires Steady(p, t) && forall f :: f in t.fills ==> f.id.block < b
    ensures Tracks(p, b, BlockState(t, {}, 0))
  {
    hide Steady, CountIn;
    NoneCountedBeyond(t.fills, b);
  }

  lemma BlockStaysBelow(p: LedgerPolicy, l: seq<Opportunity>, t: Tally, b: int)
    requires (forall x :: x in l ==> BlockOf(x) == b) && forall f :: f in t.fills ==> f.id.block < b
    ensures forall f :: f in ConsiderAll(p, l, BlockState(t, {}, 0)).tally.fills ==> f.id.block <= b
  {
    hide ConsiderAll;
    BlockAddsWithin(p, l, BlockState(t, {}, 0), b, b + 1);
    var r := ConsiderAll(p, l, BlockState(t, {}, 0)).tally;
    forall f | f in r.fills ensures f.id.block <= b {
      var i :| 0 <= i < |r.fills| && r.fills[i] == f;
      if i < |t.fills| {
        assert t.fills[i] == f;
      }
    }
  }

  lemma {:induction false} RunIsJudged(p: LedgerPolicy, groups: seq<Group<Opportunity>>, turn: seq<Opportunity>, t: Tally)
    requires Filed(BlockOf, groups) && Steady(p, t) && Judged(p, turn, t.fills, t.skips)
    requires groups != [] ==> forall f :: f in t.fills ==> f.id.block < groups[0].key
    ensures var r := RunBlocks(p, groups, t); Judged(p, turn + InTurn(groups), r.fills, r.skips)
    decreases |groups|
  {
    hide ConsiderAll, SortOpps, Steady, Judged, Tracks;
    if groups == [] {
      assert turn + InTurn(groups) == turn;
    } else {
      var g := groups[0];
      assert g in groups;
      SortedItems(g);
      NewBlockTracks(p, g.key, t);
      BlockIsJudged(p, g.key, turn, SortOpps(g.items), BlockState(t, {}, 0));
      BlockStaysBelow(p, SortOpps(g.items), t, g.key);
      RunIsJudged(p, groups[1..], turn + SortOpps(g.items), RunBlock(p, g.items, t));
      assert turn + SortOpps(g.items) + InTurn(groups[1..]) == turn + InTurn(groups);
    }
  }

  /** What `Apply` reports is what judging each candidate in turn by the fills
      reported before it gives: reasons, fills and their contents. */
  lemma LedgerIsJudged(p: LedgerPolicy, opps: seq<Opportunity>)
    ensures var r := ApplyResult(p, opps); Judged(p, InTurn(ByBlock(opps)), r.fills, r.skips)
  {
    hide RunBlocks, Grouped, Steady, Filed, InTurn;
    var groups := ByBlock(opps);
    GroupedIsFiled(BlockOf, opps);
    StartIsSteady(p);
    assert Judged(p, [], Start(p).fills, Start(p).skips);
    RunIsJudged(p, groups, [], Start(p));
    assert [] + InTurn(groups) == InTurn(groups);
  }

  ghost predicate BlocksAscend(s: seq<Opportunity>) {
    forall i, j :: 0 <= i < j < |s| ==> s[i].blockNumber <= s[j].blockNumber
  }

  lemma AscendTogether(a: seq<Opportunity>, b: seq<Opportunity>, key: int)
    requires (forall x :: x in a ==> x.blockNumber == key) && (forall x :: x in b ==> key <= x.blockNumber)
    requires BlocksAscend(b)
    ensures BlocksAscend(a + b)
  {
    var s := a + b;
    forall i, j | 0 <= i < j < |s| ensures s[i].blockNumber <= s[j].blockNumber {
      if i < |a| {
        assert s[i] in a && (s[j] in a || s[j] in b);
      } else {
        assert s[i] == b[i - |a|] && s[j] == b[j - |a|];
      }
    }
  }

  /** The turns are the candidates, block after block. */
  lemma {:induction false} TurnsAreTheCandidates(groups: seq<Group<Opportunity>>)
    requires Filed(BlockOf, groups)
    ensures multiset(InTurn(groups)) == multiset(Flatten(groups))
    ensures BlocksAscend(InTurn(groups))
    ensures forall x :: x in InTurn(groups) ==> groups != [] && groups[0].key <= x.blockNumber
  {
    hide SortOpps, BlocksAscend;
    if groups == [] {
      NothingAscends();
    } else {
      var g := groups[0];
      assert g in groups;
      SortOppsSorts(g.items);
      SortedItems(g);
      TurnsAreTheCandidates(groups[1..]);
      AscendTogether(SortOpps(g.items), InTurn(groups[1..]), g.key);
    }
  }

  lemma NothingAscends()
    ensures BlocksAscend([])
  {
  }

  // ----- who is refused for gas

  /** The refusals for gas from index `from` on are of candidates among `opps` that
      cost more than `spare`. */
  ghost predicate DearRefusals(from: nat, skips: seq<PaperSkip>, opps: seq<Opportunity>, spare: int) {
    forall i :: from <= i < |skips| && skips[i].reason == InsufficientGas ==> DearOne(skips[i].id, opps, spare)
  }

  ghost predicate DearOne(id: Ident, opps: seq<Opportunity>, spare: int) {
    exists x :: x in opps && IdentOf(x) == id && x.gasCostWei > spare
  }

  lemma ConsiderRefusesTheDear(p: LedgerPolicy, x: Opportunity, s: BlockState, floor: u128)
    requires s.tally.wallet >= floor
    ensures var s' := Consider(p, x, s);
      && s'.tally.wallet >= floor && |s.tally.skips| <= |s'.tally.skips| <= |s.tally.skips| + 1
      && (|s'.tally.skips| > |s.tally.skips| && Last(s'.tally.skips).reason == InsufficientGas ==>
            Last(s'.tally.skips).id == IdentOf(x) && x.gasCostWei > SatSubU128(floor, p.reserveWei))
  {
    hide NetWei, PoolsOf, Conflicts, IdentOf;
  }

  lemma {:induction false} BlockRefusesTheDear(p: LedgerPolicy, l: seq<Opportunity>, s: BlockState, floor: u128)
    requires s.tally.wallet >= floor
    ensures var s' := ConsiderAll(p, l, s);
      && s'.tally.wallet >= floor
      && DearRefusals(|s.tally.skips|, s'.tally.skips, l, SatSubU128(floor, p.reserveWei))
  {
    hide Consider, DearOne;
    if l != [] {
      var s1 := Consider(p, l[0], s);
      var skips := ConsiderAll(p, l, s).tally.skips;
      ConsiderRefusesTheDear(p, l[0], s, floor);
      BlockRefusesTheDear(p, l[1..], s1, floor);
      BlockOnlyAppends(p, l[1..], s1);
      forall i | |s.tally.skips| <= i < |skips| && skips[i].reason == InsufficientGas
        ensures DearOne(skips[i].id, l, SatSubU128(floor, p.reserveWei))
      {
        if i < |s1.tally.skips| {
          assert skips[i] == Last(s1.tally.skips);
          Dear(l[0], l, SatSubU128(floor, p.reserveWei));
        } else {
          DearAmongMore(skips[i].id, l[1..], l, SatSubU128(floor, p.reserveWei));
        }
      }
    }
  }

  lemma Dear(x: Opportunity, opps: seq<Opportunity>, spare: int)
    requires x in opps && x.gasCostWei > spare
    ensures DearOne(IdentOf(x), opps, spare)
  {
  }

  lemma DearAmongMore(id: Ident, some: seq<Opportunity>, opps: seq<Opportunity>, spare: int)
    requires DearOne(id, some, spare) && forall x :: x in some ==> x in opps
    ensures DearOne(id, opps, spare)
  {
  }

  lemma {:induction false} RunRefusesTheDear(p: LedgerPolicy, groups: seq<Group<Opportunity>>, t: Tally, floor: u128)
    requires t.wallet >= floor
    ensures DearRefusals(|t.skips|, RunBlocks(p, groups, t).skips, Flatten(groups), SatSubU128(floor, p.reserveWei))
  {
    hide ConsiderAll, SortOpps, DearOne;
    if groups != [] {
      var items, spare := groups[0].items, SatSubU128(floor, p.reserveWei);
      var t1 := RunBlock(p, items, t);
      var skips := RunBlocks(p, groups, t).skips;
      SortOppsSorts(items);
      forall x | x in SortOpps(items) ensures x in items {
        assert x in multiset(SortOpps(items));
      }
      BlockRefusesTheDear(p, SortOpps(items), BlockState(t, {}, 0), floor);
      RunRefusesTheDear(p, groups[1..], t1, floor);
      RunOnlyAppends(p, groups[1..], t1);
      forall i | |t.skips| <= i < |skips| && skips[i].reason == InsufficientGas
        ensures DearOne(skips[i].id, Flatten(groups), spare)
      {
        if i < |t1.skips| {
          assert skips[i] == t1.skips[i];
          DearAmongMore(skips[i].id, SortOpps(items), Flatten(groups), spare);
        } else {
          DearAmongMore(skips[i].id, Flatten(groups[1..]), Flatten(groups), spare);
        }
      }
    }
  }

  /** A candidate refused for gas costs more than what the wallet has above the
      reserve after the blocks before its own. */
  lemma GasRefusalsAreDear(p: LedgerPolicy, opps: seq<Opportunity>, k: PaperSkip)
    requires k in ApplyResult(p, opps).skips && k.reason == InsufficientGas
    ensures exists x :: x in opps && IdentOf(x) == k.id
                     && x.gasCostWei > Spare(p, FillsBelow(ApplyResult(p, opps).fills, k.id.block))
  {
    var b := k.id.block;
    var low, high := Below(BlockOf, opps, b), From(BlockOf, opps, b);
    var floor := FinalTally(p, low).wallet;
    WalletAfterRun(p, low);
    hide FinalTally, RunBlocks, Grouped, Below, From, FillsBelow, SkipsBelow, DearOne, IdentOf, Spare, WalletOf, InTurn;
    LedgerIsCausal(p, opps, b);
    RunRefusesTheDear(p, ByBlock(high), FinalTally(p, low), floor);
    var all := ApplyResult(p, opps).skips;
    var i :| 0 <= i < |all| && all[i] == k;
    if i < |ApplyResult(p, low).skips| {
      NoneReachB(all, b, i);
    }
    assert DearOne(k.id, Flatten(ByBlock(high)), SatSubU128(floor, p.reserveWei));
    GroupedKeepsItems(BlockOf, high);
    CutMeaning(BlockOf, opps, b);
    forall x | x in Flatten(ByBlock(high)) ensures x in opps {
      assert x in multiset(Flatten(ByBlock(high)));
      assert x in multiset(high);
    }
    DearAmongMore(k.id, Flatten(ByBlock(high)), opps, SatSubU128(floor, p.reserveWei));
    DearMeans(k.id, opps, SatSubU128(floor, p.reserveWei));
  }

  lemma DearMeans(id: Ident, opps: seq<Opportunity>, spare: int)
    requires DearOne(id, opps, spare)
    ensures exists x :: x in opps && IdentOf(x) == id && x.gasCostWei > spare
  {
  }

  /** What lies below a block is of blocks below it. */
  lemma {:induction false} NoneReachB(skips: seq<PaperSkip>, b: int, i: nat)
    requires SkipsBelow(skips, b) <= skips && i < |SkipsBelow(skips, b)|
    ensures skips[i].id.block < b
  {
    SkipsBelowAreBelow(skips, b);
    assert SkipsBelow(skips, b)[i] in SkipsBelow(skips, b);
  }

  lemma {:induction false} SkipsBelowAreBelow(skips: seq<PaperSkip>, b: int)
    ensures forall k :: k in SkipsBelow(skips, b) ==> k.id.block < b
  {
    if skips != [] {
      SkipsBelowAreBelow(Init(skips), b);
    }
  }
}
