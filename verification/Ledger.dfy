/** The paper ledger: greedy fill selection per block over a gas wallet.
    `Apply` is the program's loop; `ApplyResult` is what it computes, block by
    block and candidate by candidate. */
module Ledger {
  import opened RustInts
  import opened PaperTypes
  import opened OrderedGroups
  import opened LedgerOrder

  /** Everything the ledger carries from one candidate to the next. */
  datatype Tally = Tally(
    wallet: u128,
    peak: u128,
    maxDrawdown: u128,
    fills: seq<PaperFill>,
    skips: seq<PaperSkip>,
    gross: u128,
    gas: u128,
    net: i128,
    best: i128
  )

  /** A tally inside one block, with the block's own conflict set and count. */
  datatype BlockState = BlockState(tally: Tally, used: set<Address>, count: nat)

  function Start(p: LedgerPolicy): Tally {
    Tally(p.startingGasWei, p.startingGasWei, 0, [], [], 0, 0, 0, 0)
  }

  predicate Conflicts(opp: Opportunity, used: set<Address>) {
    exists q :: q in PoolsOf(opp) && q in used
  }

  /** The first gate that refuses the candidate, or None when it is filled. */
  function Gate(p: LedgerPolicy, opp: Opportunity, wallet: u128, count: nat, used: set<Address>): Option<SkipReason> {
    if !IsNativeEligible(opp.strategy) then Some(NotNativeUnit)
    else if NetWei(opp) <= 0 then Some(NonPositiveNet)
    else if count >= p.Cap() then Some(MaxFillsPerBlock)
    else if opp.gasCostWei > SatSubU128(wallet, p.reserveWei) then Some(InsufficientGas)
    else if Conflicts(opp, used) then Some(PoolConflict)
    else None
  }

  function NewPeak(peak: u128, wallet: u128): u128 {
    Max(peak, wallet)
  }

  function NewDrawdown(peak: u128, maxDrawdown: u128, wallet: u128): u128 {
    if wallet > peak then maxDrawdown else Max(maxDrawdown, SatSubU128(peak, wallet))
  }

  function FillOf(opp: Opportunity, walletBefore: u128, walletAfter: u128): PaperFill {
    PaperFill(IdentOf(opp), U256ToU128(opp.expectedProfit), opp.gasCostWei, NetWei(opp),
              walletBefore, walletAfter, PoolsOf(opp), opp.mempoolOnly, 0, false)
  }

  function Book(t: Tally, opp: Opportunity): Tally {
    var after := SatAddU128(t.wallet, AsU128(NetWei(opp)));
    Tally(after,
          NewPeak(t.peak, after),
          NewDrawdown(t.peak, t.maxDrawdown, after),
          t.fills + [FillOf(opp, t.wallet, after)],
          t.skips,
          SatAddU128(t.gross, U256ToU128(opp.expectedProfit)),
          SatAddU128(t.gas, opp.gasCostWei),
          WrapI128(t.net + NetWei(opp)),
          Max(t.best, NetWei(opp)))
  }

  function Consider(p: LedgerPolicy, opp: Opportunity, s: BlockState): BlockState {
    match Gate(p, opp, s.tally.wallet, s.count, s.used)
    case Some(reason) => s.(tally := s.tally.(skips := s.tally.skips + [PaperSkip(IdentOf(opp), reason)]))
    case None => BlockState(Book(s.tally, opp), s.used + SeqSet(PoolsOf(opp)), s.count + 1)
  }

  function ConsiderAll(p: LedgerPolicy, opps: seq<Opportunity>, s: BlockState): BlockState {
    if opps == [] then s else ConsiderAll(p, opps[1..], Consider(p, opps[0], s))
  }

  function RunBlock(p: LedgerPolicy, opps: seq<Opportunity>, t: Tally): Tally {
    ConsiderAll(p, SortOpps(opps), BlockState(t, {}, 0)).tally
  }

  function RunBlocks(p: LedgerPolicy, groups: seq<Group<Opportunity>>, t: Tally): Tally {
    if groups == [] then t else RunBlocks(p, groups[1..], RunBlock(p, groups[0].items, t))
  }

  function FirstBlock(opps: seq<Opportunity>): Option<u64> {
    if opps == [] then None
    else match FirstBlock(opps[..|opps| - 1])
      case None => Some(opps[|opps| - 1].blockNumber)
      case Some(b) => Some(Min(b, opps[|opps| - 1].blockNumber))
  }

  function LastBlock(opps: seq<Opportunity>): Option<u64> {
    if opps == [] then None
    else match LastBlock(opps[..|opps| - 1])
      case None => Some(opps[|opps| - 1].blockNumber)
      case Some(b) => Some(Max(b, opps[|opps| - 1].blockNumber))
  }

  function Report(p: LedgerPolicy, t: Tally, first: Option<u64>, last: Option<u64>): LedgerResult {
    LedgerResult(p.startingGasWei, t.wallet, p.reserveWei, t.maxDrawdown, t.fills, t.skips,
                 t.gross, t.gas, t.net, t.best, first, last, 0, 0, 0, 0)
  }

  function FinalTally(p: LedgerPolicy, opps: seq<Opportunity>): Tally {
    RunBlocks(p, ByBlock(opps), Start(p))
  }

  function ApplyResult(p: LedgerPolicy, opps: seq<Opportunity>): LedgerResult {
    Report(p, FinalTally(p, opps), FirstBlock(opps), LastBlock(opps))
  }

  /** One block's candidates, already sorted, against the wallet. */
  method ApplyBlock(p: LedgerPolicy, opps: seq<Opportunity>, t: Tally) returns (r: Tally)
    ensures r == ConsiderAll(p, opps, BlockState(t, {}, 0)).tally
  {
    hide NetWei, PoolsOf, IdentOf, U256ToU128, IsNativeEligible;
    var wallet, peak, maxDrawdown := t.wallet, t.peak, t.maxDrawdown;
    var fills, skips := t.fills, t.skips;
    var grossTotal, gasTotal, netTotal, bestNet := t.gross, t.gas, t.net, t.best;
    var usedPools: set<Address> := {};
    var fillsThisBlock := 0;
    assert opps[0..] == opps;
    for i := 0 to |opps|
      invariant ConsiderAll(p, opps, BlockState(t, {}, 0)) ==
        ConsiderAll(p, opps[i..], BlockState(
          Tally(wallet, peak, maxDrawdown, fills, skips, grossTotal, gasTotal, netTotal, bestNet),
          usedPools, fillsThisBlock))
    {
      var opp := opps[i];
      assert opps[i..][0] == opp && opps[i..][1..] == opps[i + 1..];
      var net := NetWei(opp);
      var surplus := SatSubU128(wallet, p.reserveWei);
      var pools := CollectPools(opp);
      if !IsNativeEligible(opp.strategy) {
        skips := skips + [PaperSkip(IdentOf(opp), NotNativeUnit)];
      } else if net <= 0 {
        skips := skips + [PaperSkip(IdentOf(opp), NonPositiveNet)];
      } else if fillsThisBlock >= p.Cap() {
        skips := skips + [PaperSkip(IdentOf(opp), MaxFillsPerBlock)];
      } else if opp.gasCostWei > surplus {
        skips := skips + [PaperSkip(IdentOf(opp), InsufficientGas)];
      } else if exists q :: q in pools && q in usedPools {
        skips := skips + [PaperSkip(IdentOf(opp), PoolConflict)];
      } else {
        var walletBefore := wallet;
        wallet := SatAddU128(wallet, AsU128(net));
        if wallet > peak {
          peak := wallet;
        } else {
          var dd := SatSubU128(peak, wallet);
          if dd > maxDrawdown {
            maxDrawdown := dd;
          }
        }
        usedPools := usedPools + SeqSet(pools);
        fillsThisBlock := fillsThisBlock + 1;
        fills := fills + [FillOf(opp, walletBefore, wallet)];
        grossTotal := SatAddU128(grossTotal, U256ToU128(opp.expectedProfit));
        gasTotal := SatAddU128(gasTotal, opp.gasCostWei);
        netTotal := WrapI128(netTotal as int + net);
        if net > bestNet {
          bestNet := net;
        }
      }
    }
    assert opps[|opps|..] == [];
    r := Tally(wallet, peak, maxDrawdown, fills, skips, grossTotal, gasTotal, netTotal, bestNet);
  }

  /** Apply the ledger over the opportunities of any number of blocks. */
  method Apply(p: LedgerPolicy, opportunities: seq<Opportunity>) returns (r: LedgerResult)
    ensures r == ApplyResult(p, opportunities)
  {
    var byBlock: seq<Group<Opportunity>> := [];
    var startBlock: Option<u64> := None;
    var endBlock: Option<u64> := None;
    for i := 0 to |opportunities|
      invariant byBlock == ByBlock(opportunities[..i])
      invariant startBlock == FirstBlock(opportunities[..i])
      invariant endBlock == LastBlock(opportunities[..i])
    {
      var opp := opportunities[i];
      assert opportunities[..i + 1][..i] == opportunities[..i];
      byBlock := Upsert(byBlock, BlockOf(opp), opp);
      startBlock := Some(if startBlock.None? then opp.blockNumber else Min(startBlock.value, opp.blockNumber));
      endBlock := Some(if endBlock.None? then opp.blockNumber else Max(endBlock.value, opp.blockNumber));
    }
    assert opportunities[..|opportunities|] == opportunities;
    var t := Start(p);
    assert byBlock[0..] == byBlock;
    for g := 0 to |byBlock|
      invariant RunBlocks(p, byBlock[g..], t) == FinalTally(p, opportunities)
    {
      assert byBlock[g..][0] == byBlock[g] && byBlock[g..][1..] == byBlock[g + 1..];
      t := ApplyBlock(p, SortOpps(byBlock[g].items), t);
    }
    assert byBlock[|byBlock|..] == [];
    r := Report(p, t, startBlock, endBlock);
  }
}
