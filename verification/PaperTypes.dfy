/** Data contracts of the paper ledger: the fields of an opportunity, a fill,
    a skip and a ledger result that the accounting reads or writes. */
module PaperTypes {
  import opened RustInts

  datatype Option<+T> = None | Some(value: T)

  datatype Strategy = TwoHopArb | MultiHopArb | Jit | Backrun

  datatype Opportunity = Opportunity(
    canonicalId: Option<string>,
    blockNumber: u64,
    txIndex: usize,
    strategy: Strategy,
    poolA: Address,
    poolB: Address,
    path: Option<seq<Address>>,
    inputAmount: u256,
    expectedProfit: u256,
    gasCostWei: u128,
    mempoolOnly: bool
  )

  datatype SkipReason =
    | NotNativeUnit
    | NonPositiveNet
    | InsufficientGas
    | PoolConflict
    | MaxFillsPerBlock
    | ExecRevert
    | ExecBuildFailed
    | ExecStrategyUnsupported

  /** What a fill and a skip both say about the candidate they came from. */
  datatype Ident = Ident(block: u64, txIndex: Option<usize>, canonicalId: Option<string>, strategy: Strategy)

  datatype PaperFill = PaperFill(
    id: Ident,
    grossWei: u128,
    gasWei: u128,
    netWei: i128,
    walletBefore: u128,
    walletAfter: u128,
    pools: seq<Address>,
    mempoolOnly: bool,
    borrowedWei: u128,
    stateDrift: bool
  )

  datatype PaperSkip = PaperSkip(id: Ident, reason: SkipReason)

  /** One virtual execution attempt, as a backend reports it. */
  datatype ExecAttempt = ExecAttempt(status: bool, netWei: i128, gasWei: u128, fail: Option<SkipReason>)

  datatype LedgerResult = LedgerResult(
    startingGasWei: u128,
    endingGasWei: u128,
    reserveWei: u128,
    maxDrawdownWei: u128,
    fills: seq<PaperFill>,
    skips: seq<PaperSkip>,
    grossWei: u128,
    gasWei: u128,
    netProfitWei: i128,
    bestNetWei: i128,
    startBlock: Option<u64>,
    endBlock: Option<u64>,
    execOk: nat,
    execRevert: nat,
    revertGasWei: u128,
    execLossWei: u128
  )

  const HARD_MAX_FILLS_PER_BLOCK: nat := 32

  datatype LedgerPolicy = LedgerPolicy(startingGasWei: u128, reserveWei: u128, maxFillsPerBlock: usize) {
    /** `max_fills_per_block.clamp(1, HARD_MAX_FILLS_PER_BLOCK)` */
    function Cap(): nat {
      Max(1, Min(maxFillsPerBlock, HARD_MAX_FILLS_PER_BLOCK))
    }
  }

  /** The strategies whose profit is native-normalized: all there are, so the
      ledger's first gate never fires. */
  predicate IsNativeEligible(s: Strategy): (r: bool)
    ensures r
  {
    s.TwoHopArb? || s.MultiHopArb? || s.Jit? || s.Backrun?
  }

  predicate IsSimulatable(s: Strategy) {
    s.TwoHopArb? || s.MultiHopArb? || s.Backrun?
  }

  function U256ToU128(v: u256): u128 {
    Min(v, U128_MAX)
  }

  /** Profit minus gas, both cast to i128: the true difference exactly when that
      fits in i128, whatever the casts did on the way, and else off by 2^128. */
  function NetWei(opp: Opportunity): (r: i128)
    ensures var d := Min(opp.expectedProfit, U128_MAX) - opp.gasCostWei;
            r == if d >= TWO_127 then d - TWO_128 else if d < -TWO_127 then d + TWO_128 else d
  {
    WrapI128(AsI128(U256ToU128(opp.expectedProfit)) - AsI128(opp.gasCostWei))
  }

  function IdentOf(opp: Opportunity): Ident {
    Ident(opp.blockNumber, if opp.mempoolOnly then None else Some(opp.txIndex), opp.canonicalId, opp.strategy)
  }

  /** A report names its candidate: block, strategy and id, and the transaction index
      if it is anchored to one. */
  predicate Names(id: Ident, x: Opportunity) {
    && id.block == x.blockNumber && id.strategy == x.strategy && id.canonicalId == x.canonicalId
    && id.txIndex == if x.mempoolOnly then None else Some(x.txIndex)
  }

  lemma IdentNames(x: Opportunity)
    ensures Names(IdentOf(x), x)
  {
  }

  // ----- the pools an opportunity touches

  /** The path entries that `pools_of` appends to `have`, in order. */
  function PathPools(have: seq<Address>, path: seq<Address>): seq<Address>
    decreases |path|
  {
    if path == [] then have
    else if path[0] != ZERO_ADDRESS && path[0] !in have then PathPools(have + [path[0]], path[1..])
    else PathPools(have, path[1..])
  }

  function PoolsOf(opp: Opportunity): seq<Address> {
    var a := if opp.poolA != ZERO_ADDRESS then [opp.poolA] else [];
    var b := if opp.poolB != ZERO_ADDRESS then a + [opp.poolB] else a;
    if opp.path.Some? then PathPools(b, opp.path.value) else b
  }

  method CollectPools(opp: Opportunity) returns (pools: seq<Address>)
    ensures pools == PoolsOf(opp)
  {
    pools := [];
    if opp.poolA != ZERO_ADDRESS {
      pools := pools + [opp.poolA];
    }
    assert pools == if opp.poolA != ZERO_ADDRESS then [opp.poolA] else [];
    if opp.poolB != ZERO_ADDRESS {
      pools := pools + [opp.poolB];
    }
    if opp.path.Some? {
      var path := opp.path.value;
      assert path[0..] == path;
      for i := 0 to |path|
        invariant PathPools(pools, path[i..]) == PoolsOf(opp)
      {
        assert path[i..] != [];
        assert path[i..][0] == path[i] && path[i..][1..] == path[i + 1..];
        if path[i] != ZERO_ADDRESS && path[i] !in pools {
          pools := pools + [path[i]];
        }
      }
      assert path[|path|..] == [];
    }
  }

  /** The set of real pools named by the opportunity, said without a loop. */
  function PoolSet(opp: Opportunity): set<Address> {
    {opp.poolA, opp.poolB} + (if opp.path.Some? then (set p | p in opp.path.value) else {}) - {ZERO_ADDRESS}
  }

  function SeqSet(s: seq<Address>): set<Address> {
    set p | p in s
  }

  lemma {:induction false} PathPoolsSet(have: seq<Address>, path: seq<Address>)
    ensures SeqSet(PathPools(have, path)) == SeqSet(have) + (SeqSet(path) - {ZERO_ADDRESS})
    decreases |path|
  {
    if path == [] {
    } else {
      var keep := path[0] != ZERO_ADDRESS && path[0] !in have;
      PathPoolsSet(if keep then have + [path[0]] else have, path[1..]);
      assert SeqSet(path) == {path[0]} + SeqSet(path[1..]);
      assert SeqSet(have + [path[0]]) == SeqSet(have) + {path[0]};
    }
  }

  lemma PoolsOfIsPoolSet(opp: Opportunity)
    ensures SeqSet(PoolsOf(opp)) == PoolSet(opp)
  {
    var a := if opp.poolA != ZERO_ADDRESS then [opp.poolA] else [];
    var b := if opp.poolB != ZERO_ADDRESS then a + [opp.poolB] else a;
    assert SeqSet(b) == {opp.poolA, opp.poolB} - {ZERO_ADDRESS};
    if opp.path.Some? {
      PathPoolsSet(b, opp.path.value);
    }
  }
}
