/** Why an executed run calls its backend or not, and what each answer does, said
    from the calls made and the fills reported so far and nothing else. */
module ExecutedCalls {
  import opened RustInts
  import opened PaperTypes
  import opened OrderedGroups
  import opened LedgerOrder
  import opened Ledger
  import opened LedgerInvariants
  import opened LedgerExecuted
  import opened DisjointChoice
  import opened FillSums
  import opened Sequences

  /** One call of the backend: for whom, with what wallet, and its answer. */
  datatype Call = Call(opp: Opportunity, wallet: u128, answer: ExecAttempt)

  // ----- what an answer does

  predicate Reverts(a: ExecAttempt) {
    a.fail == Some(ExecRevert) || (a.fail.None? && !a.status)
  }

  predicate Lands(a: ExecAttempt) {
    a.fail.None? && a.status
  }

  /** The wallet after an answer. Gas above 2^127 turns negative in its cast, so
      such a revert is credited. */
  function WalletNext(wallet: u128, a: ExecAttempt): u128 {
    if Reverts(a) then
      if a.gasWei <= TWO_127 then Max(wallet - a.gasWei, 0) else Min(wallet + (TWO_128 - a.gasWei), U128_MAX)
    else if Lands(a) then Max(Min(wallet + a.netWei, U128_MAX), 0)
    else wallet
  }

  /** Why an answered call is no fill; None when it is one. */
  function Rejected(a: ExecAttempt): Option<SkipReason> {
    if a.fail.Some? then a.fail
    else if !a.status then Some(ExecRevert)
    else if a.netWei <= 0 then Some(NonPositiveNet)
    else None
  }

  function WalletAt(p: LedgerPolicy, calls: seq<Call>): u128 {
    if calls == [] then p.startingGasWei else WalletNext(WalletAt(p, Init(calls)), Last(calls).answer)
  }

  function CountReverts(calls: seq<Call>): nat {
    if calls == [] then 0 else CountReverts(Init(calls)) + if Reverts(Last(calls).answer) then 1 else 0
  }

  function RevertGas(calls: seq<Call>): nat {
    if calls == [] then 0
    else RevertGas(Init(calls)) + if Reverts(Last(calls).answer) then Last(calls).answer.gasWei else 0
  }

  /** Gas of every call that landed or reverted. */
  function GasOf(calls: seq<Call>): nat {
    if calls == [] then 0
    else (
      var a := Last(calls).answer;
      GasOf(Init(calls)) + if Reverts(a) || Lands(a) then a.gasWei else 0
    )
  }

  function Losses(calls: seq<Call>): nat {
    if calls == [] then 0
    else Losses(Init(calls)) + if Lands(Last(calls).answer) then Max(-(Last(calls).answer.netWei as int), 0) else 0
  }

  // ----- who is called

  /** Why a candidate is not called; None when it is. */
  function Barred(p: LedgerPolicy, fills: seq<PaperFill>, wallet: u128, x: Opportunity): Option<SkipReason> {
    if x.strategy.Jit? then Some(ExecStrategyUnsupported)
    else if NetWei(x) <= 0 then Some(NonPositiveNet)
    else if CountIn(fills, x.blockNumber) >= Max(1, Min(p.maxFillsPerBlock, 32)) then Some(MaxFillsPerBlock)
    else if wallet <= p.reserveWei || x.gasCostWei > wallet - p.reserveWei then Some(InsufficientGas)
    else None
  }

  /** The fill of a call after the fills so far. */
  ghost predicate IsFillOf(fills: seq<PaperFill>, c: Call, f: PaperFill) {
    && Names(f.id, c.opp)
    && f.netWei == c.answer.netWei && f.gasWei == c.answer.gasWei
    && f.grossWei == Min(c.answer.netWei + c.answer.gasWei, U128_MAX)
    && f.walletBefore == c.wallet && f.walletAfter == WalletNext(c.wallet, c.answer)
    && SeqSet(f.pools) == PoolSet(c.opp) && f.mempoolOnly == c.opp.mempoolOnly
    && f.borrowedWei == Min(c.opp.inputAmount, U128_MAX)
    && (f.stateDrift <==> CountIn(fills, c.opp.blockNumber) >= 1)
  }

  /** Considering the candidates of `turn` one after another makes these calls and
      reports these fills and skips. */
  ghost predicate Executed(p: LedgerPolicy, run: Backend, turn: seq<Opportunity>, calls: seq<Call>,
                           fills: seq<PaperFill>, skips: seq<PaperSkip>) {
    if turn == [] then calls == [] && fills == [] && skips == []
    else
      var before, x := Init(turn), Last(turn);
      || (skips != [] && Barred(p, fills, WalletAt(p, calls), x) == Some(Last(skips).reason)
          && Names(Last(skips).id, x)
          && Executed(p, run, before, calls, fills, Init(skips)))
      || (calls != [] && IsCallOf(p, run, Init(calls), x, Last(calls))
          && skips != [] && Barred(p, fills, Last(calls).wallet, x).None?
          && Names(Last(skips).id, x)
          && Rejected(Last(calls).answer) == Some(Last(skips).reason)
          && Executed(p, run, before, Init(calls), fills, Init(skips)))
      || (calls != [] && IsCallOf(p, run, Init(calls), x, Last(calls))
          && fills != [] && Barred(p, Init(fills), Last(calls).wallet, x).None?
          && Rejected(Last(calls).answer).None? && IsFillOf(Init(fills), Last(calls), Last(fills))
          && Executed(p, run, before, Init(calls), Init(fills), skips))
  }

  /** The call is the next one, for `x`, with the wallet that the calls so far leave. */
  ghost predicate IsCallOf(p: LedgerPolicy, run: Backend, calls: seq<Call>, x: Opportunity, c: Call) {
    c.opp == x && c.wallet == WalletAt(p, calls) && c.answer == run(|calls|, x, c.wallet)
  }

  // ----- the loop's accumulators agree with the calls and fills

  ghost predicate Tracks(p: LedgerPolicy, s: Run, calls: seq<Call>) {
    && s.calls == |calls| && s.wallet == WalletAt(p, calls)
    && s.execOk == |s.fills| && s.execRevert == CountReverts(calls)
    && s.revertGas == Min(RevertGas(calls), U128_MAX)
    && s.execLoss == Min(Losses(calls), U128_MAX)
    && s.gas == Min(GasOf(calls), U128_MAX)
    && s.gross == Min(GrossSum(s.fills), U128_MAX)
    && BestOf(s.fills, s.best)
  }

  lemma GatesBar(p: LedgerPolicy, fills: seq<PaperFill>, wallet: u128, x: Opportunity, count: nat)
    requires count == CountIn(fills, x.blockNumber)
    ensures ExecGate(p, x, wallet, count) == Barred(p, fills, wallet, x)
  {
    hide CountIn, NetWei;
  }

  lemma RevertMoves(wallet: u128, gas: u128)
    ensures SatAddSigned(wallet, NegI128(AsI128(gas)))
         == if gas <= TWO_127 then Max(wallet - gas, 0) else Min(wallet + (TWO_128 - gas), U128_MAX)
  {
  }

  lemma LossIs(net: i128)
    requires net < 0
    ensures AsU128(NegI128(net)) == -(net as int)
  {
  }

  /** What an answer does to the state, the lists aside. */
  lemma SettledTracks(p: LedgerPolicy, s: Run, calls: seq<Call>, c: Call, count: nat)
    requires Tracks(p, s, calls) && c.wallet == s.wallet
    ensures Tracks(p, Settled(s.(calls := s.calls + 1), c.opp, c.answer, count).0, calls + [c])
  {
    hide Tracks, Burned, Lost, Won, Skipped;
    var a, s0 := c.answer, s.(calls := s.calls + 1);
    if Reverts(a) {
      BurnedTracks(p, s, calls, c);
      SkipTracks(p, Burned(s0, a.gasWei), calls + [c], c.opp, ExecRevert);
    } else if a.fail.Some? {
      FailedTracks(p, s, calls, c);
      SkipTracks(p, s0, calls + [c], c.opp, a.fail.value);
    } else if a.netWei <= 0 {
      LostTracks(p, s, calls, c);
      SkipTracks(p, Lost(s0, a), calls + [c], c.opp, NonPositiveNet);
    } else {
      WonTracks(p, s, calls, c, count);
    }
  }

  lemma BurnedTracks(p: LedgerPolicy, s: Run, calls: seq<Call>, c: Call)
    requires Tracks(p, s, calls) && c.wallet == s.wallet && Reverts(c.answer)
    ensures Tracks(p, Burned(s.(calls := s.calls + 1), c.answer.gasWei), calls + [c])
  {
    hide WalletAt, CountReverts, RevertGas, Losses, GasOf, NewPeak, NewDrawdown, SatAddSigned, NegI128, AsI128, GrossSum;
    CallsSnoc(p, calls, c);
    RevertMoves(s.wallet, c.answer.gasWei);
  }

  lemma FailedTracks(p: LedgerPolicy, s: Run, calls: seq<Call>, c: Call)
    requires Tracks(p, s, calls) && c.wallet == s.wallet && !Reverts(c.answer) && !Lands(c.answer)
    ensures Tracks(p, s.(calls := s.calls + 1), calls + [c])
  {
    hide WalletAt, CountReverts, RevertGas, Losses, GasOf, GrossSum;
    CallsSnoc(p, calls, c);
  }

  lemma LostTracks(p: LedgerPolicy, s: Run, calls: seq<Call>, c: Call)
    requires Tracks(p, s, calls) && c.wallet == s.wallet && Lands(c.answer) && c.answer.netWei <= 0
    ensures Tracks(p, Lost(s.(calls := s.calls + 1), c.answer), calls + [c])
  {
    hide WalletAt, CountReverts, RevertGas, Losses, GasOf, NewPeak, NewDrawdown, SatAddSigned, NegI128, AsU128, GrossSum;
    CallsSnoc(p, calls, c);
    MovedWallet(s.wallet, c.answer.netWei);
    if c.answer.netWei < 0 {
      LossIs(c.answer.netWei);
    }
  }

  lemma MovedWallet(wallet: u128, net: i128)
    ensures SatAddSigned(wallet, net) == Max(Min(wallet + net, U128_MAX), 0)
  {
  }

  lemma CallsSnoc(p: LedgerPolicy, calls: seq<Call>, c: Call)
    ensures WalletAt(p, calls + [c]) == WalletNext(WalletAt(p, calls), c.answer)
    ensures CountReverts(calls + [c]) == CountReverts(calls) + if Reverts(c.answer) then 1 else 0
    ensures RevertGas(calls + [c]) == RevertGas(calls) + if Reverts(c.answer) then c.answer.gasWei else 0
    ensures GasOf(calls + [c]) == GasOf(calls) + if Reverts(c.answer) || Lands(c.answer) then c.answer.gasWei else 0
    ensures Losses(calls + [c]) == Losses(calls) + if Lands(c.answer) then Max(-(c.answer.netWei as int), 0) else 0
  {
    assert Init(calls + [c]) == calls && Last(calls + [c]) == c;
  }

  lemma WonTracks(p: LedgerPolicy, s: Run, calls: seq<Call>, c: Call, count: nat)
    requires Tracks(p, s, calls) && c.wallet == s.wallet && Lands(c.answer) && c.answer.netWei > 0
    ensures Tracks(p, Won(s.(calls := s.calls + 1), c.opp, c.answer, count), calls + [c])
  {
    hide WalletAt, CountReverts, RevertGas, Losses, GasOf, IdentOf, PoolsOf, U256ToU128, NewPeak, NewDrawdown,
         SatAddSigned, WrapI128, GrossSum, BestOf;
    var s' := Won(s.(calls := s.calls + 1), c.opp, c.answer, count);
    var f := ExecFill(c.opp, c.answer, s.wallet, s'.wallet, count >= 1);
    CallsSnoc(p, calls, c);
    MovedWallet(s.wallet, c.answer.netWei);
    SumsAppend(s.fills, f);
    BestSnoc(s.fills, f, s.best);
  }

  lemma SkipTracks(p: LedgerPolicy, s: Run, calls: seq<Call>, x: Opportunity, reason: SkipReason)
    requires Tracks(p, s, calls)
    ensures Tracks(p, Skipped(s, x, reason), calls)
  {
    hide WalletAt, CountReverts, RevertGas, Losses, GasOf, GrossSum;
  }

  /** What an answer does to the lists. */
  lemma SettledLists(s: Run, c: Call, count: nat)
    requires c.wallet == s.wallet && count == CountIn(s.fills, c.opp.blockNumber)
    ensures var (s', filled) := Settled(s, c.opp, c.answer, count);
      && (filled <==> Rejected(c.answer).None?)
      && (filled ==> s'.skips == s.skips && s'.fills != [] && Init(s'.fills) == s.fills
                     && IsFillOf(s.fills, c, Last(s'.fills)))
      && (!filled ==> s'.fills == s.fills
                      && s'.skips == s.skips + [PaperSkip(IdentOf(c.opp), Rejected(c.answer).value)])
  {
    hide CountIn, PoolsOf, PoolSet, IdentOf, Names, NewPeak, NewDrawdown, NegI128, AsI128;
    PoolsOfIsPoolSet(c.opp);
    IdentNames(c.opp);
  }

  /** One candidate in its turn. */
  lemma AttemptIsExecuted(p: LedgerPolicy, run: Backend, turn: seq<Opportunity>, calls: seq<Call>, s: Run,
                          x: Opportunity, count: nat) returns (calls': seq<Call>)
    requires Tracks(p, s, calls) && Executed(p, run, turn, calls, s.fills, s.skips)
    requires count == CountIn(s.fills, x.blockNumber)
    ensures var (s', filled) := Attempt(p, run, x, s, count);
      && Tracks(p, s', calls') && Executed(p, run, turn + [x], calls', s'.fills, s'.skips)
      && (if filled then CountIn(s'.fills, x.blockNumber) == count + 1 && s'.fills != [] && Init(s'.fills) == s.fills
                         && Last(s'.fills).id.block == x.blockNumber
          else s'.fills == s.fills)
  {
    hide Tracks, Settled, Barred, ExecGate, Rejected, IsFillOf, WalletAt, IdentOf, Names;
    IdentNames(x);
    assert Init(turn + [x]) == turn && Last(turn + [x]) == x;
    GatesBar(p, s.fills, s.wallet, x, count);
    assert s.wallet == WalletAt(p, calls) && s.calls == |calls| by { TracksWallet(p, s, calls); }
    var gate := ExecGate(p, x, s.wallet, count);
    if gate.Some? {
      calls' := calls;
      SkipTracks(p, s, calls, x, gate.value);
      assert Init(s.skips + [PaperSkip(IdentOf(x), gate.value)]) == s.skips;
    } else {
      var c := Call(x, s.wallet, run(s.calls, x, s.wallet));
      calls' := calls + [c];
      var (s', filled) := Settled(s.(calls := s.calls + 1), x, c.answer, count);
      SettledTracks(p, s, calls, c, count);
      SettledLists(s.(calls := s.calls + 1), c, count);
      assert Init(calls') == calls && Last(calls') == c;
      if filled {
        FillBlock(s.fills, c, Last(s'.fills));
      } else {
        assert Init(s'.skips) == s.skips;
      }
    }
  }

  lemma FillBlock(fills: seq<PaperFill>, c: Call, f: PaperFill)
    requires IsFillOf(fills, c, f)
    ensures f.id.block == c.opp.blockNumber
  {
  }

  lemma TracksWallet(p: LedgerPolicy, s: Run, calls: seq<Call>)
    requires Tracks(p, s, calls)
    ensures s.wallet == WalletAt(p, calls) && s.calls == |calls|
  {
  }

  lemma {:induction false} BlockIsExecuted(p: LedgerPolicy, run: Backend, b: int, turn: seq<Opportunity>,
                                           l: seq<Opportunity>, calls: seq<Call>, s: Run, count: nat)
    returns (calls': seq<Call>)
    requires Tracks(p, s, calls) && Executed(p, run, turn, calls, s.fills, s.skips)
    requires count == CountIn(s.fills, b) && forall x :: x in l ==> BlockOf(x) == b
    requires forall f :: f in s.fills ==> f.id.block <= b
    ensures var s' := AttemptAll(p, run, l, s, count);
      && Tracks(p, s', calls') && Executed(p, run, turn + l, calls', s'.fills, s'.skips)
      && forall f :: f in s'.fills ==> f.id.block <= b
    decreases |l|
  {
    hide Tracks, Executed, Attempt, CountIn;
    calls' := calls;
    if l == [] {
      assert turn + l == turn;
    } else {
      assert l[0] in l;
      calls' := AttemptIsExecuted(p, run, turn, calls, s, l[0], count);
      var (s', filled) := Attempt(p, run, l[0], s, count);
      forall f | f in s'.fills ensures f.id.block <= b {
        if filled {
          assert s'.fills == s.fills + [Last(s'.fills)];
        }
      }
      calls' := BlockIsExecuted(p, run, b, turn + [l[0]], l[1..], calls', s', if filled then count + 1 else count);
      assert turn + [l[0]] + l[1..] == turn + l;
    }
  }

  lemma {:induction false} RunIsExecuted(p: LedgerPolicy, run: Backend, groups: seq<Group<Opportunity>>,
                                         turn: seq<Opportunity>, calls: seq<Call>, s: Run)
    returns (calls': seq<Call>)
    requires Filed(BlockOf, groups) && Tracks(p, s, calls) && Executed(p, run, turn, calls, s.fills, s.skips)
    requires groups != [] ==> forall f :: f in s.fills ==> f.id.block < groups[0].key
    ensures var s' := ExecBlocks(p, run, groups, s);
            Tracks(p, s', calls') && Executed(p, run, turn + InTurn(groups), calls', s'.fills, s'.skips)
    decreases |groups|
  {
    hide AttemptAll, SortOpps, Tracks, Executed, CountIn;
    calls' := calls;
    if groups == [] {
      assert turn + InTurn(groups) == turn;
    } else {
      var g := groups[0];
      assert g in groups;
      SortedItems(g);
      NoneCountedBeyond(s.fills, g.key);
      calls' := BlockIsExecuted(p, run, g.key, turn, SortOpps(g.items), calls, s, 0);
      calls' := RunIsExecuted(p, run, groups[1..], turn + SortOpps(g.items), calls',
                              AttemptAll(p, run, SortOpps(g.items), s, 0));
      assert turn + SortOpps(g.items) + InTurn(groups[1..]) == turn + InTurn(groups);
    }
  }

  /** For every backend: the run's calls, fills and skips are those of considering
      each candidate in turn by the calls and fills before it, and its totals are
      those of the calls: who reverted, what reverting burned, what landing lost. */
  lemma ExecutionIsJudged(p: LedgerPolicy, run: Backend, opps: seq<Opportunity>) returns (calls: seq<Call>)
    ensures var s := FinalRun(p, run, opps); var r := ExecReport(p, s, opps);
      && Executed(p, run, InTurn(ByBlock(opps)), calls, r.fills, r.skips)
      && s.calls == |calls| && r.endingGasWei == WalletAt(p, calls)
      && r.execOk == |r.fills| && r.execRevert == CountReverts(calls)
      && r.revertGasWei == Min(RevertGas(calls), U128_MAX)
      && r.execLossWei == Min(Losses(calls), U128_MAX)
      && r.gasWei == Min(GasOf(calls), U128_MAX) && r.grossWei == Min(GrossSum(r.fills), U128_MAX)
      && BestOf(r.fills, r.bestNetWei)
  {
    hide ExecBlocks, Grouped, Filed, InTurn, Executed;
    GroupedIsFiled(BlockOf, opps);
    NothingExecuted(p, run);
    calls := RunIsExecuted(p, run, ByBlock(opps), [], [], Begin(p));
    assert [] + InTurn(ByBlock(opps)) == InTurn(ByBlock(opps));
  }

  lemma NothingExecuted(p: LedgerPolicy, run: Backend)
    ensures Executed(p, run, [], [], [], []) && Tracks(p, Begin(p), [])
  {
  }

  // ----- what follows

  /** Every call is for a candidate whose strategy can be executed, with a positive
      claimed net and gas that fits above the reserve in the wallet shown; and no
      block has more fills than the cap. */
  lemma {:induction false} CallsAreAdmitted(p: LedgerPolicy, run: Backend, turn: seq<Opportunity>, calls: seq<Call>,
                                            fills: seq<PaperFill>, skips: seq<PaperSkip>)
    requires Executed(p, run, turn, calls, fills, skips)
    ensures forall c :: c in calls ==>
      && c.opp in turn && !c.opp.strategy.Jit? && NetWei(c.opp) > 0
      && c.opp.gasCostWei + p.reserveWei <= c.wallet && p.reserveWei < c.wallet
    ensures forall b :: CountIn(fills, b) <= Max(1, Min(p.maxFillsPerBlock, 32))
    decreases |turn|
  {
    hide WalletAt, NetWei, PoolSet, Rejected, WalletNext;
    if turn != [] {
      var before, x := Init(turn), Last(turn);
      assert turn == before + [x];
      if skips != [] && Executed(p, run, before, calls, fills, Init(skips)) {
        CallsAreAdmitted(p, run, before, calls, fills, Init(skips));
      } else {
        assert calls == Init(calls) + [Last(calls)];
        if skips != [] && Executed(p, run, before, Init(calls), fills, Init(skips)) {
          CallsAreAdmitted(p, run, before, Init(calls), fills, Init(skips));
        } else {
          CallsAreAdmitted(p, run, before, Init(calls), Init(fills), skips);
        }
      }
    }
  }

  /** So it is in every executed run. */
  lemma ExecutedRunIsAdmitted(p: LedgerPolicy, run: Backend, opps: seq<Opportunity>)
    ensures forall b :: CountIn(FinalRun(p, run, opps).fills, b) <= Max(1, Min(p.maxFillsPerBlock, 32))
  {
    hide Executed, FinalRun, InTurn, Grouped, CountIn;
    var calls := ExecutionIsJudged(p, run, opps);
    CallsAreAdmitted(p, run, InTurn(ByBlock(opps)), calls, FinalRun(p, run, opps).fills, FinalRun(p, run, opps).skips);
  }
}
