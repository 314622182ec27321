/** The ledger booked from an execution backend. The backend is adversarial: a
    call may succeed, revert, fail to build or lose money. Its answers are a
    function of the call's position, so it may remember earlier calls. */
module LedgerExecuted {
  import opened RustInts
  import opened PaperTypes
  import opened OrderedGroups
  import opened LedgerOrder
  import opened Ledger
  import opened LedgerInvariants
  import opened DisjointChoice
  import opened Multisets
  import opened FillSums
  import opened Sequences

  /** The `n`-th call of the callback, with its candidate and the wallet. */
  type Backend = (nat, Opportunity, u128) -> ExecAttempt

  /** The ledger state of an executed run. `trace` lists the wallet at the start
      and after every change. */
  datatype Run = Run(
    wallet: u128,
    peak: u128,
    maxDrawdown: u128,
    fills: seq<PaperFill>,
    skips: seq<PaperSkip>,
    gross: u128,
    gas: u128,
    net: i128,
    best: i128,
    execOk: nat,
    execRevert: nat,
    revertGas: u128,
    execLoss: u128,
    calls: nat,
    trace: seq<u128>
  )

  function Begin(p: LedgerPolicy): Run {
    Run(p.startingGasWei, p.startingGasWei, 0, [], [], 0, 0, 0, 0, 0, 0, 0, 0, 0, [p.startingGasWei])
  }

  /** `apply_wallet_delta`: move the wallet, then the high-water mark or the drawdown. */
  function Moved(s: Run, delta: i128): Run {
    var w := SatAddSigned(s.wallet, delta);
    s.(wallet := w, peak := NewPeak(s.peak, w), maxDrawdown := NewDrawdown(s.peak, s.maxDrawdown, w), trace := s.trace + [w])
  }

  method ApplyWalletDelta(wallet: u128, peak: u128, maxDrawdown: u128, delta: i128)
    returns (wallet': u128, peak': u128, maxDrawdown': u128)
    ensures wallet' == SatAddSigned(wallet, delta)
    ensures peak' == NewPeak(peak, wallet')
    ensures maxDrawdown' == NewDrawdown(peak, maxDrawdown, wallet')
  {
    wallet', peak', maxDrawdown' := SatAddSigned(wallet, delta), peak, maxDrawdown;
    if wallet' > peak' {
      peak' := wallet';
    } else {
      var dd := SatSubU128(peak', wallet');
      if dd > maxDrawdown' {
        maxDrawdown' := dd;
      }
    }
  }

  function Skipped(s: Run, opp: Opportunity, reason: SkipReason): Run {
    s.(skips := s.skips + [PaperSkip(IdentOf(opp), reason)])
  }

  function ExecGate(p: LedgerPolicy, opp: Opportunity, wallet: u128, count: nat): Option<SkipReason> {
    if !IsSimulatable(opp.strategy) then Some(ExecStrategyUnsupported)
    else if !IsNativeEligible(opp.strategy) then Some(NotNativeUnit)
    else if NetWei(opp) <= 0 then Some(NonPositiveNet)
    else if count >= p.Cap() then Some(MaxFillsPerBlock)
    else if wallet <= p.reserveWei then Some(InsufficientGas)
    else if opp.gasCostWei > SatSubU128(wallet, p.reserveWei) then Some(InsufficientGas)
    else None
  }

  /** A reverted attempt burns its gas. */
  function Burned(s: Run, gas: u128): Run {
    var c := s.(execRevert := s.execRevert + 1);
    if gas == 0 then c
    else Moved(c, NegI128(AsI128(gas))).(revertGas := SatAddU128(s.revertGas, gas), gas := SatAddU128(s.gas, gas))
  }

  /** A successful attempt that did not gain anything. */
  function Lost(s: Run, a: ExecAttempt): Run {
    Moved(s, a.netWei).(
      execLoss := if a.netWei < 0 then SatAddU128(s.execLoss, AsU128(NegI128(a.netWei))) else s.execLoss,
      gas := SatAddU128(s.gas, a.gasWei))
  }

  function ExecFill(opp: Opportunity, a: ExecAttempt, before: u128, after: u128, drift: bool): PaperFill {
    PaperFill(IdentOf(opp), SatAddU128(AsU128(a.netWei), a.gasWei), a.gasWei, a.netWei, before, after,
              PoolsOf(opp), opp.mempoolOnly, U256ToU128(opp.inputAmount), drift)
  }

  function Won(s: Run, opp: Opportunity, a: ExecAttempt, count: nat): Run {
    var m := Moved(s, a.netWei);
    m.(execOk := s.execOk + 1,
       fills := s.fills + [ExecFill(opp, a, s.wallet, m.wallet, count >= 1)],
       gross := SatAddU128(s.gross, SatAddU128(AsU128(a.netWei), a.gasWei)),
       gas := SatAddU128(s.gas, a.gasWei),
       net := WrapI128(s.net + a.netWei),
       best := Max(s.best, a.netWei))
  }

  /** What one attempt does to the run; the flag says whether it became a fill. */
  function Settled(s: Run, opp: Opportunity, a: ExecAttempt, count: nat): (Run, bool) {
    if a.fail.Some? then
      (Skipped(if a.fail.value == ExecRevert then Burned(s, a.gasWei) else s, opp, a.fail.value), false)
    else if !a.status then (Skipped(Burned(s, a.gasWei), opp, ExecRevert), false)
    else if a.netWei <= 0 then (Skipped(Lost(s, a), opp, NonPositiveNet), false)
    else (Won(s, opp, a, count), true)
  }

  function Attempt(p: LedgerPolicy, run: Backend, opp: Opportunity, s: Run, count: nat): (Run, bool) {
    match ExecGate(p, opp, s.wallet, count)
    case Some(reason) => (Skipped(s, opp, reason), false)
    case None => Settled(s.(calls := s.calls + 1), opp, run(s.calls, opp, s.wallet), count)
  }

  function AttemptAll(p: LedgerPolicy, run: Backend, opps: seq<Opportunity>, s: Run, count: nat): Run {
    if opps == [] then s
    else
      var (s', filled) := Attempt(p, run, opps[0], s, count);
      AttemptAll(p, run, opps[1..], s', if filled then count + 1 else count)
  }

  function ExecBlocks(p: LedgerPolicy, run: Backend, groups: seq<Group<Opportunity>>, s: Run): Run {
    if groups == [] then s
    else ExecBlocks(p, run, groups[1..], AttemptAll(p, run, SortOpps(groups[0].items), s, 0))
  }

  function FinalRun(p: LedgerPolicy, run: Backend, opps: seq<Opportunity>): Run {
    ExecBlocks(p, run, ByBlock(opps), Begin(p))
  }

  function ExecReport(p: LedgerPolicy, s: Run, opps: seq<Opportunity>): LedgerResult {
    LedgerResult(p.startingGasWei, s.wallet, p.reserveWei, s.maxDrawdown, s.fills, s.skips, s.gross, s.gas,
                 s.net, s.best, FirstBlock(opps), LastBlock(opps), s.execOk, s.execRevert, s.revertGas, s.execLoss)
  }

  method ExecuteBlock(p: LedgerPolicy, run: Backend, opps: seq<Opportunity>, s0: Run) returns (s: Run)
    ensures s == AttemptAll(p, run, opps, s0, 0)
  {
    hide NetWei, PoolsOf, IdentOf, U256ToU128, IsNativeEligible, IsSimulatable;
    s := s0;
    var fillsThisBlock := 0;
    assert opps[0..] == opps;
    for i := 0 to |opps|
      invariant AttemptAll(p, run, opps, s0, 0) == AttemptAll(p, run, opps[i..], s, fillsThisBlock)
    {
      var opp := opps[i];
      assert opps[i..][0] == opp && opps[i..][1..] == opps[i + 1..];
      if !IsSimulatable(opp.strategy) {
        s := Skipped(s, opp, ExecStrategyUnsupported);
      } else if !IsNativeEligible(opp.strategy) {
        s := Skipped(s, opp, NotNativeUnit);
      } else if NetWei(opp) <= 0 {
        s := Skipped(s, opp, NonPositiveNet);
      } else if fillsThisBlock >= p.Cap() {
        s := Skipped(s, opp, MaxFillsPerBlock);
      } else if s.wallet <= p.reserveWei || opp.gasCostWei > SatSubU128(s.wallet, p.reserveWei) {
        s := Skipped(s, opp, InsufficientGas);
      } else {
        var attempt := run(s.calls, opp, s.wallet);
        s := s.(calls := s.calls + 1);
        var filled := false;
        s, filled := SettleAttempt(s, opp, attempt, fillsThisBlock);
        if filled {
          fillsThisBlock := fillsThisBlock + 1;
        }
      }
    }
    assert opps[|opps|..] == [];
  }

  /** The branches on one attempt's answer. */
  method SettleAttempt(s0: Run, opp: Opportunity, a: ExecAttempt, count: nat) returns (s: Run, filled: bool)
    ensures (s, filled) == Settled(s0, opp, a, count)
  {
    s, filled := s0, false;
    if a.fail.Some? || !a.status {
      var reason := if a.fail.Some? then a.fail.value else ExecRevert;
      if reason == ExecRevert {
        s := s.(execRevert := s.execRevert + 1);
        if a.gasWei > 0 {
          var w, k, d := ApplyWalletDelta(s.wallet, s.peak, s.maxDrawdown, NegI128(AsI128(a.gasWei)));
          s := s.(wallet := w, peak := k, maxDrawdown := d, trace := s.trace + [w],
                  revertGas := SatAddU128(s.revertGas, a.gasWei), gas := SatAddU128(s.gas, a.gasWei));
        }
      }
      s := s.(skips := s.skips + [PaperSkip(IdentOf(opp), reason)]);
      return;
    }
    var before := s.wallet;
    var w, k, d := ApplyWalletDelta(s.wallet, s.peak, s.maxDrawdown, a.netWei);
    s := s.(wallet := w, peak := k, maxDrawdown := d, trace := s.trace + [w], gas := SatAddU128(s.gas, a.gasWei));
    if a.netWei <= 0 {
      if a.netWei < 0 {
        s := s.(execLoss := SatAddU128(s.execLoss, AsU128(NegI128(a.netWei))));
      }
      s := s.(skips := s.skips + [PaperSkip(IdentOf(opp), NonPositiveNet)]);
    } else {
      filled := true;
      s := s.(execOk := s.execOk + 1,
              fills := s.fills + [ExecFill(opp, a, before, w, count + 1 > 1)],
              gross := SatAddU128(s.gross, SatAddU128(AsU128(a.netWei), a.gasWei)),
              net := WrapI128(s.net + a.netWei),
              best := Max(s.best, a.netWei));
    }
  }

  method ApplyExecuted(p: LedgerPolicy, run: Backend, opportunities: seq<Opportunity>) returns (r: LedgerResult)
    ensures r == ExecReport(p, FinalRun(p, run, opportunities), opportunities)
  {
    var byBlock: seq<Group<Opportunity>> := [];
    for i := 0 to |opportunities|
      invariant byBlock == ByBlock(opportunities[..i])
    {
      assert opportunities[..i + 1][..i] == opportunities[..i];
      byBlock := Upsert(byBlock, BlockOf(opportunities[i]), opportunities[i]);
    }
    assert opportunities[..|opportunities|] == opportunities;
    var s := Begin(p);
    assert byBlock[0..] == byBlock;
    for g := 0 to |byBlock|
      invariant ExecBlocks(p, run, byBlock[g..], s) == FinalRun(p, run, opportunities)
    {
      assert byBlock[g..][0] == byBlock[g] && byBlock[g..][1..] == byBlock[g + 1..];
      s := ExecuteBlock(p, run, SortOpps(byBlock[g].items), s);
    }
    assert byBlock[|byBlock|..] == [];
    r := ExecReport(p, s, opportunities);
  }

  // ----- drawdown

  /** `d` is the largest drop from an earlier to a later point of the trace. */
  ghost predicate IsMaxDrawdown(trace: seq<u128>, d: int) {
    && (exists i, j :: 0 <= i <= j < |trace| && trace[i] as int - trace[j] == d)
    && (forall i, j :: 0 <= i <= j < |trace| ==> trace[i] as int - trace[j] <= d)
  }

  ghost predicate Tracked(s: Run) {
    && s.trace != [] && s.wallet == s.trace[|s.trace| - 1]
    && s.peak in s.trace && (forall w :: w in s.trace ==> w <= s.peak)
    && IsMaxDrawdown(s.trace, s.maxDrawdown)
  }

  lemma DrawdownIsReached(t: seq<u128>, peak: u128, d: u128, w: u128)
    requires peak in t && IsMaxDrawdown(t, d)
    ensures var t', d' := t + [w], NewDrawdown(peak, d, w);
            exists i, j :: 0 <= i <= j < |t'| && t'[i] as int - t'[j] == d'
  {
    var t', d' := t + [w], NewDrawdown(peak, d, w);
    var i0, j0 :| 0 <= i0 <= j0 < |t| && t[i0] as int - t[j0] == d;
    var k :| 0 <= k < |t| && t[k] == peak;
    if d' == d {
      assert t'[i0] as int - t'[j0] == d';
    } else {
      assert t'[k] as int - t'[|t|] == d';
    }
  }

  lemma DrawdownIsBounded(t: seq<u128>, peak: u128, d: u128, w: u128, i: nat, j: nat)
    requires t != [] && (forall x :: x in t ==> x <= peak) && IsMaxDrawdown(t, d)
    requires i <= j <= |t|
    ensures (t + [w])[i] as int - (t + [w])[j] <= NewDrawdown(peak, d, w)
  {
    assert t[0] as int - t[0] <= d;
    if j < |t| {
      assert t[i] as int - t[j] <= d;
    } else if i < |t| {
      assert t[i] in t;
    }
  }

  lemma DrawdownStep(t: seq<u128>, peak: u128, d: u128, w: u128)
    requires t != [] && peak in t && (forall x :: x in t ==> x <= peak) && IsMaxDrawdown(t, d)
    ensures IsMaxDrawdown(t + [w], NewDrawdown(peak, d, w))
    ensures NewPeak(peak, w) in t + [w] && (forall x :: x in t + [w] ==> x <= NewPeak(peak, w))
  {
    hide NewDrawdown;
    DrawdownIsReached(t, peak, d, w);
    forall i, j | 0 <= i <= j < |t + [w]| ensures (t + [w])[i] as int - (t + [w])[j] <= NewDrawdown(peak, d, w) {
      DrawdownIsBounded(t, peak, d, w, i, j);
    }
  }

  lemma MovedKeepsTracked(s: Run, delta: i128)
    requires Tracked(s)
    ensures Tracked(Moved(s, delta))
  {
    hide IsMaxDrawdown;
    DrawdownStep(s.trace, s.peak, s.maxDrawdown, SatAddSigned(s.wallet, delta));
  }

  lemma AttemptKeepsTracked(p: LedgerPolicy, run: Backend, opp: Opportunity, s: Run, count: nat)
    requires Tracked(s)
    ensures Tracked(Attempt(p, run, opp, s, count).0)
  {
    hide IsMaxDrawdown, NetWei, PoolsOf, IdentOf, WrapI128, AsI128, NegI128, Moved;
    var c := s.(calls := s.calls + 1);
    var a := run(s.calls, opp, s.wallet);
    MovedKeepsTracked(c.(execRevert := c.execRevert + 1), NegI128(AsI128(a.gasWei)));
    MovedKeepsTracked(c, a.netWei);
  }

  lemma {:induction false} BlockKeepsTracked(p: LedgerPolicy, run: Backend, opps: seq<Opportunity>, s: Run, count: nat)
    requires Tracked(s)
    ensures Tracked(AttemptAll(p, run, opps, s, count))
  {
    hide Attempt, Tracked;
    if opps != [] {
      AttemptKeepsTracked(p, run, opps[0], s, count);
      var (s', filled) := Attempt(p, run, opps[0], s, count);
      BlockKeepsTracked(p, run, opps[1..], s', if filled then count + 1 else count);
    }
  }

  lemma {:induction false} RunKeepsTracked(p: LedgerPolicy, run: Backend, groups: seq<Group<Opportunity>>, s: Run)
    requires Tracked(s)
    ensures Tracked(ExecBlocks(p, run, groups, s))
  {
    hide AttemptAll, Tracked, SortOpps;
    if groups != [] {
      BlockKeepsTracked(p, run, SortOpps(groups[0].items), s, 0);
      RunKeepsTracked(p, run, groups[1..], AttemptAll(p, run, SortOpps(groups[0].items), s, 0));
    }
  }

  /** Whatever the backend does, saturating steps included, the reported
      drawdown is the largest drop of the wallet over the whole run. */
  lemma DrawdownIsTheMaximumDrop(p: LedgerPolicy, run: Backend, opps: seq<Opportunity>)
    ensures var s := FinalRun(p, run, opps); var r := ExecReport(p, s, opps);
      && s.trace != [] && s.trace[0] == p.startingGasWei && s.trace[|s.trace| - 1] == r.endingGasWei
      && IsMaxDrawdown(s.trace, r.maxDrawdownWei)
  {
    hide ExecBlocks, IsMaxDrawdown;
    BeginIsTracked(p);
    RunKeepsTracked(p, run, ByBlock(opps), Begin(p));
    RunExtendsTrace(p, run, ByBlock(opps), Begin(p));
  }

  lemma BeginIsTracked(p: LedgerPolicy)
    ensures Tracked(Begin(p))
  {
    var t := Begin(p).trace;
    assert t[0] as int - t[0] == 0;
  }

  lemma {:induction false} BlockExtendsTrace(p: LedgerPolicy, run: Backend, opps: seq<Opportunity>, s: Run, count: nat)
    ensures s.trace <= AttemptAll(p, run, opps, s, count).trace
  {
    hide NetWei, PoolsOf, IdentOf, WrapI128, AsI128, NegI128, ExecGate;
    if opps != [] {
      var (s', filled) := Attempt(p, run, opps[0], s, count);
      BlockExtendsTrace(p, run, opps[1..], s', if filled then count + 1 else count);
    }
  }

  lemma {:induction false} RunExtendsTrace(p: LedgerPolicy, run: Backend, groups: seq<Group<Opportunity>>, s: Run)
    ensures s.trace <= ExecBlocks(p, run, groups, s).trace
  {
    hide AttemptAll, SortOpps;
    if groups != [] {
      BlockExtendsTrace(p, run, SortOpps(groups[0].items), s, 0);
      RunExtendsTrace(p, run, groups[1..], AttemptAll(p, run, SortOpps(groups[0].items), s, 0));
    }
  }

  // ----- conservation

  predicate Burns(a: ExecAttempt) {
    if a.fail.Some? then a.fail.value == ExecRevert else !a.status
  }

  predicate Moves(a: ExecAttempt) {
    a.fail.None? && a.status
  }

  /** An answer the wallet can pay for and hold: gas burned by a revert is in
      the wallet and survives the cast to i128, and a net neither overdraws nor
      overfills the wallet. */
  predicate Fair(a: ExecAttempt, wallet: u128) {
    && (Burns(a) ==> a.gasWei == 0 || (a.gasWei <= wallet && a.gasWei <= TWO_127))
    && (Moves(a) ==> 0 <= wallet + a.netWei <= U128_MAX)
  }

  /** The two loss counters have room for this answer. */
  predicate Countable(s: Run, a: ExecAttempt) {
    s.revertGas + a.gasWei <= U128_MAX && s.execLoss + Max(0, -(a.netWei as int)) <= U128_MAX
  }

  /** One attempt is booked without creating or destroying money exactly when
      the answer is fair. */
  lemma AttemptConservesExactlyWhenFair(s: Run, opp: Opportunity, a: ExecAttempt, count: nat)
    requires Countable(s, a)
    ensures var (s', filled) := Settled(s, opp, a, count);
            s'.wallet + s'.revertGas + s'.execLoss == s.wallet + s.revertGas + s.execLoss + (if filled then a.netWei else 0)
            <==> Fair(a, s.wallet)
  {
    hide IdentOf, PoolsOf, U256ToU128, WrapI128;
    BurnIsExactWhen(s.wallet, a.gasWei);
    LossIsExact(a.netWei);
  }

  lemma BurnIsExactWhen(wallet: u128, gas: u128)
    ensures SatAddSigned(wallet, NegI128(AsI128(gas))) == wallet - gas <==> gas == 0 || (gas <= wallet && gas <= TWO_127)
  {
  }

  lemma LossIsExact(net: i128)
    ensures net < 0 ==> AsU128(NegI128(net)) == -(net as int)
  {
  }

  /** Balanced books, as far as the loss counters did not saturate. */
  ghost predicate Balanced(p: LedgerPolicy, s: Run) {
    && (s.revertGas < U128_MAX && s.execLoss < U128_MAX ==>
          s.wallet + s.revertGas + s.execLoss == p.startingGasWei + NetSum(s.fills))
    && s.execOk == |s.fills|
    && (forall f :: f in s.fills ==> f.netWei > 0)
    && NetSum(s.fills) >= 0
    && (NetSum(s.fills) < TWO_127 ==> s.net == NetSum(s.fills))
  }

  /** The answer to an attempt is fair, if the gates let a call be made at all. */
  predicate FairAttempt(p: LedgerPolicy, run: Backend, opp: Opportunity, s: Run, count: nat) {
    ExecGate(p, opp, s.wallet, count).None? ==> Fair(run(s.calls, opp, s.wallet), s.wallet)
  }

  /** Every call that the candidates of a block lead to is answered fairly. */
  predicate FairBlock(p: LedgerPolicy, run: Backend, opps: seq<Opportunity>, s: Run, count: nat) {
    opps != [] ==>
      && FairAttempt(p, run, opps[0], s, count)
      && var (s', filled) := Attempt(p, run, opps[0], s, count);
         FairBlock(p, run, opps[1..], s', if filled then count + 1 else count)
  }

  predicate FairBlocks(p: LedgerPolicy, run: Backend, groups: seq<Group<Opportunity>>, s: Run) {
    groups != [] ==>
      && FairBlock(p, run, SortOpps(groups[0].items), s, 0)
      && FairBlocks(p, run, groups[1..], AttemptAll(p, run, SortOpps(groups[0].items), s, 0))
  }

  /** Every call that the run makes is answered fairly. */
  predicate FairRun(p: LedgerPolicy, run: Backend, opps: seq<Opportunity>) {
    FairBlocks(p, run, ByBlock(opps), Begin(p))
  }

  lemma SkippedKeepsBalanced(p: LedgerPolicy, s: Run, opp: Opportunity, reason: SkipReason)
    requires Balanced(p, s)
    ensures Balanced(p, Skipped(s, opp, reason))
  {
    hide NetSum, IdentOf;
  }

  lemma BurnedKeepsBalanced(p: LedgerPolicy, s: Run, gas: u128)
    requires Balanced(p, s) && (gas == 0 || (gas <= s.wallet && gas <= TWO_127))
    ensures Balanced(p, Burned(s, gas))
  {
    hide NetSum, NewDrawdown, NewPeak, SatAddSigned, NegI128, AsI128;
    BurnIsExactWhen(s.wallet, gas);
  }

  lemma LostKeepsBalanced(p: LedgerPolicy, s: Run, a: ExecAttempt)
    requires Balanced(p, s) && a.netWei <= 0 <= s.wallet + a.netWei
    ensures Balanced(p, Lost(s, a))
  {
    hide NetSum, NewDrawdown, NewPeak, NegI128, AsU128;
    LossIsExact(a.netWei);
  }

  lemma WonKeepsBalanced(p: LedgerPolicy, s: Run, opp: Opportunity, a: ExecAttempt, count: nat)
    requires Balanced(p, s) && 0 < a.netWei && s.wallet + a.netWei <= U128_MAX
    ensures Balanced(p, Won(s, opp, a, count))
  {
    hide NetSum, NewDrawdown, NewPeak, IdentOf, PoolsOf, U256ToU128, AsU128;
    SumsAppend(s.fills, ExecFill(opp, a, s.wallet, Moved(s, a.netWei).wallet, count >= 1));
  }

  lemma SettledKeepsBalanced(p: LedgerPolicy, s: Run, opp: Opportunity, a: ExecAttempt, count: nat)
    requires Balanced(p, s) && Fair(a, s.wallet)
    ensures Balanced(p, Settled(s, opp, a, count).0)
  {
    hide Balanced, Burned, Lost, Won, Skipped;
    if Burns(a) {
      BurnedKeepsBalanced(p, s, a.gasWei);
      SkippedKeepsBalanced(p, Burned(s, a.gasWei), opp, ExecRevert);
    } else if a.fail.Some? {
      SkippedKeepsBalanced(p, s, opp, a.fail.value);
    } else if a.netWei <= 0 {
      LostKeepsBalanced(p, s, a);
      SkippedKeepsBalanced(p, Lost(s, a), opp, NonPositiveNet);
    } else {
      WonKeepsBalanced(p, s, opp, a, count);
    }
  }

  lemma AttemptKeepsBalanced(p: LedgerPolicy, run: Backend, opp: Opportunity, s: Run, count: nat)
    requires Balanced(p, s) && FairAttempt(p, run, opp, s, count)
    ensures Balanced(p, Attempt(p, run, opp, s, count).0)
  {
    hide Settled, Fair, NetSum, IdentOf, NetWei, ExecGate;
    if ExecGate(p, opp, s.wallet, count).None? {
      SettledKeepsBalanced(p, s.(calls := s.calls + 1), opp, run(s.calls, opp, s.wallet), count);
    }
  }

  lemma {:induction false} BlockKeepsBalanced(p: LedgerPolicy, run: Backend, opps: seq<Opportunity>, s: Run, count: nat)
    requires Balanced(p, s) && FairBlock(p, run, opps, s, count)
    ensures Balanced(p, AttemptAll(p, run, opps, s, count))
  {
    hide Attempt, Balanced, FairAttempt;
    if opps != [] {
      AttemptKeepsBalanced(p, run, opps[0], s, count);
      var (s', filled) := Attempt(p, run, opps[0], s, count);
      BlockKeepsBalanced(p, run, opps[1..], s', if filled then count + 1 else count);
    }
  }

  lemma {:induction false} RunKeepsBalanced(p: LedgerPolicy, run: Backend, groups: seq<Group<Opportunity>>, s: Run)
    requires Balanced(p, s) && FairBlocks(p, run, groups, s)
    ensures Balanced(p, ExecBlocks(p, run, groups, s))
  {
    hide AttemptAll, Balanced, FairBlock, SortOpps;
    if groups != [] {
      BlockKeepsBalanced(p, run, SortOpps(groups[0].items), s, 0);
      RunKeepsBalanced(p, run, groups[1..], AttemptAll(p, run, SortOpps(groups[0].items), s, 0));
    }
  }

  // ----- one outcome for every opportunity

  /** From `s` to `s'` one fill or one skip is booked, of the opportunity `id`. */
  ghost predicate BooksOne(s: Run, s': Run, id: Ident) {
    || (s'.skips == s.skips && s'.fills != [] && s.fills == Init(s'.fills) && Last(s'.fills).id == id)
    || (s'.fills == s.fills && s'.skips != [] && s.skips == Init(s'.skips) && Last(s'.skips).id == id)
  }

  lemma AttemptBooksOne(p: LedgerPolicy, run: Backend, opp: Opportunity, s: Run, count: nat)
    ensures BooksOne(s, Attempt(p, run, opp, s, count).0, IdentOf(opp))
  {
    hide PoolsOf, NetWei, IdentOf, WrapI128, AsI128, NegI128, U256ToU128, SatAddSigned, ExecGate;
  }

  lemma BookingGivesOneOutcome(s: Run, s': Run, id: Ident)
    requires BooksOne(s, s', id)
    ensures Outcomes(s'.fills, s'.skips) == Outcomes(s.fills, s.skips) + multiset{id}
  {
  }

  lemma {:induction false} BlockGivesOneOutcomeEach(p: LedgerPolicy, run: Backend, opps: seq<Opportunity>, s: Run,
                                                    count: nat)
    ensures var s' := AttemptAll(p, run, opps, s, count);
            Outcomes(s'.fills, s'.skips) == Outcomes(s.fills, s.skips) + OppIds(opps)
  {
    hide Attempt, Outcomes, IdentOf, BooksOne;
    if opps != [] {
      var (s', filled) := Attempt(p, run, opps[0], s, count);
      AttemptBooksOne(p, run, opps[0], s, count);
      BookingGivesOneOutcome(s, s', IdentOf(opps[0]));
      BlockGivesOneOutcomeEach(p, run, opps[1..], s', if filled then count + 1 else count);
    }
  }

  lemma {:induction false} RunGivesOneOutcomeEach(p: LedgerPolicy, run: Backend, groups: seq<Group<Opportunity>>,
                                                  s: Run)
    ensures var s' := ExecBlocks(p, run, groups, s);
            Outcomes(s'.fills, s'.skips) == Outcomes(s.fills, s.skips) + OppIds(Flatten(groups))
  {
    hide AttemptAll, Outcomes, SortOpps;
    if groups != [] {
      var items := groups[0].items;
      SortOppsSorts(items);
      ImageOfPermutation(IdentOf, SortOpps(items), items);
      BlockGivesOneOutcomeEach(p, run, SortOpps(items), s, 0);
      RunGivesOneOutcomeEach(p, run, groups[1..], AttemptAll(p, run, SortOpps(items), s, 0));
      ImageAppend(IdentOf, items, Flatten(groups[1..]));
    }
  }

  /** Every opportunity ends as exactly one fill or one skip, whatever the
      backend answers. */
  lemma EveryOpportunityHasOneOutcome(p: LedgerPolicy, run: Backend, opps: seq<Opportunity>)
    ensures var s := FinalRun(p, run, opps);
            FillIds(s.fills) + SkipIds(s.skips) == OppIds(opps)
  {
    hide ExecBlocks, Grouped, Image;
    GroupedKeepsItems(BlockOf, opps);
    RunGivesOneOutcomeEach(p, run, ByBlock(opps), Begin(p));
    ImageOfPermutation(IdentOf, Flatten(ByBlock(opps)), opps);
    assert Outcomes([], []) == multiset{};
  }

  /** Money is conserved when the calls made are answered fairly: what the wallet
      ends with plus what reverts and losses cost is what it started with plus the
      booked net. */
  lemma ExecutionConservesMoney(p: LedgerPolicy, run: Backend, opps: seq<Opportunity>)
    requires FairRun(p, run, opps)
    ensures var r := ExecReport(p, FinalRun(p, run, opps), opps);
      && (r.revertGasWei < U128_MAX && r.execLossWei < U128_MAX ==>
            r.endingGasWei + r.revertGasWei + r.execLossWei == r.startingGasWei + NetSum(r.fills))
      && r.execOk == |r.fills|
      && (NetSum(r.fills) < TWO_127 ==> r.netProfitWei == NetSum(r.fills))
  {
    hide ExecBlocks, FairBlocks;
    RunKeepsBalanced(p, run, ByBlock(opps), Begin(p));
  }
}
