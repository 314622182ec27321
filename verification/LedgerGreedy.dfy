/** How good the greedy selection is: k times what the ledger books is at least
    the gain of a pool-disjoint choice, with k the most pools one candidate has. */
module LedgerGreedy {
  import opened RustInts
  import opened PaperTypes
  import opened StableSort
  import opened OrderedGroups
  import opened LedgerOrder
  import opened Ledger
  import opened LedgerRuns
  import opened LedgerInvariants
  import opened DisjointChoice
  import opened FillSums
  import opened Sequences

  /** What a candidate is worth to a chooser who may also leave it. */
  function Gain(opp: Opportunity): nat {
    Max(NetWei(opp), 0)
  }

  function Pools(opp: Opportunity): set<int> {
    set q | q in PoolSet(opp)
  }

  function TotalNet(s: seq<Opportunity>): int {
    if s == [] then 0 else NetWei(s[0]) + TotalNet(s[1..])
  }

  /** No two chosen candidates of one block touch a common pool. */
  ghost predicate PoolDisjoint(s: seq<Opportunity>) {
    forall i, j :: 0 <= i < j < |s| && s[i].blockNumber == s[j].blockNumber ==> PoolSet(s[i]) !! PoolSet(s[j])
  }

  /** The gas gate refused nobody. */
  ghost predicate GasNotBinding(skips: seq<PaperSkip>) {
    forall k :: k in skips ==> k.reason != InsufficientGas
  }

  /** The fill cap refused some candidate of block `b`. */
  ghost predicate CapBinds(skips: seq<PaperSkip>, b: int) {
    exists k :: k in skips && k.reason == MaxFillsPerBlock && k.id.block == b
  }

  /** How many of the chosen candidates are in block `b`. */
  ghost function ChosenIn(s: seq<Opportunity>, b: int): nat {
    |OfKey(BlockOf, s, b)|
  }

  lemma {:induction false} NetAtMostGain(s: seq<Opportunity>)
    ensures TotalNet(s) <= Total(Gain, s)
  {
    if s != [] {
      NetAtMostGain(s[1..]);
    }
  }

  // ----- skips only accumulate

  lemma {:induction false} SkipsGrow(p: LedgerPolicy, opps: seq<Opportunity>, s: BlockState)
    ensures forall k :: k in s.tally.skips ==> k in ConsiderAll(p, opps, s).tally.skips
  {
    if opps != [] {
      SkipsGrow(p, opps[1..], Consider(p, opps[0], s));
    }
  }

  lemma {:induction false} SkipsGrowOverBlocks(p: LedgerPolicy, groups: seq<Group<Opportunity>>, t: Tally)
    ensures forall k :: k in t.skips ==> k in RunBlocks(p, groups, t).skips
  {
    if groups != [] {
      SkipsGrow(p, SortOpps(groups[0].items), BlockState(t, {}, 0));
      SkipsGrowOverBlocks(p, groups[1..], RunBlock(p, groups[0].items, t));
    }
  }

  // ----- the charging argument

  lemma ConflictsMeansPools(opp: Opportunity, used: set<Address>)
    ensures Conflicts(opp, used) <==> !(Pools(opp) !! used)
  {
    PoolsOfIsPoolSet(opp);
    if Conflicts(opp, used) {
      var q :| q in PoolsOf(opp) && q in used;
      assert q in SeqSet(PoolsOf(opp));
      assert q in Pools(opp);
    }
    if !(Pools(opp) !! used) {
      var q :| q in Pools(opp) && q in used;
      assert q in SeqSet(PoolsOf(opp));
    }
  }

  /** `slots` counts the fills that the cap still allows in block `b`, or at
      least `more` where the cap never binds. */
  ghost predicate Slots(p: LedgerPolicy, count: nat, skips: seq<PaperSkip>, b: int, slots: nat, more: nat) {
    slots == Max(p.Cap() - count, 0) || (slots >= more && !CapBinds(skips, b))
  }

  /** Where the ledger stands inside a block. */
  ghost function StandOf(st: BlockState, slots: nat): Stand {
    Stand(st.used, slots, NetSum(st.tally.fills))
  }

  /** What one candidate does to the booked net and to the conflict set. */
  lemma ConsiderBooks(p: LedgerPolicy, h: Opportunity, st: BlockState, slots: nat, more: nat)
    requires Gate(p, h, st.tally.wallet, st.count, st.used) != Some(InsufficientGas) && more >= 1
    requires Slots(p, st.count, Consider(p, h, st).tally.skips, BlockOf(h), slots, more)
    ensures var st' := Consider(p, h, st);
            var slots' := if Gate(p, h, st.tally.wallet, st.count, st.used).None? then slots - 1 else slots;
            && slots' >= 0
            && GreedyStep(Gain, Pools, h, StandOf(st, slots), StandOf(st', slots'))
            && (slots == Max(p.Cap() - st.count, 0) ==> slots' == Max(p.Cap() - st'.count, 0))
  {
    hide NetWei, PoolsOf;
    ConflictsMeansPools(h, st.used);
    var gate := Gate(p, h, st.tally.wallet, st.count, st.used);
    if gate.Some? {
      assert PaperSkip(IdentOf(h), gate.value) in Consider(p, h, st).tally.skips;
    } else {
      BookedNet(st.tally, h);
      PoolsOfIsPoolSet(h);
    }
  }

  lemma BookedNet(t: Tally, h: Opportunity)
    ensures NetSum(Book(t, h).fills) == NetSum(t.fills) + NetWei(h)
  {
    hide NetWei, PoolsOf;
    SumsAppend(t.fills, Last(Book(t, h).fills));
  }

  // ----- candidates that the gas gate did not refuse

  predicate GasRefuses(p: LedgerPolicy, opp: Opportunity, s: BlockState) {
    Gate(p, opp, s.tally.wallet, s.count, s.used) == Some(InsufficientGas)
  }

  /** The candidates of a block that could be paid when their turn came. */
  function PaidIn(p: LedgerPolicy, l: seq<Opportunity>, s: BlockState): seq<Opportunity> {
    if l == [] then []
    else
      var rest := PaidIn(p, l[1..], Consider(p, l[0], s));
      if GasRefuses(p, l[0], s) then rest else [l[0]] + rest
  }

  function PaidBlock(p: LedgerPolicy, opps: seq<Opportunity>, t: Tally): seq<Opportunity> {
    PaidIn(p, SortOpps(opps), BlockState(t, {}, 0))
  }

  function PaidGroups(p: LedgerPolicy, groups: seq<Group<Opportunity>>, t: Tally): seq<Group<Opportunity>> {
    if groups == [] then []
    else [Group(groups[0].key, PaidBlock(p, groups[0].items, t))] + PaidGroups(p, groups[1..], RunBlock(p, groups[0].items, t))
  }

  /** The candidates of the whole run that were not refused for gas. */
  function Paid(p: LedgerPolicy, opps: seq<Opportunity>): seq<Opportunity> {
    Flatten(PaidGroups(p, ByBlock(opps), Start(p)))
  }

  lemma {:induction false} PaidInMembers(p: LedgerPolicy, l: seq<Opportunity>, s: BlockState)
    ensures forall x :: x in PaidIn(p, l, s) ==> x in l
    ensures |PaidIn(p, l, s)| <= |l|
  {
    hide Consider, GasRefuses;
    if l != [] {
      PaidInMembers(p, l[1..], Consider(p, l[0], s));
    }
  }

  lemma {:induction false} PaidIsLineup(p: LedgerPolicy, l: seq<Opportunity>, s: BlockState, b: int, k: nat)
    requires Sorted(OppLeq, l)
    requires forall x :: x in l ==> BlockOf(x) == b && |Pools(x)| <= k
    ensures Lineup(BlockOf, Gain, Pools, PaidIn(p, l, s), b, k)
  {
    hide Consider, GasRefuses, Pools;
    if l != [] {
      assert l[0] in l;
      var rest := PaidIn(p, l[1..], Consider(p, l[0], s));
      PaidInMembers(p, l[1..], Consider(p, l[0], s));
      forall x | x in rest ensures Gain(x) <= Gain(l[0]) {
        assert OppLeq(l[0], x);
      }
      PaidIsLineup(p, l[1..], Consider(p, l[0], s), b, k);
      assert ([l[0]] + rest)[1..] == rest;
    }
  }

  /** The ledger's pass over one block is a greedy pass over those. */
  lemma {:induction false} LedgerPassIsGreedy(p: LedgerPolicy, l: seq<Opportunity>, st: BlockState, b: int, slots: nat)
    requires forall x :: x in l ==> BlockOf(x) == b
    requires Slots(p, st.count, ConsiderAll(p, l, st).tally.skips, b, slots, |l|)
    ensures GreedyPass(Gain, Pools, PaidIn(p, l, st), StandOf(st, slots), NetSum(ConsiderAll(p, l, st).tally.fills))
  {
    hide GreedyStep, Gate, Book, NetWei, PoolsOf, Pools, Gain;
    if l != [] {
      var st' := Consider(p, l[0], st);
      assert l[0] in l;
      SkipsGrow(p, l[1..], st');
      if GasRefuses(p, l[0], st) {
        LedgerPassIsGreedy(p, l[1..], st', b, slots);
      } else {
        ConsiderBooks(p, l[0], st, slots, |l|);
        var slots' := if Gate(p, l[0], st.tally.wallet, st.count, st.used).None? then slots - 1 else slots;
        LedgerPassIsGreedy(p, l[1..], st', b, slots');
        assert ([l[0]] + PaidIn(p, l[1..], st'))[1..] == PaidIn(p, l[1..], st');
      }
    }
  }

  // ----- one block, then any number of blocks

  lemma SortedBlock(p: LedgerPolicy, opps: seq<Opportunity>, t: Tally, b: int, k: nat)
    requires forall x :: x in opps ==> |Pools(x)| <= k && BlockOf(x) == b
    ensures Lineup(BlockOf, Gain, Pools, PaidBlock(p, opps, t), b, k)
    ensures forall x :: x in SortOpps(opps) <==> x in opps
  {
    hide Pools, SortOpps, PaidIn;
    var l := SortOpps(opps);
    SortOppsSorts(opps);
    forall x ensures x in l <==> x in opps {
      assert x in multiset(l) <==> x in multiset(opps);
    }
    PaidIsLineup(p, l, BlockState(t, {}, 0), b, k);
  }

  /** Room per block: what the cap allows, unless it never binds there. */
  ghost predicate Rooms(p: LedgerPolicy, skips: seq<PaperSkip>, room: int -> nat) {
    forall b :: room(b) <= p.Cap() || !CapBinds(skips, b)
  }

  lemma OneBlockCovers(p: LedgerPolicy, opps: seq<Opportunity>, b: int, t: Tally, k: nat, room: int -> nat)
    requires k >= 1
    requires forall x :: x in opps ==> |Pools(x)| <= k && BlockOf(x) == b
    requires Rooms(p, RunBlock(p, opps, t).skips, room)
    ensures Covers(BlockOf, Gain, Pools, PaidBlock(p, opps, t), NetSum(RunBlock(p, opps, t).fills) - NetSum(t.fills), k, room)
  {
    hide Consider, PoolSet, SortOpps, Gain, Covers, CapBinds, PaidIn, ConsiderAll, Lineup, GreedyPass;
    var l := SortOpps(opps);
    SortedBlock(p, opps, t, b, k);
    PaidInMembers(p, l, BlockState(t, {}, 0));
    var skips := RunBlock(p, opps, t).skips;
    assert room(b) <= p.Cap() || !CapBinds(skips, b);
    var slots := if CapBinds(skips, b) then p.Cap() else |l|;
    LedgerPassIsGreedy(p, l, BlockState(t, {}, 0), b, slots);
    GreedyPassCovers(BlockOf, Gain, Pools, PaidBlock(p, opps, t), PaidBlock(p, opps, t),
                     StandOf(BlockState(t, {}, 0), slots), NetSum(RunBlock(p, opps, t).fills), b, k, room);
  }

  lemma FewerSkips(p: LedgerPolicy, a: seq<PaperSkip>, b: seq<PaperSkip>, room: int -> nat)
    requires forall k :: k in a ==> k in b
    requires Rooms(p, b, room)
    ensures Rooms(p, a, room)
  {
    forall c ensures CapBinds(a, c) ==> CapBinds(b, c) {
    }
  }

  /** Leaving out the candidates refused for gas keeps the groups in order. */
  lemma {:induction false} PaidGroupsAreFiled(p: LedgerPolicy, groups: seq<Group<Opportunity>>, t: Tally)
    requires Filed(BlockOf, groups)
    ensures Filed(BlockOf, PaidGroups(p, groups, t))
    ensures forall x :: x in Flatten(PaidGroups(p, groups, t)) ==> x in Flatten(groups)
    ensures groups != [] ==> PaidGroups(p, groups, t) != [] && PaidGroups(p, groups, t)[0].key == groups[0].key
  {
    hide PaidBlock, RunBlock;
    if groups != [] {
      var rest := PaidGroups(p, groups[1..], RunBlock(p, groups[0].items, t));
      var g := Group(groups[0].key, PaidBlock(p, groups[0].items, t));
      PaidGroupsAreFiled(p, groups[1..], RunBlock(p, groups[0].items, t));
      PaidBlockMembers(p, groups[0].items, t);
      assert groups[0] in groups && ([g] + rest)[1..] == rest;
    }
  }

  lemma PaidBlockMembers(p: LedgerPolicy, opps: seq<Opportunity>, t: Tally)
    ensures forall x :: x in PaidBlock(p, opps, t) ==> x in opps
  {
    hide SortOpps, PaidIn;
    SortOppsSorts(opps);
    PaidInMembers(p, SortOpps(opps), BlockState(t, {}, 0));
    forall x | x in SortOpps(opps) ensures x in opps {
      assert x in multiset(SortOpps(opps));
    }
  }

  lemma {:induction false} ManyBlocksCover(p: LedgerPolicy, groups: seq<Group<Opportunity>>, t: Tally, k: nat,
                                           room: int -> nat)
    requires k >= 1 && Filed(BlockOf, groups)
    requires forall x :: x in Flatten(groups) ==> |Pools(x)| <= k
    requires Rooms(p, RunBlocks(p, groups, t).skips, room)
    ensures Covers(BlockOf, Gain, Pools, Flatten(PaidGroups(p, groups, t)),
                   NetSum(RunBlocks(p, groups, t).fills) - NetSum(t.fills), k, room)
  {
    hide Pools, PoolSet, SortOpps, Gain, RunBlock, PaidBlock, Covers, NetSum, Rooms;
    if groups == [] {
      NothingToCover(BlockOf, Gain, Pools, k, room);
    } else {
      var t' := RunBlock(p, groups[0].items, t);
      var paid := PaidGroups(p, groups, t);
      assert groups[0] in groups;
      SkipsGrowOverBlocks(p, groups[1..], t');
      FewerSkips(p, t'.skips, RunBlocks(p, groups, t).skips, room);
      OneBlockCovers(p, groups[0].items, groups[0].key, t, k, room);
      ManyBlocksCover(p, groups[1..], t', k, room);
      PaidGroupsAreFiled(p, groups, t);
      assert paid[0].items == PaidBlock(p, groups[0].items, t) && paid[1..] == PaidGroups(p, groups[1..], t');
      CoversOneMore(BlockOf, Gain, Pools, paid,
                    NetSum(t'.fills) - NetSum(t.fills),
                    NetSum(RunBlocks(p, groups, t).fills) - NetSum(t'.fills), k, room);
    }
  }

  lemma SamePools(x: Opportunity)
    ensures |Pools(x)| == |PoolSet(x)|
    ensures forall q :: q in Pools(x) <==> q in PoolSet(x)
  {
    var a: set<int> := PoolSet(x);
    assert a == Pools(x);
  }

  lemma DisjointPools(x: Opportunity, y: Opportunity)
    requires PoolSet(x) !! PoolSet(y)
    ensures Pools(x) !! Pools(y)
  {
  }

  lemma PaidIsCovered(p: LedgerPolicy, opps: seq<Opportunity>, k: nat, room: int -> nat)
    requires k >= 1
    requires forall x :: x in opps ==> |PoolSet(x)| <= k
    requires Rooms(p, ApplyResult(p, opps).skips, room)
    ensures Covers(BlockOf, Gain, Pools, Paid(p, opps), NetSum(ApplyResult(p, opps).fills), k, room)
  {
    hide RunBlocks, Grouped, Pools, PoolSet, Rooms, Covers, PaidGroups, Filed;
    var groups := ByBlock(opps);
    GroupedIsFiled(BlockOf, opps);
    GroupedKeepsItems(BlockOf, opps);
    forall x | x in Flatten(groups) ensures |Pools(x)| <= k {
      assert x in multiset(Flatten(groups));
      assert x in multiset(opps);
      SamePools(x);
    }
    ManyBlocksCover(p, groups, Start(p), k, room);
  }

  /** The room of each block: the cap where it refused someone, else as many as
      are chosen. */
  ghost function RoomFor(p: LedgerPolicy, skips: seq<PaperSkip>, chosen: seq<Opportunity>): int -> nat {
    b => if CapBinds(skips, b) then p.Cap() else ChosenIn(chosen, b)
  }

  /** The approximation guarantee, over any number of blocks and for any wallet:
      against every pool-disjoint choice among the candidates that could be paid
      when their turn came. Only where the cap refused someone does the choice
      have to keep to it. */
  lemma GreedyIsKApproximationOfPaid(p: LedgerPolicy, opps: seq<Opportunity>, chosen: seq<Opportunity>, k: nat)
    requires k >= 1
    requires forall x :: x in opps ==> |PoolSet(x)| <= k
    requires multiset(chosen) <= multiset(Paid(p, opps)) && PoolDisjoint(chosen)
    requires forall b :: CapBinds(ApplyResult(p, opps).skips, b) ==> ChosenIn(chosen, b) <= p.Cap()
    ensures k * NetSum(ApplyResult(p, opps).fills) >= TotalNet(chosen)
  {
    hide ApplyResult, Covers, Paid, Pools, PoolSet, CapBinds;
    var room := RoomFor(p, ApplyResult(p, opps).skips, chosen);
    PaidIsCovered(p, opps, k, room);
    forall i, j | 0 <= i < j < |chosen| && BlockOf(chosen[i]) == BlockOf(chosen[j])
      ensures Pools(chosen[i]) !! Pools(chosen[j])
    {
      DisjointPools(chosen[i], chosen[j]);
    }
    DisjointByIndex(BlockOf, Pools, chosen);
    CoversThis(BlockOf, Gain, Pools, Paid(p, opps), NetSum(ApplyResult(p, opps).fills), chosen, k, room);
    NetAtMostGain(chosen);
  }

  lemma RefusalIsListed(p: LedgerPolicy, h: Opportunity, s: BlockState)
    requires GasRefuses(p, h, s)
    ensures !GasNotBinding(Consider(p, h, s).tally.skips)
  {
    hide Gate, IdentOf;
    assert PaperSkip(IdentOf(h), InsufficientGas) in Consider(p, h, s).tally.skips;
  }

  lemma {:induction false} NobodyRefusedInBlock(p: LedgerPolicy, l: seq<Opportunity>, s: BlockState)
    requires GasNotBinding(ConsiderAll(p, l, s).tally.skips)
    ensures PaidIn(p, l, s) == l
  {
    hide Gate, Book, IdentOf, PoolsOf;
    if l != [] {
      var s' := Consider(p, l[0], s);
      SkipsGrow(p, l[1..], s');
      if GasRefuses(p, l[0], s) {
        RefusalIsListed(p, l[0], s);
      }
      NobodyRefusedInBlock(p, l[1..], s');
    }
  }

  lemma {:induction false} NobodyRefused(p: LedgerPolicy, groups: seq<Group<Opportunity>>, t: Tally)
    requires GasNotBinding(RunBlocks(p, groups, t).skips)
    ensures multiset(Flatten(PaidGroups(p, groups, t))) == multiset(Flatten(groups))
  {
    hide ConsiderAll, SortOpps, PaidIn;
    if groups != [] {
      var t' := RunBlock(p, groups[0].items, t);
      SkipsGrowOverBlocks(p, groups[1..], t');
      NobodyRefusedInBlock(p, SortOpps(groups[0].items), BlockState(t, {}, 0));
      SortOppsSorts(groups[0].items);
      NobodyRefused(p, groups[1..], t');
    }
  }

  /** Where the gas gate refused nobody, the choice may be any. */
  lemma GreedyIsKApproximation(p: LedgerPolicy, opps: seq<Opportunity>, chosen: seq<Opportunity>, k: nat)
    requires k >= 1
    requires forall x :: x in opps ==> |PoolSet(x)| <= k
    requires multiset(chosen) <= multiset(opps) && PoolDisjoint(chosen)
    requires GasNotBinding(ApplyResult(p, opps).skips)
    requires forall b :: CapBinds(ApplyResult(p, opps).skips, b) ==> ChosenIn(chosen, b) <= p.Cap()
    ensures k * NetSum(ApplyResult(p, opps).fills) >= TotalNet(chosen)
  {
    PaidIsAll(p, opps);
    hide ApplyResult, Paid, PoolSet, PoolDisjoint, CapBinds, GasNotBinding;
    GreedyIsKApproximationOfPaid(p, opps, chosen, k);
  }

  lemma PaidIsAll(p: LedgerPolicy, opps: seq<Opportunity>)
    requires GasNotBinding(ApplyResult(p, opps).skips)
    ensures multiset(Paid(p, opps)) == multiset(opps)
  {
    hide RunBlocks, Grouped, PaidGroups, GasNotBinding;
    GroupedKeepsItems(BlockOf, opps);
    NobodyRefused(p, ByBlock(opps), Start(p));
  }

  // ----- the same from the input alone

  /** Every candidate can be paid from the wallet at the start. */
  ghost predicate Affordable(p: LedgerPolicy, opps: seq<Opportunity>) {
    forall x :: x in opps ==> x.gasCostWei <= SatSubU128(p.startingGasWei, p.reserveWei)
  }

  ghost predicate NeverPoorer(p: LedgerPolicy, t: Tally) {
    t.wallet >= p.startingGasWei && GasNotBinding(t.skips)
  }

  lemma {:induction false} BlockStaysAffordable(p: LedgerPolicy, opps: seq<Opportunity>, s: BlockState)
    requires Affordable(p, opps) && NeverPoorer(p, s.tally)
    ensures NeverPoorer(p, ConsiderAll(p, opps, s).tally)
  {
    hide NetWei, PoolsOf, IdentOf, Conflicts;
    if opps != [] {
      assert opps[0] in opps;
      BlockStaysAffordable(p, opps[1..], Consider(p, opps[0], s));
    }
  }

  lemma {:induction false} RunStaysAffordable(p: LedgerPolicy, groups: seq<Group<Opportunity>>, t: Tally)
    requires Affordable(p, Flatten(groups)) && NeverPoorer(p, t)
    ensures NeverPoorer(p, RunBlocks(p, groups, t))
  {
    hide ConsiderAll, SortOpps, NeverPoorer;
    if groups != [] {
      var items := groups[0].items;
      SortOppsSorts(items);
      forall x | x in SortOpps(items) ensures x in items {
        assert x in multiset(SortOpps(items));
      }
      BlockStaysAffordable(p, SortOpps(items), BlockState(t, {}, 0));
      RunStaysAffordable(p, groups[1..], RunBlock(p, items, t));
    }
  }

  /** When every candidate could be paid from the starting wallet the gas gate
      refuses nobody, since the wallet never falls. */
  lemma GasNeverRefusesTheAffordable(p: LedgerPolicy, opps: seq<Opportunity>)
    requires Affordable(p, opps)
    ensures GasNotBinding(ApplyResult(p, opps).skips)
  {
    hide RunBlocks, Grouped;
    GroupedKeepsItems(BlockOf, opps);
    forall x | x in Flatten(ByBlock(opps)) ensures x in opps {
      assert x in multiset(Flatten(ByBlock(opps)));
    }
    RunStaysAffordable(p, ByBlock(opps), Start(p));
  }

  // ----- candidates that could be paid from some point on

  /** What could be paid from `floor` can be paid for later: the wallet never
      falls. */
  lemma PayableIsNotRefused(p: LedgerPolicy, h: Opportunity, s: BlockState, x: Opportunity, floor: u128)
    requires x.gasCostWei <= SatSubU128(floor, p.reserveWei) && s.tally.wallet >= floor
    ensures GasRefuses(p, h, s) ==> h != x
    ensures Consider(p, h, s).tally.wallet >= floor
  {
    hide IdentOf, PoolsOf, Conflicts, NetWei;
  }

  /** It is among the candidates not refused, as often as it occurs. */
  lemma {:induction false} PayablePaidInBlock(p: LedgerPolicy, l: seq<Opportunity>, s: BlockState, x: Opportunity,
                                              floor: u128)
    requires x.gasCostWei <= SatSubU128(floor, p.reserveWei) && s.tally.wallet >= floor
    ensures multiset(PaidIn(p, l, s))[x] == multiset(l)[x]
    ensures ConsiderAll(p, l, s).tally.wallet >= floor
  {
    hide Consider, GasRefuses;
    if l != [] {
      PayableIsNotRefused(p, l[0], s, x, floor);
      PayablePaidInBlock(p, l[1..], Consider(p, l[0], s), x, floor);
      assert l == [l[0]] + l[1..];
    }
  }

  lemma {:induction false} PayablePaid(p: LedgerPolicy, groups: seq<Group<Opportunity>>, t: Tally, x: Opportunity,
                                       floor: u128)
    requires x.gasCostWei <= SatSubU128(floor, p.reserveWei) && t.wallet >= floor
    ensures multiset(Flatten(PaidGroups(p, groups, t)))[x] == multiset(Flatten(groups))[x]
  {
    hide ConsiderAll, SortOpps, PaidIn;
    if groups != [] {
      PayablePaidInBlock(p, SortOpps(groups[0].items), BlockState(t, {}, 0), x, floor);
      SortOppsSorts(groups[0].items);
      PayablePaid(p, groups[1..], RunBlock(p, groups[0].items, t), x, floor);
    }
  }

  lemma {:induction false} PaidGroupsInTwo(p: LedgerPolicy, g: seq<Group<Opportunity>>, h: seq<Group<Opportunity>>,
                                           t: Tally)
    ensures Flatten(PaidGroups(p, g + h, t))
         == Flatten(PaidGroups(p, g, t)) + Flatten(PaidGroups(p, h, RunBlocks(p, g, t)))
  {
    hide RunBlock, PaidBlock;
    if g == [] {
      assert g + h == h;
    } else {
      var t' := RunBlock(p, g[0].items, t);
      var first := Group(g[0].key, PaidBlock(p, g[0].items, t));
      assert (g + h)[0] == g[0] && (g + h)[1..] == g[1..] + h;
      PaidGroupsInTwo(p, g[1..], h, t');
      assert ([first] + PaidGroups(p, g[1..], t'))[1..] == PaidGroups(p, g[1..], t');
      assert ([first] + PaidGroups(p, g[1..] + h, t'))[1..] == PaidGroups(p, g[1..] + h, t');
    }
  }

  lemma {:induction false} FromKeeps(opps: seq<Opportunity>, b: int, x: Opportunity)
    requires BlockOf(x) >= b
    ensures multiset(From(BlockOf, opps, b))[x] == multiset(opps)[x]
  {
    if opps != [] {
      FromKeeps(opps[..|opps| - 1], b, x);
      assert opps == opps[..|opps| - 1] + [opps[|opps| - 1]];
    }
  }

  /** The candidate could be paid from the wallet that the blocks before its own
      leave. */
  ghost predicate Payable(p: LedgerPolicy, fills: seq<PaperFill>, x: Opportunity) {
    x.gasCostWei <= Spare(p, FillsBelow(fills, x.blockNumber))
  }

  lemma PayableIsPaid(p: LedgerPolicy, opps: seq<Opportunity>, x: Opportunity)
    requires Payable(p, ApplyResult(p, opps).fills, x)
    ensures multiset(Paid(p, opps))[x] >= multiset(opps)[x]
  {
    hide RunBlocks, Grouped, Below, From, FillsBelow, SkipsBelow, PaidGroups, Spare, WalletOf;
    var b := BlockOf(x);
    var low, high := Below(BlockOf, opps, b), From(BlockOf, opps, b);
    LedgerIsCausal(p, opps, b);
    WalletAfterRun(p, low);
    GroupedSplits(BlockOf, opps, b);
    PaidGroupsInTwo(p, ByBlock(low), ByBlock(high), Start(p));
    PayablePaid(p, ByBlock(high), FinalTally(p, low), x, FinalTally(p, low).wallet);
    GroupedKeepsItems(BlockOf, high);
    FromKeeps(opps, b, x);
  }

  /** The guarantee against every choice of pairwise pool-disjoint candidates, each
      of which could be paid from the wallet that the blocks before its own leave.
      Only where the cap refused someone does the choice have to keep to it. */
  lemma GreedyIsKApproximationOfPayable(p: LedgerPolicy, opps: seq<Opportunity>, chosen: seq<Opportunity>, k: nat)
    requires k >= 1
    requires forall x :: x in opps ==> |PoolSet(x)| <= k
    requires multiset(chosen) <= multiset(opps) && PoolDisjoint(chosen)
    requires forall x :: x in chosen ==> Payable(p, ApplyResult(p, opps).fills, x)
    requires forall b :: CapBinds(ApplyResult(p, opps).skips, b) ==> ChosenIn(chosen, b) <= p.Cap()
    ensures k * NetSum(ApplyResult(p, opps).fills) >= TotalNet(chosen)
  {
    PayablesArePaid(p, opps, chosen);
    hide ApplyResult, Paid, PoolSet, PoolDisjoint, CapBinds, Payable;
    GreedyIsKApproximationOfPaid(p, opps, chosen, k);
  }

  lemma PayablesArePaid(p: LedgerPolicy, opps: seq<Opportunity>, chosen: seq<Opportunity>)
    requires multiset(chosen) <= multiset(opps)
    requires forall x :: x in chosen ==> Payable(p, ApplyResult(p, opps).fills, x)
    ensures multiset(chosen) <= multiset(Paid(p, opps))
  {
    hide ApplyResult, Paid, Payable;
    forall x ensures multiset(chosen)[x] <= multiset(Paid(p, opps))[x] {
      if x in multiset(chosen) {
        assert x in chosen;
        PayableIsPaid(p, opps, x);
      }
    }
  }

  /** The guarantee with conditions on the input alone: against every choice of
      pairwise pool-disjoint candidates, at most the cap per block, each of which
      could be paid from the starting wallet, whatever the other candidates cost. */
  lemma GreedyIsKApproximationOfAffordable(p: LedgerPolicy, opps: seq<Opportunity>, chosen: seq<Opportunity>, k: nat)
    requires k >= 1
    requires forall x :: x in opps ==> |PoolSet(x)| <= k
    requires multiset(chosen) <= multiset(opps) && PoolDisjoint(chosen)
    requires Affordable(p, chosen)
    requires forall b :: ChosenIn(chosen, b) <= p.Cap()
    ensures k * NetSum(ApplyResult(p, opps).fills) >= TotalNet(chosen)
  {
    AffordableIsPaid(p, opps, chosen);
    hide ApplyResult, Paid, PoolSet, PoolDisjoint, Affordable, CapBinds;
    GreedyIsKApproximationOfPaid(p, opps, chosen, k);
  }

  lemma AffordableIsPaid(p: LedgerPolicy, opps: seq<Opportunity>, chosen: seq<Opportunity>)
    requires multiset(chosen) <= multiset(opps) && Affordable(p, chosen)
    ensures multiset(chosen) <= multiset(Paid(p, opps))
  {
    hide Grouped, PaidGroups;
    GroupedKeepsItems(BlockOf, opps);
    forall x ensures multiset(chosen)[x] <= multiset(Paid(p, opps))[x] {
      if x in multiset(chosen) {
        assert x in chosen;
        PayablePaid(p, ByBlock(opps), Start(p), x, p.startingGasWei);
      }
    }
  }

  /** A choice that holds a candidate which cannot be paid has no such bound: alone
      at the start it leaves the ledger with nothing. */
  lemma UnaffordableBreaksTheBound(p: LedgerPolicy, x: Opportunity, k: nat)
    requires NetWei(x) > 0 && x.gasCostWei > SatSubU128(p.startingGasWei, p.reserveWei)
    ensures k * NetSum(ApplyResult(p, [x]).fills) < TotalNet([x])
  {
    hide NetWei, PoolsOf, Conflicts, IdentOf, Grouped, SortOpps;
    GroupedPair(x, x);
    RunOneGroup(p, Group(BlockOf(x), [x]));
    assert [x][1..] == [];
    assert ConsiderAll(p, [x], BlockState(Start(p), {}, 0)) == ConsiderAll(p, [], Consider(p, x, BlockState(Start(p), {}, 0)));
    assert ApplyResult(p, [x]).fills == [];
  }
}
