/** What live indexing achieves when the outside answers: a healthy session indexes
    every block and never fails, and a poll heals any reorg that is not too deep. */
module LiveHealth {
  import opened RustInts
  import opened PaperTypes
  import opened ExplorerStore
  import opened Reorg
  import opened LiveIndexer
  import opened LiveSafety

  /** The hashes of the chain as it is now. */
  type Truth = u64 -> Hash

  /** Stored rows are those of the chain. */
  ghost predicate Agrees(m: Blocks, truth: Truth) {
    forall b :: b in m ==> m[b] == truth(b)
  }

  /** `head - confirmations`, never below zero. */
  function SafeHead(confirmations: u64, head: u64): u64 {
    Max(head - confirmations, 0)
  }

  /** Every request of the poll succeeds and tells the chain as it is. */
  ghost predicate Healthy(confirmations: u64, input: PollInput, truth: Truth) {
    && input.head.Some? && input.priceOk
    && forall b: u64 :: b <= SafeHead(confirmations, input.head.value) ==>
         input.chain(b) == Some(truth(b)) && input.sweepChain(b) == Some(truth(b))
         && input.index(b) == Indexed(truth(b))
  }

  /** Where a poll goes on: the next block, or the safe head at first. */
  function Resume(confirmations: u64, st: LoopState, head: u64): u64 {
    if st.nextBlock.Some? then st.nextBlock.value else SafeHead(confirmations, head)
  }

  /** `[lo, hi]` is stored with the hashes of the chain. */
  ghost predicate Holds(m: Blocks, truth: Truth, lo: int, hi: int) {
    forall b: u64 :: lo <= b <= hi ==> b in m && m[b] == truth(b)
  }

  lemma {:induction false} IndexFromHealthy(m: Blocks, index: u64 -> IndexReply, truth: Truth, b: int, safe: u64,
                                            failures: nat)
    requires 0 <= b && (forall c: u64 :: c <= safe ==> index(c) == Indexed(truth(c)))
    ensures var (m', failed, f, n) := IndexFrom(m, index, b, safe, failures);
      && failed.None? && f == (if b <= safe then 0 else failures) && n == Max(safe - b + 1, 0)
      && (forall x: u64 :: x in m' <==> x in m || b <= x <= safe)
      && (forall x: u64 :: x in m' ==> m'[x] == if x in m then m[x] else truth(x))
    decreases safe - b
  {
    if b <= safe {
      var m' := IndexOne(m, index(b), b).0;
      IndexFromHealthy(m', index, truth, b + 1, safe, 0);
    }
  }

  /** What a poll that reaches the index loop leaves, when every request succeeds. */
  lemma IndexPhaseHealthy(st: LoopState, db: Db, input: PollInput, truth: Truth, cursor: u64, safe: u64)
    requires input.priceOk && cursor <= safe && (forall c: u64 :: c <= safe ==> input.index(c) == Indexed(truth(c)))
    ensures var r := IndexPhase(st, db, input, cursor, safe);
      && r.verdict == GoOn
      && r.state == LoopState(Some(Min(safe + 1, U64_MAX)), 0, st.sinceSweep, st.blocksSession + (safe - cursor + 1))
      && r.db.head == safe && r.db.indexedTo == safe
      && (forall x: u64 :: x in r.db.blocks <==> x in db.blocks || cursor <= x <= safe)
      && (forall x: u64 :: x in r.db.blocks ==> r.db.blocks[x] == if x in db.blocks then db.blocks[x] else truth(x))
  {
    hide IndexFrom;
    IndexFromHealthy(db.blocks, input.index, truth, cursor, safe, st.failures);
  }

  /** Neither check finds anything where the store agrees with the chain. */
  lemma ChecksAreClean(confirmations: u64, st: LoopState, db: Db, input: PollInput, truth: Truth)
    requires Healthy(confirmations, input, truth) && Agrees(db.blocks, truth)
    requires Resume(confirmations, st, input.head.value) <= SafeHead(confirmations, input.head.value)
    ensures TipOutcome(confirmations, st, db, input) == NoReorg
    ensures SweepOutcome(confirmations, st, db, input) == NoReorg
  {
    hide ProbeAt, TipJumpCheckpoint;
    var lookback := SatAddU64(confirmations, REORG_SWEEP_BLOCKS);
    var cursor := Resume(confirmations, st, input.head.value);
    ProbeIsCleanExactlyWhen(db.blocks, input.chain, DbOf(confirmations, st, db, input).indexedTo, lookback);
    ProbeIsCleanExactlyWhen(db.blocks, input.sweepChain, SatSubU64(cursor, 1), lookback);
  }

  /** A poll with something to index, in which every request succeeds, on a store
      that agrees with the chain: whatever failed before, the count is back to
      zero and everything up to the safe head is indexed. */
  lemma HealthyPoll(confirmations: u64, st: LoopState, db: Db, input: PollInput, truth: Truth)
    requires Healthy(confirmations, input, truth) && Agrees(db.blocks, truth)
    requires Resume(confirmations, st, input.head.value) <= SafeHead(confirmations, input.head.value)
    ensures var r := PollOnce(confirmations, st, db, input);
      var safe, cursor := SafeHead(confirmations, input.head.value), Resume(confirmations, st, input.head.value);
      && r.verdict == GoOn
      && r.state == LoopState(Some(Min(safe + 1, U64_MAX)), 0, if st.sinceSweep + 1 >= 32 then 0 else st.sinceSweep + 1,
                              st.blocksSession + (safe - cursor + 1))
      && r.db.head == safe && r.db.indexedTo == safe && Agrees(r.db.blocks, truth)
      && (forall x: u64 :: x in r.db.blocks <==> x in db.blocks || cursor <= x <= safe)
  {
    PollShape(confirmations, st, db, input);
    ChecksAreClean(confirmations, st, db, input, truth);
    hide PollOnce, IndexPhase, TipOutcome, SweepOutcome, TipJumpCheckpoint;
    IndexPhaseHealthy(SweptState(st), CheckedDb(confirmations, st, db, input), input, truth,
                      Resume(confirmations, st, input.head.value), SafeHead(confirmations, input.head.value));
  }

  /** Nothing new on the chain: the poll changes nothing. */
  lemma QuietPoll(confirmations: u64, st: LoopState, db: Db, input: PollInput)
    requires input.head.Some? && st.nextBlock.Some? && SafeHead(confirmations, input.head.value) < st.nextBlock.value
    ensures PollOnce(confirmations, st, db, input) == Poll(st, db, GoOn, NotReached)
  {
  }

  // ----- a healthy session

  /** Heads do not fall. */
  ghost predicate HeadsRise(inputs: seq<PollInput>) {
    && (forall i :: 0 <= i < |inputs| ==> inputs[i].head.Some?)
    && (forall i, j :: 0 <= i < j < |inputs| ==> inputs[i].head.value <= inputs[j].head.value)
  }

  ghost predicate AllHealthy(confirmations: u64, inputs: seq<PollInput>, truth: Truth) {
    forall i :: 0 <= i < |inputs| ==> Healthy(confirmations, inputs[i], truth)
  }

  /** The session is up to date with the safe head `safe`, from `first` on. */
  ghost predicate UpToDate(st: LoopState, db: Db, truth: Truth, first: u64, safe: u64) {
    && st.failures == 0 && st.nextBlock == Some(Min(safe + 1, U64_MAX))
    && (safe < U64_MAX ==> st.blocksSession == safe - first + 1)
    && first <= safe && db.head == safe && db.indexedTo == safe
    && Agrees(db.blocks, truth) && Holds(db.blocks, truth, first, safe)
  }

  lemma {:induction false} HealthyRun(confirmations: u64, st: LoopState, db: Db, inputs: seq<PollInput>, truth: Truth,
                                      first: u64, safe: u64)
    requires UpToDate(st, db, truth, first, safe) && HeadsRise(inputs) && AllHealthy(confirmations, inputs, truth)
    requires inputs != [] ==> safe <= SafeHead(confirmations, inputs[0].head.value)
    ensures var r := RunPolls(confirmations, st, db, inputs);
      && r.verdict == GoOn
      && UpToDate(r.state, r.db, truth, first,
                  if inputs == [] then safe else SafeHead(confirmations, inputs[|inputs| - 1].head.value))
    decreases |inputs|
  {
    hide PollOnce, Healthy;
    if inputs != [] {
      var input, rest := inputs[0], inputs[1..];
      var next := SafeHead(confirmations, input.head.value);
      assert Healthy(confirmations, inputs[0], truth);
      HealthyNext(confirmations, st, db, input, truth, first, safe);
      var r := PollOnce(confirmations, st, db, input);
      assert forall i :: 0 <= i < |rest| ==> rest[i] == inputs[i + 1];
      HealthyRun(confirmations, r.state, r.db, rest, truth, first, next);
    }
  }

  lemma HealthyNext(confirmations: u64, st: LoopState, db: Db, input: PollInput, truth: Truth, first: u64, safe: u64)
    requires UpToDate(st, db, truth, first, safe) && Healthy(confirmations, input, truth)
    requires safe <= SafeHead(confirmations, input.head.value)
    ensures var r := PollOnce(confirmations, st, db, input);
      r.verdict == GoOn && UpToDate(r.state, r.db, truth, first, SafeHead(confirmations, input.head.value))
  {
    hide PollOnce, Healthy;
    assert input.head.Some? by { HealthyHead(confirmations, input, truth); }
    var next := SafeHead(confirmations, input.head.value);
    if next < st.nextBlock.value {
      QuietPoll(confirmations, st, db, input);
    } else {
      HealthyPoll(confirmations, st, db, input, truth);
    }
  }

  lemma HealthyHead(confirmations: u64, input: PollInput, truth: Truth)
    requires Healthy(confirmations, input, truth)
    ensures input.head.Some?
  {
  }

  /** A session whose requests all succeed, on a store that agrees with the chain,
      never fails: it ends with no failure counted, resumes just above the safe
      head, and has indexed every block from the first safe head to the last,
      once each and with the hash of the chain. */
  lemma HealthySessionIndexesEverything(confirmations: u64, db: Db, inputs: seq<PollInput>, truth: Truth)
    requires inputs != [] && HeadsRise(inputs) && AllHealthy(confirmations, inputs, truth) && Agrees(db.blocks, truth)
    ensures var r := RunPolls(confirmations, FRESH, db, inputs);
      var first, last := SafeHead(confirmations, inputs[0].head.value),
                         SafeHead(confirmations, inputs[|inputs| - 1].head.value);
      && r.verdict == GoOn && r.state.failures == 0 && r.state.nextBlock == Some(Min(last + 1, U64_MAX))
      && (last < U64_MAX ==> r.state.blocksSession == last - first + 1)
      && r.db.head == last && r.db.indexedTo == last
      && Agrees(r.db.blocks, truth) && Holds(r.db.blocks, truth, first, last)
  {
    hide PollOnce, Healthy;
    var input, rest := inputs[0], inputs[1..];
    assert Healthy(confirmations, inputs[0], truth);
    HealthyPoll(confirmations, FRESH, db, input, truth);
    var r := PollOnce(confirmations, FRESH, db, input);
    var first := SafeHead(confirmations, input.head.value);
    assert forall i :: 0 <= i < |rest| ==> rest[i] == inputs[i + 1];
    HealthyRun(confirmations, r.state, r.db, rest, truth, first, first);
  }

  // ----- healing a reorg

  /** The indexed tip `t` was reorganised away: `[base, t]` is stored without a gap,
      agrees with the chain below `fork` and with none of it from there on. */
  ghost predicate Reorganised(m: Blocks, truth: Truth, base: u64, fork: u64, t: u64) {
    && base <= fork <= t && (base > 0 ==> base - 1 !in m)
    && (forall b: u64 :: base <= b <= t ==> b in m && (m[b] == truth(b) <==> b < fork))
  }

  /** Indexing again from the fork, on what unwinding left. */
  lemma IndexFromFork(st: LoopState, db: Db, input: PollInput, truth: Truth, m: Blocks, base: u64, fork: u64, t: u64,
                      safe: u64)
    requires Reorganised(m, truth, base, fork, t) && db.blocks == Unwound(m, fork) && fork <= safe
    requires input.priceOk && (forall c: u64 :: c <= safe ==> input.index(c) == Indexed(truth(c)))
    ensures var r := IndexPhase(st, db, input, fork, safe);
      && r.verdict == GoOn && r.state.failures == 0 && r.state.nextBlock == Some(Min(safe + 1, U64_MAX))
      && r.state.sinceSweep == st.sinceSweep && r.db.indexedTo == safe && Holds(r.db.blocks, truth, base, safe)
  {
    hide IndexPhase;
    IndexPhaseHealthy(st, db, input, truth, fork, safe);
  }

  /** A poll whose requests succeed heals a reorganised tip exactly when the fork is
      less than `confirmations + 32` blocks below it: then all blocks are indexed
      again from the fork. Else it fails and changes nothing but the failure count. */
  lemma ReorgHealsExactlyWhenShallow(confirmations: u64, st: LoopState, db: Db, input: PollInput, truth: Truth,
                                     base: u64, fork: u64)
    requires Healthy(confirmations, input, truth) && Reorganised(db.blocks, truth, base, fork, db.indexedTo)
    requires st.nextBlock.Some? && 0 < db.indexedTo < st.nextBlock.value <= SafeHead(confirmations, input.head.value)
    ensures var r := PollOnce(confirmations, st, db, input); var safe := SafeHead(confirmations, input.head.value);
      if db.indexedTo - fork < confirmations + 32 && fork > 0 then
        && r.verdict == GoOn && r.state.failures == 0 && r.state.nextBlock == Some(Min(safe + 1, U64_MAX))
        && r.db.indexedTo == safe && Holds(r.db.blocks, truth, base, safe)
      else
        r.state == st.(failures := st.failures + 1) && r.db == db && (r.verdict == Abort <==> r.state.failures >= 10)
  {
    var t, m, lookback := db.indexedTo, db.blocks, SatAddU64(confirmations, REORG_SWEEP_BLOCKS);
    var safe := SafeHead(confirmations, input.head.value);
    ReorgIsSeen(m, input.chain, truth, base, fork, t, lookback);
    PollShape(confirmations, st, db, input);
    var o := TipOutcome(confirmations, st, db, input);
    assert o == ProbeAt(m, input.chain, t, lookback);
    if fork > SatSubU64(t, lookback) {
      ProbeIsCleanExactlyWhen(Unwound(m, fork), input.sweepChain, SatSubU64(fork, 1), lookback);
      assert SweepOutcome(confirmations, st, db, input) == NoReorg;
      IndexFromFork(SweptState(st), CheckedDb(confirmations, st, db, input), input, truth, m, base, fork, t, safe);
      hide PollOnce, IndexPhase, ProbeAt, TipJumpCheckpoint, Holds, Reorganised;
    } else {
      assert o == ProbeFailed;
      hide ProbeAt, IndexPhase, SweepPhase, TipJumpCheckpoint, Reorganised;
    }
  }

  /** So a reorg that reaches too deep ends the session: each poll fails, until the
      tenth failure aborts, and no row has changed. */
  lemma {:induction false} DeepReorgAborts(confirmations: u64, st: LoopState, db: Db, inputs: seq<PollInput>,
                                           truth: Truth, base: u64, fork: u64)
    requires Reorganised(db.blocks, truth, base, fork, db.indexedTo) && AllHealthy(confirmations, inputs, truth)
    requires st.nextBlock.Some? && 0 < db.indexedTo < st.nextBlock.value
    requires forall i :: 0 <= i < |inputs| ==>
               inputs[i].head.Some? && st.nextBlock.value <= SafeHead(confirmations, inputs[i].head.value)
    requires fork == 0 || db.indexedTo - fork >= confirmations + 32
    requires st.failures < 10 <= st.failures + |inputs|
    ensures var r := RunPolls(confirmations, st, db, inputs);
            r.verdict == Abort && r.db == db && r.state == st.(failures := 10)
    decreases |inputs|
  {
    hide PollOnce, Healthy, Reorganised;
    var rest := inputs[1..];
    assert Healthy(confirmations, inputs[0], truth);
    ReorgHealsExactlyWhenShallow(confirmations, st, db, inputs[0], truth, base, fork);
    if st.failures + 1 < 10 {
      assert forall i :: 0 <= i < |rest| ==> rest[i] == inputs[i + 1];
      DeepReorgAborts(confirmations, st.(failures := st.failures + 1), db, rest, truth, base, fork);
    }
  }

  /** The check at a reorganised tip. */
  lemma ReorgIsSeen(m: Blocks, chain: Chain, truth: Truth, base: u64, fork: u64, t: u64, lookback: u64)
    requires Reorganised(m, truth, base, fork, t) && forall b: u64 :: b <= t ==> chain(b) == Some(truth(b))
    ensures ProbeAt(m, chain, t, lookback) == if fork > SatSubU64(t, lookback) then Forked(fork) else ProbeFailed
  {
    hide ProbeAt;
    ForkIsExact(m, chain, base, t, lookback, fork);
  }

  // ----- the sweep

  /** The second request is made in every thirty-second poll that gets as far: until
      then its answer does not matter. */
  lemma SweepWaitsForThirtyTwoPolls(confirmations: u64, st: LoopState, db: Db, input: PollInput, other: Chain)
    requires st.sinceSweep < 31
    ensures PollOnce(confirmations, st, db, input) == PollOnce(confirmations, st, db, input.(sweepChain := other))
  {
    hide ProbeAt, TipJumpCheckpoint, IndexFrom, Unwound;
  }

  /** When it is due, a mismatch of the last block below the cursor that the first
      request did not see is found and healed, unless it reaches too deep. */
  lemma SweepHealsWhatTheTipHides(confirmations: u64, st: LoopState, db: Db, input: PollInput, truth: Truth,
                                  base: u64, fork: u64)
    requires Healthy(confirmations, input.(chain := input.sweepChain), truth) && st.sinceSweep >= 31
    requires st.nextBlock.Some? && 0 < st.nextBlock.value <= SafeHead(confirmations, input.head.value)
    requires Reorganised(db.blocks, truth, base, fork, st.nextBlock.value - 1)
    requires db.indexedTo == 0 || db.indexedTo !in db.blocks || Match(db.blocks, input.chain, db.indexedTo)
    requires fork > 0 && st.nextBlock.value - 1 - fork < confirmations + 32
    ensures var r := PollOnce(confirmations, st, db, input); var safe := SafeHead(confirmations, input.head.value);
      && r.verdict == GoOn && r.state.failures == 0 && r.state.sinceSweep == 0
      && r.db.indexedTo == safe && Holds(r.db.blocks, truth, base, safe)
  {
    var m, lookback := db.blocks, SatAddU64(confirmations, REORG_SWEEP_BLOCKS);
    var safe := SafeHead(confirmations, input.head.value);
    ReorgIsSeen(m, input.sweepChain, truth, base, fork, st.nextBlock.value - 1, lookback);
    ProbeIsCleanExactlyWhen(m, input.chain, db.indexedTo, lookback);
    PollShape(confirmations, st, db, input);
    hide ProbeAt;
    assert TipOutcome(confirmations, st, db, input) == NoReorg;
    assert SweepOutcome(confirmations, st, db, input) == Forked(fork);
    hide PollOnce, IndexPhase, TipJumpCheckpoint, Holds;
    IndexFromFork(SweptState(st), CheckedDb(confirmations, st, db, input), input, truth, m, base, fork,
                  st.nextBlock.value - 1, safe);
  }

  // ----- a poll that fails in the index loop

  /** The index loop stops at the first block that is not stored and whose call
      failed, and counts the blocks before it. */
  lemma {:induction false} IndexLoopStopsAt(m: Blocks, index: u64 -> IndexReply, b: int, safe: u64, failures: nat)
    requires 0 <= b <= safe
    ensures var (m', failed, f, n) := IndexFrom(m, index, b, safe, failures);
            var stop := if failed.Some? then failed.value else safe + 1;
      && (failed.Some? ==> b <= stop <= safe && stop !in m && !index(stop).Indexed?)
      && (forall x: u64 :: b <= x < stop ==> x in m || index(x).Indexed?)
      && n == stop - b && f == (if failed.None? then 0 else if n == 0 then failures + 1 else 1)
    decreases safe - b
  {
    var (m', ok) := IndexOne(m, index(b), b);
    if ok && b < safe {
      IndexLoopStopsAt(m', index, b + 1, safe, 0);
    }
  }

  /** It stores the blocks before the one it stops at, and that one too exactly when
      its rows were committed before the failure: block `x` is there or not. */
  lemma {:induction false} IndexLoopStores(m: Blocks, index: u64 -> IndexReply, b: int, safe: u64, failures: nat,
                                           x: u64)
    requires 0 <= b <= safe
    ensures var (m', failed, f, n) := IndexFrom(m, index, b, safe, failures);
            var stop := if failed.Some? then failed.value else safe + 1;
      && (x in m' <==> x in m || b <= x < stop || (failed == Some(x) && index(x).FailedAfter?))
      && (x in m' ==> if x in m then m'[x] == m[x] else !index(x).FailedBefore? && m'[x] == index(x).hash)
    decreases safe - b
  {
    var (m', ok) := IndexOne(m, index(b), b);
    if ok && b < safe {
      IndexLoopStores(m', index, b + 1, safe, 0, x);
      IndexLoopStopsAt(m', index, b + 1, safe, 0);
    }
  }

  /** A stored block is not asked for: what its call would answer does not matter. */
  lemma {:induction false} StoredBlocksAreNotAskedFor(m: Blocks, index: u64 -> IndexReply, other: u64 -> IndexReply,
                                                      b: int, safe: u64, failures: nat)
    requires 0 <= b && forall x: u64 :: b <= x <= safe && x !in m ==> index(x) == other(x)
    ensures IndexFrom(m, index, b, safe, failures) == IndexFrom(m, other, b, safe, failures)
    decreases safe - b
  {
    if b <= safe {
      var (m', ok) := IndexOne(m, index(b), b);
      if ok {
        StoredBlocksAreNotAskedFor(m', index, other, b + 1, safe, 0);
      }
    }
  }

  /** A poll that fails in its index loop goes on at the block that failed. That block
      is stored exactly when its rows were committed before the failure; then the next
      attempt, which does not ask for it, gets past it. */
  lemma FailedPollGoesOnAtTheBlock(confirmations: u64, st: LoopState, db: Db, input: PollInput)
    requires var reach := PollOnce(confirmations, st, db, input).reach; reach.Reached? && !reach.completed
    ensures var r := PollOnce(confirmations, st, db, input);
      && r.state.nextBlock.Some? && r.reach.cursor <= r.state.nextBlock.value <= r.reach.safe
      && r.state.failures >= 1
      && var x := r.state.nextBlock.value; var reply := input.index(x);
      && !reply.Indexed? && (x in r.db.blocks <==> reply.FailedAfter?)
      && (x in r.db.blocks ==> r.db.blocks[x] == reply.hash && IndexOne(r.db.blocks, FailedBefore, x).1)
      && (forall y: u64 :: r.reach.cursor <= y < x ==> y in r.db.blocks)
  {
    PollShape(confirmations, st, db, input);
    ForksBelowCursor(confirmations, st, db, input);
    hide PollOnce, ProbeAt, TipJumpCheckpoint, IndexFrom;
    var d := CheckedDb(confirmations, st, db, input);
    var r := PollOnce(confirmations, st, db, input);
    IndexLoopStopsAt(d.blocks, input.index, r.reach.cursor, r.reach.safe, SweptState(st).failures);
    forall y: u64 ensures r.reach.cursor <= y <= r.state.nextBlock.value ==>
      (y in r.db.blocks <==> y in d.blocks || y < r.state.nextBlock.value || input.index(y).FailedAfter?)
    {
      IndexLoopStores(d.blocks, input.index, r.reach.cursor, r.reach.safe, SweptState(st).failures, y);
    }
    IndexLoopStores(d.blocks, input.index, r.reach.cursor, r.reach.safe, SweptState(st).failures,
                    r.state.nextBlock.value);
  }

  // ----- the checkpoint

  /** What a poll writes as the checkpoint: the end of a range it completed; else, in
      a session without a next block, the jump to just below the safe head, never up;
      else nothing. */
  lemma CheckpointWritten(confirmations: u64, st: LoopState, db: Db, input: PollInput)
    ensures var r := PollOnce(confirmations, st, db, input);
      if input.head.None? then (r.db.head, r.db.indexedTo) == (db.head, db.indexedTo)
      else
        var safe := SafeHead(confirmations, input.head.value);
        if r.reach.Reached? && r.reach.completed then (r.db.head, r.db.indexedTo) == (safe, safe)
        else if st.nextBlock.Some? then (r.db.head, r.db.indexedTo) == (db.head, db.indexedTo)
        else (r.db.head, r.db.indexedTo) ==
               (safe, if db.indexedTo == 0 || safe <= db.indexedTo then Max(safe - 1, 0) else db.indexedTo)
  {
    hide ProbeAt, Unwound, IndexFrom;
  }
}
