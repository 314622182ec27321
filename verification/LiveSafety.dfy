/** What any run of live polls keeps: the session's range below the next block
    stays classified, unless a poll drops a fork cursor it has already unwound
    for; the checkpoint covers only complete ranges; ten failures end the run. */
module LiveSafety {
  import opened RustInts
  import opened PaperTypes
  import opened ExplorerStore
  import opened Reorg
  import opened LiveIndexer

  /** Every block from the session's lowest cursor up to the next block is
      classified. */
  ghost predicate Covered(low: Option<u64>, st: LoopState, m: Blocks) {
    && (low.Some? <==> st.nextBlock.Some?)
    && (low.Some? ==> forall b: u64 :: low.value <= b < st.nextBlock.value ==> b in m)
  }

  /** The lowest cursor after a poll. */
  function LowAfter(low: Option<u64>, reach: Reach): Option<u64> {
    match reach
    case NotReached => low
    case Reached(cursor, _, _) => Some(if low.Some? then Min(low.value, cursor) else cursor)
  }

  // ----- what one poll decides before the index loop

  function SafeOf(confirmations: u64, input: PollInput): u64
    requires input.head.Some?
  {
    SatSubU64(input.head.value, confirmations)
  }

  function CursorOf(confirmations: u64, st: LoopState, input: PollInput): u64
    requires input.head.Some?
  {
    if st.nextBlock.Some? then st.nextBlock.value else SafeOf(confirmations, input)
  }

  function DbOf(confirmations: u64, st: LoopState, db: Db, input: PollInput): Db
    requires input.head.Some?
  {
    var safe := SafeOf(confirmations, input);
    if st.nextBlock.Some? then db else db.(head := safe, indexedTo := TipJumpCheckpoint(db.indexedTo, safe))
  }

  function TipOutcome(confirmations: u64, st: LoopState, db: Db, input: PollInput): ReorgOutcome
    requires input.head.Some?
  {
    TipCheck(DbOf(confirmations, st, db, input), input, CursorOf(confirmations, st, input),
             SatAddU64(confirmations, REORG_SWEEP_BLOCKS))
  }

  /** The sweep's outcome when it is due, on what the tip check left. */
  function SweepOutcome(confirmations: u64, st: LoopState, db: Db, input: PollInput): ReorgOutcome
    requires input.head.Some?
  {
    var o := TipOutcome(confirmations, st, db, input);
    var cursor := if o.Forked? then o.forkBlock else CursorOf(confirmations, st, input);
    if st.sinceSweep + 1 < REORG_SWEEP_BLOCKS then NoReorg
    else ProbeAt(After(db.blocks, o), input.sweepChain, SatSubU64(cursor, 1), SatAddU64(confirmations, REORG_SWEEP_BLOCKS))
  }

  /** A fork was found and unwound for, and then the poll gave up: the sweep's
      probe failed, or the native price did. */
  predicate ForkLost(confirmations: u64, st: LoopState, db: Db, input: PollInput) {
    && input.head.Some?
    && CursorOf(confirmations, st, input) <= SafeOf(confirmations, input)
    && !TipOutcome(confirmations, st, db, input).ProbeFailed?
    && (TipOutcome(confirmations, st, db, input).Forked? || SweepOutcome(confirmations, st, db, input).Forked?)
    && (SweepOutcome(confirmations, st, db, input).ProbeFailed? || !input.priceOk)
  }

  // ----- the pieces of a poll

  lemma {:induction false} WalkStaysAbove(m: Blocks, chain: Chain, lo: u64, b: u64)
    requires b in m
    ensures var o := WalkFrom(m, chain, lo, b); o.Forked? ==> lo < o.forkBlock <= b && o.forkBlock in m
    ensures !WalkFrom(m, chain, lo, b).NoReorg?
    decreases b
  {
    if b > lo && b - 1 in m {
      WalkStaysAbove(m, chain, lo, b - 1);
    }
  }

  lemma ForkLiesBelow(m: Blocks, chain: Chain, b: u64, lookback: u64)
    ensures var o := ProbeAt(m, chain, b, lookback); o.Forked? ==> 0 < o.forkBlock <= b && o.forkBlock in m
  {
    if b in m {
      WalkStaysAbove(m, chain, SatSubU64(b, lookback), b);
    }
  }

  /** What the index loop leaves behind. */
  lemma {:induction false} IndexFromMeaning(m: Blocks, index: u64 -> IndexReply, b: int, safe: u64, failures: nat)
    requires 0 <= b
    ensures var (m', failed, f, n) := IndexFrom(m, index, b, safe, failures);
      && (forall x :: x in m ==> x in m')
      && (forall x: u64 :: b <= x < (if failed.Some? then failed.value else safe + 1) ==> x in m')
      && (forall x :: x in m' ==> x in m || b <= x <= safe)
      && (failed.Some? ==> b <= failed.value <= safe && 0 < f <= failures + 1)
      && (failed.None? ==> f == 0 || f == failures)
    decreases safe - b
  {
    if b <= safe {
      var (m', ok) := IndexOne(m, index(b), b);
      if ok {
        IndexFromMeaning(m', index, b + 1, safe, 0);
      }
    }
  }

  // ----- coverage

  lemma IndexPhaseCovers(low: Option<u64>, st: LoopState, db: Db, input: PollInput, cursor: u64, safe: u64)
    requires input.priceOk && cursor <= safe
    requires low.Some? ==> forall b: u64 :: low.value <= b < cursor ==> b in db.blocks
    ensures var r := IndexPhase(st, db, input, cursor, safe);
      && r.reach.Reached? && r.reach.cursor == cursor
      && Covered(LowAfter(low, r.reach), r.state, r.db.blocks)
      && (r.reach.completed ==>
            && r.db.indexedTo == safe == r.reach.safe
            && forall b: u64 :: LowAfter(low, r.reach).value <= b <= safe ==> b in r.db.blocks)
      && (r.db.indexedTo != db.indexedTo ==> r.reach.completed && r.db.indexedTo == safe == r.reach.safe)
  {
    IndexFromMeaning(db.blocks, input.index, cursor, safe, st.failures);
  }

  /** The block rows after both checks. */
  function Checked(confirmations: u64, st: LoopState, db: Db, input: PollInput): Blocks
    requires input.head.Some?
  {
    After(After(db.blocks, TipOutcome(confirmations, st, db, input)), SweepOutcome(confirmations, st, db, input))
  }

  /** The cursor after both checks. */
  function CheckedCursor(confirmations: u64, st: LoopState, db: Db, input: PollInput): u64
    requires input.head.Some?
  {
    var o, w := TipOutcome(confirmations, st, db, input), SweepOutcome(confirmations, st, db, input);
    if w.Forked? then w.forkBlock else if o.Forked? then o.forkBlock else CursorOf(confirmations, st, input)
  }

  function SweptState(st: LoopState): LoopState {
    st.(sinceSweep := if st.sinceSweep + 1 < REORG_SWEEP_BLOCKS then st.sinceSweep + 1 else 0)
  }

  /** The database the index phase starts from. */
  function CheckedDb(confirmations: u64, st: LoopState, db: Db, input: PollInput): Db
    requires input.head.Some?
  {
    DbOf(confirmations, st, db, input).(blocks := Checked(confirmations, st, db, input))
  }

  predicate ReachesIndex(confirmations: u64, st: LoopState, db: Db, input: PollInput) {
    && input.head.Some?
    && CursorOf(confirmations, st, input) <= SafeOf(confirmations, input)
    && !TipOutcome(confirmations, st, db, input).ProbeFailed?
    && !SweepOutcome(confirmations, st, db, input).ProbeFailed?
    && input.priceOk
  }

  /** A poll that reaches the index phase does so on the checked rows and
      cursor; any other poll leaves the next block alone. */
  lemma PollShape(confirmations: u64, st: LoopState, db: Db, input: PollInput)
    ensures var r := PollOnce(confirmations, st, db, input);
      if ReachesIndex(confirmations, st, db, input) then
        r == IndexPhase(SweptState(st),
                        CheckedDb(confirmations, st, db, input),
                        input, CheckedCursor(confirmations, st, db, input), SafeOf(confirmations, input))
      else
        && r.reach.NotReached? && r.state.nextBlock == st.nextBlock
        && r.db.blocks == (if ForkLost(confirmations, st, db, input) then Checked(confirmations, st, db, input) else db.blocks)
        && (st.nextBlock.Some? ==> r.db.indexedTo == db.indexedTo)
  {
    hide ProbeAt, Unwound, TipJumpCheckpoint, IndexFrom;
  }

  /** The forks a poll finds lie below its cursor, and below each other. */
  lemma ForksBelowCursor(confirmations: u64, st: LoopState, db: Db, input: PollInput)
    requires input.head.Some?
    ensures var o, w := TipOutcome(confirmations, st, db, input), SweepOutcome(confirmations, st, db, input);
            var c := CursorOf(confirmations, st, input);
            && (o.Forked? ==> o.forkBlock < c)
            && (w.Forked? ==> w.forkBlock < (if o.Forked? then o.forkBlock else c))
  {
    hide ProbeAt, Unwound, TipJumpCheckpoint;
    var d := DbOf(confirmations, st, db, input);
    var lookback := SatAddU64(confirmations, REORG_SWEEP_BLOCKS);
    var o := TipOutcome(confirmations, st, db, input);
    var c := if o.Forked? then o.forkBlock else CursorOf(confirmations, st, input);
    ForkLiesBelow(d.blocks, input.chain, d.indexedTo, lookback);
    ForkLiesBelow(After(db.blocks, o), input.sweepChain, SatSubU64(c, 1), lookback);
  }

  /** One poll keeps the session's range classified exactly when it does not
      lose a fork cursor while that range is not empty. */
  lemma PollKeepsCoveredExactlyUnlessForkLost(confirmations: u64, low: Option<u64>, st: LoopState, db: Db,
                                              input: PollInput)
    requires Covered(low, st, db.blocks)
    ensures var r := PollOnce(confirmations, st, db, input);
      Covered(LowAfter(low, r.reach), r.state, r.db.blocks) <==>
        !(ForkLost(confirmations, st, db, input) && low.Some? && low.value < st.nextBlock.value)
  {
    PollShape(confirmations, st, db, input);
    if ReachesIndex(confirmations, st, db, input) || ForkLost(confirmations, st, db, input) {
      ForksBelowCursor(confirmations, st, db, input);
      hide ProbeAt, IndexPhase, PollOnce, TipCheck, TipJumpCheckpoint;
      if ReachesIndex(confirmations, st, db, input) {
        IndexPhaseCovers(low,
          SweptState(st),
          CheckedDb(confirmations, st, db, input),
          input, CheckedCursor(confirmations, st, db, input), SafeOf(confirmations, input));
      } else if low.Some? && low.value < st.nextBlock.value {
        assert st.nextBlock.value - 1 !in Checked(confirmations, st, db, input);
      }
    }
  }

  /** A poll that completes its range writes the range's end as the checkpoint,
      with the whole session range up to it classified; and once the session has
      a next block, no other poll moves the checkpoint. */
  lemma CheckpointOnlyOverCompleteRange(confirmations: u64, low: Option<u64>, st: LoopState, db: Db, input: PollInput)
    requires Covered(low, st, db.blocks)
    ensures var r := PollOnce(confirmations, st, db, input);
      && (r.reach.Reached? && r.reach.completed ==>
            && r.db.indexedTo == r.reach.safe
            && forall b: u64 :: LowAfter(low, r.reach).value <= b <= r.db.indexedTo ==> b in r.db.blocks)
      && (st.nextBlock.Some? && r.db.indexedTo != db.indexedTo ==> r.reach.Reached? && r.reach.completed)
  {
    PollShape(confirmations, st, db, input);
    if ReachesIndex(confirmations, st, db, input) {
      ForksBelowCursor(confirmations, st, db, input);
      hide ProbeAt, IndexPhase, PollOnce, TipCheck, TipJumpCheckpoint;
      IndexPhaseCovers(low, SweptState(st), CheckedDb(confirmations, st, db, input),
                       input, CheckedCursor(confirmations, st, db, input), SafeOf(confirmations, input));
    }
  }

  /** No poll of the run loses a fork cursor. */
  ghost predicate NoForkLost(confirmations: u64, st: LoopState, db: Db, inputs: seq<PollInput>)
    decreases |inputs|
  {
    inputs != [] ==>
      && !ForkLost(confirmations, st, db, inputs[0])
      && var r := PollOnce(confirmations, st, db, inputs[0]);
         r.verdict == Abort || NoForkLost(confirmations, r.state, r.db, inputs[1..])
  }

  /** The lowest cursor of a run. */
  function RunLow(confirmations: u64, low: Option<u64>, st: LoopState, db: Db, inputs: seq<PollInput>): Option<u64>
    decreases |inputs|
  {
    if inputs == [] then low
    else
      var r := PollOnce(confirmations, st, db, inputs[0]);
      var low' := LowAfter(low, r.reach);
      if r.verdict == Abort then low' else RunLow(confirmations, low', r.state, r.db, inputs[1..])
  }

  /** Over any run of polls that never loses a fork cursor, the range below the
      next block is classified. */
  lemma {:induction false} RunKeepsCovered(confirmations: u64, low: Option<u64>, st: LoopState, db: Db,
                                           inputs: seq<PollInput>)
    requires Covered(low, st, db.blocks) && NoForkLost(confirmations, st, db, inputs)
    ensures var r := RunPolls(confirmations, st, db, inputs);
            Covered(RunLow(confirmations, low, st, db, inputs), r.state, r.db.blocks)
    decreases |inputs|
  {
    hide PollOnce, ForkLost, Covered;
    if inputs != [] {
      PollKeepsCoveredExactlyUnlessForkLost(confirmations, low, st, db, inputs[0]);
      var r := PollOnce(confirmations, st, db, inputs[0]);
      if r.verdict != Abort {
        RunKeepsCovered(confirmations, LowAfter(low, r.reach), r.state, r.db, inputs[1..]);
      }
    }
  }

  lemma SessionKeepsCovered(confirmations: u64, db: Db, inputs: seq<PollInput>)
    requires NoForkLost(confirmations, FRESH, db, inputs)
    ensures var r := RunPolls(confirmations, FRESH, db, inputs);
            Covered(RunLow(confirmations, None, FRESH, db, inputs), r.state, r.db.blocks)
  {
    hide PollOnce, ForkLost;
    RunKeepsCovered(confirmations, None, FRESH, db, inputs);
  }

  // ----- the failure that is left

  /** A block below the next block that is missing stays missing, unless a poll
      finds a fork: nothing else ever moves the cursor back. */
  lemma HolesStayUnlessForked(confirmations: u64, st: LoopState, db: Db, input: PollInput, b: u64)
    requires st.nextBlock.Some? && b < st.nextBlock.value && b !in db.blocks
    requires input.head.Some? ==>
      !TipOutcome(confirmations, st, db, input).Forked? && !SweepOutcome(confirmations, st, db, input).Forked?
    ensures var r := PollOnce(confirmations, st, db, input);
            b !in r.db.blocks && r.state.nextBlock.Some? && b < r.state.nextBlock.value
  {
    PollShape(confirmations, st, db, input);
    if ReachesIndex(confirmations, st, db, input) {
      hide ProbeAt, PollOnce, TipCheck, TipJumpCheckpoint, IndexFrom;
      var d := CheckedDb(confirmations, st, db, input);
      IndexFromMeaning(d.blocks, input.index, CheckedCursor(confirmations, st, db, input),
                       SafeOf(confirmations, input), st.failures);
    }
  }

  /** A fresh session of three polls that leaves a hole below the checkpoint.
      The first indexes block 10, which is then reorganised away; the second
      unwinds it and misses the native price; the third resumes at block 11. */
  lemma LostForkLeavesHole(old10: Hash, new10: Hash, new11: Hash)
    requires old10 != new10
    ensures
      var chain := (b: u64) => if b == 10 then Some(new10) else Some(new11);
      var first := PollInput(Some(10), chain, chain, true, b => Indexed(old10));
      var second := PollInput(Some(11), chain, chain, false, b => Indexed(new11));
      var third := second.(priceOk := true);
      var r := RunPolls(0, FRESH, Db(map[], 0, 0), [first, second, third]);
      && r.verdict == GoOn && r.db.indexedTo == 11 && r.state.nextBlock == Some(12)
      && 10 !in r.db.blocks && 11 in r.db.blocks
  {
    var chain := (b: u64) => if b == 10 then Some(new10) else Some(new11);
    var first := PollInput(Some(10), chain, chain, true, b => Indexed(old10));
    var second := PollInput(Some(11), chain, chain, false, b => Indexed(new11));
    var third := second.(priceOk := true);
    var r1 := PollOnce(0, FRESH, Db(map[], 0, 0), first);
    assert r1 == Poll(LoopState(Some(11), 0, 1, 1), Db(map[10 := old10], 10, 10), GoOn, Reached(10, 10, true)) by {
      IndexOneBlock(map[], first.index, 10, 0);
    }
    var r2 := PollOnce(0, r1.state, r1.db, second);
    assert r2 == Poll(LoopState(Some(11), 1, 2, 1), Db(map[], 10, 10), GoOn, NotReached) by {
      assert WalkFrom(r1.db.blocks, chain, 0, 10) == Forked(10);
      assert Unwound(r1.db.blocks, 10) == map[];
    }
    var r3 := PollOnce(0, r2.state, r2.db, third);
    assert r3.db == Db(map[11 := new11], 11, 11) && r3.verdict == GoOn && r3.state.nextBlock == Some(12) by {
      IndexOneBlock(map[], third.index, 11, 1);
    }
    hide PollOnce;
    var inputs := [first, second, third];
    assert inputs[1..] == [second, third] && [second, third][1..] == [third] && [third][1..] == [];
    assert RunPolls(0, r2.state, r2.db, [third]) == RunPolls(0, r3.state, r3.db, []);
    assert RunPolls(0, r1.state, r1.db, [second, third]) == RunPolls(0, r2.state, r2.db, [third]);
  }

  lemma IndexOneBlock(m: Blocks, index: u64 -> IndexReply, b: u64, failures: nat)
    requires b !in m && index(b).Indexed?
    ensures IndexFrom(m, index, b, b, failures) == (m[b := index(b).hash], None, 0, 1)
  {
    assert IndexFrom(m[b := index(b).hash], index, b + 1, b, 0) == (m[b := index(b).hash], None, 0, 0);
  }

  // ----- how far a lost fork reaches

  /** A block below the next block that is not classified. */
  ghost predicate Hole(st: LoopState, db: Db, b: u64) {
    st.nextBlock.Some? && b < st.nextBlock.value && b !in db.blocks
  }

  /** The poll indexes again from `b` or below. */
  predicate ReachesBack(confirmations: u64, st: LoopState, db: Db, input: PollInput, b: u64) {
    ReachesIndex(confirmations, st, db, input) && CheckedCursor(confirmations, st, db, input) <= b
  }

  /** A poll closes a hole exactly when it goes back to it: a fork moves the cursor
      to the hole or below, and the index phase is reached. The block is then
      classified, or ahead of the next block. */
  lemma HoleStaysExactlyUnlessReached(confirmations: u64, st: LoopState, db: Db, input: PollInput, b: u64)
    requires Hole(st, db, b)
    ensures var r := PollOnce(confirmations, st, db, input);
      && (Hole(r.state, r.db, b) <==> !ReachesBack(confirmations, st, db, input, b))
      && (ReachesBack(confirmations, st, db, input, b) ==>
            && (TipOutcome(confirmations, st, db, input).Forked? || SweepOutcome(confirmations, st, db, input).Forked?)
            && r.reach.Reached? && r.reach.cursor <= b && Covered(Some(r.reach.cursor), r.state, r.db.blocks))
  {
    PollShape(confirmations, st, db, input);
    if ReachesIndex(confirmations, st, db, input) {
      ForksBelowCursor(confirmations, st, db, input);
      hide ProbeAt, PollOnce, TipCheck, TipJumpCheckpoint, IndexFrom;
      var d := CheckedDb(confirmations, st, db, input);
      IndexFromMeaning(d.blocks, input.index, CheckedCursor(confirmations, st, db, input),
                       SafeOf(confirmations, input), st.failures);
    }
  }

  /** No poll of the run indexes again from `b` or below. */
  ghost predicate NeverReachesBack(confirmations: u64, st: LoopState, db: Db, inputs: seq<PollInput>, b: u64)
    decreases |inputs|
  {
    inputs != [] ==>
      && !ReachesBack(confirmations, st, db, inputs[0], b)
      && var r := PollOnce(confirmations, st, db, inputs[0]);
         r.verdict == Abort || NeverReachesBack(confirmations, r.state, r.db, inputs[1..], b)
  }

  /** A hole lasts over any run of polls that never goes back to it. */
  lemma {:induction false} HolesStayOverRuns(confirmations: u64, st: LoopState, db: Db, inputs: seq<PollInput>, b: u64)
    requires Hole(st, db, b) && NeverReachesBack(confirmations, st, db, inputs, b)
    ensures var r := RunPolls(confirmations, st, db, inputs); Hole(r.state, r.db, b)
    decreases |inputs|
  {
    hide PollOnce, ReachesBack, Hole;
    if inputs != [] {
      HoleStaysExactlyUnlessReached(confirmations, st, db, inputs[0], b);
      var r := PollOnce(confirmations, st, db, inputs[0]);
      if r.verdict != Abort {
        HolesStayOverRuns(confirmations, r.state, r.db, inputs[1..], b);
      }
    }
  }

  lemma {:induction false} RunLowFalls(confirmations: u64, low: u64, st: LoopState, db: Db, inputs: seq<PollInput>)
    ensures var r := RunLow(confirmations, Some(low), st, db, inputs); r.Some? && r.value <= low
    decreases |inputs|
  {
    hide PollOnce;
    if inputs != [] {
      var r := PollOnce(confirmations, st, db, inputs[0]);
      if r.verdict != Abort {
        RunLowFalls(confirmations, LowAfter(Some(low), r.reach).value, r.state, r.db, inputs[1..]);
      }
    }
  }

  /** A range that is covered from `b` or below has no hole at `b`, and gets none
      while no fork cursor is lost. */
  lemma CoveredHasNoHole(confirmations: u64, low: u64, st: LoopState, db: Db, inputs: seq<PollInput>, b: u64)
    requires low <= b && Covered(Some(low), st, db.blocks) && NoForkLost(confirmations, st, db, inputs)
    ensures var r := RunPolls(confirmations, st, db, inputs); !Hole(r.state, r.db, b)
  {
    hide RunPolls, RunLow, NoForkLost;
    RunKeepsCovered(confirmations, Some(low), st, db, inputs);
    RunLowFalls(confirmations, low, st, db, inputs);
  }

  /** Over a run that loses no further fork cursor, a hole is there at the end
      exactly when no poll went back to it. */
  lemma {:induction false} HoleLastsExactlyUnlessReached(confirmations: u64, st: LoopState, db: Db,
                                                         inputs: seq<PollInput>, b: u64)
    requires Hole(st, db, b) && NoForkLost(confirmations, st, db, inputs)
    ensures var r := RunPolls(confirmations, st, db, inputs);
            Hole(r.state, r.db, b) <==> NeverReachesBack(confirmations, st, db, inputs, b)
    decreases |inputs|
  {
    hide PollOnce, ReachesBack, Hole, Covered, ForkLost;
    if inputs != [] {
      HoleStaysExactlyUnlessReached(confirmations, st, db, inputs[0], b);
      var r := PollOnce(confirmations, st, db, inputs[0]);
      if r.verdict != Abort {
        if ReachesBack(confirmations, st, db, inputs[0], b) {
          CoveredHasNoHole(confirmations, r.reach.cursor, r.state, r.db, inputs[1..], b);
        } else {
          HoleLastsExactlyUnlessReached(confirmations, r.state, r.db, inputs[1..], b);
        }
      }
    }
  }

  /** No poll of the run finds a fork. */
  ghost predicate NoForkFound(confirmations: u64, st: LoopState, db: Db, inputs: seq<PollInput>)
    decreases |inputs|
  {
    inputs != [] ==>
      && (inputs[0].head.Some? ==>
            && !TipOutcome(confirmations, st, db, inputs[0]).Forked?
            && !SweepOutcome(confirmations, st, db, inputs[0]).Forked?)
      && var r := PollOnce(confirmations, st, db, inputs[0]);
         r.verdict == Abort || NoForkFound(confirmations, r.state, r.db, inputs[1..])
  }

  /** Without a fork no poll goes back. */
  lemma {:induction false} NoForkNeverReachesBack(confirmations: u64, st: LoopState, db: Db, inputs: seq<PollInput>,
                                                  b: u64)
    requires Hole(st, db, b) && NoForkFound(confirmations, st, db, inputs)
    ensures NeverReachesBack(confirmations, st, db, inputs, b)
    decreases |inputs|
  {
    hide PollOnce, Hole, TipOutcome, SweepOutcome;
    if inputs != [] {
      HoleStaysExactlyUnlessReached(confirmations, st, db, inputs[0], b);
      var r := PollOnce(confirmations, st, db, inputs[0]);
      if r.verdict != Abort {
        NoForkNeverReachesBack(confirmations, r.state, r.db, inputs[1..], b);
      }
    }
  }

  lemma {:induction false} RunPollsInTwo(confirmations: u64, st: LoopState, db: Db, a: seq<PollInput>,
                                         b: seq<PollInput>)
    ensures var r := RunPolls(confirmations, st, db, a);
      RunPolls(confirmations, st, db, a + b) ==
        if r.verdict == Abort then r else RunPolls(confirmations, r.state, r.db, b)
    decreases |a|
  {
    hide PollOnce;
    if a == [] {
      assert a + b == b;
    } else {
      assert (a + b)[0] == a[0] && (a + b)[1..] == a[1..] + b;
      var r := PollOnce(confirmations, st, db, a[0]);
      if r.verdict != Abort {
        RunPollsInTwo(confirmations, r.state, r.db, a[1..], b);
      }
    }
  }

  /** A session that loses a fork cursor over a range that is not empty has a hole
      just below its next block. The hole is there at the end when no later poll
      goes back to it, and, if no further fork cursor is lost, only then. */
  lemma SessionEndsWithHole(confirmations: u64, db: Db, before: seq<PollInput>, lost: PollInput, after: seq<PollInput>)
    requires NoForkLost(confirmations, FRESH, db, before)
    requires var r := RunPolls(confirmations, FRESH, db, before);
             var low := RunLow(confirmations, None, FRESH, db, before);
             && r.verdict == GoOn && r.state.nextBlock.Some? && low.Some? && low.value < r.state.nextBlock.value
             && ForkLost(confirmations, r.state, r.db, lost)
    ensures var s := RunPolls(confirmations, FRESH, db, before);
            var low := RunLow(confirmations, None, FRESH, db, before);
            var p := PollOnce(confirmations, s.state, s.db, lost);
            var r := RunPolls(confirmations, FRESH, db, before + ([lost] + after));
            var b := s.state.nextBlock.value - 1;
      && low.value <= b && b in s.db.blocks
      && (p.verdict == Abort ==> Hole(r.state, r.db, b))
      && (NeverReachesBack(confirmations, p.state, p.db, after, b) ==> Hole(r.state, r.db, b))
      && (p.verdict == GoOn && NoForkLost(confirmations, p.state, p.db, after) ==>
            (Hole(r.state, r.db, b) <==> NeverReachesBack(confirmations, p.state, p.db, after, b)))
  {
    hide PollOnce, NeverReachesBack, NoForkLost, RunLow, ForkLost;
    SessionKeepsCovered(confirmations, db, before);
    var r := RunPolls(confirmations, FRESH, db, before);
    var p := PollOnce(confirmations, r.state, r.db, lost);
    LostForkDeletesLast(confirmations, r.state, r.db, lost);
    RunPollsInTwo(confirmations, FRESH, db, before, [lost] + after);
    assert ([lost] + after)[1..] == after;
    assert RunPolls(confirmations, r.state, r.db, [lost] + after)
      == if p.verdict == Abort then p else RunPolls(confirmations, p.state, p.db, after);
    hide RunPolls;
    var b: u64 := r.state.nextBlock.value - 1;
    if p.verdict == GoOn {
      if NeverReachesBack(confirmations, p.state, p.db, after, b) {
        HolesStayOverRuns(confirmations, p.state, p.db, after, b);
      }
      if NoForkLost(confirmations, p.state, p.db, after) {
        HoleLastsExactlyUnlessReached(confirmations, p.state, p.db, after, b);
      }
    }
  }

  lemma LostForkDeletesLast(confirmations: u64, st: LoopState, db: Db, input: PollInput)
    requires ForkLost(confirmations, st, db, input) && st.nextBlock.Some?
    ensures var p := PollOnce(confirmations, st, db, input);
      && p.state.nextBlock == st.nextBlock && st.nextBlock.value > 0
      && st.nextBlock.value - 1 !in p.db.blocks
  {
    PollShape(confirmations, st, db, input);
    ForksBelowCursor(confirmations, st, db, input);
    hide ProbeAt, PollOnce, TipCheck, TipJumpCheckpoint;
  }

  /** Every checkpoint a session writes, up to the first lost fork cursor, has
      the whole session range below it. */
  lemma SessionCheckpointsAreSound(confirmations: u64, db: Db, before: seq<PollInput>, next: PollInput)
    requires NoForkLost(confirmations, FRESH, db, before)
    requires RunPolls(confirmations, FRESH, db, before).verdict == GoOn
    ensures var r := RunPolls(confirmations, FRESH, db, before);
            var p := PollOnce(confirmations, r.state, r.db, next);
            var low := LowAfter(RunLow(confirmations, None, FRESH, db, before), p.reach);
      && (p.reach.Reached? && p.reach.completed ==>
            && p.db.indexedTo == p.reach.safe
            && forall b: u64 :: low.value <= b <= p.db.indexedTo ==> b in p.db.blocks)
      && (r.state.nextBlock.Some? && p.db.indexedTo != r.db.indexedTo ==> p.reach.Reached? && p.reach.completed)
  {
    hide PollOnce, NoForkLost, RunLow, Covered;
    SessionKeepsCovered(confirmations, db, before);
    var r := RunPolls(confirmations, FRESH, db, before);
    CheckpointOnlyOverCompleteRange(confirmations, RunLow(confirmations, None, FRESH, db, before), r.state, r.db, next);
  }

  // ----- when a run ends

  /** What a poll does to the failure count: nothing; one more; back to one after
      a success; back to zero. */
  datatype Effect = Unnoticed | Extends | Restarts | Clears

  /** Indexing block `b` fails: it is not classified and its call reports no
      success. */
  predicate FailsAt(m: Blocks, index: u64 -> IndexReply, b: u64) {
    b !in m && !index(b).Indexed?
  }

  /** The effect, read off the poll's inputs: what the head, the probes, the price
      and the index calls answer. */
  ghost function EffectOf(confirmations: u64, st: LoopState, db: Db, input: PollInput): Effect {
    if input.head.None? || CursorOf(confirmations, st, input) > SafeOf(confirmations, input) then Unnoticed
    else if !ReachesIndex(confirmations, st, db, input) then Extends
    else
      var m, cursor := Checked(confirmations, st, db, input), CheckedCursor(confirmations, st, db, input);
      if FailsAt(m, input.index, cursor) then Extends
      else if exists b: u64 :: cursor < b <= SafeOf(confirmations, input) && FailsAt(m, input.index, b) then Restarts
      else Clears
  }

  function Counted(e: Effect, failures: nat): nat {
    match e
    case Unnoticed => failures
    case Extends => failures + 1
    case Restarts => 1
    case Clears => 0
  }

  /** The index loop stops at the first block that fails. */
  lemma {:induction false} IndexFromFailures(m: Blocks, index: u64 -> IndexReply, b: u64, safe: u64, failures: nat)
    requires b <= safe
    ensures var (m', failed, f, n) := IndexFrom(m, index, b, safe, failures);
      && (failed.None? ==> f == 0 && forall c: u64 :: b <= c <= safe ==> !FailsAt(m, index, c))
      && (failed.Some? ==>
            && b <= failed.value <= safe && FailsAt(m, index, failed.value)
            && (forall c: u64 :: b <= c < failed.value ==> !FailsAt(m, index, c))
            && f == if failed.value == b then failures + 1 else 1)
    decreases safe - b
  {
    var (m', ok) := IndexOne(m, index(b), b);
    if ok {
      if b < safe {
        IndexFromFailures(m', index, b + 1, safe, 0);
        forall c: u64 | b < c ensures FailsAt(m', index, c) <==> FailsAt(m, index, c) {
        }
      } else {
        assert IndexFrom(m', index, b + 1, safe, 0) == (m', None, 0, 0);
      }
    }
  }

  lemma IndexPhaseCounts(st: LoopState, db: Db, input: PollInput, cursor: u64, safe: u64)
    requires input.priceOk && cursor <= safe && st.failures < MAX_CONSECUTIVE_LIVE_FAILURES
    ensures var r := IndexPhase(st, db, input, cursor, safe);
      && (FailsAt(db.blocks, input.index, cursor) ==> r.state.failures == st.failures + 1)
      && (!FailsAt(db.blocks, input.index, cursor) ==>
            r.state.failures ==
              if exists b: u64 :: cursor < b <= safe && FailsAt(db.blocks, input.index, b) then 1 else 0)
      && (r.verdict == Abort <==> r.state.failures >= MAX_CONSECUTIVE_LIVE_FAILURES)
  {
    hide IndexFrom;
    IndexFromFailures(db.blocks, input.index, cursor, safe, st.failures);
  }

  /** Below ten failures, a poll changes the count as its effect says, and aborts
      exactly when that makes ten. */
  lemma PollCounts(confirmations: u64, st: LoopState, db: Db, input: PollInput)
    requires st.failures < MAX_CONSECUTIVE_LIVE_FAILURES
    ensures var r := PollOnce(confirmations, st, db, input);
      && r.state.failures == Counted(EffectOf(confirmations, st, db, input), st.failures)
      && (r.verdict == Abort <==> r.state.failures == MAX_CONSECUTIVE_LIVE_FAILURES)
  {
    PollShape(confirmations, st, db, input);
    if ReachesIndex(confirmations, st, db, input) {
      ForksBelowCursor(confirmations, st, db, input);
      hide ProbeAt, IndexPhase, PollOnce, TipCheck, TipJumpCheckpoint;
      IndexPhaseCounts(SweptState(st), CheckedDb(confirmations, st, db, input), input,
                       CheckedCursor(confirmations, st, db, input), SafeOf(confirmations, input));
    } else {
      FailingPollCounts(confirmations, st, db, input);
    }
  }

  lemma FailingPollCounts(confirmations: u64, st: LoopState, db: Db, input: PollInput)
    requires st.failures < MAX_CONSECUTIVE_LIVE_FAILURES && !ReachesIndex(confirmations, st, db, input)
    ensures var r := PollOnce(confirmations, st, db, input);
      && r.state.failures == Counted(EffectOf(confirmations, st, db, input), st.failures)
      && (r.verdict == Abort <==> r.state.failures == MAX_CONSECUTIVE_LIVE_FAILURES)
  {
    hide ProbeAt, Unwound, TipJumpCheckpoint, IndexFrom;
  }

  /** The effects of a run's polls, up to the one that aborts. */
  ghost function Effects(confirmations: u64, st: LoopState, db: Db, inputs: seq<PollInput>): seq<Effect>
    decreases |inputs|
  {
    if inputs == [] then []
    else
      var r := PollOnce(confirmations, st, db, inputs[0]);
      [EffectOf(confirmations, st, db, inputs[0])] +
        if r.verdict == Abort then [] else Effects(confirmations, r.state, r.db, inputs[1..])
  }

  /** The failures since the last success, `before` counted in. */
  function Streak(effects: seq<Effect>, before: nat): nat {
    if effects == [] then before
    else Counted(effects[|effects| - 1], Streak(effects[..|effects| - 1], before))
  }

  lemma {:induction false} StreakFromFront(e: Effect, rest: seq<Effect>, before: nat)
    ensures Streak([e] + rest, before) == Streak(rest, Counted(e, before))
  {
    if rest == [] {
      assert [e] + rest == [e] && [e][..0] == [];
    } else {
      assert ([e] + rest)[..|rest|] == [e] + rest[..|rest| - 1];
      StreakFromFront(e, rest[..|rest| - 1], before);
    }
  }

  function Noticed(effects: seq<Effect>): seq<Effect> {
    if effects == [] then []
    else if effects[|effects| - 1].Unnoticed? then Noticed(effects[..|effects| - 1])
    else Noticed(effects[..|effects| - 1]) + [effects[|effects| - 1]]
  }

  /** The noticed polls end in `n` failures in a row. */
  ghost predicate EndsInFailures(noticed: seq<Effect>, n: nat) {
    && n <= |noticed|
    && (forall i :: |noticed| - n < i < |noticed| ==> noticed[i] == Extends)
    && (n > 0 ==> noticed[|noticed| - n].Extends? || noticed[|noticed| - n].Restarts?)
  }

  lemma OneMoreFailure(before: seq<Effect>, e: Effect, n: nat)
    requires n > 1
    ensures EndsInFailures(before + [e], n) <==> e == Extends && EndsInFailures(before, n - 1)
  {
    var after := before + [e];
    if n <= |after| {
      assert after[|after| - n] == before[|before| - (n - 1)];
      assert after[|after| - 1] == e;
      if EndsInFailures(after, n) {
        forall i | |before| - (n - 1) < i < |before| ensures before[i] == Extends {
          assert after[i] == before[i];
        }
      }
    }
  }

  lemma {:induction false} StreakMeaning(effects: seq<Effect>, n: nat)
    requires n >= 1
    ensures Streak(effects, 0) >= n <==> EndsInFailures(Noticed(effects), n)
  {
    if effects != [] {
      var init, e := effects[..|effects| - 1], effects[|effects| - 1];
      StreakMeaning(init, n);
      if !e.Unnoticed? && n > 1 {
        StreakMeaning(init, n - 1);
        OneMoreFailure(Noticed(init), e, n);
      }
    }
  }

  lemma {:induction false} RunCounts(confirmations: u64, st: LoopState, db: Db, inputs: seq<PollInput>)
    requires st.failures < MAX_CONSECUTIVE_LIVE_FAILURES
    ensures var r := RunPolls(confirmations, st, db, inputs);
      && r.state.failures == Streak(Effects(confirmations, st, db, inputs), st.failures)
      && (r.verdict == Abort <==> r.state.failures == MAX_CONSECUTIVE_LIVE_FAILURES)
      && r.state.failures <= MAX_CONSECUTIVE_LIVE_FAILURES
    decreases |inputs|
  {
    hide PollOnce, EffectOf;
    if inputs != [] {
      var e := EffectOf(confirmations, st, db, inputs[0]);
      PollCounts(confirmations, st, db, inputs[0]);
      var r := PollOnce(confirmations, st, db, inputs[0]);
      if r.verdict == Abort {
        StreakFromFront(e, [], st.failures);
      } else {
        RunCounts(confirmations, r.state, r.db, inputs[1..]);
        StreakFromFront(e, Effects(confirmations, r.state, r.db, inputs[1..]), st.failures);
      }
    }
  }

  /** A session aborts exactly when ten polls in a row fail, polls that go
      unnoticed aside: those without a head, and those with no block to index. */
  lemma SessionAbortsExactlyWhen(confirmations: u64, db: Db, inputs: seq<PollInput>)
    ensures RunPolls(confirmations, FRESH, db, inputs).verdict == Abort <==>
            EndsInFailures(Noticed(Effects(confirmations, FRESH, db, inputs)), 10)
  {
    hide RunPolls, Effects, Streak, Noticed, EndsInFailures;
    RunCounts(confirmations, FRESH, db, inputs);
    StreakMeaning(Effects(confirmations, FRESH, db, inputs), MAX_CONSECUTIVE_LIVE_FAILURES);
  }

  function HeadAnswered(inputs: seq<PollInput>): seq<PollInput> {
    if inputs == [] then []
    else if inputs[0].head.None? then HeadAnswered(inputs[1..])
    else [inputs[0]] + HeadAnswered(inputs[1..])
  }

  /** Failed head requests are invisible: a run ends as it would without them. */
  lemma {:induction false} HeadFailuresAreInvisible(confirmations: u64, st: LoopState, db: Db, inputs: seq<PollInput>)
    ensures RunPolls(confirmations, st, db, inputs) == RunPolls(confirmations, st, db, HeadAnswered(inputs))
    decreases |inputs|
  {
    if inputs != [] {
      var r := PollOnce(confirmations, st, db, inputs[0]);
      if inputs[0].head.Some? {
        assert ([inputs[0]] + HeadAnswered(inputs[1..]))[1..] == HeadAnswered(inputs[1..]);
      }
      hide PollOnce;
      if r.verdict != Abort {
        HeadFailuresAreInvisible(confirmations, r.state, r.db, inputs[1..]);
      }
    }
  }

  /** So a provider that is down altogether is never noticed, however long. */
  lemma {:induction false} DeadProviderNeverAborts(confirmations: u64, st: LoopState, db: Db, inputs: seq<PollInput>)
    requires forall i :: 0 <= i < |inputs| ==> inputs[i].head.None?
    ensures RunPolls(confirmations, st, db, inputs) == Poll(st, db, GoOn, NotReached)
    decreases |inputs|
  {
    if inputs != [] {
      DeadProviderNeverAborts(confirmations, st, db, inputs[1..]);
    }
  }
}
