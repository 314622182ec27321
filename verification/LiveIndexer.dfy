/** The live indexer: poll the tip, verify what is indexed, index the new
    blocks, move the checkpoint. One poll is a function of the loop's state, the
    database and what the outside answered, and the program's loop refines it. */
module LiveIndexer {
  import opened RustInts
  import opened PaperTypes
  import opened ExplorerStore
  import opened Reorg

  const MAX_CONSECUTIVE_LIVE_FAILURES: nat := 10
  const REORG_SWEEP_BLOCKS: u64 := 32

  /** The answer to indexing a block that is not classified yet. The failure
      may come before the block's rows were committed or after. */
  datatype IndexReply = Indexed(hash: Hash) | FailedBefore | FailedAfter(hash: Hash)

  /** Everything the outside says during one poll. The tip check and the sweep
      may hear different hashes for the same block. */
  datatype PollInput = PollInput(head: Option<u64>, chain: Chain, sweepChain: Chain, priceOk: bool, index: u64 -> IndexReply)

  /** The loop's variables. */
  datatype LoopState = LoopState(nextBlock: Option<u64>, failures: nat, sinceSweep: nat, blocksSession: nat)

  /** The database: block rows and the checkpoint. */
  datatype Db = Db(blocks: Blocks, head: u64, indexedTo: u64)

  datatype Verdict = GoOn | Abort

  /** How far a poll came: it never got to the index loop, or it went through it
      from `cursor` to `safe`, completely or not. */
  datatype Reach = NotReached | Reached(cursor: u64, safe: u64, completed: bool)

  datatype Poll = Poll(state: LoopState, db: Db, verdict: Verdict, reach: Reach)

  // ----- the small decisions

  function TipJumpCheckpoint(existing: u64, safe: u64): (r: u64)
    ensures r == Min(if existing == 0 then U64_MAX else existing, Max(safe - 1, 0))
  {
    if existing == 0 then SatSubU64(safe, 1) else Min(existing, SatSubU64(safe, 1))
  }

  datatype BlockAttempt = BlockAttempt(nextBlock: Option<u64>, advanceSync: bool, failures: nat)

  function AfterBlockAttempt(failures: nat, block: u64, ok: bool): (r: BlockAttempt)
    ensures ok ==> r.nextBlock.None? && r.advanceSync && r.failures == 0
    ensures !ok ==> r.nextBlock == Some(block) && !r.advanceSync && r.failures == failures + 1
  {
    if ok then BlockAttempt(None, true, 0) else BlockAttempt(Some(block), false, failures + 1)
  }

  function CheckpointTarget(rangeCompleted: bool, safe: u64): (r: Option<u64>)
    ensures r.Some? <==> rangeCompleted
    ensures r.Some? ==> r.value == Min(safe + 1, U64_MAX)
  {
    if rangeCompleted then Some(SatAddU64(safe, 1)) else None
  }

  // ----- the index loop

  /** The block rows after one block's index call, and whether it reported success. */
  function IndexOne(m: Blocks, reply: IndexReply, b: u64): (Blocks, bool) {
    if b in m then (m, true)
    else match reply
      case Indexed(h) => (Inserted(m, b, h), true)
      case FailedBefore => (m, false)
      case FailedAfter(h) => (Inserted(m, b, h), false)
  }

  /** Index `b..=safe`, stopping at the first failure. */
  function IndexFrom(m: Blocks, index: u64 -> IndexReply, b: int, safe: u64, failures: nat): (Blocks, Option<u64>,
                     nat, nat)
    requires 0 <= b
    decreases safe - b
  {
    if b > safe then (m, None, failures, 0)
    else
      var (m', ok) := IndexOne(m, index(b), b);
      if ok then
        var (m'', failed, f, n) := IndexFrom(m', index, b + 1, safe, 0);
        (m'', failed, f, n + 1)
      else (m', Some(b), failures + 1, 0)
  }

  /** `n` more successes ahead of what the index loop leaves. */
  function Ahead(n: nat, r: (Blocks, Option<u64>, nat, nat)): (Blocks, Option<u64>, nat, nat) {
    (r.0, r.1, r.2, n + r.3)
  }

  lemma IndexNothing(m: Blocks, index: u64 -> IndexReply, b: nat, safe: u64, failures: nat)
    requires b > safe
    ensures IndexFrom(m, index, b, safe, failures) == (m, None, failures, 0)
  {
  }

  lemma IndexStep(m: Blocks, index: u64 -> IndexReply, b: u64, safe: u64, failures: nat, n: nat)
    requires b <= safe
    ensures var (m', ok) := IndexOne(m, index(b), b);
      Ahead(n, IndexFrom(m, index, b, safe, failures)) ==
        if ok then Ahead(n + 1, IndexFrom(m', index, b + 1, safe, 0)) else (m', Some(b), failures + 1, n)
  {
  }

  // ----- one poll

  function Failing(st: LoopState, db: Db): Poll {
    var f := st.failures + 1;
    Poll(st.(failures := f), db, if f >= MAX_CONSECUTIVE_LIVE_FAILURES then Abort else GoOn, NotReached)
  }

  /** From the cursor on: the price, the index loop and the checkpoint. */
  function IndexPhase(st: LoopState, db: Db, input: PollInput, cursor: u64, safe: u64): Poll {
    if !input.priceOk then Failing(st, db)
    else
      var (blocks, failed, failures, n) := IndexFrom(db.blocks, input.index, cursor, safe, st.failures);
      var st' := st.(failures := failures, blocksSession := st.blocksSession + n);
      var db' := db.(blocks := blocks);
      match CheckpointTarget(failed.None?, safe)
      case Some(resumeAt) =>
        Poll(st'.(nextBlock := Some(resumeAt)), db'.(head := safe, indexedTo := safe), GoOn, Reached(cursor, safe, true))
      case None =>
        Poll(st'.(nextBlock := failed), db',
             if failures >= MAX_CONSECUTIVE_LIVE_FAILURES then Abort else GoOn, Reached(cursor, safe, false))
  }

  /** From the cursor on: the sweep every 32 polls, then the index phase. */
  function SweepPhase(st: LoopState, db: Db, input: PollInput, cursor: u64, safe: u64, lookback: u64): Poll {
    var st' := st.(sinceSweep := st.sinceSweep + 1);
    if st'.sinceSweep < REORG_SWEEP_BLOCKS then IndexPhase(st', db, input, cursor, safe)
    else
      var o := ProbeAt(db.blocks, input.sweepChain, SatSubU64(cursor, 1), lookback);
      if o.ProbeFailed? then Failing(st', db)
      else IndexPhase(st'.(sinceSweep := 0), db.(blocks := After(db.blocks, o)), input,
                      if o.Forked? then o.forkBlock else cursor, safe)
  }

  /** One turn of the loop, `confirmations` behind the head. */
  function PollOnce(confirmations: u64, st: LoopState, db: Db, input: PollInput): Poll {
    match input.head
    case None => Poll(st, db, GoOn, NotReached)
    case Some(head) =>
      var safe := SatSubU64(head, confirmations);
      var cursor := if st.nextBlock.Some? then st.nextBlock.value else safe;
      var db' := if st.nextBlock.Some? then db
                 else db.(head := safe, indexedTo := TipJumpCheckpoint(db.indexedTo, safe));
      if safe < cursor then Poll(st.(nextBlock := Some(cursor)), db', GoOn, NotReached)
      else
        var lookback := SatAddU64(confirmations, REORG_SWEEP_BLOCKS);
        var o := TipCheck(db', input, cursor, lookback);
        if o.ProbeFailed? then Failing(st, db')
        else SweepPhase(st, db'.(blocks := After(db'.blocks, o)), input,
                        if o.Forked? then o.forkBlock else cursor, safe, lookback)
  }

  /** The per-poll check of the last indexed block, when it is behind the cursor. */
  function TipCheck(db: Db, input: PollInput, cursor: u64, lookback: u64): ReorgOutcome {
    if 0 < db.indexedTo < cursor then ProbeAt(db.blocks, input.chain, db.indexedTo, lookback) else NoReorg
  }

  /** A run of polls, until one aborts. */
  function RunPolls(confirmations: u64, st: LoopState, db: Db, inputs: seq<PollInput>): Poll
    decreases |inputs|
  {
    if inputs == [] then Poll(st, db, GoOn, NotReached)
    else
      var r := PollOnce(confirmations, st, db, inputs[0]);
      if r.verdict == Abort then r else RunPolls(confirmations, r.state, r.db, inputs[1..])
  }

  const FRESH: LoopState := LoopState(None, 0, 0, 0)

  // ----- the program's loop

  ghost function View(store: Store): Db
    reads store
  {
    Db(store.blocks, store.head, store.indexedTo)
  }

  method IndexBlock(store: Store, b: u64, reply: IndexReply) returns (ok: bool)
    modifies store`blocks, store`history
    ensures (store.blocks, ok) == IndexOne(old(store.blocks), reply, b)
  {
    var known := store.BlockHash(b);
    if known.Some? {
      return true;
    }
    ok := reply.Indexed?;
    if !reply.FailedBefore? {
      store.InsertBlock(b, reply.hash);
    }
  }

  /** The tail of a poll: price, index loop, checkpoint. */
  method IndexRange(store: Store, st: LoopState, input: PollInput, cursor: u64, safe: u64)
    returns (st': LoopState, verdict: Verdict, ghost reach: Reach)
    modifies store
    ensures Poll(st', View(store), verdict, reach) == IndexPhase(st, old(View(store)), input, cursor, safe)
  {
    hide IndexFrom, IndexOne, AfterBlockAttempt, CheckpointTarget;
    if !input.priceOk {
      var f := st.failures + 1;
      return st.(failures := f), if f >= MAX_CONSECUTIVE_LIVE_FAILURES then Abort else GoOn, NotReached;
    }
    var nextBlock := st.nextBlock;
    var failures: nat, blocksSession: nat := st.failures, st.blocksSession;
    var rangeCompleted := true;
    var block: int := cursor;
    while block <= safe && rangeCompleted
      invariant cursor <= block && (block <= safe + 1 || block == cursor)
      invariant store.head == old(store.head) && store.indexedTo == old(store.indexedTo)
      invariant rangeCompleted ==> nextBlock == st.nextBlock
      invariant blocksSession >= st.blocksSession && (!rangeCompleted ==> nextBlock.Some?)
      invariant IndexFrom(old(store.blocks), input.index, cursor, safe, st.failures) ==
        if rangeCompleted
        then Ahead(blocksSession - st.blocksSession, IndexFrom(store.blocks, input.index, block, safe, failures))
        else (store.blocks, nextBlock, failures, blocksSession - st.blocksSession)
      decreases safe + 1 - block, rangeCompleted
    {
      IndexStep(store.blocks, input.index, block, safe, failures, blocksSession - st.blocksSession);
      var ok := IndexBlock(store, block, input.index(block));
      var attempt := AfterBlockAttempt(failures, block, ok);
      failures := attempt.failures;
      rangeCompleted := attempt.advanceSync;
      if ok {
        blocksSession := blocksSession + 1;
        block := block + 1;
      } else {
        nextBlock := attempt.nextBlock;
      }
    }
    if rangeCompleted {
      IndexNothing(store.blocks, input.index, block, safe, failures);
    }
    verdict := if !rangeCompleted && failures >= MAX_CONSECUTIVE_LIVE_FAILURES then Abort else GoOn;
    var target := CheckpointTarget(rangeCompleted, safe);
    if target.Some? {
      store.SetSyncState(safe, safe);
      nextBlock := target;
    }
    st' := LoopState(nextBlock, failures, st.sinceSweep, blocksSession);
    reach := Reached(cursor, safe, rangeCompleted);
  }

  /** One turn of `run_live`'s loop against the store. */
  method PollStore(confirmations: u64, store: Store, st: LoopState, input: PollInput)
    returns (st': LoopState, verdict: Verdict, ghost reach: Reach)
    modifies store
    ensures Poll(st', View(store), verdict, reach) == PollOnce(confirmations, st, old(View(store)), input)
  {
    hide IndexPhase, ProbeAt, Unwound, TipJumpCheckpoint;
    if input.head.None? {
      return st, GoOn, NotReached;
    }
    var safe := SatSubU64(input.head.value, confirmations);
    var cursor := safe;
    if st.nextBlock.Some? {
      cursor := st.nextBlock.value;
    } else {
      store.SetSyncState(safe, TipJumpCheckpoint(store.indexedTo, safe));
    }
    if safe < cursor {
      return st.(nextBlock := Some(cursor)), GoOn, NotReached;
    }
    var lookback := SatAddU64(confirmations, REORG_SWEEP_BLOCKS);
    var failed := st.failures + 1;
    var onFailure := if failed >= MAX_CONSECUTIVE_LIVE_FAILURES then Abort else GoOn;
    if 0 < store.indexedTo && store.indexedTo < cursor {
      var o := VerifyIndexedTip(input.chain, store, store.indexedTo, lookback);
      match o {
        case Forked(f) => cursor := f;
        case NoReorg =>
        case ProbeFailed => return st.(failures := failed), onFailure, NotReached;
      }
    }
    var sinceSweep := st.sinceSweep + 1;
    if sinceSweep >= REORG_SWEEP_BLOCKS {
      var o := CheckReorg(input.sweepChain, store, SatSubU64(cursor, 1), lookback);
      match o {
        case Forked(f) => cursor := f;
        case NoReorg =>
        case ProbeFailed => return st.(failures := failed, sinceSweep := sinceSweep), onFailure, NotReached;
      }
      sinceSweep := 0;
    }
    st', verdict, reach := IndexRange(store, st.(sinceSweep := sinceSweep), input, cursor, safe);
  }

  /** `run_live`: polls until the inputs end (the stop flag) or a poll aborts. */
  method RunLive(confirmations: u64, store: Store, inputs: seq<PollInput>) returns (blocksSession: nat,
                 verdict: Verdict)
    modifies store
    ensures var r := RunPolls(confirmations, FRESH, old(View(store)), inputs);
            View(store) == r.db && blocksSession == r.state.blocksSession && verdict == r.verdict
  {
    var st := FRESH;
    verdict := GoOn;
    var i := 0;
    assert inputs[0..] == inputs;
    while i < |inputs| && verdict == GoOn
      invariant 0 <= i <= |inputs|
      invariant var r := RunPolls(confirmations, FRESH, old(View(store)), inputs);
                if verdict == GoOn then r == RunPolls(confirmations, st, View(store), inputs[i..])
                else r.state == st && r.db == View(store) && r.verdict == Abort
      decreases |inputs| - i
    {
      ghost var rest := inputs[i..];
      assert rest[0] == inputs[i] && rest[1..] == inputs[i + 1..];
      ghost var reach;
      st, verdict, reach := PollStore(confirmations, store, st, inputs[i]);
      i := i + 1;
    }
    if verdict == GoOn {
      assert inputs[i..] == [];
    }
    blocksSession := st.blocksSession;
  }
}
