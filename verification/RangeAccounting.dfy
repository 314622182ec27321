/** A whole call of `run_range`: what it reports, what it leaves in the store and
    what a re-run takes up. */
module RangeAccounting {
  import opened RustInts
  import opened PaperTypes
  import opened Sequences
  import opened ExplorerStore
  import opened Permits
  import opened RangeRuns
  import opened RangePipeline

  datatype RangeOutcome = RangeError | RangeDone(processed: nat, skippedBlocks: seq<u64>)

  /** What a call leaves behind: its outcome, the rows it committed, and the
      checkpoint if it wrote one. */
  datatype RangeResult = RangeResult(outcome: RangeOutcome, rows: seq<Row>, checkpoint: Option<(u64, u64)>)

  function RangeEnd(to: u64, tip: u64, confirmations: u64): u64 {
    Min(to, SatSubU64(tip, confirmations))
  }

  /** How many blocks may be in flight. */
  function RangeCap(missing: seq<u64>, concurrency: nat): nat {
    Min(Max(concurrency, 1), |missing|)
  }

  /** The run over the missing blocks: serial for a cap of one. */
  function MissingRun(o: Outside, missing: seq<u64>, from: u64, concurrency: nat, batch: nat): Run {
    var cap := RangeCap(missing, concurrency);
    if cap <= 1 then Serial(o, missing, from, |missing|)
    else Pipelined(o, missing, ChunkSize(cap, batch), from, |missing|)
  }

  /** `run_range` on a store holding `m`. The checkpoint moves to the end of the
      range whether or not blocks were skipped. */
  function RangeRun(o: Outside, m: Blocks, from: u64, to: u64, tip: Option<u64>, confirmations: u64,
                    concurrency: nat, batch: nat): RangeResult
  {
    if to < from || tip.None? then RangeResult(RangeError, [], None)
    else
      var end := RangeEnd(to, tip.value, confirmations);
      if end < from then RangeResult(RangeDone(0, []), [], None)
      else
        var missing := Unclassified(m, from, end);
        if !o.firstPriceOk then RangeResult(RangeError, [], None)
        else
          var r := MissingRun(o, missing, from, concurrency, batch);
          if r.ok then RangeResult(RangeDone(|r.done|, r.skipped), r.rows, Some((tip.value, end)))
          else RangeResult(RangeError, r.rows, None)
  }

  /** The blocks of `s` in `chosen`, in order: how a `BTreeSet` of them is listed. */
  function Only(s: seq<u64>, chosen: set<u64>): seq<u64> {
    if s == [] then []
    else
      var before := Only(s[..|s| - 1], chosen);
      if s[|s| - 1] in chosen then before + [s[|s| - 1]] else before
  }

  lemma {:induction false} OnlyMeaning(s: seq<u64>, chosen: set<u64>)
    requires Ascends(s)
    ensures Ascends(Only(s, chosen))
    ensures forall b :: b in Only(s, chosen) <==> b in s && b in chosen
  {
    if s != [] {
      var init, x := s[..|s| - 1], s[|s| - 1];
      OnlyMeaning(init, chosen);
      assert s == init + [x];
      forall i | 0 <= i < |Only(init, chosen)| ensures Only(init, chosen)[i] < x {
        assert Only(init, chosen)[i] in init;
      }
    }
  }

  lemma InitMembers(a: seq<u64>)
    requires Ascends(a) && a != []
    ensures Members(a[..|a| - 1]) == Members(a) - {a[|a| - 1]}
  {
    assert a == a[..|a| - 1] + [a[|a| - 1]];
  }

  lemma SameLast(a: seq<u64>, b: seq<u64>)
    requires Ascends(a) && Ascends(b) && Members(a) == Members(b) && a != [] && b != []
    ensures a[|a| - 1] == b[|b| - 1]
  {
    assert a[|a| - 1] in Members(a) && b[|b| - 1] in Members(b);
  }

  lemma {:induction false} SameMembersSameList(a: seq<u64>, b: seq<u64>)
    requires Ascends(a) && Ascends(b) && Members(a) == Members(b)
    ensures a == b
  {
    NoMembers(a);
    NoMembers(b);
    if a != [] {
      hide Members;
      SameLast(a, b);
      InitMembers(a);
      InitMembers(b);
      SameMembersSameList(a[..|a| - 1], b[..|b| - 1]);
      assert a == a[..|a| - 1] + [a[|a| - 1]] && b == b[..|b| - 1] + [b[|b| - 1]];
    }
  }

  lemma NoMembers(s: seq<u64>)
    ensures s == [] <==> Members(s) == {}
  {
    assert s != [] ==> s[0] in Members(s);
  }

  /** The listed set is the run's own list of skipped blocks. */
  lemma SkippedListed(o: Outside, missing: seq<u64>, from: u64, concurrency: nat, batch: nat)
    requires Ascends(missing) && MissingRun(o, missing, from, concurrency, batch).ok
    ensures var r := MissingRun(o, missing, from, concurrency, batch);
            Only(missing, Members(r.skipped)) == r.skipped
  {
    hide Fetched, Indexed;
    var r := MissingRun(o, missing, from, concurrency, batch);
    var cap := RangeCap(missing, concurrency);
    if cap <= 1 {
      SerialMeaning(o, missing, from, |missing|);
      SplitWithin(missing, IndexedSet(o, missing), r.done, r.skipped);
    } else {
      PipelinedMeaning(o, missing, ChunkSize(cap, batch), from, |missing|);
      SplitWithin(missing, FetchedSet(o, missing, ChunkSize(cap, batch)), r.done, r.skipped);
    }
    hide MissingRun;
    OnlyMeaning(missing, Members(r.skipped));
    SameMembersSameList(Only(missing, Members(r.skipped)), r.skipped);
  }

  /** A split of all missing blocks: each is processed or skipped, never both. */
  lemma SplitWithin(missing: seq<u64>, processed: set<nat>, done: seq<u64>, skipped: seq<u64>)
    requires Ascends(missing) && SplitBy(missing, |missing|, processed, done, skipped)
    ensures Ascends(done) && Ascends(skipped) && |done| + |skipped| == |missing|
    ensures forall b :: b in missing <==> b in done || b in skipped
    ensures forall b :: b in done ==> b !in skipped
  {
    forall b ensures b in missing <==>
      Among(missing, |missing|, processed, true, b) || Among(missing, |missing|, processed, false, b)
    {
      if b in missing {
        var i :| 0 <= i < |missing| && missing[i] == b;
        assert Among(missing, |missing|, processed, i in processed, b);
      }
    }
  }

  method RunRange(store: Store, o: Outside, from: u64, to: u64, tip: Option<u64>, confirmations: u64,
                  concurrency: nat, batch: nat)
    returns (outcome: RangeOutcome)
    modifies store
    ensures var r := RangeRun(o, old(store.blocks), from, to, tip, confirmations, concurrency, batch);
      && outcome == r.outcome
      && store.blocks == WithRows(old(store.blocks), r.rows) && store.history == old(store.history) + r.rows
      && (store.head, store.indexedTo) ==
           if r.checkpoint.Some? then r.checkpoint.value else (old(store.head), old(store.indexedTo))
  {
    hide Unclassified, Only, Serial, Pipelined;
    if to < from || tip.None? {
      return RangeError;
    }
    var end: u64 := Min(to, SatSubU64(tip.value, confirmations));
    if end < from {
      return RangeDone(0, []);
    }
    var missing := Unclassified(store.blocks, from, end);
    UnclassifiedMeaning(store.blocks, from, end);
    if !o.firstPriceOk {
      return RangeError;
    }
    if missing == [] {
      NothingMissing(o, from);
      store.SetSyncState(tip.value, end);
      return RangeDone(0, []);
    }
    var cap := Min(Max(concurrency, 1), |missing|);
    var ok, processed, skipped;
    if cap <= 1 {
      ok, processed, skipped := RunSerial(store, o, missing, from);
    } else {
      ok, processed, skipped := RunPipelined(store, o, missing, from, cap, batch);
    }
    if !ok {
      return RangeError;
    }
    SkippedListed(o, missing, from, concurrency, batch);
    store.SetSyncState(tip.value, end);
    outcome := RangeDone(processed, Only(missing, skipped));
  }

  lemma NothingMissing(o: Outside, from: u64)
    ensures Serial(o, [], from, 0) == Run(true, [], [], [])
  {
  }

  // ----- what a call leaves behind

  /** The blocks whose rows a successful call committed although it skipped them. */
  ghost function HalfDone(rows: seq<Row>, skipped: seq<u64>): set<u64> {
    set k | 0 <= k < |rows| && rows[k].block in skipped :: rows[k].block
  }

  /** How many blocks a request of the call asks for. */
  function RequestSize(missing: seq<u64>, concurrency: nat, batch: nat): (chunk: nat)
    ensures chunk >= 1
  {
    var cap := RangeCap(missing, concurrency);
    if cap <= 1 then 1 else ChunkSize(cap, batch)
  }

  ghost predicate CommitsDone(r: Run) {
    forall b :: b in r.done ==> HasRow(r.rows, b)
  }

  lemma IndexNextCommits(o: Outside, missing: seq<u64>, from: u64, i: nat, r: Run)
    requires i < |missing| && CommitsDone(r)
    ensures CommitsDone(IndexNext(o, missing, from, i, r))
  {
    var a := AnswerAt(o, |missing|, 1, i);
    var row := Row(missing[i], if a.Some? then a.value else 0);
    hide AnswerAt, PriceFails, HasRow;
    forall b ensures HasRow(r.rows + [row], b) <==> HasRow(r.rows, b) || row.block == b {
      HasRowSnoc(r.rows, row, b);
    }
  }

  lemma {:induction false} SerialCommitsDone(o: Outside, missing: seq<u64>, from: u64, n: nat)
    requires n <= |missing|
    ensures CommitsDone(Serial(o, missing, from, n))
  {
    if n > 0 {
      hide IndexNext, CommitsDone;
      SerialCommitsDone(o, missing, from, n - 1);
      IndexNextCommits(o, missing, from, n - 1, Serial(o, missing, from, n - 1));
    }
  }

  /** The rows a successful run commits, against its lists. */
  lemma CommittedRows(o: Outside, missing: seq<u64>, from: u64, concurrency: nat, batch: nat)
    requires Ascends(missing) && MissingRun(o, missing, from, concurrency, batch).ok
    ensures var r := MissingRun(o, missing, from, concurrency, batch);
      && RowsSound(o, missing, RequestSize(missing, concurrency, batch), |missing|, r.rows)
      && CommitsDone(r)
      && Ascends(r.done) && Ascends(r.skipped) && |r.done| + |r.skipped| == |missing|
      && (forall b :: b in missing <==> b in r.done || b in r.skipped)
      && (forall b :: b in r.done ==> b !in r.skipped)
  {
    hide Fetched, Indexed, AnswerAt, RowsSound, SplitBy, PriceFails;
    var r := MissingRun(o, missing, from, concurrency, batch);
    var chunk := RequestSize(missing, concurrency, batch);
    if RangeCap(missing, concurrency) <= 1 {
      SerialMeaning(o, missing, from, |missing|);
      SerialRows(o, missing, from, |missing|);
      SerialCommitsDone(o, missing, from, |missing|);
      SplitWithin(missing, IndexedSet(o, missing), r.done, r.skipped);
    } else {
      PipelinedMeaning(o, missing, chunk, from, |missing|);
      PipelinedRows(o, missing, chunk, from, |missing|);
      SplitWithin(missing, FetchedSet(o, missing, chunk), r.done, r.skipped);
      forall b | b in r.done ensures HasRow(r.rows, b) {
        var k :| 0 <= k < |r.done| && r.done[k] == b;
        assert r.rows[k].block == b;
      }
    }
  }

  lemma RowBlocksMissing(o: Outside, missing: seq<u64>, chunk: nat, rows: seq<Row>, b: u64)
    requires chunk >= 1 && RowsSound(o, missing, chunk, |missing|, rows) && HasRow(rows, b)
    ensures b in missing
  {
    hide AnswerAt;
    var k :| 0 <= k < |rows| && rows[k].block == b;
    var i :| 0 <= i < |missing| && missing[i] == rows[k].block && AnswerAt(o, |missing|, chunk, i) == Some(rows[k].hash);
  }

  /** A successful call over a range accounts for every missing block: it is
      processed or skipped, never both; the committed rows, ascending and each
      with the hash its request answered, are those of the processed blocks and
      of skipped ones whose write failed after the commit; and the checkpoint is
      at the end of the range even when blocks were skipped. */
  lemma RangeIsAccounted(o: Outside, m: Blocks, from: u64, to: u64, tip: Option<u64>, confirmations: u64,
                         concurrency: nat, batch: nat)
    requires from <= to && tip.Some? && from <= RangeEnd(to, tip.value, confirmations)
    requires RangeRun(o, m, from, to, tip, confirmations, concurrency, batch).outcome.RangeDone?
    ensures var end := RangeEnd(to, tip.value, confirmations); var missing := Unclassified(m, from, end);
            var r := RangeRun(o, m, from, to, tip, confirmations, concurrency, batch);
            var run := MissingRun(o, missing, from, concurrency, batch);
      && r.outcome == RangeDone(|run.done|, run.skipped) && r.rows == run.rows && r.checkpoint == Some((tip.value, end))
      && Ascends(run.done) && Ascends(run.skipped) && |run.done| + |run.skipped| == |missing|
      && (forall b :: b in missing <==> b in run.done || b in run.skipped)
      && (forall b :: b in run.done ==> b !in run.skipped)
      && RowsSound(o, missing, RequestSize(missing, concurrency, batch), |missing|, r.rows)
      && (forall b: u64 :: b in WithRows(m, r.rows) <==> b in m || b in run.done || b in HalfDone(r.rows, run.skipped))
  {
    var end := RangeEnd(to, tip.value, confirmations);
    var missing := Unclassified(m, from, end);
    UnclassifiedMeaning(m, from, end);
    var run := MissingRun(o, missing, from, concurrency, batch);
    hide MissingRun, RowsSound, Unclassified;
    CommittedRows(o, missing, from, concurrency, batch);
    WithRowsKeys(m, run.rows);
    forall b: u64 ensures HasRow(run.rows, b) <==> b in run.done || b in HalfDone(run.rows, run.skipped) {
      if HasRow(run.rows, b) {
        RowBlocksMissing(o, missing, RequestSize(missing, concurrency, batch), run.rows, b);
      }
    }
  }

  /** A re-run over the same range starts from exactly the blocks that were
      skipped with nothing committed, in order; and the range is complete exactly
      when there are none. */
  lemma RerunTakesUpTheSkipped(o: Outside, m: Blocks, from: u64, to: u64, tip: Option<u64>, confirmations: u64,
                               concurrency: nat, batch: nat)
    requires from <= to && tip.Some? && from <= RangeEnd(to, tip.value, confirmations)
    requires RangeRun(o, m, from, to, tip, confirmations, concurrency, batch).outcome.RangeDone?
    ensures var end := RangeEnd(to, tip.value, confirmations);
            var r := RangeRun(o, m, from, to, tip, confirmations, concurrency, batch);
            var left := Members(r.outcome.skippedBlocks) - HalfDone(r.rows, r.outcome.skippedBlocks);
      && Unclassified(WithRows(m, r.rows), from, end) == Only(r.outcome.skippedBlocks, left)
      && ((forall b: u64 :: from <= b <= end ==> b in WithRows(m, r.rows)) <==> left == {})
  {
    hide Unclassified, Only, MissingRun, WithRows, RowsSound;
    RangeIsAccounted(o, m, from, to, tip, confirmations, concurrency, batch);
    var end := RangeEnd(to, tip.value, confirmations);
    var r := RangeRun(o, m, from, to, tip, confirmations, concurrency, batch);
    UnclassifiedMeaning(m, from, end);
    LeftOver(m, WithRows(m, r.rows), from, end, r.outcome.skippedBlocks, HalfDone(r.rows, r.outcome.skippedBlocks));
  }

  lemma LeftOver(m: Blocks, after: Blocks, from: u64, end: u64, skipped: seq<u64>, halfDone: set<u64>)
    requires from <= end && Ascends(skipped) && halfDone <= Members(skipped)
    requires forall b :: b in skipped ==> b in Unclassified(m, from, end)
    requires forall b :: b in Unclassified(m, from, end) && b !in skipped ==> b in after
    requires forall b: u64 :: b in m ==> b in after
    requires forall b: u64 :: b in skipped ==> (b in after <==> b in halfDone)
    ensures var left := Members(skipped) - halfDone;
      && Unclassified(after, from, end) == Only(skipped, left)
      && ((forall b: u64 :: from <= b <= end ==> b in after) <==> left == {})
  {
    hide Unclassified, Only;
    var left := Members(skipped) - halfDone;
    UnclassifiedMeaning(m, from, end);
    UnclassifiedMeaning(after, from, end);
    OnlyMeaning(skipped, left);
    SameMembersSameList(Unclassified(after, from, end), Only(skipped, left));
    if forall b: u64 :: from <= b <= end ==> b in after {
      forall b | b in Members(skipped) ensures b in halfDone {
        assert b in skipped;
        assert b in Unclassified(m, from, end);
      }
    }
  }

  // ----- when a range is complete

  /** One block a request, and a failed write only skips: with a concurrency of at
      most one, or at most one block to fetch. */
  predicate OneByOne(missing: seq<u64>, concurrency: nat) {
    concurrency <= 1 || |missing| <= 1
  }

  /** How many blocks a request asks for: a batch, as far as the concurrency and
      the missing blocks allow. */
  function BlocksARequest(missing: seq<u64>, concurrency: nat, batch: nat): (size: nat)
    ensures size >= 1
  {
    if OneByOne(missing, concurrency) then 1 else Max(1, Min(batch, Min(concurrency, |missing|)))
  }

  lemma RequestSizeIs(missing: seq<u64>, concurrency: nat, batch: nat)
    ensures RequestSize(missing, concurrency, batch) == BlocksARequest(missing, concurrency, batch)
    ensures RangeCap(missing, concurrency) <= 1 <==> OneByOne(missing, concurrency)
  {
  }

  /** The call commits the row of the missing block of index `i`, as far as its
      answers go: the request for it was answered, and on the serial path its
      write did not fail before the commit. */
  predicate Commits(o: Outside, missing: seq<u64>, concurrency: nat, batch: nat, i: nat)
    requires i < |missing|
  {
    && AnswerAt(o, |missing|, BlocksARequest(missing, concurrency, batch), i).Some?
    && (OneByOne(missing, concurrency) ==> !o.persist(missing[i]).FailedBefore?)
  }

  /** Which of the first `n` missing blocks a serial run commits. */
  ghost predicate CommitsBy(o: Outside, missing: seq<u64>, n: nat, rows: seq<Row>)
    requires n <= |missing|
  {
    forall i :: 0 <= i < n ==> (HasRow(rows, missing[i]) <==> SerialCommits(o, missing, i))
  }

  predicate SerialCommits(o: Outside, missing: seq<u64>, i: nat)
    requires i < |missing|
  {
    AnswerAt(o, |missing|, 1, i).Some? && !o.persist(missing[i]).FailedBefore?
  }

  /** What the block of index `i` adds to the rows of a serial run. */
  lemma IndexNextAppends(o: Outside, missing: seq<u64>, from: u64, i: nat, r: Run)
    requires i < |missing| && IndexNext(o, missing, from, i, r).ok
    ensures r.ok
    ensures var a := AnswerAt(o, |missing|, 1, i); var hash := if a.Some? then a.value else 0;
            IndexNext(o, missing, from, i, r).rows ==
              if SerialCommits(o, missing, i) then r.rows + [Row(missing[i], hash)] else r.rows
  {
    hide AnswerAt, PriceFails;
  }

  /** A serial run's rows are of blocks already passed. */
  lemma NoRowAhead(o: Outside, missing: seq<u64>, n: nat, i: nat, rows: seq<Row>)
    requires n <= i < |missing| && Ascends(missing) && RowsSound(o, missing, 1, n, rows)
    ensures !HasRow(rows, missing[i])
  {
    hide AnswerAt;
    forall k | 0 <= k < |rows| ensures rows[k].block != missing[i] {
      var l :| 0 <= l < n && missing[l] == rows[k].block && AnswerAt(o, |missing|, 1, l) == Some(rows[k].hash);
    }
  }

  /** One block further: its row is there exactly when the run commits it. */
  lemma CommitsGrow(o: Outside, missing: seq<u64>, n: nat, rows: seq<Row>, hash: Hash)
    requires n < |missing| && Ascends(missing) && CommitsBy(o, missing, n, rows) && !HasRow(rows, missing[n])
    ensures CommitsBy(o, missing, n + 1,
                      if SerialCommits(o, missing, n) then rows + [Row(missing[n], hash)] else rows)
  {
    hide SerialCommits, HasRow;
    var row := Row(missing[n], hash);
    forall i | 0 <= i <= n ensures HasRow(rows + [row], missing[i]) <==> HasRow(rows, missing[i]) || i == n {
      HasRowSnoc(rows, row, missing[i]);
    }
  }

  lemma {:induction false} SerialCommitsBy(o: Outside, missing: seq<u64>, from: u64, n: nat)
    requires n <= |missing| && Ascends(missing) && Serial(o, missing, from, n).ok
    ensures CommitsBy(o, missing, n, Serial(o, missing, from, n).rows)
  {
    hide AnswerAt, IndexNext, SerialCommits, HasRow, RowsSound, CommitsBy, Serial;
    if n == 0 {
      NothingCommittedYet(o, missing, from);
    } else {
      var r := Serial(o, missing, from, n - 1);
      SerialStep(o, missing, from, n - 1);
      IndexNextAppends(o, missing, from, n - 1, r);
      SerialCommitsBy(o, missing, from, n - 1);
      SerialRows(o, missing, from, n - 1);
      NoRowAhead(o, missing, n - 1, n - 1, r.rows);
      var a := AnswerAt(o, |missing|, 1, n - 1);
      CommitsGrow(o, missing, n - 1, r.rows, if a.Some? then a.value else 0);
    }
  }

  lemma NothingCommittedYet(o: Outside, missing: seq<u64>, from: u64)
    ensures CommitsBy(o, missing, 0, Serial(o, missing, from, 0).rows)
  {
  }

  /** Which missing blocks a successful pipelined run commits: the fetched ones. */
  lemma PipelinedCommits(o: Outside, missing: seq<u64>, chunk: nat, from: u64, i: nat)
    requires chunk >= 1 && i < |missing| && Ascends(missing) && Pipelined(o, missing, chunk, from, |missing|).ok
    ensures HasRow(Pipelined(o, missing, chunk, from, |missing|).rows, missing[i]) <==> Fetched(o, missing, chunk, i)
  {
    hide Fetched, Pipelined, PriceFails;
    PipelinedMeaning(o, missing, chunk, from, |missing|);
    var r := Pipelined(o, missing, chunk, from, |missing|);
    var fetched := FetchedSet(o, missing, chunk);
    assert HasRow(r.rows, missing[i]) <==> missing[i] in r.done by {
      if missing[i] in r.done {
        var k :| 0 <= k < |r.done| && r.done[k] == missing[i];
        assert r.rows[k].block == missing[i];
      }
    }
    assert missing[i] in r.done <==> Among(missing, |missing|, fetched, true, missing[i]);
    assert Among(missing, |missing|, fetched, true, missing[i]) <==> i in fetched;
  }

  lemma RunCommits(o: Outside, missing: seq<u64>, from: u64, concurrency: nat, batch: nat, i: nat)
    requires i < |missing| && Ascends(missing) && MissingRun(o, missing, from, concurrency, batch).ok
    ensures HasRow(MissingRun(o, missing, from, concurrency, batch).rows, missing[i])
       <==> Commits(o, missing, concurrency, batch, i)
  {
    hide AnswerAt, Serial, Pipelined, HasRow, BlocksARequest, OneByOne;
    RequestSizeIs(missing, concurrency, batch);
    if RangeCap(missing, concurrency) <= 1 {
      SerialCommitsBy(o, missing, from, |missing|);
    } else {
      PipelinedCommits(o, missing, RequestSize(missing, concurrency, batch), from, i);
    }
  }

  /** A call that succeeds, and so writes the end of the range as its checkpoint,
      leaves the whole range classified exactly when every missing block's request
      was answered and, on the serial path, no write failed before its commit. */
  lemma RangeIsCompleteExactlyWhen(o: Outside, m: Blocks, from: u64, to: u64, tip: Option<u64>, confirmations: u64,
                                   concurrency: nat, batch: nat)
    requires from <= to && tip.Some? && from <= RangeEnd(to, tip.value, confirmations)
    requires RangeRun(o, m, from, to, tip, confirmations, concurrency, batch).outcome.RangeDone?
    ensures var end := RangeEnd(to, tip.value, confirmations); var missing := Unclassified(m, from, end);
            var r := RangeRun(o, m, from, to, tip, confirmations, concurrency, batch);
      && r.checkpoint == Some((tip.value, end))
      && (forall i :: 0 <= i < |missing| ==>
            (missing[i] in WithRows(m, r.rows) <==> Commits(o, missing, concurrency, batch, i)))
      && ((forall b: u64 :: from <= b <= end ==> b in WithRows(m, r.rows)) <==>
            forall i :: 0 <= i < |missing| ==> Commits(o, missing, concurrency, batch, i))
  {
    hide Unclassified, MissingRun, Commits;
    var end := RangeEnd(to, tip.value, confirmations);
    var missing := Unclassified(m, from, end);
    var run := MissingRun(o, missing, from, concurrency, batch);
    UnclassifiedMeaning(m, from, end);
    WithRowsKeys(m, run.rows);
    hide WithRows, HasRow;
    forall i | 0 <= i < |missing|
      ensures missing[i] in WithRows(m, run.rows) <==> Commits(o, missing, concurrency, batch, i)
      ensures from <= missing[i] <= end
    {
      RunCommits(o, missing, from, concurrency, batch, i);
      assert missing[i] in missing;
    }
    if forall i :: 0 <= i < |missing| ==> Commits(o, missing, concurrency, batch, i) {
      forall b: u64 | from <= b <= end ensures b in WithRows(m, run.rows) {
        if b in missing {
          var i :| 0 <= i < |missing| && missing[i] == b;
          assert Commits(o, missing, concurrency, batch, i);
        }
      }
    }
  }

  /** A range of one missing block whose request is not answered: the call reports
      success and writes the checkpoint over it. */
  lemma CheckpointOverMissingBlock(o: Outside, b: u64)
    requires o.firstPriceOk && o.priceOk(b) && o.fetch(Chunk(0, 1)).None?
    ensures RangeRun(o, map[], b, b, Some(b), 0, 1, 1) == RangeResult(RangeDone(0, [b]), [], Some((b, b)))
  {
    assert Unclassified(map[], b, b) == [b];
    assert Serial(o, [b], b, 0) == Run(true, [], [], []);
    assert Serial(o, [b], b, 1) == Run(true, [], [], [b]);
  }

  // ----- the confirmation lag

  lemma UnclassifiedWithin(m: Blocks, lo: u64, hi: u64, b: u64)
    requires b in Unclassified(m, lo, hi)
    ensures lo <= b <= hi && b !in m
  {
    hide Unclassified;
    UnclassifiedMeaning(m, lo, hi);
  }

  lemma RunRowsMissing(o: Outside, missing: seq<u64>, from: u64, concurrency: nat, batch: nat, row: Row)
    requires Ascends(missing) && row in MissingRun(o, missing, from, concurrency, batch).rows
    ensures row.block in missing
  {
    var run := MissingRun(o, missing, from, concurrency, batch);
    var k :| 0 <= k < |run.rows| && run.rows[k] == row;
    var chunk := RequestSize(missing, concurrency, batch);
    if RangeCap(missing, concurrency) <= 1 {
      SerialRows(o, missing, from, |missing|);
    } else {
      PipelinedRows(o, missing, chunk, from, |missing|);
    }
    hide MissingRun, Serial, Pipelined, AnswerAt;
    assert HasRow(run.rows, row.block);
    RowBlocksMissing(o, missing, chunk, run.rows, row.block);
  }

  /** Nothing beyond the requested range or inside the confirmation lag is written,
      not even when the call fails in the middle: rows and checkpoint stay at most
      `to`, and `confirmations` below the tip. Block 0 is the exception, when the
      lag is longer than the chain. */
  lemma RangeStaysConfirmed(o: Outside, m: Blocks, from: u64, to: u64, tip: Option<u64>, confirmations: u64,
                            concurrency: nat, batch: nat)
    ensures var r := RangeRun(o, m, from, to, tip, confirmations, concurrency, batch);
      && (forall row :: row in r.rows ==>
            from <= row.block <= to && tip.Some? && (row.block == 0 || row.block + confirmations <= tip.value))
      && (r.checkpoint.Some? ==>
            && tip.Some? && r.checkpoint.value.0 == tip.value
            && var end := r.checkpoint.value.1;
               from <= end <= to && (end == 0 || end + confirmations <= tip.value)
               && (end < to ==> tip.value <= end + confirmations))
      && (tip.Some? && 0 < from && tip.value < from + confirmations ==>
            r.rows == [] && r.checkpoint.None? && (from <= to ==> r.outcome == RangeDone(0, [])))
  {
    hide Unclassified, MissingRun;
    var r := RangeRun(o, m, from, to, tip, confirmations, concurrency, batch);
    if from <= to && tip.Some? && from <= RangeEnd(to, tip.value, confirmations) {
      var missing := Unclassified(m, from, RangeEnd(to, tip.value, confirmations));
      UnclassifiedMeaning(m, from, RangeEnd(to, tip.value, confirmations));
      forall row | row in r.rows ensures from <= row.block <= RangeEnd(to, tip.value, confirmations) {
        RunRowsMissing(o, missing, from, concurrency, batch, row);
        UnclassifiedWithin(m, from, RangeEnd(to, tip.value, confirmations), row.block);
      }
    }
  }

  /** So every row is confirmed, unless the range starts at block 0 and the lag is
      longer than the chain; then block 0 is all that is written, unconfirmed. */
  lemma RowsAreConfirmedUnlessAtZero(o: Outside, m: Blocks, from: u64, to: u64, tip: Option<u64>, confirmations: u64,
                                     concurrency: nat, batch: nat)
    requires tip.Some?
    ensures var r := RangeRun(o, m, from, to, tip, confirmations, concurrency, batch);
      if from == 0 && tip.value < confirmations then forall row :: row in r.rows ==> row.block == 0
      else forall row :: row in r.rows ==> row.block + confirmations <= tip.value
  {
    hide RangeRun;
    RangeStaysConfirmed(o, m, from, to, tip, confirmations, concurrency, batch);
  }

  lemma OneUnclassified(b: u64)
    ensures Unclassified(map[], b, b) == [b]
  {
  }

  lemma OneBlockRun(o: Outside, b: u64, hash: Hash)
    requires o.priceOk(b) && o.fetch(Chunk(0, 1)) == Some([hash]) && o.persist(b) == Stored
    ensures Serial(o, [b], b, 1) == Run(true, [Row(b, hash)], [b], [])
  {
    hide AnswerAt;
    SingleRequest(o, 1, 0);
    assert Serial(o, [b], b, 0) == Run(true, [], [], []);
    assert [] + [Row(b, hash)] == [Row(b, hash)] && [] + [b] == [b];
  }

  /** Such a call: six confirmations asked for, the chain is five blocks high. */
  lemma LagLongerThanChain(o: Outside, hash: Hash)
    requires o.firstPriceOk && o.priceOk(0) && o.fetch(Chunk(0, 1)) == Some([hash]) && o.persist(0) == Stored
    ensures RangeRun(o, map[], 0, 100, Some(5), 6, 1, 1) == RangeResult(RangeDone(1, []), [Row(0, hash)], Some((5, 0)))
  {
    hide Unclassified, Serial, Pipelined;
    OneUnclassified(0);
    OneBlockRun(o, 0, hash);
  }

  /** A call that succeeds leaves no confirmed block of the range behind: each is
      classified afterwards or reported as skipped. */
  lemma RangeReachesEveryConfirmed(o: Outside, m: Blocks, from: u64, to: u64, tip: Option<u64>, confirmations: u64,
                                   concurrency: nat, batch: nat)
    requires from <= to && tip.Some?
    requires RangeRun(o, m, from, to, tip, confirmations, concurrency, batch).outcome.RangeDone?
    ensures var r := RangeRun(o, m, from, to, tip, confirmations, concurrency, batch);
      forall b: u64 :: from <= b <= to && b + confirmations <= tip.value ==>
        b in WithRows(m, r.rows) || b in r.outcome.skippedBlocks
  {
    var r := RangeRun(o, m, from, to, tip, confirmations, concurrency, batch);
    forall b: u64 | from <= b <= to && b + confirmations <= tip.value
      ensures b in WithRows(m, r.rows) || b in r.outcome.skippedBlocks
    {
      var end := RangeEnd(to, tip.value, confirmations);
      assert b <= end;
      hide MissingRun, RowsSound, WithRows, Unclassified;
      RangeIsAccounted(o, m, from, to, tip, confirmations, concurrency, batch);
      UnclassifiedMeaning(m, from, end);
    }
  }

  // ----- when a call fails

  /** What ends the run over the missing blocks: on the serial path a failed price
      that is due; else an answered block whose price is due and fails or whose write
      fails. */
  predicate RunEnds(o: Outside, missing: seq<u64>, from: u64, concurrency: nat, batch: nat, i: nat)
    requires i < |missing|
  {
    var priceFails := PriceDue(from, missing[i]) && !o.priceOk(missing[i]);
    if OneByOne(missing, concurrency) then priceFails
    else AnswerAt(o, |missing|, BlocksARequest(missing, concurrency, batch), i).Some?
         && (priceFails || !o.persist(missing[i]).Stored?)
  }

  lemma RunFailsExactlyWhen(o: Outside, missing: seq<u64>, from: u64, concurrency: nat, batch: nat)
    requires Ascends(missing)
    ensures MissingRun(o, missing, from, concurrency, batch).ok <==>
            forall i :: 0 <= i < |missing| ==> !RunEnds(o, missing, from, concurrency, batch, i)
  {
    hide Serial, Pipelined, AnswerAt, PriceDue;
    RequestSizeIs(missing, concurrency, batch);
    if RangeCap(missing, concurrency) <= 1 {
      SerialEndsExactlyAtFailedPrices(o, missing, from);
      forall i | 0 <= i < |missing| ensures RunEnds(o, missing, from, concurrency, batch, i) <==>
        PriceDue(from, missing[i]) && !o.priceOk(missing[i])
      {
      }
    } else {
      var chunk := BlocksARequest(missing, concurrency, batch);
      PipelinedEndsExactlyWhen(o, missing, chunk, from);
      assert MissingRun(o, missing, from, concurrency, batch) == Pipelined(o, missing, chunk, from, |missing|);
      forall i | 0 <= i < |missing| ensures RunEnds(o, missing, from, concurrency, batch, i) <==>
        AnswerAt(o, |missing|, chunk, i).Some? &&
        ((PriceDue(from, missing[i]) && !o.priceOk(missing[i])) || !o.persist(missing[i]).Stored?)
      {
      }
    }
  }

  /** A call fails exactly when the range is reversed, the tip is not known, or, with
      something of the range confirmed, the first price fails or the run over the
      missing blocks is ended. A call that fails writes no checkpoint. */
  lemma RangeFailsExactlyWhen(o: Outside, m: Blocks, from: u64, to: u64, tip: Option<u64>, confirmations: u64,
                              concurrency: nat, batch: nat)
    ensures var r := RangeRun(o, m, from, to, tip, confirmations, concurrency, batch);
      && (r.outcome.RangeError? ==> r.checkpoint.None?)
      && (to < from || tip.None? ==> r.outcome.RangeError?)
      && (from <= to && tip.Some? ==>
            var end := Min(to, Max(tip.value - confirmations, 0)); var missing := Unclassified(m, from, end);
            var ends := exists i :: 0 <= i < |missing| && RunEnds(o, missing, from, concurrency, batch, i);
            (r.outcome.RangeError? <==> from <= end && (!o.firstPriceOk || ends)))
  {
    hide Unclassified, MissingRun, RunEnds;
    if from <= to && tip.Some? && from <= RangeEnd(to, tip.value, confirmations) {
      var missing := Unclassified(m, from, RangeEnd(to, tip.value, confirmations));
      UnclassifiedMeaning(m, from, RangeEnd(to, tip.value, confirmations));
      RunFailsExactlyWhen(o, missing, from, concurrency, batch);
    }
  }

  /** What the call stores: blocks stored before keep their hash, and each new row is
      there with the hash its request answered. */
  lemma RangeStoresWhatWasAnswered(o: Outside, m: Blocks, from: u64, to: u64, tip: Option<u64>, confirmations: u64,
                                   concurrency: nat, batch: nat)
    ensures var r := RangeRun(o, m, from, to, tip, confirmations, concurrency, batch); var after := WithRows(m, r.rows);
      && (forall b :: b in m ==> b in after && after[b] == m[b])
      && (forall row :: row in r.rows ==> row.block !in m && row.block in after && after[row.block] == row.hash)
  {
    hide WithRows;
    var r := RangeRun(o, m, from, to, tip, confirmations, concurrency, batch);
    WithRowsKeys(m, r.rows);
    forall b | b in m ensures WithRows(m, r.rows)[b] == m[b] {
      FirstRowStays(m, r.rows, b, 0);
    }
    if r.rows != [] {
      var end := RangeEnd(to, tip.value, confirmations);
      var missing := Unclassified(m, from, end);
      UnclassifiedMeaning(m, from, end);
      assert r.rows == MissingRun(o, missing, from, concurrency, batch).rows;
      forall row | row in r.rows
        ensures row.block !in m && row.block in WithRows(m, r.rows) && WithRows(m, r.rows)[row.block] == row.hash
      {
        RunRowsMissing(o, missing, from, concurrency, batch, row);
        RunRowsAscend(o, missing, from, concurrency, batch);
        hide RangeRun, MissingRun, Unclassified;
        UnclassifiedWithin(m, from, end, row.block);
        var k :| 0 <= k < |r.rows| && r.rows[k] == row;
        FirstRowStays(m, r.rows, row.block, row.hash);
      }
    }
  }

  lemma RunRowsAscend(o: Outside, missing: seq<u64>, from: u64, concurrency: nat, batch: nat)
    requires Ascends(missing)
    ensures var rows := MissingRun(o, missing, from, concurrency, batch).rows;
            forall k, l :: 0 <= k < l < |rows| ==> rows[k].block < rows[l].block
  {
    if RangeCap(missing, concurrency) <= 1 {
      SerialRows(o, missing, from, |missing|);
    } else {
      PipelinedRows(o, missing, RequestSize(missing, concurrency, batch), from, |missing|);
    }
    hide Serial, Pipelined, AnswerAt;
  }
}
