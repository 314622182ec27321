/** The loops of a historical backfill: concurrent fetches, ascending writes.
    Whichever fetch completes first, it ends as one block after the other does. */
module RangePipeline {
  import opened RustInts
  import opened PaperTypes
  import opened Sequences
  import opened ExplorerStore
  import opened Permits
  import opened RangeRuns

  // ----- the pipeline's bookkeeping

  datatype Job = Job(o: Outside, missing: seq<u64>, chunk: nat) {
    ghost predicate Valid() {
      chunk >= 1 && Ascends(missing)
    }
  }

  /** The pipeline's variables. */
  datatype Pipe = Pipe(inflight: set<Chunk>, ready: map<u64, Hash>, skipped: set<u64>, nextPersist: nat, nextSpawn: nat)

  /** The requests in flight are requests of the job, spawned and ahead. */
  ghost predicate Requests(j: Job, s: Pipe)
    requires j.Valid()
  {
    && s.nextPersist <= s.nextSpawn <= |j.missing|
    && (s.nextSpawn == |j.missing| || s.nextSpawn % j.chunk == 0)
    && forall c :: c in s.inflight ==> IsRequest(|j.missing|, j.chunk, c) && s.nextPersist <= c.lo && c.hi <= s.nextSpawn
  }

  /** The fetch of the block of index `i` is in flight. */
  ghost predicate InFlight(j: Job, s: Pipe, i: nat)
    requires j.Valid() && i < |j.missing|
  {
    RequestOf(|j.missing|, j.chunk, i) in s.inflight
  }

  /** Where the block of index `i` is: behind, in flight, ready with what its
      request answered, skipped because its request failed, or not asked for. */
  ghost predicate Placed(j: Job, s: Pipe, i: nat)
    requires j.Valid() && i < |j.missing|
  {
    var b, a := j.missing[i], AnswerAt(j.o, |j.missing|, j.chunk, i);
    if i < s.nextPersist then b !in s.ready && (b in s.skipped <==> a.None?)
    else if i >= s.nextSpawn || InFlight(j, s, i) then b !in s.ready && b !in s.skipped
    else (b in s.skipped <==> a.None?) && (b in s.ready <==> a.Some?) && (b in s.ready ==> s.ready[b] == a.value)
  }

  ghost predicate Sound(j: Job, s: Pipe)
    requires j.Valid()
  {
    && Requests(j, s)
    && (forall i :: 0 <= i < |j.missing| ==> Placed(j, s, i))
    && (forall b :: b in s.ready ==> b in j.missing)
    && s.skipped <= Members(j.missing)
  }

  lemma SoundAtFirst(j: Job)
    requires j.Valid()
    ensures Sound(j, Pipe({}, map[], {}, 0, 0))
  {
  }

  /** Spawning the next request keeps every block in its place. */
  lemma Spawned(j: Job, s: Pipe, c: Chunk)
    requires j.Valid() && Sound(j, s) && s.nextSpawn < |j.missing|
    requires c == Chunk(s.nextSpawn, Min(s.nextSpawn + j.chunk, |j.missing|))
    ensures c !in s.inflight && Sound(j, s.(inflight := s.inflight + {c}, nextSpawn := c.hi))
  {
    hide AnswerAt, RequestOf;
    var s' := s.(inflight := s.inflight + {c}, nextSpawn := c.hi);
    NextRequest(j.chunk, s.nextSpawn);
    forall i | 0 <= i < |j.missing| ensures Placed(j, s', i) {
      RequestOfIndex(|j.missing|, j.chunk, c, i);
      assert Placed(j, s, i);
    }
  }

  /** The fetched rows, paired with the missing blocks from index `lo` on. */
  function Filled(ready: map<u64, Hash>, missing: seq<u64>, lo: nat, rows: seq<Hash>): map<u64, Hash>
    requires lo + |rows| <= |missing|
  {
    if rows == [] then ready
    else
      var n := |rows| - 1;
      Filled(ready, missing, lo, rows[..n])[missing[lo + n] := rows[n]]
  }

  lemma {:induction false} FilledAt(ready: map<u64, Hash>, missing: seq<u64>, lo: nat, rows: seq<Hash>, i: nat)
    requires lo + |rows| <= |missing| && Ascends(missing) && i < |missing|
    ensures var r, b := Filled(ready, missing, lo, rows), missing[i];
      if lo <= i < lo + |rows| then b in r && r[b] == rows[i - lo]
      else (b in r <==> b in ready) && (b in r ==> r[b] == ready[b])
  {
    if rows != [] {
      FilledAt(ready, missing, lo, rows[..|rows| - 1], i);
    }
  }

  lemma {:induction false} FilledKeys(ready: map<u64, Hash>, missing: seq<u64>, lo: nat, rows: seq<Hash>)
    requires lo + |rows| <= |missing| && forall b :: b in ready ==> b in missing
    ensures forall b :: b in Filled(ready, missing, lo, rows) ==> b in missing
  {
    if rows != [] {
      FilledKeys(ready, missing, lo, rows[..|rows| - 1]);
    }
  }

  /** An answered request moves its blocks out of flight: all ready, each with
      its row. */
  lemma Arrived(j: Job, s: Pipe, c: Chunk)
    requires j.Valid() && Sound(j, s) && c in s.inflight && Answered(j.o, c)
    ensures Sound(j, s.(inflight := s.inflight - {c}, ready := Filled(s.ready, j.missing, c.lo, j.o.fetch(c).value)))
  {
    hide RequestOf, Filled;
    var rows := j.o.fetch(c).value;
    var s' := s.(inflight := s.inflight - {c}, ready := Filled(s.ready, j.missing, c.lo, rows));
    forall i | 0 <= i < |j.missing| ensures Placed(j, s', i) {
      RequestOfIndex(|j.missing|, j.chunk, c, i);
      FilledAt(s.ready, j.missing, c.lo, rows, i);
      assert Placed(j, s, i);
    }
    FilledKeys(s.ready, j.missing, c.lo, rows);
  }

  /** A failed request moves its blocks out of flight: all skipped. */
  lemma Dropped(j: Job, s: Pipe, c: Chunk)
    requires j.Valid() && Sound(j, s) && c in s.inflight && !Answered(j.o, c)
    ensures Sound(j, s.(inflight := s.inflight - {c}, skipped := s.skipped + Members(j.missing[c.lo..c.hi])))
  {
    hide RequestOf, Members;
    var s' := s.(inflight := s.inflight - {c}, skipped := s.skipped + Members(j.missing[c.lo..c.hi]));
    forall i | 0 <= i < |j.missing| ensures Placed(j, s', i) {
      RequestOfIndex(|j.missing|, j.chunk, c, i);
      SliceMember(j.missing, c.lo, c.hi, i);
      assert Placed(j, s, i);
    }
    SliceWithin(j.missing, c.lo, c.hi);
  }

  lemma SliceWithin(missing: seq<u64>, lo: nat, hi: nat)
    requires lo <= hi <= |missing|
    ensures Members(missing[lo..hi]) <= Members(missing)
    ensures forall b :: b in Members(missing[lo..hi]) ==> b in missing
  {
    forall b | b in missing[lo..hi] ensures b in missing {
    }
  }

  lemma SliceMember(missing: seq<u64>, lo: nat, hi: nat, i: nat)
    requires Ascends(missing) && lo <= hi <= |missing| && i < |missing|
    ensures missing[i] in Members(missing[lo..hi]) <==> lo <= i < hi
    ensures missing[i] in missing[lo..hi] <==> lo <= i < hi
  {
    var part := missing[lo..hi];
    if lo <= i < hi {
      assert part[i - lo] == missing[i];
    } else {
      forall k | 0 <= k < |part| ensures part[k] != missing[i] {
        assert part[k] == missing[lo + k];
      }
    }
  }

  /** Moving past a block that is skipped, or ready and taken out. */
  lemma Passed(j: Job, s: Pipe, ready': map<u64, Hash>)
    requires j.Valid() && Sound(j, s) && s.nextPersist < |j.missing|
    requires j.missing[s.nextPersist] in s.skipped || j.missing[s.nextPersist] in s.ready
    requires ready' == s.ready - {j.missing[s.nextPersist]}
    ensures Sound(j, s.(ready := ready', nextPersist := s.nextPersist + 1))
    ensures var a := AnswerAt(j.o, |j.missing|, j.chunk, s.nextPersist); var b := j.missing[s.nextPersist];
            (b in s.skipped <==> a.None?) && (b in s.ready ==> a == Some(s.ready[b]))
  {
    hide AnswerAt, RequestOf;
    var n := s.nextPersist;
    var s' := s.(ready := ready', nextPersist := n + 1);
    assert Placed(j, s, n);
    forall c | c in s.inflight ensures n + 1 <= c.lo {
      RequestOfIndex(|j.missing|, j.chunk, c, n);
    }
    forall i | 0 <= i < |j.missing| ensures Placed(j, s', i) {
      assert Placed(j, s, i);
    }
  }

  /** When the needed block is neither ready nor skipped, its own fetch is in
      flight, so the pipeline never waits for nothing. */
  lemma NeverStalls(j: Job, s: Pipe, posts: nat)
    requires j.Valid() && Sound(j, s) && s.nextPersist < |j.missing|
    requires posts >= 1 && (s.nextSpawn == |j.missing| || |s.inflight| == posts)
    requires j.missing[s.nextPersist] !in s.ready && j.missing[s.nextPersist] !in s.skipped
    ensures s.inflight != {}
    ensures s.nextPersist < s.nextSpawn ==> InFlight(j, s, s.nextPersist)
  {
    hide AnswerAt, RequestOf;
    assert Placed(j, s, s.nextPersist);
  }

  /** The indices of the blocks in flight. */
  ghost function FetchingNow(j: Job, s: Pipe): set<nat>
    requires j.Valid()
  {
    set i: nat | i < |j.missing| && InFlight(j, s, i)
  }

  /** Blocks in flight stay within the cap. */
  lemma FetchingWithinCap(j: Job, s: Pipe, cap: nat)
    requires j.Valid() && j.chunk <= cap && |s.inflight| <= Posts(cap, j.chunk)
    ensures |FetchingNow(j, s)| <= cap
  {
    hide RequestOf, Posts;
    BlocksInFlight(j, s.inflight, FetchingNow(j, s));
    PostsFitCap(cap, j.chunk);
    MulMonotone(|s.inflight|, Posts(cap, j.chunk), j.chunk);
  }

  /** The indices in flight are never more than the permits times the chunk. */
  lemma {:induction false} BlocksInFlight(j: Job, inflight: set<Chunk>, indices: set<nat>)
    requires j.Valid()
    requires forall i :: i in indices ==> i < |j.missing| && RequestOf(|j.missing|, j.chunk, i) in inflight
    ensures |indices| <= |inflight| * j.chunk
    decreases |inflight|
  {
    hide RequestOf;
    if inflight == {} {
      assert indices == {};
    } else {
      var c :| c in inflight;
      var here := set i | i in indices && RequestOf(|j.missing|, j.chunk, i) == c;
      BlocksInFlight(j, inflight - {c}, indices - here);
      WithinChunk(here, c.lo, j.chunk);
      assert |indices| == |indices - here| + |here|;
      assert |inflight - {c}| == |inflight| - 1;
      OneChunkMore(|inflight|, j.chunk, |indices - here|, |here|);
    }
  }

  lemma OneChunkMore(n: nat, chunk: nat, before: nat, here: nat)
    requires n >= 1 && before <= (n - 1) * chunk && here <= chunk
    ensures before + here <= n * chunk
  {
    assert n * chunk == (n - 1) * chunk + chunk;
  }

  lemma {:induction false} WithinChunk(s: set<nat>, lo: nat, size: nat)
    requires forall i :: i in s ==> lo <= i < lo + size
    ensures |s| <= size
  {
    if size == 0 {
      assert s == {};
    } else {
      var last := lo + (size - 1);
      WithinChunk(s - {last}, lo, size - 1);
      assert s <= (s - {last}) + {last};
    }
  }

  // ----- the loops

  /** `while next_spawn < missing.len() && inflight.len() < posts { spawn_one }` */
  method Refill(j: Job, inflight: set<Chunk>, ready: map<u64, Hash>, skipped: set<u64>,
                nextPersist: nat, nextSpawn: nat, posts: nat)
    returns (inflight': set<Chunk>, nextSpawn': nat)
    requires j.Valid() && Sound(j, Pipe(inflight, ready, skipped, nextPersist, nextSpawn)) && |inflight| <= posts
    ensures nextSpawn <= nextSpawn' <= |j.missing|
    ensures Sound(j, Pipe(inflight', ready, skipped, nextPersist, nextSpawn'))
    ensures |inflight'| <= posts && (nextSpawn' == |j.missing| || |inflight'| == posts)
    ensures |j.missing| - nextSpawn' + |inflight'| <= |j.missing| - nextSpawn + |inflight|
  {
    inflight', nextSpawn' := inflight, nextSpawn;
    assert nextSpawn <= |j.missing|;
    hide Sound;
    while nextSpawn' < |j.missing| && |inflight'| < posts
      invariant nextSpawn <= nextSpawn' <= |j.missing| && |inflight'| <= posts
      invariant Sound(j, Pipe(inflight', ready, skipped, nextPersist, nextSpawn'))
      invariant |j.missing| - nextSpawn' + |inflight'| <= |j.missing| - nextSpawn + |inflight|
      decreases |j.missing| - nextSpawn'
    {
      var end := Min(nextSpawn' + j.chunk, |j.missing|);
      Spawned(j, Pipe(inflight', ready, skipped, nextPersist, nextSpawn'), Chunk(nextSpawn', end));
      inflight', nextSpawn' := inflight' + {Chunk(nextSpawn', end)}, end;
    }
  }

  /** Pair the fetched rows with their blocks. */
  method InsertRows(missing: seq<u64>, lo: nat, rows: seq<Hash>, ready: map<u64, Hash>) returns (r: map<u64, Hash>)
    requires lo + |rows| <= |missing|
    ensures r == Filled(ready, missing, lo, rows)
  {
    r := ready;
    for k := 0 to |rows|
      invariant r == Filled(ready, missing, lo, rows[..k])
    {
      assert rows[..k + 1][..k] == rows[..k];
      r := r[missing[lo + k] := rows[k]];
    }
    assert rows[..|rows|] == rows;
  }

  /** One completion: the rows become ready, or the blocks are skipped. */
  method Complete(j: Job, inflight: set<Chunk>, ready: map<u64, Hash>, skipped: set<u64>,
                  nextPersist: nat, nextSpawn: nat, c: Chunk)
    returns (ready': map<u64, Hash>, skipped': set<u64>)
    requires j.Valid() && Sound(j, Pipe(inflight, ready, skipped, nextPersist, nextSpawn)) && c in inflight
    ensures Sound(j, Pipe(inflight - {c}, ready', skipped', nextPersist, nextSpawn))
  {
    ghost var s := Pipe(inflight, ready, skipped, nextPersist, nextSpawn);
    assert IsRequest(|j.missing|, j.chunk, c);
    ready', skipped' := ready, skipped;
    hide Sound;
    var rows := j.o.fetch(c);
    if rows.Some? && |rows.value| == c.hi - c.lo {
      ready' := InsertRows(j.missing, c.lo, rows.value, ready);
      Arrived(j, s, c);
    } else {
      skipped' := skipped + Members(j.missing[c.lo..c.hi]);
      Dropped(j, s, c);
    }
  }

  /** The store holds what the run committed. */
  ghost predicate Reflects(blocks: Blocks, history: seq<Row>, before: Blocks, past: seq<Row>, rows: seq<Row>) {
    blocks == WithRows(before, rows) && history == past + rows
  }

  lemma ReflectedBlocks(blocks: Blocks, history: seq<Row>, before: Blocks, past: seq<Row>, rows: seq<Row>)
    requires Reflects(blocks, history, before, past, rows)
    ensures blocks == WithRows(before, rows)
  {
  }

  lemma NothingCommitted(m: Blocks, past: seq<Row>)
    ensures Reflects(m, past, m, past, [])
  {
  }

  /** A block that is still to come is not in the store yet. */
  lemma NotYetStored(o: Outside, missing: seq<u64>, chunk: nat, n: nat, rows: seq<Row>, before: Blocks)
    requires chunk >= 1 && n < |missing| && Ascends(missing) && RowsSound(o, missing, chunk, n, rows)
    requires missing[n] !in before
    ensures missing[n] !in WithRows(before, rows)
  {
    hide AnswerAt;
    WithRowsKeys(before, rows);
    forall k | 0 <= k < |rows| ensures rows[k].block != missing[n] {
      var i :| 0 <= i < n && missing[i] == rows[k].block && AnswerAt(o, |missing|, chunk, i) == Some(rows[k].hash);
    }
  }

  lemma SkippedNotReady(j: Job, s: Pipe)
    requires j.Valid() && Sound(j, s) && s.nextPersist < |j.missing| && j.missing[s.nextPersist] in s.skipped
    ensures s.ready - {j.missing[s.nextPersist]} == s.ready
  {
    hide AnswerAt, RequestOf;
    assert Placed(j, s, s.nextPersist);
  }

  /** When every block is behind, exactly the skipped blocks of the run are
      skipped. */
  lemma AllPassed(j: Job, s: Pipe, from: u64)
    requires j.Valid() && Sound(j, s) && s.nextPersist >= |j.missing|
    requires Pipelined(j.o, j.missing, j.chunk, from, |j.missing|).ok
    ensures s.skipped == Members(Pipelined(j.o, j.missing, j.chunk, from, |j.missing|).skipped)
  {
    var r := Pipelined(j.o, j.missing, j.chunk, from, |j.missing|);
    PipelinedMeaning(j.o, j.missing, j.chunk, from, |j.missing|);
    hide AnswerAt, RequestOf, Pipelined;
    forall b ensures b in s.skipped <==> b in r.skipped {
      if b in j.missing {
        var i :| 0 <= i < |j.missing| && j.missing[i] == b;
        assert Placed(j, s, i);
        assert Fetched(j.o, j.missing, j.chunk, i) <==> b !in s.skipped;
        assert b in r.skipped <==> Among(j.missing, |j.missing|, FetchedSet(j.o, j.missing, j.chunk), false, b);
      }
    }
  }

  const NOTHING_YET: Run := Run(true, [], [], [])

  /** Persist one fetched block: the price when it is due, then the write. */
  method PersistOne(store: Store, o: Outside, missing: seq<u64>, chunk: nat, from: u64, i: nat, bundle: Hash)
    returns (ok: bool)
    requires chunk >= 1 && i < |missing| && missing[i] !in store.blocks
    requires AnswerAt(o, |missing|, chunk, i) == Some(bundle)
    modifies store`blocks, store`history
    ensures var r := PersistNext(o, missing, chunk, from, i, NOTHING_YET);
      ok == r.ok && Reflects(store.blocks, store.history, old(store.blocks), old(store.history), r.rows)
  {
    hide AnswerAt, WithRows;
    var need := missing[i];
    NothingCommitted(store.blocks, store.history);
    RowsSnoc(store.blocks, [], Row(need, bundle));
    assert [] + [Row(need, bundle)] == [Row(need, bundle)];
    if SatSubU64(need, from) % 256 == 0 && !o.priceOk(need) {
      return false;
    }
    if !o.persist(need).FailedBefore? {
      store.InsertBlock(need, bundle);
    }
    ok := o.persist(need).Stored?;
  }

  /** What one block adds to a run. */
  lemma PersistNextAdds(o: Outside, missing: seq<u64>, chunk: nat, from: u64, i: nat, r: Run)
    requires chunk >= 1 && i < |missing| && r.ok && AnswerAt(o, |missing|, chunk, i).Some?
    ensures var r', more := PersistNext(o, missing, chunk, from, i, r), PersistNext(o, missing, chunk, from, i, NOTHING_YET);
      && r'.ok == more.ok && r'.rows == r.rows + more.rows
      && (more.ok ==> r'.done == r.done + [missing[i]])
  {
    hide AnswerAt, PriceFails;
    assert r.rows + [] == r.rows;
    forall row: Row ensures [] + [row] == [row] {
    }
  }

  lemma PersistNextSkips(o: Outside, missing: seq<u64>, chunk: nat, from: u64, i: nat, r: Run)
    requires chunk >= 1 && i < |missing| && r.ok && AnswerAt(o, |missing|, chunk, i).None?
    ensures var r' := PersistNext(o, missing, chunk, from, i, r);
            r'.ok && r'.rows == r.rows && r'.done == r.done
  {
    hide AnswerAt;
  }

  lemma PipelinedNothing(o: Outside, missing: seq<u64>, chunk: nat, from: u64)
    requires chunk >= 1
    ensures Pipelined(o, missing, chunk, from, 0) == NOTHING_YET
  {
  }

  lemma PipelinedStep(o: Outside, missing: seq<u64>, chunk: nat, from: u64, n: nat)
    requires chunk >= 1 && n < |missing|
    ensures Pipelined(o, missing, chunk, from, n + 1)
         == PersistNext(o, missing, chunk, from, n, Pipelined(o, missing, chunk, from, n))
  {
    hide PersistNext;
  }

  lemma ReflectsInTwo(before: Blocks, past: seq<Row>, mid: Blocks, history: seq<Row>, after: Blocks, history': seq<Row>,
                      a: seq<Row>, b: seq<Row>)
    requires Reflects(mid, history, before, past, a) && Reflects(after, history', mid, history, b)
    ensures Reflects(after, history', before, past, a + b)
  {
    hide WithRows;
    WithRowsInTwo(before, a, b);
    assert past + a + b == past + (a + b);
  }

  /** The concurrent path. Whatever request completes first, it ends as going
      through the blocks one by one does. */
  method RunPipelined(store: Store, o: Outside, missing: seq<u64>, from: u64, cap: nat, batch: nat)
    returns (ok: bool, processed: nat, skipped: set<u64>)
    requires Ascends(missing) && (forall b :: b in missing ==> b !in store.blocks)
    requires 1 <= cap
    modifies store`blocks, store`history
    ensures var r := Pipelined(o, missing, ChunkSize(cap, batch), from, |missing|);
      && ok == r.ok
      && Reflects(store.blocks, store.history, old(store.blocks), old(store.history), r.rows)
      && (ok ==> processed == |r.done| && skipped == Members(r.skipped))
  {
    hide Sound, AnswerAt, RowsSound, WithRows, Reflects, Pipelined, PersistNext;
    var chunk := ChunkSize(cap, batch);
    PipelinedNothing(o, missing, chunk, from);
    var posts := Posts(cap, chunk);
    ghost var j := Job(o, missing, chunk);
    var inflight: set<Chunk> := {};
    var ready: map<u64, Hash> := map[];
    var nextSpawn: nat, nextPersist: nat := 0, 0;
    skipped, processed, ok := {}, 0, true;
    SoundAtFirst(j);
    NothingCommitted(store.blocks, store.history);
    inflight, nextSpawn := Refill(Job(o, missing, chunk), inflight, ready, skipped, nextPersist, nextSpawn, posts);
    while nextPersist < |missing|
      invariant nextPersist <= |missing| && nextSpawn <= |missing| && ok
      invariant Sound(j, Pipe(inflight, ready, skipped, nextPersist, nextSpawn))
      invariant |inflight| <= posts && (nextSpawn == |missing| || |inflight| == posts)
      invariant var r := Pipelined(o, missing, chunk, from, nextPersist);
        r.ok && processed == |r.done|
        && Reflects(store.blocks, store.history, old(store.blocks), old(store.history), r.rows)
      decreases |missing| - nextPersist, |missing| - nextSpawn + |inflight|
    {
      ghost var s, r := Pipe(inflight, ready, skipped, nextPersist, nextSpawn), Pipelined(o, missing, chunk, from, nextPersist);
      assert |FetchingNow(j, s)| <= cap by { FetchingWithinCap(j, s, cap); }
      var need: u64 := missing[nextPersist];
      if need in skipped {
        Passed(j, s, ready - {need});
        SkippedNotReady(j, s);
        PersistNextSkips(o, missing, chunk, from, nextPersist, r);
        PipelinedStep(o, missing, chunk, from, nextPersist);
        nextPersist := nextPersist + 1;
      } else if need in ready {
        Passed(j, s, ready - {need});
        var bundle := ready[need];
        ready := ready - {need};
        PipelinedRows(o, missing, chunk, from, nextPersist);
        NotYetStored(o, missing, chunk, nextPersist, r.rows, old(store.blocks));
        assert missing[nextPersist] !in store.blocks by {
          ReflectedBlocks(store.blocks, store.history, old(store.blocks), old(store.history), r.rows);
        }
        ghost var mid, history := store.blocks, store.history;
        ok := PersistOne(store, o, missing, chunk, from, nextPersist, bundle);
        PersistNextAdds(o, missing, chunk, from, nextPersist, r);
        ReflectsInTwo(old(store.blocks), old(store.history), mid, history, store.blocks, store.history,
                      r.rows, PersistNext(o, missing, chunk, from, nextPersist, NOTHING_YET).rows);
        PipelinedStep(o, missing, chunk, from, nextPersist);
        if !ok {
          PipelinedStops(o, missing, chunk, from, nextPersist + 1, |missing|);
          return;
        }
        processed := processed + 1;
        nextPersist := nextPersist + 1;
        inflight, nextSpawn := Refill(Job(o, missing, chunk), inflight, ready, skipped, nextPersist, nextSpawn, posts);
      } else {
        NeverStalls(j, s, posts);
        var c :| c in inflight;
        ready, skipped := Complete(Job(o, missing, chunk), inflight, ready, skipped, nextPersist, nextSpawn, c);
        inflight := inflight - {c};
        inflight, nextSpawn := Refill(Job(o, missing, chunk), inflight, ready, skipped, nextPersist, nextSpawn, posts);
      }
    }
    AllPassed(j, Pipe(inflight, ready, skipped, nextPersist, nextSpawn), from);
  }

  lemma SingleRequest(o: Outside, n: nat, i: nat)
    requires i < n
    ensures RequestOf(n, 1, i) == Chunk(i, i + 1)
    ensures AnswerAt(o, n, 1, i)
         == if o.fetch(Chunk(i, i + 1)).Some? && |o.fetch(Chunk(i, i + 1)).value| == 1
            then Some(o.fetch(Chunk(i, i + 1)).value[0]) else None
  {
  }

  /** Index one block: the price when it is due, its own request, the write. */
  method IndexOne(store: Store, o: Outside, missing: seq<u64>, from: u64, i: nat) returns (ok: bool, indexed: bool)
    requires i < |missing| && missing[i] !in store.blocks
    modifies store`blocks, store`history
    ensures var r := IndexNext(o, missing, from, i, NOTHING_YET);
      && ok == r.ok && Reflects(store.blocks, store.history, old(store.blocks), old(store.history), r.rows)
      && (ok ==> if indexed then r.done == [missing[i]] && r.skipped == [] else r.done == [] && r.skipped == [missing[i]])
  {
    hide AnswerAt, WithRows;
    var block := missing[i];
    NothingCommitted(store.blocks, store.history);
    SingleRequest(o, |missing|, i);
    if SatSubU64(block, from) % 256 == 0 && !o.priceOk(block) {
      return false, false;
    }
    var rows := o.fetch(Chunk(i, i + 1));
    ok, indexed := true, rows.Some? && |rows.value| == 1;
    if indexed {
      RowsSnoc(store.blocks, [], Row(block, rows.value[0]));
      assert [] + [Row(block, rows.value[0])] == [Row(block, rows.value[0])];
      if !o.persist(block).FailedBefore? {
        store.InsertBlock(block, rows.value[0]);
      }
      indexed := o.persist(block).Stored?;
    }
  }

  /** What one block adds to a serial run. */
  lemma IndexNextAdds(o: Outside, missing: seq<u64>, from: u64, i: nat, r: Run)
    requires i < |missing| && r.ok
    ensures var r', more := IndexNext(o, missing, from, i, r), IndexNext(o, missing, from, i, NOTHING_YET);
      && r'.ok == more.ok && r'.rows == r.rows + more.rows
      && r'.done == r.done + more.done && r'.skipped == r.skipped + more.skipped
  {
    hide AnswerAt, PriceFails;
    assert r.rows + [] == r.rows && r.done + [] == r.done && r.skipped + [] == r.skipped;
    forall row: Row ensures [] + [row] == [row] {
    }
    forall b: u64 ensures [] + [b] == [b] {
    }
  }

  lemma SerialStep(o: Outside, missing: seq<u64>, from: u64, n: nat)
    requires n < |missing|
    ensures Serial(o, missing, from, n + 1) == IndexNext(o, missing, from, n, Serial(o, missing, from, n))
  {
    hide IndexNext;
  }

  /** The serial path, one block at a time. */
  method RunSerial(store: Store, o: Outside, missing: seq<u64>, from: u64)
    returns (ok: bool, processed: nat, skipped: set<u64>)
    requires Ascends(missing) && (forall b :: b in missing ==> b !in store.blocks)
    modifies store`blocks, store`history
    ensures var r := Serial(o, missing, from, |missing|);
      && ok == r.ok
      && Reflects(store.blocks, store.history, old(store.blocks), old(store.history), r.rows)
      && (ok ==> processed == |r.done| && skipped == Members(r.skipped))
  {
    hide RowsSound, WithRows, AnswerAt, Reflects, IndexNext, Members;
    skipped, processed, ok := {}, 0, true;
    NothingCommitted(store.blocks, store.history);
    NoMembers();
    for i := 0 to |missing|
      invariant ok
      invariant var r := Serial(o, missing, from, i);
        r.ok && processed == |r.done| && skipped == Members(r.skipped)
        && Reflects(store.blocks, store.history, old(store.blocks), old(store.history), r.rows)
    {
      ghost var r := Serial(o, missing, from, i);
      SerialRows(o, missing, from, i);
      NotYetStored(o, missing, 1, i, r.rows, old(store.blocks));
      assert missing[i] !in store.blocks by {
        ReflectedBlocks(store.blocks, store.history, old(store.blocks), old(store.history), r.rows);
      }
      ghost var mid, history := store.blocks, store.history;
      var indexed: bool;
      ok, indexed := IndexOne(store, o, missing, from, i);
      SerialStep(o, missing, from, i);
      IndexNextAdds(o, missing, from, i, r);
      ReflectsInTwo(old(store.blocks), old(store.history), mid, history, store.blocks, store.history,
                    r.rows, IndexNext(o, missing, from, i, NOTHING_YET).rows);
      if !ok {
        SerialStops(o, missing, from, i + 1, |missing|);
        return;
      }
      MembersSnoc(r.skipped, missing[i]);
      if indexed {
        assert r.skipped + [] == r.skipped;
        processed := processed + 1;
      } else {
        assert r.done + [] == r.done;
        skipped := skipped + {missing[i]};
      }
    }
  }

  lemma NoMembers()
    ensures Members([]) == {}
  {
  }

  lemma MembersSnoc(s: seq<u64>, b: u64)
    ensures Members(s + [b]) == Members(s) + {b}
  {
  }
}
