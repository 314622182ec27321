/** The block fetcher: bounded concurrent requests over a contiguous range, and
    a shared write buffer handed to the store in batches. Which open request
    finishes next is left to the runtime; a request pushes its rows in one go. */
module Fetcher {
  import opened RustInts
  import opened Permits
  import opened FetchRuns

  // ----- open requests

  /** The requests made so far begin the plan and the rest goes on from `cursor`;
      each is still open or has finished. */
  ghost predicate Scheduled(plan: seq<Request>, requests: seq<Request>, rest: seq<Request>,
                            tasks: seq<Request>, order: seq<Request>) {
    && plan == requests + rest
    && multiset(requests) == multiset(tasks) + multiset(order)
  }

  lemma ScheduleOne(plan: seq<Request>, requests: seq<Request>, rest: seq<Request>, tasks: seq<Request>,
                    order: seq<Request>)
    requires rest != [] && Scheduled(plan, requests, rest, tasks, order)
    ensures Scheduled(plan, requests + [rest[0]], rest[1..], tasks + [rest[0]], order)
  {
    assert requests + rest == requests + [rest[0]] + rest[1..];
  }

  /** An open request finishes: it was made among the first `|order|` and the open
      ones. */
  lemma FinishOne(plan: seq<Request>, requests: seq<Request>, rest: seq<Request>, tasks: seq<Request>,
                  order: seq<Request>, k: nat, posts: nat)
    requires Scheduled(plan, requests, rest, tasks, order) && k < |tasks| <= posts && InWindow(order, plan, posts)
    ensures Scheduled(plan, requests, rest, tasks[..k] + tasks[k + 1..], order + [tasks[k]])
    ensures InWindow(order + [tasks[k]], plan, posts)
    ensures |tasks[..k] + tasks[k + 1..]| == |tasks| - 1
    ensures forall t :: t in tasks[..k] + tasks[k + 1..] ==> t in tasks
  {
    var order' := order + [tasks[k]];
    assert tasks == tasks[..k] + [tasks[k]] + tasks[k + 1..];
    assert tasks[k] in multiset(requests);
    var i :| 0 <= i < |requests| && requests[i] == tasks[k];
    MadeCount(requests, tasks, order);
    assert plan[i] == tasks[k];
    forall n | 0 <= n < |order'| ensures exists m :: 0 <= m < |plan| && m < n + posts && plan[m] == order'[n] {
      if n < |order| {
        assert order'[n] == order[n];
      }
    }
  }

  lemma MadeCount(requests: seq<Request>, tasks: seq<Request>, order: seq<Request>)
    requires multiset(requests) == multiset(tasks) + multiset(order)
    ensures |requests| == |tasks| + |order|
  {
    assert |multiset(requests)| == |requests| && |multiset(tasks)| == |tasks| && |multiset(order)| == |order|;
  }

  /** With nothing open and nothing left to make, all of the plan has finished. */
  lemma AllFinished(plan: seq<Request>, requests: seq<Request>, order: seq<Request>)
    requires Scheduled(plan, requests, [], [], order)
    ensures multiset(order) == multiset(plan)
  {
    assert requests + [] == requests;
  }

  lemma SomeFinished(plan: seq<Request>, requests: seq<Request>, rest: seq<Request>, tasks: seq<Request>,
                     order: seq<Request>)
    requires Scheduled(plan, requests, rest, tasks, order)
    ensures multiset(order) <= multiset(plan)
  {
  }

  lemma NothingScheduled(plan: seq<Request>, posts: nat)
    ensures Scheduled(plan, [], plan, [], []) && InWindow([], plan, posts)
  {
    assert [] + plan == plan;
  }

  lemma FinishSnoc(o: Outside, p: Progress, order: seq<Request>, r: Request)
    ensures var q := FinishAll(o, p, order);
            FinishAll(o, p, order + [r]) == if q.cancelled then q else FinishNext(o, q, r)
  {
    assert (order + [r])[..|order|] == order;
  }

  // ----- blocks in flight

  function TotalSize(tasks: seq<Request>): nat {
    if tasks == [] then 0 else SizeOf(tasks[0]) + TotalSize(tasks[1..])
  }

  lemma {:induction false} TotalSizeBound(tasks: seq<Request>, chunk: nat)
    requires forall t :: t in tasks ==> SizeOf(t) <= chunk
    ensures TotalSize(tasks) <= |tasks| * chunk
  {
    if tasks != [] {
      assert tasks[0] in tasks;
      TotalSizeBound(tasks[1..], chunk);
      assert |tasks| * chunk == chunk + (|tasks| - 1) * chunk;
    }
  }

  /** The in-flight bound: requests of at most `chunk` blocks, no more than there
      are permits, never hold more than `cap` blocks. */
  lemma InFlightWithinCap(tasks: seq<Request>, cap: nat, chunk: nat)
    requires 1 <= chunk <= cap && |tasks| <= Posts(cap, chunk)
    requires forall t :: t in tasks ==> SizeOf(t) <= chunk
    ensures TotalSize(tasks) <= cap
  {
    hide TotalSize;
    TotalSizeBound(tasks, chunk);
    PostsFitCap(cap, chunk);
    MulMonotone(|tasks|, Posts(cap, chunk), chunk);
  }

  /** `block_concurrency.max(1).min(total_blocks)`, where the total wraps. */
  function RangeCap(start: u64, end: u64, blockConcurrency: nat): (cap: nat)
    ensures cap > 1 ==> start < end
  {
    Min(Max(blockConcurrency, 1), WrapU64(SatSubU64(end, start) + 1))
  }

  /** Blocks are fetched one after another exactly when the concurrency is one or the
      range is a single block; else never more at a time than the concurrency. */
  lemma SequentialExactlyWhen(start: u64, end: u64, blockConcurrency: nat)
    requires start <= end && end - start < U64_MAX
    ensures RangeCap(start, end, blockConcurrency) <= 1 <==> blockConcurrency <= 1 || start == end
    ensures blockConcurrency >= 1 ==> RangeCap(start, end, blockConcurrency) <= blockConcurrency
    ensures 1 <= blockConcurrency <= end - start + 1 ==> RangeCap(start, end, blockConcurrency) == blockConcurrency
  {
    WrapIs(end - start + 1);
  }

  // ----- the fetcher

  class Fetcher {
    var writeBuf: seq<u64>
    var stored: seq<u64>
    var flushes: nat
    ghost var lost: seq<u64>

    constructor ()
      ensures Contents() == Sink([], [], [], 0)
    {
      writeBuf, stored, lost, flushes := [], [], [], 0;
    }

    /** The buffer, the store, what was lost and the batches handed over. */
    ghost function Contents(): Sink
      reads this
    {
      Sink(writeBuf, stored, lost, flushes)
    }

    method FlushBatch(o: Outside, batch: seq<u64>) returns (ok: bool)
      modifies this`stored, this`lost, this`flushes
      ensures flushes == old(flushes) + 1 && ok == o.written(old(flushes))
      ensures ok ==> stored == old(stored) + batch && lost == old(lost)
      ensures !ok ==> stored == old(stored) && lost == old(lost) + batch
    {
      ok := o.written(flushes);
      flushes := flushes + 1;
      if ok {
        stored := stored + batch;
      } else {
        lost := lost + batch;
      }
    }

    /** `write_block_data`: push a row and flush at ten. */
    method WriteBlockData(o: Outside, block: u64) returns (ok: bool)
      modifies this
      ensures (Contents(), ok) == Pushed(o, old(Contents()), block)
    {
      writeBuf := writeBuf + [block];
      ok := true;
      if |writeBuf| >= FLUSH_AT {
        var batch := writeBuf;
        writeBuf := [];
        ok := FlushBatch(o, batch);
      }
    }

    /** `flush_write_buf`: hand over what is left. */
    method FlushWriteBuf(o: Outside) returns (ok: bool)
      modifies this
      ensures (Contents(), ok) == if old(writeBuf) == [] then (old(Contents()), true) else Flushed(o, old(Contents()))
    {
      if writeBuf == [] {
        return true;
      }
      var batch := writeBuf;
      writeBuf := [];
      ok := FlushBatch(o, batch);
    }

    /** The body of a request: fetch, then write its blocks in order until a
        write fails. */
    method RunRequest(o: Outside, r: Request) returns (ok: bool)
      modifies this
      ensures (Contents(), ok) == Finish(o, old(Contents()), r)
    {
      if !o.arrives(r) {
        return false;
      }
      hide Pushed;
      var b: int := r.lo;
      ok := true;
      while b <= r.hi && ok
        invariant r.lo <= b
        invariant PushRange(o, old(Contents()), r.lo, r.hi)
               == if ok then PushRange(o, Contents(), b, r.hi) else (Contents(), false)
        decreases r.hi - b
      {
        ok := WriteBlockData(o, b);
        b := b + 1;
      }
    }

    /** A finished request reports progress, one tick a block. */
    method Tick(o: Outside, ticks: nat, n: nat) returns (ticks': nat, on: bool)
      ensures (ticks', on) == Ticked(o, ticks, n)
    {
      ticks', on := ticks, true;
      var left: nat := n;
      while left > 0 && on
        invariant left <= n
        invariant Ticked(o, ticks, n) == if on then Ticked(o, ticks', left) else (ticks', false)
        decreases left
      {
        on := o.goesOn(ticks');
        ticks' := ticks' + 1;
        left := left - 1;
      }
    }

    /** Wait for some open request to end, and take in its result. */
    method FinishSome(o: Outside, tasks: seq<Request>, completed: nat, ticks: nat)
      returns (k: nat, completed': nat, ticks': nat, cancelled: bool)
      requires tasks != []
      modifies this
      ensures k < |tasks|
      ensures Progress(Contents(), completed', ticks', cancelled)
           == FinishNext(o, Progress(old(Contents()), completed, ticks, false), tasks[k])
    {
      hide Finish, Ticked;
      k :| 0 <= k < |tasks|;
      completed', ticks', cancelled := completed, ticks, false;
      var ok := RunRequest(o, tasks[k]);
      if ok {
        var on;
        ticks', on := Tick(o, ticks, SizeOf(tasks[k]));
        if on {
          completed' := completed + SizeOf(tasks[k]);
        } else {
          cancelled := true;
        }
      }
    }

    /** `fetch_contiguous_range_chunked`: several blocks a request. */
    method FetchChunked(o: Outside, start: u64, end: u64, cap: nat, rpcBatchBlocks: nat)
      returns (r: FetchResult, ghost order: seq<Request>)
      requires start <= end && cap >= 1 && PlanFits(start, end, ChunkSize(cap, rpcBatchBlocks))
      modifies this
      ensures var chunk := ChunkSize(cap, rpcBatchBlocks);
              FetchedAs(o, start, end, chunk, Posts(cap, chunk), old(Contents()), Contents(), r, order)
    {
      assert end < U64_MAX;
      hide Scheduled, Plan, FinishAll, FinishNext, InWindow, PlanFits, TotalSize, Posts, SizeOf, Min, Max;
      var chunk := ChunkSize(cap, rpcBatchBlocks);
      var posts := Posts(cap, chunk);
      PostsPositive(cap, chunk);
      ghost var plan, begin := Plan(start, end, chunk), Begin(Contents());
      ghost var requests: seq<Request> := [];
      var tasks: seq<Request> := [];
      var completed, ticks := 0, 0;
      var cursor: u64 := start;
      order := [];
      NothingScheduled(plan, posts);
      NothingFinished(o, begin);
      while true
        invariant start <= cursor <= end + 1 <= U64_MAX && (cursor <= end ==> PlanFits(cursor, end, chunk))
        invariant Scheduled(plan, requests, Plan(cursor, end, chunk), tasks, order) && InWindow(order, plan, posts)
        invariant |tasks| <= posts && forall t :: t in tasks ==> SizeOf(t) <= chunk
        invariant FinishAll(o, begin, order) == Progress(Contents(), completed, ticks, false)
        decreases end + 1 - cursor + |tasks|
      {
        tasks, cursor, requests := SpawnRequests(plan, requests, tasks, end, cursor, chunk, posts, cap, order);
        if tasks == [] {
          break;
        }
        var k, cancelled;
        k, completed, ticks, cancelled := FinishSome(o, tasks, completed, ticks);
        FinishOne(plan, requests, Plan(cursor, end, chunk), tasks, order, k, posts);
        FinishSnoc(o, begin, order, tasks[k]);
        order := order + [tasks[k]];
        tasks := tasks[..k] + tasks[k + 1..];
        if cancelled {
          SomeFinished(plan, requests, Plan(cursor, end, chunk), tasks, order);
          return Cancelled, order;
        }
      }
      PlanEnds(cursor, end, chunk);
      AllFinished(plan, requests, order);
      r := Completed(completed);
    }

    /** The per-block path: one block a request, a permit taken before each. */
    method FetchOneByOne(o: Outside, start: u64, end: u64, cap: nat)
      returns (r: FetchResult, ghost order: seq<Request>)
      requires start <= end && cap >= 1
      modifies this
      ensures FetchedAs(o, start, end, 1, cap, old(Contents()), Contents(), r, order)
    {
      hide Scheduled, Plan, FinishAll, FinishNext, InWindow;
      ghost var plan, begin := Plan(start, end, 1), Begin(Contents());
      ghost var requests: seq<Request> := [];
      var tasks: seq<Request> := [];
      var completed, ticks := 0, 0;
      var block: int := start;
      order := [];
      NothingScheduled(plan, cap);
      NothingFinished(o, begin);
      while block <= end
        invariant start <= block <= end + 1
        invariant Scheduled(plan, requests, Plan(block, end, 1), tasks, order) && InWindow(order, plan, cap)
        invariant |tasks| < cap && (block > end ==> tasks == [])
        invariant FinishAll(o, begin, order) == Progress(Contents(), completed, ticks, false)
        decreases end + 1 - block
      {
        // One permit per open request, `cap` in all: one is free here.
        assert cap - |tasks| >= 1;
        var q := Request(block, block);
        PlanStep(block, end, 1);
        ScheduleOne(plan, requests, Plan(block, end, 1), tasks, order);
        requests, tasks := requests + [q], tasks + [q];
        while |tasks| >= cap || (block == end && tasks != [])
          invariant |tasks| <= cap
          invariant Scheduled(plan, requests, Plan(block + 1, end, 1), tasks, order) && InWindow(order, plan, cap)
          invariant FinishAll(o, begin, order) == Progress(Contents(), completed, ticks, false)
          decreases |tasks|
        {
          var k, cancelled;
          k, completed, ticks, cancelled := FinishSome(o, tasks, completed, ticks);
          FinishOne(plan, requests, Plan(block + 1, end, 1), tasks, order, k, cap);
          FinishSnoc(o, begin, order, tasks[k]);
          order := order + [tasks[k]];
          tasks := tasks[..k] + tasks[k + 1..];
          if cancelled {
            SomeFinished(plan, requests, Plan(block + 1, end, 1), tasks, order);
            return Cancelled, order;
          }
        }
        block := block + 1;
      }
      PlanEnds(block, end, 1);
      AllFinished(plan, requests, order);
      r := Completed(completed);
    }

    /** The sequential path: no request overlaps another, and unlike in the other
        paths a failed write ends the fetch. */
    method FetchSequential(o: Outside, start: u64, end: u64) returns (r: FetchResult)
      modifies this
      ensures (r, Contents()) == Sequential(o, old(Contents()), start, end, 0, 0)
    {
      hide Pushed;
      var fetched, ticks := 0, 0;
      var b: int := start;
      while b <= end
        invariant start <= b
        invariant Sequential(o, old(Contents()), start, end, 0, 0) == Sequential(o, Contents(), b, end, ticks, fetched)
        decreases end - b
      {
        if o.arrives(Request(b, b)) {
          var ok := WriteBlockData(o, b);
          if !ok {
            return WriteFailed;
          }
          var on := o.goesOn(ticks);
          ticks := ticks + 1;
          if !on {
            return Cancelled;
          }
          fetched := fetched + 1;
        }
        b := b + 1;
      }
      r := Completed(fetched);
    }

    /** `fetch_contiguous_range` and the final flush of a completed fetch. The
        number of blocks wraps for the full u64 range. `fetched` is the state
        between the two. */
    method FetchAndFlush(o: Outside, start: u64, end: u64, blockConcurrency: nat, rpcBatchBlocks: nat, batchRpc: bool)
      returns (r: FetchResult, flushed: bool, ghost order: seq<Request>, ghost fetched: Sink)
      requires var cap := RangeCap(start, end, blockConcurrency);
        batchRpc && rpcBatchBlocks > 1 && cap > 1 ==> PlanFits(start, end, ChunkSize(cap, rpcBatchBlocks))
      modifies this
      ensures var cap := RangeCap(start, end, blockConcurrency);
        if batchRpc && rpcBatchBlocks > 1 && cap > 1 then
          var chunk := ChunkSize(cap, rpcBatchBlocks);
          FetchedAs(o, start, end, chunk, Posts(cap, chunk), old(Contents()), fetched, r, order)
        else if cap <= 1 then (r, fetched) == Sequential(o, old(Contents()), start, end, 0, 0)
        else FetchedAs(o, start, end, 1, cap, old(Contents()), fetched, r, order)
      ensures !r.Completed? ==> Contents() == fetched && !flushed
      ensures r.Completed? && fetched.buf == [] ==> Contents() == fetched && flushed
      ensures r.Completed? && fetched.buf != [] ==> (Contents(), flushed) == Flushed(o, fetched)
    {
      hide FetchedAs, PlanFits, Sequential;
      var cap := RangeCap(start, end, blockConcurrency);
      order := [];
      if batchRpc && rpcBatchBlocks > 1 && cap > 1 {
        r, order := FetchChunked(o, start, end, cap, rpcBatchBlocks);
      } else if cap <= 1 {
        r := FetchSequential(o, start, end);
      } else {
        r, order := FetchOneByOne(o, start, end, cap);
      }
      fetched := Contents();
      flushed := false;
      if r.Completed? {
        flushed := FlushWriteBuf(o);
      }
    }
  }

  lemma PostsPositive(cap: nat, chunk: nat)
    requires chunk >= 1
    ensures Posts(cap, chunk) >= 1
  {
  }

  lemma NothingFinished(o: Outside, p: Progress)
    ensures FinishAll(o, p, []) == p
  {
  }

  lemma PlanEnds(cursor: int, end: int, chunk: nat)
    requires 0 <= cursor && end <= U64_MAX && chunk >= 1 && cursor > end
    ensures Plan(cursor, end, chunk) == []
  {
  }

  lemma PlanStep(cursor: u64, end: u64, chunk: nat)
    requires chunk >= 1 && cursor <= end
    ensures var hi := Min(cursor + chunk - 1, end);
      && Plan(cursor, end, chunk) != []
      && Plan(cursor, end, chunk)[0] == Request(cursor, hi)
      && Plan(cursor, end, chunk)[1..] == Plan(hi + 1, end, chunk)
  {
  }

  /** Open requests while there is room: each takes the next `chunk` blocks. */
  method SpawnRequests(ghost plan: seq<Request>, ghost requests: seq<Request>, tasks: seq<Request>, end: u64,
                       cursor: u64, chunk: nat, posts: nat, cap: nat, ghost order: seq<Request>)
    returns (tasks': seq<Request>, cursor': u64, ghost requests': seq<Request>)
    requires cursor <= end + 1 <= U64_MAX && 1 <= chunk <= cap && posts == Posts(cap, chunk)
    requires cursor <= end ==> PlanFits(cursor, end, chunk)
    requires Scheduled(plan, requests, Plan(cursor, end, chunk), tasks, order)
    requires |tasks| <= posts && forall t :: t in tasks ==> SizeOf(t) <= chunk
    ensures cursor <= cursor' <= end + 1 && (cursor' <= end ==> PlanFits(cursor', end, chunk))
    ensures Scheduled(plan, requests', Plan(cursor', end, chunk), tasks', order)
    ensures |tasks'| <= posts && forall t :: t in tasks' ==> SizeOf(t) <= chunk
    ensures TotalSize(tasks') <= cap
    ensures cursor' > end || |tasks'| == posts
    ensures end + 1 - cursor' + |tasks'| <= end + 1 - cursor + |tasks|
  {
    hide Scheduled, TotalSize, Plan, PlanFits, Posts;
    tasks', cursor', requests' := tasks, cursor, requests;
    InFlightWithinCap(tasks', cap, chunk);
    while cursor' <= end && |tasks'| < posts
      invariant cursor <= cursor' <= end + 1 && (cursor' <= end ==> PlanFits(cursor', end, chunk))
      invariant Scheduled(plan, requests', Plan(cursor', end, chunk), tasks', order)
      invariant |tasks'| <= posts && forall t :: t in tasks' ==> SizeOf(t) <= chunk
      invariant TotalSize(tasks') <= cap
      invariant end + 1 - cursor' + |tasks'| <= end + 1 - cursor + |tasks|
      decreases end + 1 - cursor'
    {
      // One permit per open request, `posts` in all: one is free here.
      assert posts - |tasks'| >= 1;
      NextFits(cursor', end, chunk);
      PlanStep(cursor', end, chunk);
      ScheduleOne(plan, requests', Plan(cursor', end, chunk), tasks', order);
      var chunkEnd := ChunkEnd(cursor', chunk, end);
      var q := Request(cursor', chunkEnd);
      requests', tasks' := requests' + [q], tasks' + [q];
      cursor' := SatAddU64(chunkEnd, 1);
      InFlightWithinCap(tasks', cap, chunk);
      if chunkEnd == end {
        break;
      }
    }
  }
}
