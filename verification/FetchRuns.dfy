/** A block fetch as a function of what the outside answers and of the order in
    which its requests finish: what the write buffer and the store end up with,
    and what is counted. The fetcher's loops are proved to compute this. */
module FetchRuns {
  import opened RustInts
  import opened Division

  const FLUSH_AT: nat := 10

  /** One request for the blocks `[lo, hi]`. */
  datatype Request = Request(lo: u64, hi: u64)

  datatype FetchResult = Cancelled | WriteFailed | Completed(blocks: nat)

  /** What the outside answers: whether a request's rows arrive, one per block;
      whether the `n`-th batch handed to the store is written; and whether the
      `n`-th progress tick of a fetch lets it go on. */
  datatype Outside = Outside(arrives: Request -> bool, written: nat -> bool, goesOn: nat -> bool)

  // ----- the write buffer

  /** The shared buffer, the rows in the store, the rows lost with a failed batch,
      and how many batches were handed over. */
  datatype Sink = Sink(buf: seq<u64>, stored: seq<u64>, lost: seq<u64>, flushes: nat) {
    predicate Valid() {
      |buf| < FLUSH_AT
    }

    /** Every row ever pushed. */
    ghost function Rows(): multiset<u64> {
      multiset(stored) + multiset(lost) + multiset(buf)
    }
  }

  /** Hand the buffer over; a failed write drops it. */
  function Flushed(o: Outside, s: Sink): (Sink, bool) {
    if o.written(s.flushes)
    then (Sink([], s.stored + s.buf, s.lost, s.flushes + 1), true)
    else (Sink([], s.stored, s.lost + s.buf, s.flushes + 1), false)
  }

  /** `write_block_data`: push a row and flush at ten. */
  function Pushed(o: Outside, s: Sink, b: u64): (Sink, bool) {
    var pushed := s.(buf := s.buf + [b]);
    if |pushed.buf| >= FLUSH_AT then Flushed(o, pushed) else (pushed, true)
  }

  /** Push the rows of `[lo, hi]` until a write fails. */
  function PushRange(o: Outside, s: Sink, lo: int, hi: int): (Sink, bool)
    requires 0 <= lo && hi <= U64_MAX
    decreases hi - lo
  {
    if hi < lo then (s, true)
    else
      var (s', ok) := Pushed(o, s, lo);
      if ok then PushRange(o, s', lo + 1, hi) else (s', false)
  }

  /** A request finishes: its rows arrive and are pushed, or it fails. */
  function Finish(o: Outside, s: Sink, r: Request): (Sink, bool) {
    if o.arrives(r) then PushRange(o, s, r.lo, r.hi) else (s, false)
  }

  // ----- requests finishing one after another

  datatype Progress = Progress(sink: Sink, completed: nat, ticks: nat, cancelled: bool)

  function SizeOf(r: Request): nat {
    if r.lo <= r.hi then r.hi - r.lo + 1 else 0
  }

  /** `n` progress ticks, or as many as it takes to be cancelled. */
  function Ticked(o: Outside, ticks: nat, n: nat): (nat, bool)
    decreases n
  {
    if n == 0 then (ticks, true)
    else if !o.goesOn(ticks) then (ticks + 1, false)
    else Ticked(o, ticks + 1, n - 1)
  }

  function FinishNext(o: Outside, p: Progress, r: Request): Progress {
    var (sink, ok) := Finish(o, p.sink, r);
    if !ok then p.(sink := sink)
    else
      var (ticks, on) := Ticked(o, p.ticks, SizeOf(r));
      if on then Progress(sink, p.completed + SizeOf(r), ticks, false)
      else Progress(sink, p.completed, ticks, true)
  }

  /** Requests finish in the given order, until the fetch is cancelled. */
  function FinishAll(o: Outside, p: Progress, order: seq<Request>): Progress {
    if order == [] then p
    else
      var q := FinishAll(o, p, order[..|order| - 1]);
      if q.cancelled then q else FinishNext(o, q, order[|order| - 1])
  }

  function Begin(s: Sink): Progress {
    Progress(s, 0, 0, false)
  }

  // ----- the plan of a fetch

  /** The consecutive requests of `chunk` blocks that cover `[start, end]`. */
  function Plan(start: int, end: int, chunk: nat): seq<Request>
    requires 0 <= start && end <= U64_MAX && chunk >= 1
    decreases end - start
  {
    if end < start then []
    else
      var hi := Min(start + chunk - 1, end);
      [Request(start, hi)] + Plan(hi + 1, end, chunk)
  }

  /** The requests follow each other and cover `[start, next)` exactly. */
  ghost predicate Partition(requests: seq<Request>, start: int, next: int) {
    if requests == [] then next == start
    else
      var r := requests[0];
      r.lo == start && r.lo <= r.hi && Partition(requests[1..], r.hi + 1, next)
  }

  lemma {:induction false} PlanPartitions(start: int, end: int, chunk: nat)
    requires 0 <= start <= end + 1 && end <= U64_MAX && chunk >= 1
    ensures Partition(Plan(start, end, chunk), start, end + 1)
    ensures forall r :: r in Plan(start, end, chunk) ==> start <= r.lo <= r.hi <= end && SizeOf(r) <= chunk
    decreases end - start
  {
    if start <= end {
      var hi := Min(start + chunk - 1, end);
      var rest := Plan(hi + 1, end, chunk);
      PlanPartitions(hi + 1, end, chunk);
      assert ([Request(start, hi)] + rest)[1..] == rest;
    }
  }

  /** The order is one the permits allow: the `k`-th request to finish is among
      the first `k` and the `posts` that may be open then. */
  ghost predicate InWindow(order: seq<Request>, plan: seq<Request>, posts: nat) {
    forall k :: 0 <= k < |order| ==> exists i :: 0 <= i < |plan| && i < k + posts && plan[i] == order[k]
  }

  /** A fetch of `[start, end]` in requests of `chunk` blocks, `posts` at a time,
      took `before` to `after` with its requests finishing in `order`: all of the
      plan, unless it was cancelled. */
  ghost predicate FetchedAs(o: Outside, start: u64, end: u64, chunk: nat, posts: nat, before: Sink, after: Sink,
                            r: FetchResult, order: seq<Request>)
    requires chunk >= 1
  {
    var p, plan := FinishAll(o, Begin(before), order), Plan(start, end, chunk);
    && after == p.sink
    && r == (if p.cancelled then Cancelled else Completed(p.completed))
    && InWindow(order, plan, posts)
    && (if p.cancelled then multiset(order) <= multiset(plan) else multiset(order) == multiset(plan))
  }

  // ----- one block after another

  /** The sequential path from block `b` on: a failed write ends the fetch. */
  function Sequential(o: Outside, s: Sink, b: int, end: u64, ticks: nat, fetched: nat): (FetchResult, Sink)
    requires 0 <= b
    decreases end - b
  {
    if b > end then (Completed(fetched), s)
    else if !o.arrives(Request(b, b)) then Sequential(o, s, b + 1, end, ticks, fetched)
    else
      var (s', ok) := Pushed(o, s, b);
      if !ok then (WriteFailed, s')
      else if !o.goesOn(ticks) then (Cancelled, s')
      else Sequential(o, s', b + 1, end, ticks + 1, fetched + 1)
  }

  // ----- when the scheduling covers the range

  function WrapU64(x: nat): u64 {
    x % (U64_MAX + 1)
  }

  /** `(cursor + chunk as u64 - 1).min(end)`, wrapping. */
  function ChunkEnd(cursor: u64, chunk: nat, end: u64): u64
    requires chunk >= 1
  {
    Min(WrapU64(cursor + chunk - 1), end)
  }

  /** `chunk_end.saturating_add(1)` */
  function NextCursor(cursor: u64, chunk: nat, end: u64): u64
    requires chunk >= 1
  {
    SatAddU64(ChunkEnd(cursor, chunk, end), 1)
  }

  /** The first `k` requests the program makes from `cursor` on. */
  function Spawns(cursor: u64, chunk: nat, end: u64, k: nat): seq<Request>
    requires chunk >= 1
    decreases k
  {
    if k == 0 then []
    else [Request(cursor, ChunkEnd(cursor, chunk, end))] + Spawns(NextCursor(cursor, chunk, end), chunk, end, k - 1)
  }

  /** The program makes exactly `k` requests from `cursor` on. */
  predicate StopsAfter(cursor: u64, chunk: nat, end: u64, k: nat)
    requires chunk >= 1
    decreases k
  {
    if k == 0 then cursor > end else cursor <= end && StopsAfter(NextCursor(cursor, chunk, end), chunk, end, k - 1)
  }

  /** Where the last request of the range starts. */
  function LastStart(start: int, end: int, chunk: nat): int
    requires chunk >= 1
    decreases end - start
  {
    if end - start < chunk then start else LastStart(start + chunk, end, chunk)
  }

  lemma {:induction false} LastStartIs(start: int, end: int, chunk: nat)
    requires start <= end && chunk >= 1
    ensures LastStart(start, end, chunk) == start + (end - start) / chunk * chunk
    decreases end - start
  {
    if end - start < chunk {
      SmallQuotient(end - start, chunk);
    } else {
      LastStartIs(start + chunk, end, chunk);
      QuotientStep(end - start - chunk, chunk);
    }
  }

  /** The range does not end at the largest u64, and the sum that finds the end of
      its last request does not pass it. */
  predicate PlanFits(start: u64, end: u64, chunk: nat)
    requires chunk >= 1
  {
    end < U64_MAX && LastStart(start, end, chunk) + chunk - 1 <= U64_MAX
  }

  lemma {:induction false} LastStartAbove(start: int, end: int, chunk: nat)
    requires start <= end && chunk >= 1
    ensures start <= LastStart(start, end, chunk) <= end
    decreases end - start
  {
    if end - start >= chunk {
      LastStartAbove(start + chunk, end, chunk);
    }
  }

  /** A fitting plan goes on fitting, and its next request does not wrap. */
  lemma NextFits(cursor: u64, end: u64, chunk: nat)
    requires cursor <= end && chunk >= 1 && PlanFits(cursor, end, chunk)
    ensures ChunkEnd(cursor, chunk, end) == Min(cursor + chunk - 1, end)
    ensures NextCursor(cursor, chunk, end) == ChunkEnd(cursor, chunk, end) + 1
    ensures NextCursor(cursor, chunk, end) <= end ==> PlanFits(NextCursor(cursor, chunk, end), end, chunk)
  {
    LastStartAbove(cursor, end, chunk);
  }

  /** The scheduling ends with requests that partition the range exactly when the
      plan fits; otherwise it never ends, or leaves the range's order. */
  lemma ScheduleCoversExactlyWhen(start: u64, end: u64, chunk: nat)
    requires start <= end && 1 <= chunk <= U64_MAX
    ensures PlanFits(start, end, chunk) <==>
            exists k :: StopsAfter(start, chunk, end, k) && Partition(Spawns(start, chunk, end, k), start, end + 1)
    ensures PlanFits(start, end, chunk) ==> exists k ::
      StopsAfter(start, chunk, end, k) && Spawns(start, chunk, end, k) == Plan(start, end, chunk)
  {
    if PlanFits(start, end, chunk) {
      var k := FittingStops(start, end, chunk);
      PlanPartitions(start, end, chunk);
    }
    forall k | StopsAfter(start, chunk, end, k) && Partition(Spawns(start, chunk, end, k), start, end + 1)
      ensures PlanFits(start, end, chunk)
    {
      StoppingFits(start, end, chunk, k);
    }
  }

  lemma {:induction false} FittingStops(cursor: u64, end: u64, chunk: nat) returns (k: nat)
    requires cursor <= end && chunk >= 1 && PlanFits(cursor, end, chunk)
    ensures StopsAfter(cursor, chunk, end, k) && Spawns(cursor, chunk, end, k) == Plan(cursor, end, chunk)
    decreases end - cursor
  {
    hide ChunkEnd, PlanFits;
    NextFits(cursor, end, chunk);
    var next := NextCursor(cursor, chunk, end);
    if next <= end {
      k := FittingStops(next, end, chunk);
    } else {
      k := 0;
      assert Plan(next, end, chunk) == [];
    }
    k := k + 1;
  }

  lemma {:induction false} StoppingFits(cursor: u64, end: u64, chunk: nat, k: nat)
    requires cursor <= end && 1 <= chunk <= U64_MAX
    requires StopsAfter(cursor, chunk, end, k) && Partition(Spawns(cursor, chunk, end, k), cursor, end + 1)
    ensures PlanFits(cursor, end, chunk)
    decreases k
  {
    hide ChunkEnd, NextCursor;
    var next, rest := NextCursor(cursor, chunk, end), Spawns(NextCursor(cursor, chunk, end), chunk, end, k - 1);
    assert ([Request(cursor, ChunkEnd(cursor, chunk, end))] + rest)[1..] == rest;
    NoWrap(cursor, chunk, end);
    if end - cursor >= chunk {
      StoppingFits(next, end, chunk, k - 1);
    } else {
      SpawnsFrom(next, chunk, end, k - 1);
    }
  }

  lemma SpawnsFrom(cursor: u64, chunk: nat, end: u64, k: nat)
    requires chunk >= 1
    ensures k > 0 ==> |Spawns(cursor, chunk, end, k)| > 0 && Spawns(cursor, chunk, end, k)[0].lo == cursor
  {
  }

  /** A request that is not empty did not wrap. */
  lemma NoWrap(cursor: u64, chunk: nat, end: u64)
    requires 1 <= chunk <= U64_MAX && cursor <= ChunkEnd(cursor, chunk, end)
    ensures cursor + chunk - 1 <= U64_MAX
    ensures ChunkEnd(cursor, chunk, end) == Min(cursor + chunk - 1, end)
    ensures NextCursor(cursor, chunk, end) == Min(Min(cursor + chunk - 1, end) + 1, U64_MAX)
  {
    WrapIs(cursor + chunk - 1);
  }

  lemma WrapIs(x: nat)
    requires x <= 2 * U64_MAX
    ensures WrapU64(x) == if x <= U64_MAX then x else x - (U64_MAX + 1)
  {
    if x <= U64_MAX {
      RemainderOf(0, U64_MAX + 1, x);
    } else {
      RemainderOf(1, U64_MAX + 1, x - (U64_MAX + 1));
    }
  }
}
