/** A historical backfill as a function of what the outside answers: going
    through the missing blocks one by one, in order. The concurrent pipeline and
    the serial loop are proved to compute this. */
module RangeRuns {
  import opened RustInts
  import opened PaperTypes
  import opened Sequences
  import opened ExplorerStore
  import opened Division

  /** One request for the missing blocks with indices `[lo, hi)`. */
  datatype Chunk = Chunk(lo: nat, hi: nat)

  /** The answer to persisting a fetched block. A failure may come before the
      block's rows were committed or after. */
  datatype PersistReply = Stored | FailedBefore | FailedAfter

  /** What the outside answers. Each request is made once, each block persisted
      once and each price asked once, so a function says it all. */
  datatype Outside = Outside(
    firstPriceOk: bool,
    fetch: Chunk -> Option<seq<Hash>>,
    priceOk: u64 -> bool,
    persist: u64 -> PersistReply
  )

  function Members(s: seq<u64>): set<u64> {
    set b | b in s
  }

  // ----- requests

  /** The request that asks for the block of index `i`, of `n` missing ones. */
  function RequestOf(n: nat, chunk: nat, i: nat): (c: Chunk)
    requires chunk >= 1 && i < n
    ensures c.lo <= i < c.hi <= n && c.hi - c.lo <= chunk
  {
    Chunk(i - i % chunk, Min(i - i % chunk + chunk, n))
  }

  predicate IsRequest(n: nat, chunk: nat, c: Chunk)
    requires chunk >= 1
  {
    c.lo < n && c.lo % chunk == 0 && c.hi == Min(c.lo + chunk, n)
  }

  lemma RequestOfIndex(n: nat, chunk: nat, c: Chunk, i: nat)
    requires chunk >= 1 && IsRequest(n, chunk, c) && i < n
    ensures RequestOf(n, chunk, i) == c <==> c.lo <= i < c.hi
  {
    if c.lo <= i < c.hi {
      var q := c.lo / chunk;
      assert c.lo == q * chunk;
      RemainderOf(q, chunk, i - c.lo);
    }
  }

  lemma NextRequest(chunk: nat, lo: nat)
    requires chunk >= 1 && lo % chunk == 0
    ensures (lo + chunk) % chunk == 0
  {
    var q := lo / chunk;
    assert lo == q * chunk;
    assert lo + chunk == (q + 1) * chunk;
    RemainderOf(q + 1, chunk, 0);
  }

  predicate Answered(o: Outside, c: Chunk) {
    o.fetch(c).Some? && |o.fetch(c).value| == c.hi - c.lo
  }

  /** What the request for the block of index `i` answers for it. */
  function AnswerAt(o: Outside, n: nat, chunk: nat, i: nat): Option<Hash>
    requires chunk >= 1 && i < n
  {
    var c := RequestOf(n, chunk, i);
    if Answered(o, c) then Some(o.fetch(c).value[i - c.lo]) else None
  }

  // ----- block by block

  /** A run over the first missing blocks: the rows it committed, the blocks it
      processed and those it skipped, each in order. */
  datatype Run = Run(ok: bool, rows: seq<Row>, done: seq<u64>, skipped: seq<u64>)

  predicate PriceFails(o: Outside, from: u64, b: u64) {
    SatSubU64(b, from) % 256 == 0 && !o.priceOk(b)
  }

  /** The pipelined path at the block of index `i`. A block whose fetch failed is
      skipped; a failed price or write ends the run. */
  function PersistNext(o: Outside, missing: seq<u64>, chunk: nat, from: u64, i: nat, r: Run): Run
    requires chunk >= 1 && i < |missing|
  {
    var b := missing[i];
    if !r.ok then r
    else match AnswerAt(o, |missing|, chunk, i)
      case None => r.(skipped := r.skipped + [b])
      case Some(h) =>
        if PriceFails(o, from, b) then r.(ok := false)
        else match o.persist(b)
          case Stored => r.(rows := r.rows + [Row(b, h)], done := r.done + [b])
          case FailedBefore => r.(ok := false)
          case FailedAfter => r.(ok := false, rows := r.rows + [Row(b, h)])
  }

  /** The pipelined path over the first `n` missing blocks. */
  function Pipelined(o: Outside, missing: seq<u64>, chunk: nat, from: u64, n: nat): Run
    requires chunk >= 1 && n <= |missing|
  {
    if n == 0 then Run(true, [], [], [])
    else PersistNext(o, missing, chunk, from, n - 1, Pipelined(o, missing, chunk, from, n - 1))
  }

  /** The serial path at the block of index `i`: one block a request, and a failed
      write only skips. */
  function IndexNext(o: Outside, missing: seq<u64>, from: u64, i: nat, r: Run): Run
    requires i < |missing|
  {
    var b := missing[i];
    if !r.ok then r
    else if PriceFails(o, from, b) then r.(ok := false)
    else match AnswerAt(o, |missing|, 1, i)
      case None => r.(skipped := r.skipped + [b])
      case Some(h) =>
        match o.persist(b)
        case Stored => r.(rows := r.rows + [Row(b, h)], done := r.done + [b])
        case FailedBefore => r.(skipped := r.skipped + [b])
        case FailedAfter => r.(rows := r.rows + [Row(b, h)], skipped := r.skipped + [b])
  }

  /** The serial path over the first `n` missing blocks. */
  function Serial(o: Outside, missing: seq<u64>, from: u64, n: nat): Run
    requires n <= |missing|
  {
    if n == 0 then Run(true, [], [], [])
    else IndexNext(o, missing, from, n - 1, Serial(o, missing, from, n - 1))
  }

  lemma {:induction false} PipelinedStops(o: Outside, missing: seq<u64>, chunk: nat, from: u64, n: nat, m: nat)
    requires chunk >= 1 && n <= m <= |missing| && !Pipelined(o, missing, chunk, from, n).ok
    ensures Pipelined(o, missing, chunk, from, m) == Pipelined(o, missing, chunk, from, n)
  {
    if n < m {
      PipelinedStops(o, missing, chunk, from, n, m - 1);
    }
  }

  lemma {:induction false} SerialStops(o: Outside, missing: seq<u64>, from: u64, n: nat, m: nat)
    requires n <= m <= |missing| && !Serial(o, missing, from, n).ok
    ensures Serial(o, missing, from, m) == Serial(o, missing, from, n)
  {
    if n < m {
      SerialStops(o, missing, from, n, m - 1);
    }
  }

  // ----- what a run means

  /** The committed rows are ascending blocks of the first `n` missing ones, each
      with the hash its request answered. */
  ghost predicate RowsSound(o: Outside, missing: seq<u64>, chunk: nat, n: nat, rows: seq<Row>)
    requires chunk >= 1 && n <= |missing|
  {
    && (forall k :: 0 <= k < |rows| ==> exists i :: 0 <= i < n && missing[i] == rows[k].block
                                                 && AnswerAt(o, |missing|, chunk, i) == Some(rows[k].hash))
    && (forall k, l :: 0 <= k < l < |rows| ==> rows[k].block < rows[l].block)
  }

  lemma RowsGrow(o: Outside, missing: seq<u64>, chunk: nat, n: nat, rows: seq<Row>, h: Hash)
    requires chunk >= 1 && n < |missing| && Ascends(missing) && RowsSound(o, missing, chunk, n, rows)
    ensures RowsSound(o, missing, chunk, n + 1, rows)
    ensures AnswerAt(o, |missing|, chunk, n) == Some(h) ==>
      RowsSound(o, missing, chunk, n + 1, rows + [Row(missing[n], h)])
  {
    hide AnswerAt;
    var more := rows + [Row(missing[n], h)];
    forall k | 0 <= k < |rows| ensures exists i :: 0 <= i < n + 1 && missing[i] == rows[k].block
                                                 && AnswerAt(o, |missing|, chunk, i) == Some(rows[k].hash)
    {
      var i :| 0 <= i < n && missing[i] == rows[k].block && AnswerAt(o, |missing|, chunk, i) == Some(rows[k].hash);
    }
    forall k, l | 0 <= k < l < |more| ensures more[k].block < more[l].block {
      var i :| 0 <= i < n && missing[i] == rows[k].block && AnswerAt(o, |missing|, chunk, i) == Some(rows[k].hash);
    }
    if AnswerAt(o, |missing|, chunk, n) == Some(h) {
      forall k | 0 <= k < |more| ensures exists i :: 0 <= i < n + 1 && missing[i] == more[k].block
                                                   && AnswerAt(o, |missing|, chunk, i) == Some(more[k].hash)
      {
        if k == |rows| {
          assert missing[n] == more[k].block;
        } else {
          assert more[k] == rows[k];
        }
      }
    }
  }

  lemma PersistNextRows(o: Outside, missing: seq<u64>, chunk: nat, from: u64, i: nat, r: Run)
    requires chunk >= 1 && i < |missing| && Ascends(missing) && RowsSound(o, missing, chunk, i, r.rows)
    ensures RowsSound(o, missing, chunk, i + 1, PersistNext(o, missing, chunk, from, i, r).rows)
  {
    hide AnswerAt, RowsSound, PriceFails;
    var a := AnswerAt(o, |missing|, chunk, i);
    RowsGrow(o, missing, chunk, i, r.rows, if a.Some? then a.value else 0);
  }

  lemma {:induction false} PipelinedRows(o: Outside, missing: seq<u64>, chunk: nat, from: u64, n: nat)
    requires chunk >= 1 && n <= |missing| && Ascends(missing)
    ensures RowsSound(o, missing, chunk, n, Pipelined(o, missing, chunk, from, n).rows)
  {
    if n > 0 {
      hide PersistNext, RowsSound;
      PipelinedRows(o, missing, chunk, from, n - 1);
      PersistNextRows(o, missing, chunk, from, n - 1, Pipelined(o, missing, chunk, from, n - 1));
    }
  }

  lemma IndexNextRows(o: Outside, missing: seq<u64>, from: u64, i: nat, r: Run)
    requires i < |missing| && Ascends(missing) && RowsSound(o, missing, 1, i, r.rows)
    ensures RowsSound(o, missing, 1, i + 1, IndexNext(o, missing, from, i, r).rows)
  {
    hide AnswerAt, RowsSound, PriceFails;
    var a := AnswerAt(o, |missing|, 1, i);
    RowsGrow(o, missing, 1, i, r.rows, if a.Some? then a.value else 0);
  }

  lemma {:induction false} SerialRows(o: Outside, missing: seq<u64>, from: u64, n: nat)
    requires n <= |missing| && Ascends(missing)
    ensures RowsSound(o, missing, 1, n, Serial(o, missing, from, n).rows)
  {
    if n > 0 {
      hide IndexNext, RowsSound;
      SerialRows(o, missing, from, n - 1);
      IndexNextRows(o, missing, from, n - 1, Serial(o, missing, from, n - 1));
    }
  }

  /** The block of index `i` is processed by a successful pipelined run. */
  predicate Fetched(o: Outside, missing: seq<u64>, chunk: nat, i: nat)
    requires chunk >= 1 && i < |missing|
  {
    AnswerAt(o, |missing|, chunk, i).Some?
  }

  /** The block of index `i` is processed by a successful serial run. */
  predicate Indexed(o: Outside, missing: seq<u64>, i: nat)
    requires i < |missing|
  {
    AnswerAt(o, |missing|, 1, i).Some? && o.persist(missing[i]).Stored?
  }

  /** `b` is among the first `n` missing blocks, and its index is in `processed`
      or not, as `want` says. */
  ghost predicate Among(missing: seq<u64>, n: nat, processed: set<nat>, want: bool, b: u64)
    requires n <= |missing|
  {
    exists i :: 0 <= i < n && (i in processed) == want && missing[i] == b
  }

  /** The first `n` missing blocks are split in order: those that are processed,
      and those that are skipped. */
  ghost predicate SplitBy(missing: seq<u64>, n: nat, processed: set<nat>, done: seq<u64>, skipped: seq<u64>)
    requires n <= |missing|
  {
    && Ascends(done) && Ascends(skipped) && |done| + |skipped| == n
    && (forall b :: b in done <==> Among(missing, n, processed, true, b))
    && (forall b :: b in skipped <==> Among(missing, n, processed, false, b))
  }

  lemma AmongGrows(missing: seq<u64>, n: nat, processed: set<nat>, want: bool, b: u64)
    requires n < |missing|
    ensures Among(missing, n + 1, processed, want, b) <==>
            Among(missing, n, processed, want, b) || ((n in processed) == want && b == missing[n])
  {
    if Among(missing, n + 1, processed, want, b) {
      var i :| 0 <= i < n + 1 && (i in processed) == want && missing[i] == b;
      assert i < n || i == n;
    }
  }

  lemma SplitGrows(missing: seq<u64>, n: nat, processed: set<nat>, done: seq<u64>, skipped: seq<u64>)
    requires n < |missing| && Ascends(missing) && SplitBy(missing, n, processed, done, skipped)
    ensures n in processed ==> SplitBy(missing, n + 1, processed, done + [missing[n]], skipped)
    ensures n !in processed ==> SplitBy(missing, n + 1, processed, done, skipped + [missing[n]])
  {
    AppendAscends(missing, n, processed, true, done);
    AppendAscends(missing, n, processed, false, skipped);
    hide Among;
    forall b, want ensures Among(missing, n + 1, processed, want, b) <==>
      Among(missing, n, processed, want, b) || ((n in processed) == want && b == missing[n])
    {
      AmongGrows(missing, n, processed, want, b);
    }
  }

  lemma AppendAscends(missing: seq<u64>, n: nat, processed: set<nat>, want: bool, s: seq<u64>)
    requires n < |missing| && Ascends(missing) && Ascends(s)
    requires forall b :: b in s ==> Among(missing, n, processed, want, b)
    ensures Ascends(s + [missing[n]])
  {
    forall k | 0 <= k < |s| ensures s[k] < missing[n] {
      assert s[k] in s;
    }
  }

  ghost function FetchedSet(o: Outside, missing: seq<u64>, chunk: nat): set<nat>
    requires chunk >= 1
  {
    set i: nat | i < |missing| && Fetched(o, missing, chunk, i)
  }

  ghost function IndexedSet(o: Outside, missing: seq<u64>): set<nat> {
    set i: nat | i < |missing| && Indexed(o, missing, i)
  }

  /** A pipelined run succeeds exactly when no fetched block meets a failed price
      or write; then exactly the blocks whose fetch failed are skipped, and each
      other block's row is committed, in ascending order. */
  lemma {:induction false} PipelinedMeaning(o: Outside, missing: seq<u64>, chunk: nat, from: u64, n: nat)
    requires chunk >= 1 && n <= |missing| && Ascends(missing)
    ensures var r := Pipelined(o, missing, chunk, from, n);
      && (r.ok <==> forall i :: 0 <= i < n && Fetched(o, missing, chunk, i) ==>
                      !PriceFails(o, from, missing[i]) && o.persist(missing[i]).Stored?)
      && (r.ok ==> SplitBy(missing, n, FetchedSet(o, missing, chunk), r.done, r.skipped)
                   && |r.rows| == |r.done| && forall k :: 0 <= k < |r.rows| ==> r.rows[k].block == r.done[k])
  {
    hide AnswerAt, SplitBy, PriceFails;
    if n > 0 {
      var r := Pipelined(o, missing, chunk, from, n - 1);
      PipelinedMeaning(o, missing, chunk, from, n - 1);
      if r.ok {
        SplitGrows(missing, n - 1, FetchedSet(o, missing, chunk), r.done, r.skipped);
      }
    } else {
      NothingSplit(missing, FetchedSet(o, missing, chunk));
    }
  }

  lemma NothingSplit(missing: seq<u64>, processed: set<nat>)
    ensures SplitBy(missing, 0, processed, [], [])
  {
  }

  /** A serial run succeeds exactly when no price fails; then exactly the blocks
      whose fetch or write failed are skipped. */
  lemma {:induction false} SerialMeaning(o: Outside, missing: seq<u64>, from: u64, n: nat)
    requires n <= |missing| && Ascends(missing)
    ensures var r := Serial(o, missing, from, n);
      && (r.ok <==> forall i :: 0 <= i < n ==> !PriceFails(o, from, missing[i]))
      && (r.ok ==> SplitBy(missing, n, IndexedSet(o, missing), r.done, r.skipped))
  {
    hide AnswerAt, SplitBy, PriceFails;
    if n > 0 {
      var r := Serial(o, missing, from, n - 1);
      SerialMeaning(o, missing, from, n - 1);
      if r.ok {
        SplitGrows(missing, n - 1, IndexedSet(o, missing), r.done, r.skipped);
      }
    } else {
      NothingSplit(missing, IndexedSet(o, missing));
    }
  }

  /** With one block a request, and no failed write, the two paths agree, also on
      where a failed price ends them if no fetch fails at it. */
  lemma {:induction false} PipelinedIsSerial(o: Outside, missing: seq<u64>, from: u64, n: nat)
    requires n <= |missing|
    requires forall i :: 0 <= i < n ==> !Fetched(o, missing, 1, i) ==> !PriceFails(o, from, missing[i])
    requires forall i :: 0 <= i < n ==> o.persist(missing[i]).Stored?
    ensures Pipelined(o, missing, 1, from, n) == Serial(o, missing, from, n)
  {
    hide AnswerAt, PriceFails;
    if n > 0 {
      PipelinedIsSerial(o, missing, from, n - 1);
      assert o.persist(missing[n - 1]).Stored?;
      assert Fetched(o, missing, 1, n - 1) <==> AnswerAt(o, |missing|, 1, n - 1).Some?;
    }
  }

  // ----- which failed prices end a run

  /** The price is asked at every 256th block from the start of the range. */
  predicate PriceDue(from: u64, b: u64) {
    b <= from || (b - from) % 256 == 0
  }

  /** A serial run ends at the first block whose price is due and fails, and goes on
      otherwise. */
  lemma SerialEndsExactlyAtFailedPrices(o: Outside, missing: seq<u64>, from: u64)
    requires Ascends(missing)
    ensures Serial(o, missing, from, |missing|).ok <==>
            forall i :: 0 <= i < |missing| && PriceDue(from, missing[i]) ==> o.priceOk(missing[i])
  {
    SerialMeaning(o, missing, from, |missing|);
    forall i | 0 <= i < |missing|
      ensures PriceFails(o, from, missing[i]) <==> PriceDue(from, missing[i]) && !o.priceOk(missing[i])
    {
    }
    hide Serial, PriceFails, PriceDue, SplitBy;
  }

  /** A pipelined run ends at the first answered block whose price is due and fails,
      or whose write fails. */
  lemma PipelinedEndsExactlyWhen(o: Outside, missing: seq<u64>, chunk: nat, from: u64)
    requires chunk >= 1 && Ascends(missing)
    ensures Pipelined(o, missing, chunk, from, |missing|).ok <==>
      forall i :: 0 <= i < |missing| && AnswerAt(o, |missing|, chunk, i).Some? ==>
        (PriceDue(from, missing[i]) ==> o.priceOk(missing[i])) && o.persist(missing[i]).Stored?
  {
    PipelinedMeaning(o, missing, chunk, from, |missing|);
    forall i | 0 <= i < |missing|
      ensures PriceFails(o, from, missing[i]) <==> PriceDue(from, missing[i]) && !o.priceOk(missing[i])
      ensures Fetched(o, missing, chunk, i) <==> AnswerAt(o, |missing|, chunk, i).Some?
    {
    }
    hide Pipelined, PriceFails, PriceDue, SplitBy, Fetched, AnswerAt;
  }
}
