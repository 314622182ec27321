/** What a fetch keeps, for every order its requests finish in: nothing is pushed
    twice, nothing is lost but with a failed batch, the count is the blocks of
    the requests that succeeded, and without failures the range is complete. */
module FetchLaws {
  import opened RustInts
  import opened FetchRuns

  // ----- the rows of a block range

  ghost function Interval(lo: int, hi: int): multiset<u64>
    requires 0 <= lo && hi <= U64_MAX
    decreases hi - lo
  {
    if hi < lo then multiset{} else multiset{lo} + Interval(lo + 1, hi)
  }

  lemma {:induction false} IntervalMeaning(lo: int, hi: int)
    requires 0 <= lo && hi <= U64_MAX
    ensures forall b: u64 :: Interval(lo, hi)[b] == if lo <= b <= hi then 1 else 0
    ensures |Interval(lo, hi)| == Max(hi - lo + 1, 0)
    decreases hi - lo
  {
    if lo <= hi {
      IntervalMeaning(lo + 1, hi);
    }
  }

  lemma IntervalInTwo(lo: int, mid: int, hi: int)
    requires 0 <= lo <= mid <= hi + 1 && hi <= U64_MAX
    ensures Interval(lo, hi) == Interval(lo, mid - 1) + Interval(mid, hi)
  {
    hide Interval;
    IntervalMeaning(lo, hi);
    IntervalMeaning(lo, mid - 1);
    IntervalMeaning(mid, hi);
  }

  function SumOf(requests: seq<Request>): nat {
    if requests == [] then 0 else SumOf(requests[..|requests| - 1]) + SizeOf(requests[|requests| - 1])
  }

  /** The rows that a list of requests asks for. */
  ghost function RowsOf(requests: seq<Request>): multiset<u64> {
    if requests == [] then multiset{}
    else RowsOf(requests[..|requests| - 1]) + Interval(requests[|requests| - 1].lo, requests[|requests| - 1].hi)
  }

  // ----- pushing

  lemma PushedKeeps(o: Outside, s: Sink, b: u64)
    requires s.Valid()
    ensures var (s', ok) := Pushed(o, s, b);
      && s'.Valid() && s'.Rows() == s.Rows() + multiset{b}
      && s.flushes <= s'.flushes <= s.flushes + 1
      && (ok <==> s'.flushes == s.flushes || o.written(s.flushes))
      && (s'.lost == s.lost <==> ok) && s.lost <= s'.lost
  {
    var (s', ok) := Pushed(o, s, b);
    var buf := s.buf + [b];
    if s'.flushes > s.flushes {
      assert s'.stored + s'.lost + s'.buf == s'.stored + s'.lost;
    }
  }

  /** How far pushing `[lo, hi]` gets: the last block pushed. */
  function PushedTo(o: Outside, s: Sink, lo: int, hi: int): (last: int)
    requires 0 <= lo && hi <= U64_MAX
    ensures last <= hi
    decreases hi - lo
  {
    if hi < lo then hi
    else
      var (s', ok) := Pushed(o, s, lo);
      if ok then PushedTo(o, s', lo + 1, hi) else lo
  }

  /** Every batch handed over between two counts was written. */
  ghost predicate AllWritten(o: Outside, first: nat, last: nat) {
    forall n :: first <= n < last ==> o.written(n)
  }

  lemma {:induction false} PushRangeRows(o: Outside, s: Sink, lo: int, hi: int)
    requires s.Valid() && 0 <= lo && hi <= U64_MAX
    ensures var (s', ok) := PushRange(o, s, lo, hi); var last := PushedTo(o, s, lo, hi);
      && s'.Valid() && last <= hi && (lo <= hi ==> lo <= last)
      && s'.Rows() == s.Rows() + Interval(lo, last)
      && (ok ==> last == hi)
    decreases hi - lo
  {
    hide Sink.Rows, Pushed;
    if lo <= hi {
      PushedKeeps(o, s, lo);
      var (s', ok) := Pushed(o, s, lo);
      if ok {
        PushRangeRows(o, s', lo + 1, hi);
        PushedNoFurther(o, s', lo + 1, hi);
      } else {
        assert Interval(lo, lo) == multiset{lo} + Interval(lo + 1, lo);
      }
    }
  }

  /** Pushing succeeds exactly when every batch it hands over is written, and
      loses rows exactly when one is not. */
  ghost predicate LosesWhenUnwritten(o: Outside, s: Sink, s': Sink, ok: bool) {
    && s.flushes <= s'.flushes && s.lost <= s'.lost
    && (ok <==> AllWritten(o, s.flushes, s'.flushes)) && (ok <==> s'.lost == s.lost)
  }

  lemma LossesAddUp(o: Outside, a: Sink, b: Sink, c: Sink, ok: bool)
    requires LosesWhenUnwritten(o, a, b, true) && LosesWhenUnwritten(o, b, c, ok)
    ensures LosesWhenUnwritten(o, a, c, ok)
  {
  }

  lemma PushedLoses(o: Outside, s: Sink, b: u64)
    requires s.Valid()
    ensures LosesWhenUnwritten(o, s, Pushed(o, s, b).0, Pushed(o, s, b).1)
  {
    hide Sink.Rows;
    PushedKeeps(o, s, b);
  }

  lemma {:induction false} PushRangeLoses(o: Outside, s: Sink, lo: int, hi: int)
    requires s.Valid() && 0 <= lo && hi <= U64_MAX
    ensures LosesWhenUnwritten(o, s, PushRange(o, s, lo, hi).0, PushRange(o, s, lo, hi).1)
    decreases hi - lo
  {
    if lo <= hi {
      hide Sink.Rows, Pushed, LosesWhenUnwritten;
      PushedKeeps(o, s, lo);
      PushedLoses(o, s, lo);
      var (s', ok) := Pushed(o, s, lo);
      if ok {
        PushRangeLoses(o, s', lo + 1, hi);
        LossesAddUp(o, s, s', PushRange(o, s', lo + 1, hi).0, PushRange(o, s', lo + 1, hi).1);
      }
    }
  }

  lemma {:induction false} PushedNoFurther(o: Outside, s: Sink, lo: int, hi: int)
    requires 0 <= lo && lo <= hi + 1 && hi <= U64_MAX
    ensures lo - 1 <= PushedTo(o, s, lo, hi) <= hi
    decreases hi - lo
  {
    if lo <= hi {
      var (s', ok) := Pushed(o, s, lo);
      PushedNoFurther(o, s', lo + 1, hi);
    }
  }

  // ----- one request

  /** The rows a finishing request pushes. */
  ghost function PushedRows(o: Outside, s: Sink, r: Request): multiset<u64> {
    if o.arrives(r) then Interval(r.lo, PushedTo(o, s, r.lo, r.hi)) else multiset{}
  }

  lemma FinishKeeps(o: Outside, s: Sink, r: Request)
    requires s.Valid() && r.lo <= r.hi
    ensures var (s', ok) := Finish(o, s, r);
      && s'.Valid() && s'.Rows() == s.Rows() + PushedRows(o, s, r)
      && PushedRows(o, s, r) <= Interval(r.lo, r.hi)
      && (ok ==> o.arrives(r) && PushedRows(o, s, r) == Interval(r.lo, r.hi))
      && LosesWhenUnwritten(o, s, s', ok || !o.arrives(r))
  {
    hide Sink.Rows, Interval, LosesWhenUnwritten, PushRange, PushedTo;
    if o.arrives(r) {
      PushRangeRows(o, s, r.lo, r.hi);
      PushRangeLoses(o, s, r.lo, r.hi);
      IntervalInTwo(r.lo, PushedTo(o, s, r.lo, r.hi) + 1, r.hi);
    } else {
      NothingLost(o, s);
    }
  }

  lemma NothingLost(o: Outside, s: Sink)
    ensures LosesWhenUnwritten(o, s, s, true)
  {
  }

  // ----- all of them, in any order

  /** The requests that succeeded, in the order they finished. */
  function Succeeded(o: Outside, p: Progress, order: seq<Request>): seq<Request> {
    if order == [] then []
    else
      var init, r := order[..|order| - 1], order[|order| - 1];
      var q := FinishAll(o, p, init);
      if !q.cancelled && Finish(o, q.sink, r).1 then Succeeded(o, p, init) + [r] else Succeeded(o, p, init)
  }

  /** The rows pushed by all of them. */
  ghost function AllPushed(o: Outside, p: Progress, order: seq<Request>): multiset<u64> {
    if order == [] then multiset{}
    else
      var init, r := order[..|order| - 1], order[|order| - 1];
      var q := FinishAll(o, p, init);
      AllPushed(o, p, init) + if q.cancelled then multiset{} else PushedRows(o, q.sink, r)
  }

  /** Between two states of the sink: batches only add up, and rows are lost
      exactly when some batch in between was not written. */
  ghost predicate LossesTold(o: Outside, a: Sink, b: Sink) {
    && a.flushes <= b.flushes && a.lost <= b.lost
    && (b.lost == a.lost <==> AllWritten(o, a.flushes, b.flushes))
  }

  lemma NothingToldAtFirst(o: Outside, s: Sink)
    ensures LossesTold(o, s, s)
  {
  }

  lemma LossesChain(o: Outside, a: Sink, b: Sink, c: Sink, ok: bool)
    requires LossesTold(o, a, b) && LosesWhenUnwritten(o, b, c, ok)
    ensures LossesTold(o, a, c)
  {
    assert c.lost == a.lost ==> |b.lost| <= |a.lost| && |c.lost| <= |b.lost|;
  }

  lemma FinishNextIs(o: Outside, q: Progress, r: Request)
    requires !q.cancelled
    ensures var p := FinishNext(o, q, r); var (sink, ok) := Finish(o, q.sink, r);
      && p.sink == sink
      && (!p.cancelled ==> p.completed == q.completed + if ok then SizeOf(r) else 0)
  {
    hide Finish, Ticked;
  }

  /** Requests that make sense. */
  ghost predicate Proper(order: seq<Request>) {
    forall r :: r in order ==> r.lo <= r.hi
  }

  /** All pushed rows are there; they are among those asked for, and all rows of
      the requests that succeeded are among them. */
  ghost predicate RowsKept(before: multiset<u64>, after: multiset<u64>, pushed: multiset<u64>, asked: multiset<u64>,
                           done: multiset<u64>) {
    after == before + pushed && pushed <= asked && done <= pushed
  }

  lemma RowsKeptStep(before: multiset<u64>, mid: multiset<u64>, after: multiset<u64>, pushed: multiset<u64>,
                     more: multiset<u64>, asked: multiset<u64>, here: multiset<u64>, done: multiset<u64>, ok: bool)
    requires RowsKept(before, mid, pushed, asked, done)
    requires after == mid + more && more <= here && (ok ==> more == here)
    ensures RowsKept(before, after, pushed + more, asked + here, if ok then done + here else done)
  {
    assert before + pushed + more == before + (pushed + more);
  }

  /** The rows of any run of finishing requests: each ends in the store, lost or
      buffered. */
  lemma {:induction false} FinishAllRows(o: Outside, s: Sink, order: seq<Request>)
    requires s.Valid() && Proper(order)
    ensures var p := FinishAll(o, Begin(s), order);
      && p.sink.Valid()
      && RowsKept(s.Rows(), p.sink.Rows(), AllPushed(o, Begin(s), order), RowsOf(order),
                  RowsOf(Succeeded(o, Begin(s), order)))
  {
    hide Sink.Rows, Interval, Finish, FinishNext, PushedRows;
    if order != [] {
      var init, r := order[..|order| - 1], order[|order| - 1];
      assert r in order;
      hide RowsKept;
      FinishAllRows(o, s, init);
      var q := FinishAll(o, Begin(s), init);
      FinishKeeps(o, q.sink, r);
      var pushed, done := AllPushed(o, Begin(s), init), Succeeded(o, Begin(s), init);
      var (sink, ok) := Finish(o, q.sink, r);
      RowsOfSnoc(init, r);
      RowsOfSnoc(done, r);
      assert order == init + [r];
      if q.cancelled {
        RowsKeptStep(s.Rows(), q.sink.Rows(), q.sink.Rows(), pushed, multiset{}, RowsOf(init), Interval(r.lo, r.hi),
                     RowsOf(done), false);
      } else {
        FinishNextIs(o, q, r);
        RowsKeptStep(s.Rows(), q.sink.Rows(), sink.Rows(), pushed, PushedRows(o, q.sink, r), RowsOf(init),
                     Interval(r.lo, r.hi), RowsOf(done), ok);
      }
    }
  }

  /** Unless the fetch is cancelled, the count is the blocks of the requests that
      succeeded. */
  lemma {:induction false} FinishAllCounts(o: Outside, s: Sink, order: seq<Request>)
    ensures var p := FinishAll(o, Begin(s), order);
            !p.cancelled ==> p.completed == SumOf(Succeeded(o, Begin(s), order))
  {
    if order != [] {
      var init, r := order[..|order| - 1], order[|order| - 1];
      hide Finish, FinishNext;
      FinishAllCounts(o, s, init);
      var q := FinishAll(o, Begin(s), init);
      if !q.cancelled {
        FinishNextIs(o, q, r);
      }
      RowsOfSnoc(Succeeded(o, Begin(s), init), r);
    }
  }

  /** Rows are lost exactly when some batch was not written. */
  lemma {:induction false} FinishAllLoses(o: Outside, s: Sink, order: seq<Request>)
    requires s.Valid() && Proper(order)
    ensures LossesTold(o, s, FinishAll(o, Begin(s), order).sink)
  {
    hide LossesTold, LosesWhenUnwritten, Finish, FinishNext, Sink.Rows, AllPushed, PushedRows, Interval, RowsOf;
    if order == [] {
      NothingToldAtFirst(o, s);
    } else {
      var init, r := order[..|order| - 1], order[|order| - 1];
      assert r in order;
      FinishAllLoses(o, s, init);
      FinishAllRows(o, s, init);
      var q := FinishAll(o, Begin(s), init);
      if !q.cancelled {
        FinishKeeps(o, q.sink, r);
        FinishNextIs(o, q, r);
        LossesChain(o, s, q.sink, Finish(o, q.sink, r).0, Finish(o, q.sink, r).1 || !o.arrives(r));
      }
    }
  }

  lemma RowsOfSnoc(rs: seq<Request>, r: Request)
    ensures RowsOf(rs + [r]) == RowsOf(rs) + Interval(r.lo, r.hi)
    ensures SumOf(rs + [r]) == SumOf(rs) + SizeOf(r)
  {
    assert (rs + [r])[..|rs|] == rs;
  }

  // ----- the rows of a plan

  lemma {:induction false} RowsOfAround(a: seq<Request>, r: Request, b: seq<Request>)
    ensures RowsOf(a + [r] + b) == RowsOf(a + b) + Interval(r.lo, r.hi)
  {
    hide Interval;
    if b == [] {
      assert a + [r] + b == a + [r] && a + b == a;
      RowsOfSnoc(a, r);
    } else {
      var init, x := b[..|b| - 1], b[|b| - 1];
      RowsOfAround(a, r, init);
      hide RowsOf;
      assert a + [r] + b == (a + [r] + init) + [x] && a + b == (a + init) + [x];
      RowsOfSnoc(a + [r] + init, x);
      RowsOfSnoc(a + init, x);
      Swapped(RowsOf(a + init), Interval(r.lo, r.hi), Interval(x.lo, x.hi));
    }
  }

  lemma Swapped(a: multiset<u64>, b: multiset<u64>, c: multiset<u64>)
    ensures a + b + c == a + c + b
  {
  }

  lemma PartWithout(init: seq<Request>, r: Request, a: seq<Request>, b: seq<Request>)
    requires multiset(init + [r]) <= multiset(a + [r] + b)
    ensures multiset(init) <= multiset(a + b)
  {
    assert multiset(init + [r]) == multiset(init) + multiset{r};
    assert multiset(a + [r] + b) == multiset(a + b) + multiset{r};
    forall x ensures multiset(init)[x] <= multiset(a + b)[x] {
      assert multiset(init + [r])[x] <= multiset(a + [r] + b)[x];
    }
  }

  /** Fewer requests ask for fewer rows, whatever their order. */
  lemma {:induction false} RowsOfPart(part: seq<Request>, whole: seq<Request>)
    requires multiset(part) <= multiset(whole)
    ensures RowsOf(part) <= RowsOf(whole)
  {
    hide Interval;
    if part != [] {
      var init, r := part[..|part| - 1], part[|part| - 1];
      assert part == init + [r];
      assert r in multiset(whole);
      var i :| 0 <= i < |whole| && whole[i] == r;
      var a, b := whole[..i], whole[i + 1..];
      assert whole == a + [r] + b;
      PartWithout(init, r, a, b);
      RowsOfPart(init, a + b);
      RowsOfAround(a, r, b);
      RowsOfSnoc(init, r);
    }
  }

  lemma RowsOfCons(r: Request, rest: seq<Request>, next: int)
    requires r.lo <= r.hi && r.hi + 1 <= next <= U64_MAX + 1 && RowsOf(rest) == Interval(r.hi + 1, next - 1)
    ensures RowsOf([r] + rest) == Interval(r.lo, next - 1)
  {
    hide Interval, RowsOf;
    IntervalInTwo(r.lo, r.hi + 1, next - 1);
    RowsOfAround([], r, rest);
    assert [] + [r] + rest == [r] + rest && [] + rest == rest;
  }

  lemma {:induction false} RowsOfPartition(rs: seq<Request>, start: int, next: int)
    requires 0 <= start && next <= U64_MAX + 1 && Partition(rs, start, next)
    ensures start <= next && RowsOf(rs) == Interval(start, next - 1)
    decreases |rs|
  {
    hide Interval;
    if rs != [] {
      var r, rest := rs[0], rs[1..];
      RowsOfPartition(rest, r.hi + 1, next);
      assert rs == [r] + rest;
      RowsOfCons(r, rest, next);
    } else {
      NoRows(start);
    }
  }

  lemma NoRows(start: int)
    requires 0 <= start <= U64_MAX + 1
    ensures Interval(start, start - 1) == multiset{}
  {
  }

  lemma {:induction false} RowsCount(rs: seq<Request>)
    requires Proper(rs)
    ensures |RowsOf(rs)| == SumOf(rs)
  {
    if rs != [] {
      var init, r := rs[..|rs| - 1], rs[|rs| - 1];
      assert r in rs;
      hide Interval;
      RowsCount(init);
      IntervalMeaning(r.lo, r.hi);
    }
  }

  lemma PlanRows(start: u64, end: u64, chunk: nat)
    requires start <= end && chunk >= 1
    ensures Proper(Plan(start, end, chunk)) && RowsOf(Plan(start, end, chunk)) == Interval(start, end)
  {
    hide Plan, Interval, RowsOf;
    PlanPartitions(start, end, chunk);
    RowsOfPartition(Plan(start, end, chunk), start, end + 1);
  }

  lemma ProperPart(part: seq<Request>, whole: seq<Request>)
    requires multiset(part) <= multiset(whole) && Proper(whole)
    ensures Proper(part)
  {
    forall r | r in part ensures r in whole {
      assert r in multiset(part);
      assert r in multiset(whole);
    }
  }

  lemma {:induction false} SucceededProper(o: Outside, p: Progress, order: seq<Request>)
    requires Proper(order)
    ensures Proper(Succeeded(o, p, order))
  {
    if order != [] {
      assert order[|order| - 1] in order;
      SucceededProper(o, p, order[..|order| - 1]);
    }
  }

  // ----- the theorems

  /** Whatever the outside answers and in whatever order requests finish: each
      block of the range is pushed at most once and no other; all blocks of a
      request that succeeded are pushed; a completed fetch counts exactly those;
      every row pushed is stored, lost or buffered; and rows are lost exactly when
      a batch was not written. */
  lemma FetchAccounts(o: Outside, start: u64, end: u64, chunk: nat, posts: nat, before: Sink, after: Sink,
                      r: FetchResult, order: seq<Request>)
    requires start <= end && chunk >= 1 && before.Valid()
    requires FetchedAs(o, start, end, chunk, posts, before, after, r, order)
    ensures var pushed := AllPushed(o, Begin(before), order); var done := Succeeded(o, Begin(before), order);
      && after.Valid() && after.Rows() == before.Rows() + pushed
      && (forall b: u64 :: pushed[b] <= if start <= b <= end then 1 else 0)
      && RowsOf(done) <= pushed
      && (r.Completed? ==> r.blocks == |RowsOf(done)|)
      && LossesTold(o, before, after)
  {
    hide AllPushed, Succeeded, Plan, RowsOf, Interval, FinishAll, SumOf, Sink.Rows, LossesTold, InWindow;
    var plan, done := Plan(start, end, chunk), Succeeded(o, Begin(before), order);
    PlanRows(start, end, chunk);
    ProperPart(order, plan);
    RowsOfPart(order, plan);
    FinishAllRows(o, before, order);
    FinishAllCounts(o, before, order);
    FinishAllLoses(o, before, order);
    SucceededProper(o, Begin(before), order);
    RowsCount(done);
    IntervalMeaning(start, end);
  }

  function Arrived(o: Outside, order: seq<Request>): seq<Request> {
    if order == [] then []
    else if o.arrives(order[|order| - 1]) then Arrived(o, order[..|order| - 1]) + [order[|order| - 1]]
    else Arrived(o, order[..|order| - 1])
  }

  lemma FinishWhenWritten(o: Outside, s: Sink, r: Request)
    requires s.Valid() && r.lo <= r.hi && forall n :: o.written(n)
    ensures Finish(o, s, r).1 == o.arrives(r) && Finish(o, s, r).0.Valid()
    ensures PushedRows(o, s, r) == if o.arrives(r) then Interval(r.lo, r.hi) else multiset{}
  {
    hide Sink.Rows, Interval, PushRange, PushedTo;
    FinishKeeps(o, s, r);
  }

  /** When every batch is written, a request succeeds exactly when its rows
      arrive, and nothing else is pushed. */
  lemma {:induction false} OnlyArrivalsCount(o: Outside, s: Sink, order: seq<Request>)
    requires s.Valid() && Proper(order) && !FinishAll(o, Begin(s), order).cancelled
    requires forall n :: o.written(n)
    ensures Succeeded(o, Begin(s), order) == Arrived(o, order)
    ensures AllPushed(o, Begin(s), order) == RowsOf(Arrived(o, order))
    ensures FinishAll(o, Begin(s), order).sink.Valid()
  {
    if order != [] {
      var init, r := order[..|order| - 1], order[|order| - 1];
      assert r in order;
      hide Sink.Rows, Interval, Finish, FinishNext, PushedRows;
      var q := FinishAll(o, Begin(s), init);
      OnlyArrivalsCount(o, s, init);
      FinishWhenWritten(o, q.sink, r);
      FinishNextIs(o, q, r);
      RowsOfSnoc(Arrived(o, init), r);
    }
  }

  lemma {:induction false} AllArrived(o: Outside, order: seq<Request>)
    requires forall r :: r in order ==> o.arrives(r)
    ensures Arrived(o, order) == order
  {
    if order != [] {
      assert order[|order| - 1] in order;
      AllArrived(o, order[..|order| - 1]);
    }
  }

  lemma {:induction false} NeverCancelled(o: Outside, s: Sink, order: seq<Request>)
    requires forall n :: o.goesOn(n)
    ensures !FinishAll(o, Begin(s), order).cancelled
  {
    if order != [] {
      hide Finish;
      var q := FinishAll(o, Begin(s), order[..|order| - 1]);
      NeverCancelled(o, s, order[..|order| - 1]);
      TicksGoOn(o, q.ticks, SizeOf(order[|order| - 1]));
    }
  }

  lemma {:induction false} TicksGoOn(o: Outside, ticks: nat, n: nat)
    requires forall m :: o.goesOn(m)
    ensures Ticked(o, ticks, n).1
    decreases n
  {
    if n > 0 {
      TicksGoOn(o, ticks + 1, n - 1);
    }
  }

  /** When nothing fails and nothing cancels, in whatever order the requests
      finish, every block of the range is pushed exactly once and counted, and
      nothing is lost. */
  lemma FaultFreeFetchIsComplete(o: Outside, start: u64, end: u64, chunk: nat, posts: nat, before: Sink, after: Sink,
                                 r: FetchResult, order: seq<Request>)
    requires start <= end && chunk >= 1 && before.Valid()
    requires FetchedAs(o, start, end, chunk, posts, before, after, r, order)
    requires (forall q :: o.arrives(q)) && (forall n :: o.written(n)) && (forall n :: o.goesOn(n))
    ensures r == Completed(end - start + 1)
    ensures after.Rows() == before.Rows() + Interval(start, end) && after.lost == before.lost
  {
    hide AllPushed, Succeeded, Plan, RowsOf, Interval, FinishAll, SumOf, Sink.Rows, Arrived;
    var plan := Plan(start, end, chunk);
    NeverCancelled(o, before, order);
    FetchAccounts(o, start, end, chunk, posts, before, after, r, order);
    PlanRows(start, end, chunk);
    ProperPart(order, plan);
    OnlyArrivalsCount(o, before, order);
    AllArrived(o, order);
    RowsOfPart(order, plan);
    RowsOfPart(plan, order);
    assert RowsOf(order) == RowsOf(plan);
    IntervalMeaning(start, end);
  }

  /** Handing the buffer over moves its rows to the store, or loses them. */
  lemma FlushKeeps(o: Outside, s: Sink)
    requires s.buf != []
    ensures var (s', ok) := Flushed(o, s);
      && s'.buf == [] && s'.Rows() == s.Rows() && s'.flushes == s.flushes + 1
      && s.lost <= s'.lost && (s'.lost == s.lost <==> o.written(s.flushes))
  {
    var s' := Flushed(o, s).0;
    if o.written(s.flushes) {
      assert multiset(s'.stored) == multiset(s.stored) + multiset(s.buf);
    } else {
      assert multiset(s'.lost) == multiset(s.lost) + multiset(s.buf);
    }
  }

  /** The final state of a fetch, the flush included. */
  lemma FlushTells(o: Outside, before: Sink, fetched: Sink, after: Sink)
    requires LossesTold(o, before, fetched)
    requires after == if fetched.buf == [] then fetched else Flushed(o, fetched).0
    ensures after.buf == [] && after.Rows() == fetched.Rows() && LossesTold(o, before, after)
  {
    hide Sink.Rows, Flushed;
    if fetched.buf != [] {
      FlushKeeps(o, fetched);
      assert after.lost == before.lost ==> |fetched.lost| <= |before.lost| && |after.lost| <= |fetched.lost|;
    }
  }

  /** After the final flush of a fetch, everything pushed is in the store, with
      what was buffered before, exactly when every batch since was written. */
  lemma FlushedIsStoredExactlyWhen(o: Outside, before: Sink, fetched: Sink, after: Sink, pushed: multiset<u64>)
    requires fetched.Rows() == before.Rows() + pushed && LossesTold(o, before, fetched)
    requires after == if fetched.buf == [] then fetched else Flushed(o, fetched).0
    ensures after.buf == []
    ensures multiset(after.stored) == multiset(before.stored) + multiset(before.buf) + pushed <==>
            AllWritten(o, before.flushes, after.flushes)
  {
    hide Flushed, AllWritten;
    FlushTells(o, before, fetched, after);
    var more := after.lost[|before.lost|..];
    assert after.lost == before.lost + more;
    assert multiset(after.lost) == multiset(before.lost) + multiset(more);
    SameRows(multiset(after.stored), multiset(before.lost), multiset(more),
             multiset(before.stored), multiset(before.buf), pushed);
    StoredUnlessLost(multiset(after.stored), multiset(before.lost), multiset(more),
                     multiset(before.stored) + multiset(before.buf) + pushed);
    assert |multiset(more)| == |more|;
    assert after.lost == before.lost <==> more == [];
  }

  lemma SameRows(stored: multiset<u64>, lost0: multiset<u64>, more: multiset<u64>,
                 stored0: multiset<u64>, buf0: multiset<u64>, pushed: multiset<u64>)
    requires stored + (lost0 + more) + multiset{} == stored0 + lost0 + buf0 + pushed
    ensures stored + (lost0 + more) == (stored0 + buf0 + pushed) + lost0
  {
    forall x ensures (stored + (lost0 + more))[x] == ((stored0 + buf0 + pushed) + lost0)[x] {
      assert (stored + (lost0 + more) + multiset{})[x] == (stored0 + lost0 + buf0 + pushed)[x];
    }
  }

  lemma StoredUnlessLost(stored: multiset<u64>, lost0: multiset<u64>, more: multiset<u64>, expected: multiset<u64>)
    requires stored + (lost0 + more) == expected + lost0
    ensures stored == expected <==> |more| == 0
  {
    forall x ensures (stored + more)[x] == expected[x] {
      assert (stored + (lost0 + more))[x] == (expected + lost0)[x];
    }
    assert stored + more == expected;
    assert |stored| + |more| == |expected|;
  }

  // ----- the sequential path

  lemma {:induction false} FinishAllFromFront(o: Outside, p: Progress, r: Request, rest: seq<Request>)
    requires !p.cancelled
    ensures FinishAll(o, p, [r] + rest) == FinishAll(o, FinishNext(o, p, r), rest)
  {
    hide FinishNext;
    if rest == [] {
      assert [r] + rest == [r] && [r][..0] == [];
      assert FinishAll(o, p, [r]) == FinishNext(o, FinishAll(o, p, []), r);
    } else {
      assert ([r] + rest)[..|rest|] == [r] + rest[..|rest| - 1];
      FinishAllFromFront(o, p, r, rest[..|rest| - 1]);
    }
  }

  lemma {:induction false} CancelledStays(o: Outside, p: Progress, order: seq<Request>)
    requires p.cancelled
    ensures FinishAll(o, p, order) == p
  {
    if order != [] {
      CancelledStays(o, p, order[..|order| - 1]);
    }
  }

  lemma FinishSingle(o: Outside, p: Progress, b: u64)
    ensures var q := FinishNext(o, p, Request(b, b)); var (s', ok) := Pushed(o, p.sink, b);
      && (!o.arrives(Request(b, b)) ==> q == p)
      && (o.arrives(Request(b, b)) && ok ==>
            q == if o.goesOn(p.ticks) then Progress(s', p.completed + 1, p.ticks + 1, false)
                 else Progress(s', p.completed, p.ticks + 1, true))
  {
    hide Pushed;
    var s' := Pushed(o, p.sink, b).0;
    assert PushRange(o, s', b + 1, b) == (s', true);
    assert Ticked(o, p.ticks + 1, 0) == (p.ticks + 1, true);
    assert Ticked(o, p.ticks, 1) == if o.goesOn(p.ticks) then (p.ticks + 1, true) else (p.ticks + 1, false);
  }

  /** Unless a write fails, the sequential path is the concurrent one with its
      requests finishing in the order of the plan; and when a write fails, rows
      are lost. */
  lemma {:induction false} SequentialIsInOrder(o: Outside, p: Progress, b: int, end: u64)
    requires 0 <= b && p.sink.Valid() && !p.cancelled
    ensures var (r, s) := Sequential(o, p.sink, b, end, p.ticks, p.completed);
            var q := FinishAll(o, p, Plan(b, end, 1));
      && (r.WriteFailed? ==> s.lost != p.sink.lost)
      && (!r.WriteFailed? ==> s == q.sink && r == if q.cancelled then Cancelled else Completed(q.completed))
    decreases end - b
  {
    if b <= end {
      hide FinishNext, Pushed, FinishAll, Sink.Rows;
      var rest := Plan(b + 1, end, 1);
      assert Plan(b, end, 1) == [Request(b, b)] + rest;
      var q := FinishNext(o, p, Request(b, b));
      FinishAllFromFront(o, p, Request(b, b), rest);
      FinishSingle(o, p, b);
      PushedKeeps(o, p.sink, b);
      if q.cancelled {
        CancelledStays(o, q, rest);
      } else if o.arrives(Request(b, b)) && !Pushed(o, p.sink, b).1 {
      } else {
        SequentialIsInOrder(o, q, b + 1, end);
      }
    } else {
      NothingPlanned(o, p, b, end);
    }
  }

  lemma NothingPlanned(o: Outside, p: Progress, b: int, end: u64)
    requires 0 <= b && b > end
    ensures FinishAll(o, p, Plan(b, end, 1)) == p
  {
  }

  // ----- batches and progress

  lemma {:induction false} PushRangeBatches(o: Outside, s: Sink, lo: int, hi: int)
    requires s.Valid() && 0 <= lo <= hi + 1 && hi <= U64_MAX
    ensures var (s', ok) := PushRange(o, s, lo, hi);
      && s'.Valid() && s'.flushes >= s.flushes
      && PushedTo(o, s, lo, hi) >= lo - 1
      && |s.buf| + (PushedTo(o, s, lo, hi) - lo + 1) == 10 * (s'.flushes - s.flushes) + |s'.buf|
    decreases hi - lo
  {
    if lo <= hi {
      var (s', ok) := Pushed(o, s, lo);
      if ok {
        PushRangeBatches(o, s', lo + 1, hi);
      }
    }
  }

  lemma {:induction false} FinishAllBatches(o: Outside, s: Sink, order: seq<Request>)
    requires s.Valid() && Proper(order)
    ensures var p := FinishAll(o, Begin(s), order);
      && p.sink.Valid() && p.sink.flushes >= s.flushes
      && |s.buf| + |AllPushed(o, Begin(s), order)| == 10 * (p.sink.flushes - s.flushes) + |p.sink.buf|
  {
    if order != [] {
      var init, r := order[..|order| - 1], order[|order| - 1];
      assert r in order;
      hide Pushed, PushRange, Ticked, Interval;
      FinishAllBatches(o, s, init);
      var q := FinishAll(o, Begin(s), init);
      FinishBatches(o, q.sink, r);
      assert FinishNext(o, q, r).sink == Finish(o, q.sink, r).0;
    }
  }

  lemma FinishBatches(o: Outside, s: Sink, r: Request)
    requires s.Valid() && r.lo <= r.hi
    ensures var s' := Finish(o, s, r).0;
      && s'.Valid() && s'.flushes >= s.flushes
      && |s.buf| + |PushedRows(o, s, r)| == 10 * (s'.flushes - s.flushes) + |s'.buf|
  {
    hide PushRange, Interval, PushedTo;
    if o.arrives(r) {
      PushRangeBatches(o, s, r.lo, r.hi);
      IntervalMeaning(r.lo, PushedTo(o, s, r.lo, r.hi));
    }
  }

  /** Rows are handed to the store ten at a time: what was buffered and what is pushed
      makes up the batches and what is still buffered, fewer than ten. */
  lemma BatchesAreTen(o: Outside, start: u64, end: u64, chunk: nat, posts: nat, before: Sink, after: Sink,
                      r: FetchResult, order: seq<Request>)
    requires start <= end && chunk >= 1 && before.Valid()
    requires FetchedAs(o, start, end, chunk, posts, before, after, r, order)
    ensures |after.buf| < 10 && after.flushes >= before.flushes
    ensures |before.buf| + |AllPushed(o, Begin(before), order)| == 10 * (after.flushes - before.flushes) + |after.buf|
  {
    hide AllPushed, Plan, FinishAll, InWindow;
    PlanRows(start, end, chunk);
    ProperPart(order, Plan(start, end, chunk));
    FinishAllBatches(o, before, order);
  }

  lemma {:induction false} TickedMeaning(o: Outside, ticks: nat, n: nat)
    ensures var (t, on) := Ticked(o, ticks, n);
      && (on <==> forall m :: ticks <= m < ticks + n ==> o.goesOn(m)) && (on ==> t == ticks + n)
    decreases n
  {
    if n > 0 {
      TickedMeaning(o, ticks + 1, n - 1);
    }
  }

  /** A fetch is cancelled exactly when progress is refused for one of the blocks of
      the requests that succeeded, one tick a block. */
  lemma {:induction false} CancelledExactlyWhen(o: Outside, s: Sink, order: seq<Request>)
    ensures var p := FinishAll(o, Begin(s), order); var blocks := SumOf(Succeeded(o, Begin(s), order));
      && (p.cancelled <==> exists m :: 0 <= m < blocks && !o.goesOn(m))
      && (!p.cancelled ==> p.ticks == blocks)
  {
    if order != [] {
      var init, r := order[..|order| - 1], order[|order| - 1];
      hide Finish, Ticked;
      CancelledExactlyWhen(o, s, init);
      var q := FinishAll(o, Begin(s), init);
      TickedMeaning(o, q.ticks, SizeOf(r));
      RowsOfSnoc(Succeeded(o, Begin(s), init), r);
    }
  }

  // ----- the order of the rows

  /** The rows handed to the store and those still buffered, in order. */
  function Queue(s: Sink): seq<u64> {
    s.stored + s.buf
  }

  function Ascending(lo: int, hi: int): seq<u64>
    requires 0 <= lo && hi <= U64_MAX
    decreases hi - lo
  {
    if hi < lo then [] else [lo] + Ascending(lo + 1, hi)
  }

  lemma {:induction false} PushRangeInOrder(o: Outside, s: Sink, lo: int, hi: int)
    requires 0 <= lo && hi <= U64_MAX && PushRange(o, s, lo, hi).1
    ensures Queue(PushRange(o, s, lo, hi).0) == Queue(s) + Ascending(lo, hi)
    decreases hi - lo
  {
    if lo <= hi {
      var s' := Pushed(o, s, lo).0;
      assert Queue(s') == Queue(s) + [lo];
      PushRangeInOrder(o, s', lo + 1, hi);
    }
  }

  /** The blocks of the requests, request by request. */
  function InTurn(order: seq<Request>): seq<u64> {
    if order == [] then []
    else InTurn(order[..|order| - 1]) + Ascending(order[|order| - 1].lo, order[|order| - 1].hi)
  }

  lemma FinishInOrder(o: Outside, q: Progress, r: Request)
    requires Finish(o, q.sink, r).1 == o.arrives(r)
    ensures Queue(FinishNext(o, q, r).sink) == Queue(q.sink) + if o.arrives(r) then Ascending(r.lo, r.hi) else []
  {
    hide Queue, Ascending, PushRange, Ticked;
    if o.arrives(r) {
      PushRangeInOrder(o, q.sink, r.lo, r.hi);
    }
  }

  lemma InTurnSnoc(order: seq<Request>, r: Request)
    ensures InTurn(order + [r]) == InTurn(order) + Ascending(r.lo, r.hi)
  {
    assert (order + [r])[..|order|] == order;
  }

  /** When every batch is written, the rows are stored, and the last few buffered,
      request by request as they finished, ascending within each. */
  lemma {:induction false} RowsAreQueuedInOrder(o: Outside, s: Sink, order: seq<Request>)
    requires s.Valid() && Proper(order) && !FinishAll(o, Begin(s), order).cancelled
    requires forall n :: o.written(n)
    ensures Queue(FinishAll(o, Begin(s), order).sink) == Queue(s) + InTurn(Arrived(o, order))
  {
    hide Queue, InTurn, Ascending, Finish, FinishNext, PushedRows, Interval;
    if order != [] {
      var init, r := order[..|order| - 1], order[|order| - 1];
      assert r in order;
      var q := FinishAll(o, Begin(s), init);
      RowsAreQueuedInOrder(o, s, init);
      OnlyArrivalsCount(o, s, init);
      FinishWhenWritten(o, q.sink, r);
      FinishInOrder(o, q, r);
      InTurnSnoc(Arrived(o, init), r);
    } else {
      NothingQueued(s);
    }
  }

  lemma NothingQueued(s: Sink)
    ensures Queue(s) == Queue(s) + InTurn([])
  {
  }
}
