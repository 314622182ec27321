/** Reorg detection: compare stored hashes with the chain, walk back from a
    mismatch to the fork point, and unwind from there. */
module Reorg {
  import opened RustInts
  import opened PaperTypes
  import opened ExplorerStore

  /** What the provider answers for a block's hash; None is a failed request. */
  type Chain = u64 -> Option<Hash>

  datatype ReorgOutcome = NoReorg | Forked(forkBlock: u64) | ProbeFailed

  /** One comparison: matches, mismatches, or nothing stored at that block. */
  datatype Check = Check(block: u64, verdict: Option<bool>)

  predicate Match(m: Blocks, chain: Chain, b: u64) {
    b in m && chain(b) == Some(m[b])
  }

  predicate Mismatch(m: Blocks, chain: Chain, b: u64) {
    b in m && chain(b).Some? && chain(b).value != m[b]
  }

  /** The walk from block `b`, which is known to mismatch, down to `lo`. */
  function WalkFrom(m: Blocks, chain: Chain, lo: u64, b: u64): ReorgOutcome
    decreases b
  {
    if b <= lo then ProbeFailed
    else if b - 1 !in m then Forked(b)
    else match chain(b - 1)
      case None => ProbeFailed
      case Some(h) => if h == m[b - 1] then Forked(b) else WalkFrom(m, chain, lo, b - 1)
  }

  /** The reorg check at block `b`. */
  function ProbeAt(m: Blocks, chain: Chain, b: u64, maxLookback: u64): ReorgOutcome {
    if b !in m then NoReorg
    else match chain(b)
      case None => ProbeFailed
      case Some(h) => if h == m[b] then NoReorg else WalkFrom(m, chain, SatSubU64(b, maxLookback), b)
  }

  function After(m: Blocks, o: ReorgOutcome): Blocks {
    if o.Forked? then Unwound(m, o.forkBlock) else m
  }

  /** Exactly the first `n` checks mismatch before something else or the end. */
  ghost predicate LeadingMismatches(checks: seq<Check>, n: nat) {
    && n <= |checks|
    && (forall i :: 0 <= i < n ==> checks[i].verdict == Some(false))
    && (n < |checks| ==> checks[n].verdict != Some(false))
  }

  /** The lowest block of the leading run of mismatches, if the run ends within
      the list; None when every check mismatched. */
  method ForkBlockFromChecks(checks: seq<Check>) returns (fork: Option<u64>)
    ensures fork.Some? ==> exists n :: 0 < n < |checks| && LeadingMismatches(checks, n) && checks[n - 1].block == fork.value
    ensures fork.None? ==> LeadingMismatches(checks, |checks|) || LeadingMismatches(checks, 0)
  {
    fork := None;
    for i := 0 to |checks|
      invariant forall j :: 0 <= j < i ==> checks[j].verdict == Some(false)
      invariant fork == if i == 0 then None else Some(checks[i - 1].block)
    {
      if checks[i].verdict == Some(false) {
        fork := Some(checks[i].block);
      } else {
        assert LeadingMismatches(checks, i);
        return;
      }
    }
    fork := None;
  }

  /** Walk back from the mismatched `probe`, at most `maxLookback` blocks, and
      unwind the store from the fork point. */
  method WalkToFork(chain: Chain, store: Store, probe: u64, maxLookback: u64) returns (o: ReorgOutcome)
    modifies store`blocks
    ensures o == WalkFrom(old(store.blocks), chain, SatSubU64(probe, maxLookback), probe)
    ensures store.blocks == After(old(store.blocks), o)
  {
    var checks := [Check(probe, Some(false))];
    var lo := SatSubU64(probe, maxLookback);
    var block := probe;
    var done := false;
    while block > lo && !done
      invariant lo <= block <= probe
      invariant store.blocks == old(store.blocks)
      invariant |checks| == probe - block + 1
      invariant forall i :: 0 <= i < |checks| ==> checks[i].block == probe - i
      invariant forall i :: 0 <= i < |checks| - 1 ==> checks[i].verdict == Some(false)
      invariant done <==> checks[|checks| - 1].verdict != Some(false)
      invariant done ==> block < probe
      invariant WalkFrom(store.blocks, chain, lo, probe)
             == if done then Forked(block + 1) else WalkFrom(store.blocks, chain, lo, block)
      decreases block
    {
      block := block - 1;
      var stored := store.BlockHash(block);
      if stored.None? {
        checks := checks + [Check(block, None)];
        done := true;
      } else {
        match chain(block)
        case Some(onchain) =>
          var matches := stored.value == onchain;
          checks := checks + [Check(block, Some(matches))];
          done := matches;
        case None =>
          return ProbeFailed;
      }
    }
    var fork := ForkBlockFromChecks(checks);
    match fork
    case Some(f) =>
      store.UnwindFrom(f);
      o := Forked(f);
    case None =>
      o := ProbeFailed;
  }

  /** The periodic sweep: a hash that differs from the chain starts the walk. */
  method CheckReorg(chain: Chain, store: Store, block: u64, maxLookback: u64) returns (o: ReorgOutcome)
    modifies store`blocks
    ensures o == ProbeAt(old(store.blocks), chain, block, maxLookback)
    ensures store.blocks == After(old(store.blocks), o)
  {
    var stored := store.BlockHash(block);
    if stored.None? {
      return NoReorg;
    }
    match chain(block)
    case Some(onchain) =>
      if stored.value == onchain {
        o := NoReorg;
      } else {
        o := WalkToFork(chain, store, block, maxLookback);
      }
    case None =>
      o := ProbeFailed;
  }

  /** The per-poll check of the indexed tip, the same way. */
  method VerifyIndexedTip(chain: Chain, store: Store, block: u64, maxLookback: u64) returns (o: ReorgOutcome)
    modifies store`blocks
    ensures o == ProbeAt(old(store.blocks), chain, block, maxLookback)
    ensures store.blocks == After(old(store.blocks), o)
  {
    var stored := store.BlockHash(block);
    if stored.None? {
      return NoReorg;
    }
    match chain(block)
    case Some(onchain) =>
      if stored.value != onchain {
        o := WalkToFork(chain, store, block, maxLookback);
      } else {
        o := NoReorg;
      }
    case None =>
      o := ProbeFailed;
  }

  // ----- when there is nothing to walk for

  /** The check is clean exactly when nothing is stored at the block or its hash
      agrees; a stored block whose request fails fails the check. */
  lemma ProbeIsCleanExactlyWhen(m: Blocks, chain: Chain, b: u64, maxLookback: u64)
    ensures ProbeAt(m, chain, b, maxLookback) == NoReorg <==> b !in m || Match(m, chain, b)
    ensures b in m && chain(b).None? ==> ProbeAt(m, chain, b, maxLookback) == ProbeFailed
  {
    if Mismatch(m, chain, b) {
      WalkGivesUpWhen(m, chain, SatSubU64(b, maxLookback), b);
    }
  }

  // ----- what the walk finds

  /** A fork is reported exactly at the bottom of the run of mismatches that
      ends at the probe, when that bottom lies above the lookback bound and the
      block below is either not stored or agrees. */
  lemma {:induction false} WalkFindsBottom(m: Blocks, chain: Chain, lo: u64, b: u64, f: u64)
    requires Mismatch(m, chain, b)
    ensures WalkFrom(m, chain, lo, b) == Forked(f) <==>
      && lo < f <= b
      && (forall c :: f <= c <= b ==> Mismatch(m, chain, c))
      && (f - 1 !in m || Match(m, chain, f - 1))
    decreases b
  {
    if b > lo && b - 1 in m && chain(b - 1).Some? && chain(b - 1).value != m[b - 1] {
      WalkFindsBottom(m, chain, lo, b - 1, f);
    } else if b > lo {
      assert !Mismatch(m, chain, b - 1);
      assert f < b ==> f <= b - 1 <= b;
    }
  }

  /** The walk gives up exactly when the whole window is stored and mismatches,
      or when the provider fails below an unbroken run of mismatches; it never
      reports a clean chain. */
  lemma {:induction false} WalkGivesUpWhen(m: Blocks, chain: Chain, lo: u64, b: u64)
    requires Mismatch(m, chain, b)
    ensures WalkFrom(m, chain, lo, b) == ProbeFailed <==>
      || (forall c :: lo <= c <= b ==> Mismatch(m, chain, c))
      || (exists c :: lo <= c < b && c in m && chain(c).None? && forall d :: c < d <= b ==> Mismatch(m, chain, d))
    ensures WalkFrom(m, chain, lo, b) != NoReorg
    decreases b
  {
    if b > lo {
      var a := b - 1;
      if a in m && chain(a).Some? && chain(a).value != m[a] {
        WalkGivesUpWhen(m, chain, lo, a);
      } else if a in m && chain(a).None? {
        assert forall d :: a < d <= b ==> Mismatch(m, chain, d);
      } else {
        assert !Mismatch(m, chain, a);
        forall c | lo <= c < b && c in m && chain(c).None? ensures exists d :: c < d <= b && !Mismatch(m, chain, d) {
          assert c < a <= b;
        }
      }
    }
  }

  /** `[base, b]` is stored without a gap and is not stored just below. */
  ghost predicate StoredRun(m: Blocks, base: u64, b: u64) {
    && base <= b
    && (forall c :: base <= c <= b ==> c in m)
    && (base > 0 ==> base - 1 !in m)
  }

  /** Below a block that agrees with the chain, all blocks of the run agree. */
  ghost predicate AgreesDownward(m: Blocks, chain: Chain, base: u64, b: u64) {
    forall c, d :: base <= c <= d <= b && Match(m, chain, d) ==> Match(m, chain, c)
  }

  /** On a chain that answers for the run and agrees downward, the fork is the
      lowest mismatching block of the run, and it is found exactly when it lies
      above the lookback bound. Unwinding from it deletes no block of the run
      that agrees and leaves none that does not. */
  lemma ForkIsExact(m: Blocks, chain: Chain, base: u64, b: u64, maxLookback: u64, f: u64)
    requires Mismatch(m, chain, b) && StoredRun(m, base, b) && AgreesDownward(m, chain, base, b)
    requires forall c :: base <= c <= b ==> chain(c).Some?
    requires base <= f <= b && Mismatch(m, chain, f) && forall c :: base <= c < f ==> Match(m, chain, c)
    ensures ProbeAt(m, chain, b, maxLookback) == Forked(f) <==> f > SatSubU64(b, maxLookback)
    ensures f <= SatSubU64(b, maxLookback) ==> ProbeAt(m, chain, b, maxLookback) == ProbeFailed
    ensures forall c :: base <= c <= b ==> (c in Unwound(m, f) <==> Match(m, chain, c))
  {
    var lo := SatSubU64(b, maxLookback);
    forall c | f <= c <= b ensures Mismatch(m, chain, c) {
      assert !Match(m, chain, f);
      assert !Match(m, chain, c);
    }
    WalkFindsBottom(m, chain, lo, b, f);
    WalkGivesUpWhen(m, chain, lo, b);
    hide WalkFrom;
    forall c | base <= c <= b ensures c in Unwound(m, f) <==> Match(m, chain, c) {
      if c < f {
        assert Match(m, chain, c);
      } else {
        assert Mismatch(m, chain, c);
      }
    }
  }

  /** Such a lowest mismatching block exists, so the theorem above always speaks. */
  lemma LowestMismatch(m: Blocks, chain: Chain, base: u64, b: u64) returns (f: u64)
    requires Mismatch(m, chain, b) && StoredRun(m, base, b) && AgreesDownward(m, chain, base, b)
    requires forall c :: base <= c <= b ==> chain(c).Some?
    ensures base <= f <= b && Mismatch(m, chain, f) && forall c :: base <= c < f ==> Match(m, chain, c)
  {
    f := base;
    while Match(m, chain, f)
      invariant base <= f <= b
      invariant forall c :: base <= c < f ==> Match(m, chain, c)
      decreases b - f
    {
      f := f + 1;
    }
  }
}
