/** The live detection loop: follow the tip in successive passes, and recompute
    the paper ledger from scratch over everything seen so far. */
module LiveSession {
  import opened RustInts
  import opened PaperTypes
  import opened OrderedGroups
  import opened LedgerOrder
  import opened Ledger
  import opened LedgerRuns

  const MAX_CONSECUTIVE_FAILURES: nat := 5

  /** A completed pass: its block range and what it found there. */
  datatype Pass = Pass(first: u64, last: u64, opps: seq<Opportunity>)

  datatype Span = Span(lo: u64, hi: u64)

  datatype Session = Session(lastBlock: u64, blocksProcessed: nat, failures: nat, scanned: Option<Span>,
                             opps: seq<Opportunity>, passes: seq<Pass>)

  /** What one turn of the loop meets: the tip, and if the tip moved, whether the
      fetch worked, what the backtest found, and whether the ledger could be made. */
  datatype Turn = Turn(tip: Option<u64>, fetchOk: bool, found: Option<seq<Opportunity>>, ledgerOk: bool)

  /** The least span that holds the range and the span so far. */
  function WidenSpan(span: Option<Span>, first: u64, last: u64): (r: Span)
    ensures r.lo <= first && last <= r.hi
    ensures span.Some? ==> r.lo <= span.value.lo && span.value.hi <= r.hi
    ensures r.lo == first || (span.Some? && r.lo == span.value.lo)
    ensures r.hi == last || (span.Some? && r.hi == span.value.hi)
  {
    match span
    case None => Span(first, last)
    case Some(s) => Span(Min(first, s.lo), Max(last, s.hi))
  }

  function Opened(tip: u64): Session {
    Session(tip, 0, 0, None, [], [])
  }

  function Failed(s: Session): (Session, bool) {
    (s.(failures := s.failures + 1), s.failures + 1 >= MAX_CONSECUTIVE_FAILURES)
  }

  /** A completed fetch and backtest of `(lastBlock, tip]`. */
  function Scanned(s: Session, tip: u64, found: seq<Opportunity>): Session
    requires s.lastBlock < tip
  {
    s.(scanned := Some(WidenSpan(s.scanned, s.lastBlock + 1, tip)), opps := s.opps + found)
  }

  function Advanced(s: Session, first: u64, tip: u64, found: seq<Opportunity>): Session
    requires first <= tip
  {
    s.(lastBlock := tip, blocksProcessed := s.blocksProcessed + (tip - first + 1), failures := 0,
       passes := s.passes + [Pass(first, tip, found)])
  }

  /** One turn; the flag says whether the loop gives up. */
  function TakeTurn(s: Session, t: Turn): (Session, bool) {
    if t.tip.None? then Failed(s)
    else if t.tip.value <= s.lastBlock then (s, false)
    else if !t.fetchOk || t.found.None? then Failed(s)
    else
      var scanned := Scanned(s, t.tip.value, t.found.value);
      if !t.ledgerOk then (scanned, true)
      else (Advanced(scanned, s.lastBlock + 1, t.tip.value, t.found.value), false)
  }

  /** The turns up to the stop, or up to the one that gives up. */
  function TakeTurns(s: Session, turns: seq<Turn>): (Session, bool)
    decreases |turns|
  {
    if turns == [] then (s, false)
    else
      var (s', gaveUp) := TakeTurn(s, turns[0]);
      if gaveUp then (s', true) else TakeTurns(s', turns[1..])
  }

  // ----- the program's loop

  class LiveContext {
    const policy: LedgerPolicy
    var lastBlock: u64
    var blocksProcessed: nat
    var failures: nat
    var scanned: Option<Span>
    var sessionOpps: seq<Opportunity>
    ghost var passes: seq<Pass>

    constructor (policy: LedgerPolicy, tip: u64)
      ensures this.policy == policy && State() == Opened(tip)
    {
      this.policy := policy;
      lastBlock, blocksProcessed, failures := tip, 0, 0;
      scanned, sessionOpps, passes := None, [], [];
    }

    ghost function State(): Session
      reads this
    {
      Session(lastBlock, blocksProcessed, failures, scanned, sessionOpps, passes)
    }

    /** Fold a pass's opportunities in and recompute the ledger over all of them. */
    method UpdateLedger(found: seq<Opportunity>) returns (ledger: LedgerResult)
      modifies this`sessionOpps
      ensures sessionOpps == old(sessionOpps) + found
      ensures ledger == ApplyResult(policy, sessionOpps)
    {
      sessionOpps := sessionOpps + found;
      ledger := Apply(policy, sessionOpps);
    }

    /** A failed attempt: count it, and give up at the limit. */
    method CountFailure() returns (gaveUp: bool)
      modifies this`failures
      ensures failures == old(failures) + 1 && gaveUp == (failures >= MAX_CONSECUTIVE_FAILURES)
    {
      failures := failures + 1;
      gaveUp := failures >= MAX_CONSECUTIVE_FAILURES;
    }

    method ExtendSession(first: u64, last: u64)
      modifies this`scanned
      ensures scanned == Some(WidenSpan(old(scanned), first, last))
    {
      scanned := Some(match scanned
                      case None => Span(first, last)
                      case Some(s) => Span(Min(first, s.lo), Max(last, s.hi)));
    }

    /** `process_pass` over `(lastBlock, tip]`. */
    method ProcessPass(tip: u64, t: Turn) returns (gaveUp: bool, ledger: Option<LedgerResult>)
      requires t.tip == Some(tip) && lastBlock < tip
      modifies this
      ensures (State(), gaveUp) == TakeTurn(old(State()), t)
      ensures ledger.Some? ==> ledger.value == ApplyResult(policy, sessionOpps)
      ensures ledger.Some? <==> lastBlock == tip
    {
      var first := lastBlock + 1;
      ledger := None;
      if !t.fetchOk || t.found.None? {
        gaveUp := CountFailure();
        return;
      }
      ExtendSession(first, tip);
      var result := UpdateLedger(t.found.value);
      if !t.ledgerOk {
        return true, None;
      }
      lastBlock := tip;
      blocksProcessed := blocksProcessed + (tip - first + 1);
      failures := 0;
      passes := passes + [Pass(first, tip, t.found.value)];
      return false, Some(result);
    }

    /** `run_loop`: the turns end where the stop condition holds. On a normal end
        the final ledger is recomputed over everything seen. */
    method RunLoop(turns: seq<Turn>) returns (gaveUp: bool, ledger: Option<LedgerResult>)
      modifies this
      ensures (State(), gaveUp) == TakeTurns(old(State()), turns)
      ensures ledger == if gaveUp then None else Some(ApplyResult(policy, sessionOpps))
    {
      var i := 0;
      gaveUp := false;
      assert turns[0..] == turns;
      while i < |turns| && !gaveUp
        invariant 0 <= i <= |turns|
        invariant TakeTurns(old(State()), turns) == if gaveUp then (State(), true) else TakeTurns(State(), turns[i..])
      {
        var t := turns[i];
        assert turns[i..][0] == t && turns[i..][1..] == turns[i + 1..];
        if t.tip.None? {
          gaveUp := CountFailure();
        } else if t.tip.value > lastBlock {
          var result;
          gaveUp, result := ProcessPass(t.tip.value, t);
        }
        i := i + 1;
      }
      ledger := None;
      if !gaveUp {
        assert turns[i..] == [];
        assert sessionOpps + [] == sessionOpps;
        var result := UpdateLedger([]);
        ledger := Some(result);
      }
    }
  }

  // ----- scanning without gap or overlap

  /** The passes follow each other from just above `tip` up to `last`. */
  ghost predicate Contiguous(tip: u64, passes: seq<Pass>, last: u64) {
    if passes == [] then last == tip
    else
      var p := passes[|passes| - 1];
      p.last == last && p.first <= p.last && p.first > 0 && Contiguous(tip, passes[..|passes| - 1], p.first - 1)
  }

  function AllFound(passes: seq<Pass>): seq<Opportunity> {
    if passes == [] then [] else AllFound(passes[..|passes| - 1]) + passes[|passes| - 1].opps
  }

  ghost predicate Consistent(tip: u64, s: Session) {
    && Contiguous(tip, s.passes, s.lastBlock)
    && s.blocksProcessed == s.lastBlock - tip
    && (if s.passes == [] then s.scanned.None?
        else s.scanned.Some? && s.scanned.value.lo == tip + 1 && s.scanned.value.hi == s.lastBlock)
    && s.opps == AllFound(s.passes)
  }

  lemma {:induction false} ContiguousGrows(tip: u64, passes: seq<Pass>, last: u64)
    requires Contiguous(tip, passes, last)
    ensures tip <= last && (passes != [] ==> tip < last)
  {
    if passes != [] {
      ContiguousGrows(tip, passes[..|passes| - 1], passes[|passes| - 1].first - 1);
    }
  }

  lemma PassKeepsConsistent(tip: u64, s: Session, to: u64, found: seq<Opportunity>)
    requires Consistent(tip, s) && s.lastBlock < to
    ensures Consistent(tip, Advanced(Scanned(s, to, found), s.lastBlock + 1, to, found))
  {
    var s' := Advanced(Scanned(s, to, found), s.lastBlock + 1, to, found);
    var p := Pass(s.lastBlock + 1, to, found);
    ContiguousGrows(tip, s.passes, s.lastBlock);
    assert s'.passes == s.passes + [p] && s'.passes[..|s.passes|] == s.passes;
    assert Contiguous(tip, s'.passes, to);
    assert AllFound(s'.passes) == AllFound(s.passes) + found;
  }

  lemma TurnKeepsConsistent(tip: u64, s: Session, t: Turn)
    requires Consistent(tip, s)
    ensures var (s', gaveUp) := TakeTurn(s, t); t.ledgerOk || !gaveUp ==> Consistent(tip, s')
  {
    hide Advanced, Scanned;
    if t.tip.Some? && s.lastBlock < t.tip.value && t.fetchOk && t.found.Some? {
      PassKeepsConsistent(tip, s, t.tip.value, t.found.value);
    }
  }

  /** After any run of polls and failed passes: the completed ranges partition
      the blocks above the first tip, the count is their total, and the scanned
      span is exactly their range. Only giving up in the middle of a ledger
      update leaves the span ahead of the passes. */
  lemma {:induction false} ScansWithoutGapOrOverlap(tip: u64, s: Session, turns: seq<Turn>)
    requires Consistent(tip, s)
    ensures var (s', gaveUp) := TakeTurns(s, turns);
            !gaveUp || (forall t :: t in turns ==> t.ledgerOk) ==> Consistent(tip, s')
    decreases |turns|
  {
    hide Consistent, TakeTurn;
    if turns != [] {
      assert turns[0] in turns;
      TurnKeepsConsistent(tip, s, turns[0]);
      var (s', gaveUp) := TakeTurn(s, turns[0]);
      if !gaveUp {
        ScansWithoutGapOrOverlap(tip, s', turns[1..]);
      }
    }
  }

  /** The same for a session from its opening. */
  lemma SessionScansWithoutGapOrOverlap(tip: u64, turns: seq<Turn>)
    ensures var (s, gaveUp) := TakeTurns(Opened(tip), turns);
            !gaveUp || (forall t :: t in turns ==> t.ledgerOk) ==> Consistent(tip, s)
  {
    assert Consistent(tip, Opened(tip));
    ScansWithoutGapOrOverlap(tip, Opened(tip), turns);
  }

  /** A ledger that cannot be made ends the session after the scan: the span and the
      opportunities already hold the new range, the last block and the passes do not. */
  lemma DyingLeavesTheScanBehind(s: Session, t: Turn)
    requires KindOf(s.lastBlock, t).Dies?
    ensures var (s', gaveUp) := TakeTurn(s, t);
      && gaveUp && s'.opps == s.opps + t.found.value && s'.scanned.Some? && s'.scanned.value.hi >= t.tip.value
      && s'.lastBlock == s.lastBlock && s'.passes == s.passes && s'.blocksProcessed == s.blocksProcessed
      && s'.failures == s.failures
  {
  }

  /** The tip, the fetch or the backtest failed. */
  predicate Fruitless(t: Turn) {
    t.tip.None? || !t.fetchOk || t.found.None?
  }

  function Fruitful(turns: seq<Turn>): seq<Turn> {
    if turns == [] then []
    else if Fruitless(turns[0]) then Fruitful(turns[1..])
    else [turns[0]] + Fruitful(turns[1..])
  }

  lemma {:induction false} SameButForFailures(s: Session, z: Session, turns: seq<Turn>)
    requires s.(failures := 0) == z.(failures := 0) && !TakeTurns(s, turns).1
    ensures !TakeTurns(z, Fruitful(turns)).1
    ensures TakeTurns(s, turns).0.(failures := 0) == TakeTurns(z, Fruitful(turns)).0.(failures := 0)
    decreases |turns|
  {
    if turns != [] {
      var t := turns[0];
      var s', z' := TakeTurn(s, t).0, TakeTurn(z, t).0;
      if Fruitless(t) {
        SameButForFailures(s', z, turns[1..]);
      } else {
        SameButForFailures(s', z', turns[1..]);
        assert ([t] + Fruitful(turns[1..]))[1..] == Fruitful(turns[1..]);
      }
    }
  }

  /** Over any run that does not give up, failed polls, fetches and backtests
      change nothing but the failure count: without them the session ends the
      same. */
  lemma FailuresChangeNothingElse(s: Session, turns: seq<Turn>)
    requires !TakeTurns(s, turns).1
    ensures !TakeTurns(s, Fruitful(turns)).1
    ensures TakeTurns(s, turns).0.(failures := 0) == TakeTurns(s, Fruitful(turns)).0.(failures := 0)
  {
    SameButForFailures(s, s, turns);
  }

  // ----- when a session gives up

  /** What a turn amounts to: no new block, a failed attempt, a completed pass, or
      a scan whose ledger could not be made. */
  datatype TurnKind = Quiet | Fails | Passes | Dies

  function KindOf(last: u64, t: Turn): TurnKind {
    if t.tip.None? then Fails
    else if t.tip.value <= last then Quiet
    else if !t.fetchOk || t.found.None? then Fails
    else if t.ledgerOk then Passes
    else Dies
  }

  function LastAfter(last: u64, t: Turn): u64 {
    if KindOf(last, t).Passes? then t.tip.value else last
  }

  /** The turns classified, from what the outside answers alone. */
  function Kinds(last: u64, turns: seq<Turn>): seq<TurnKind>
    decreases |turns|
  {
    if turns == [] then [] else [KindOf(last, turns[0])] + Kinds(LastAfter(last, turns[0]), turns[1..])
  }

  function CountFails(kinds: seq<TurnKind>): nat {
    if kinds == [] then 0 else (if kinds[0].Fails? then 1 else 0) + CountFails(kinds[1..])
  }

  /** A stretch of turns without a completed pass has five failures; `before` are
      counted in when it starts with the first turn. */
  ghost predicate TooManyFails(kinds: seq<TurnKind>, before: nat) {
    exists i, n :: 0 <= i <= n <= |kinds| && FailsBetween(kinds, before, i, n)
  }

  ghost predicate FailsBetween(kinds: seq<TurnKind>, before: nat, i: nat, n: nat)
    requires i <= n <= |kinds|
  {
    && Passes !in kinds[i..n]
    && (if i == 0 then before else 0) + CountFails(kinds[i..n]) >= MAX_CONSECUTIVE_FAILURES
  }

  lemma NoneBefore(kinds: seq<TurnKind>, before: nat)
    requires before < MAX_CONSECUTIVE_FAILURES
    ensures !FailsBetween(kinds, before, 0, 0)
  {
  }

  /** A stretch that starts after the first turn, seen from there. */
  lemma LaterStretch(kind: TurnKind, rest: seq<TurnKind>, before: nat, i: nat, n: nat)
    requires i <= n <= |rest|
    ensures FailsBetween([kind] + rest, before, i + 1, n + 1) <==> FailsBetween(rest, if i == 0 then 0 else before, i, n)
  {
    assert ([kind] + rest)[i + 1..n + 1] == rest[i..n];
  }

  /** A stretch that starts with the first turn, less that turn. */
  lemma FirstStretch(kind: TurnKind, rest: seq<TurnKind>, before: nat, n: nat)
    requires n <= |rest|
    ensures FailsBetween([kind] + rest, before, 0, n + 1) <==>
            !kind.Passes? && FailsBetween(rest, before + (if kind.Fails? then 1 else 0), 0, n)
  {
    var all := ([kind] + rest)[0..n + 1];
    assert all == [kind] + rest[0..n] && all[1..] == rest[0..n];
    assert kind in all;
    forall k | k in all ensures k == kind || k in rest[0..n] {
    }
  }

  /** The count of failures that the next turns start with. */
  function FailsAfter(kind: TurnKind, before: nat): nat {
    match kind
    case Quiet => before
    case Fails => before + 1
    case Passes => 0
    case Dies => before
  }

  lemma TooManyFromFront(kind: TurnKind, rest: seq<TurnKind>, before: nat)
    requires before < MAX_CONSECUTIVE_FAILURES && FailsAfter(kind, before) < MAX_CONSECUTIVE_FAILURES
    ensures TooManyFails([kind] + rest, before) <==> TooManyFails(rest, FailsAfter(kind, before))
  {
    hide FailsBetween;
    var all, after := [kind] + rest, FailsAfter(kind, before);
    if TooManyFails(all, before) {
      var i, n :| 0 <= i <= n <= |all| && FailsBetween(all, before, i, n);
      if i == 0 {
        NoneBefore(all, before);
        FirstStretch(kind, rest, before, n - 1);
        assert FailsBetween(rest, after, 0, n - 1);
      } else {
        LaterStretch(kind, rest, before, i - 1, n - 1);
        MoreBefore(rest, if i == 1 then 0 else before, after, i - 1, n - 1);
        assert FailsBetween(rest, after, i - 1, n - 1);
      }
    }
    if TooManyFails(rest, after) {
      var i, n :| 0 <= i <= n <= |rest| && FailsBetween(rest, after, i, n);
      if i == 0 && !kind.Passes? {
        FirstStretch(kind, rest, before, n);
        assert FailsBetween(all, before, 0, n + 1);
      } else {
        LaterStretch(kind, rest, before, i, n);
        MoreBefore(rest, after, if i == 0 then 0 else before, i, n);
        assert FailsBetween(all, before, i + 1, n + 1);
      }
    }
  }

  lemma MoreBefore(kinds: seq<TurnKind>, before: nat, before': nat, i: nat, n: nat)
    requires i <= n <= |kinds| && (i == 0 ==> before <= before')
    ensures FailsBetween(kinds, before, i, n) ==> FailsBetween(kinds, before', i, n)
  {
  }

  /** One turn by its kind. */
  lemma TurnByKind(s: Session, t: Turn)
    requires s.failures < MAX_CONSECUTIVE_FAILURES
    ensures var (s', gaveUp) := TakeTurn(s, t); var kind := KindOf(s.lastBlock, t);
      && (gaveUp <==> kind.Dies? || FailsAfter(kind, s.failures) >= MAX_CONSECUTIVE_FAILURES)
      && s'.lastBlock == LastAfter(s.lastBlock, t)
      && s'.failures == FailsAfter(kind, s.failures)
      && (kind.Quiet? ==> s' == s) && (kind.Fails? ==> s' == s.(failures := s.failures + 1))
  {
  }

  /** A run of turns gives up exactly when a ledger cannot be made or five
      failures come without a completed pass between them, whatever quiet polls
      do. */
  lemma {:induction false} RunGivesUpExactlyWhen(s: Session, turns: seq<Turn>)
    requires s.failures < MAX_CONSECUTIVE_FAILURES
    ensures TakeTurns(s, turns).1 <==>
            Dies in Kinds(s.lastBlock, turns) || TooManyFails(Kinds(s.lastBlock, turns), s.failures)
    decreases |turns|
  {
    hide TakeTurn, KindOf, TooManyFails;
    if turns == [] {
      NeverTooMany(s.failures);
    } else {
      var kind, rest := KindOf(s.lastBlock, turns[0]), Kinds(LastAfter(s.lastBlock, turns[0]), turns[1..]);
      TurnByKind(s, turns[0]);
      var (s', gaveUp) := TakeTurn(s, turns[0]);
      if !gaveUp {
        RunGivesUpExactlyWhen(s', turns[1..]);
        TooManyFromFront(kind, rest, s.failures);
      } else if !kind.Dies? {
        LastStraw(kind, rest, s.failures);
      }
    }
  }

  lemma NeverTooMany(before: nat)
    requires before < MAX_CONSECUTIVE_FAILURES
    ensures !TooManyFails([], before)
  {
  }

  lemma LastStraw(kind: TurnKind, rest: seq<TurnKind>, before: nat)
    requires FailsAfter(kind, before) >= MAX_CONSECUTIVE_FAILURES > before
    ensures TooManyFails([kind] + rest, before)
  {
    FirstStretch(kind, rest, before, 0);
    assert FailsBetween(rest, before + 1, 0, 0);
    assert FailsBetween([kind] + rest, before, 0, 1);
  }

  /** The same from the opening of the session, in terms of its answers alone. */
  lemma SessionGivesUpExactlyWhen(tip: u64, turns: seq<Turn>)
    ensures var kinds := Kinds(tip, turns);
      TakeTurns(Opened(tip), turns).1 <==>
        || Dies in kinds
        || exists i, n :: 0 <= i <= n <= |kinds| && Passes !in kinds[i..n] && CountFails(kinds[i..n]) >= 5
  {
    var kinds := Kinds(tip, turns);
    RunGivesUpExactlyWhen(Opened(tip), turns);
    forall i, n | 0 <= i <= n <= |kinds|
      ensures FailsBetween(kinds, 0, i, n) <==> Passes !in kinds[i..n] && CountFails(kinds[i..n]) >= 5
    {
    }
  }

  /** Quiet polls do not reset the count: without a completed pass it is the
      number of failures, however they are spread. */
  lemma {:induction false} QuietPollsDoNotReset(s: Session, turns: seq<Turn>)
    requires forall kind :: kind in Kinds(s.lastBlock, turns) ==> kind.Quiet? || kind.Fails?
    requires s.failures + CountFails(Kinds(s.lastBlock, turns)) < MAX_CONSECUTIVE_FAILURES
    ensures TakeTurns(s, turns) == (s.(failures := s.failures + CountFails(Kinds(s.lastBlock, turns))), false)
    decreases |turns|
  {
    hide TakeTurn, KindOf;
    if turns != [] {
      var kinds := Kinds(s.lastBlock, turns);
      assert kinds[0] in kinds;
      TurnByKind(s, turns[0]);
      assert kinds[1..] == Kinds(LastAfter(s.lastBlock, turns[0]), turns[1..]);
      QuietPollsDoNotReset(TakeTurn(s, turns[0]).0, turns[1..]);
    }
  }

  /** The turns that are not quiet polls. */
  function Noticed(last: u64, turns: seq<Turn>): seq<Turn>
    decreases |turns|
  {
    if turns == [] then []
    else
      var rest := Noticed(LastAfter(last, turns[0]), turns[1..]);
      if KindOf(last, turns[0]).Quiet? then rest else [turns[0]] + rest
  }

  /** Quiet polls change nothing at all: a session ends as it would without them,
      giving up or not. */
  lemma {:induction false} QuietPollsAreInvisible(s: Session, turns: seq<Turn>)
    ensures TakeTurns(s, turns) == TakeTurns(s, Noticed(s.lastBlock, turns))
    decreases |turns|
  {
    if turns != [] {
      var t := turns[0];
      var rest := Noticed(LastAfter(s.lastBlock, t), turns[1..]);
      assert ([t] + rest)[1..] == rest;
      var (s', gaveUp) := TakeTurn(s, t);
      if !gaveUp {
        QuietPollsAreInvisible(s', turns[1..]);
      }
    }
  }

  /** `n + 1` failed polls with a quiet one between any two. */
  function Spread(tip: u64, n: nat): seq<Turn> {
    var fails, quiet := Turn(None, false, None, false), Turn(Some(tip), false, None, false);
    if n == 0 then [fails] else [fails, quiet] + Spread(tip, n - 1)
  }

  lemma {:induction false} SpreadFailures(s: Session, n: nat)
    requires s.failures + n + 1 == MAX_CONSECUTIVE_FAILURES
    ensures TakeTurns(s, Spread(s.lastBlock, n)) == (s.(failures := MAX_CONSECUTIVE_FAILURES), true)
    ensures Kinds(s.lastBlock, Spread(s.lastBlock, n)) == Alternating(n)
    decreases n
  {
    var turns := Spread(s.lastBlock, n);
    if n > 0 {
      assert turns[1..][0] == Turn(Some(s.lastBlock), false, None, false);
      assert turns[1..][1..] == Spread(s.lastBlock, n - 1);
      SpreadFailures(s.(failures := s.failures + 1), n - 1);
    }
  }

  function Alternating(n: nat): seq<TurnKind> {
    if n == 0 then [Fails] else [Fails, Quiet] + Alternating(n - 1)
  }

  /** Five failures end a session although no two of them are adjacent. */
  lemma SpreadFailuresEndTheSession(tip: u64)
    ensures Kinds(tip, Spread(tip, 4)) == [Fails, Quiet, Fails, Quiet, Fails, Quiet, Fails, Quiet, Fails]
    ensures TakeTurns(Opened(tip), Spread(tip, 4)) == (Opened(tip).(failures := 5), true)
  {
    SpreadFailures(Opened(tip), 4);
    assert Alternating(4) == [Fails, Quiet] + ([Fails, Quiet] + ([Fails, Quiet] + ([Fails, Quiet] + [Fails])));
  }

  // ----- the session ledger

  /** Each pass found opportunities of its own blocks only. */
  ghost predicate InRange(passes: seq<Pass>) {
    forall p, x :: p in passes && x in p.opps ==> p.first <= x.blockNumber <= p.last
  }

  /** The ledger continued pass by pass. */
  function Continued(p: LedgerPolicy, passes: seq<Pass>): Tally {
    if passes == [] then Start(p)
    else RunBlocks(p, ByBlock(passes[|passes| - 1].opps), Continued(p, passes[..|passes| - 1]))
  }

  lemma {:induction false} FoundWithin(tip: u64, passes: seq<Pass>, last: u64)
    requires Contiguous(tip, passes, last) && InRange(passes)
    ensures forall x :: x in AllFound(passes) ==> x.blockNumber <= last
  {
    if passes != [] {
      var p := passes[|passes| - 1];
      assert p in passes;
      FoundWithin(tip, passes[..|passes| - 1], p.first - 1);
    }
  }

  /** Recomputing the session ledger from scratch after every pass is the same
      as continuing it, so a fill once reported is never revised. */
  lemma {:induction false} SessionLedgerIsContinued(p: LedgerPolicy, tip: u64, passes: seq<Pass>, last: u64)
    requires Contiguous(tip, passes, last) && InRange(passes)
    ensures FinalTally(p, AllFound(passes)) == Continued(p, passes)
    ensures passes != [] ==>
      ApplyResult(p, AllFound(passes[..|passes| - 1])).fills <= ApplyResult(p, AllFound(passes)).fills
  {
    hide RunBlocks, Grouped;
    if passes == [] {
      NothingRun(p);
    } else {
      var init, q := passes[..|passes| - 1], passes[|passes| - 1];
      assert q in passes;
      SessionLedgerIsContinued(p, tip, init, q.first - 1);
      FoundWithin(tip, init, q.first - 1);
      RecomputingIsContinuing(p, AllFound(init), q.opps);
    }
  }

  lemma NothingRun(p: LedgerPolicy)
    ensures FinalTally(p, []) == Start(p)
  {
  }

  /** What a pass can revise at all: outcomes of its own blocks and later ones.
      Everything reported below its first block stays, even when earlier passes
      found pending opportunities. */
  lemma PassKeepsEarlierBlocks(p: LedgerPolicy, passes: seq<Pass>, q: Pass)
    requires forall x :: x in q.opps ==> BlockOf(x) >= q.first
    ensures var before, after := ApplyResult(p, AllFound(passes)), ApplyResult(p, AllFound(passes + [q]));
      && FillsBelow(after.fills, q.first) == FillsBelow(before.fills, q.first)
      && SkipsBelow(after.skips, q.first) == SkipsBelow(before.skips, q.first)
  {
    hide ApplyResult, FillsBelow, SkipsBelow;
    assert (passes + [q])[..|passes|] == passes;
    AddingLaterKeepsThePast(p, AllFound(passes), q.opps, q.first);
  }

  /** A pending opportunity carries the next block's number, which the next pass
      scans. If a better rival for one of its pools turns up there, the fill
      already reported is taken back. */
  lemma PendingFillIsRevised(p: LedgerPolicy, tip: u64, pending: Opportunity, rival: Opportunity)
    requires tip + 2 <= U64_MAX
    requires pending.blockNumber == rival.blockNumber == tip + 2
    requires FillsAlone(p, pending) && FillsAlone(p, rival) && !(PoolSet(pending) !! PoolSet(rival))
    requires NetWei(pending) < NetWei(rival)
    ensures var first, second := Pass(tip + 1, tip + 1, [pending]), Pass(tip + 2, tip + 2, [rival]);
      && Contiguous(tip, [first, second], tip + 2)
      && !(ApplyResult(p, AllFound([first])).fills <= ApplyResult(p, AllFound([first, second])).fills)
  {
    hide PoolSet, RunBlocks, Grouped;
    var first, second := Pass(tip + 1, tip + 1, [pending]), Pass(tip + 2, tip + 2, [rival]);
    assert [first, second][..1] == [first] && [first][..0] == [];
    assert Contiguous(tip, [], tip);
    assert Contiguous(tip, [first], tip + 1);
    assert AllFound([first]) == [] + [pending] == [pending];
    assert AllFound([first, second]) == [pending] + [rival];
    SharedBlockRevisesFills(p, pending, rival);
  }
}
