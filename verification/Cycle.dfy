/** Closed-cycle search over swap edges. The search backtracks over a shared
    `used` array and stops extending a walk as soon as it is back at its start,
    even when the pool test fails there. It is complete all the same. */
module Cycle {
  import opened RustInts
  import opened PaperTypes

  /** One resolved swap: `(token_in, token_out, pool)`. */
  datatype Edge = Edge(tokenIn: Address, tokenOut: Address, pool: Address)

  /** The anchor token and every token on the walk. */
  datatype Walk = Walk(anchor: Address, tokens: set<Address>)

  // ----- what is searched for

  ghost predicate Distinct(t: seq<nat>) {
    forall i, j :: 0 <= i < j < |t| ==> t[i] != t[j]
  }

  /** Distinct edges, each starting where the previous one ends. */
  ghost predicate Trail(edges: seq<Edge>, t: seq<nat>) {
    && t != [] && Distinct(t)
    && (forall i :: 0 <= i < |t| ==> t[i] < |edges|)
    && (forall i :: 0 < i < |t| ==> edges[t[i - 1]].tokenOut == edges[t[i]].tokenIn)
  }

  ghost predicate TwoPools(edges: seq<Edge>, t: seq<nat>)
    requires forall i :: 0 <= i < |t| ==> t[i] < |edges|
  {
    exists i, j :: 0 <= i < |t| && 0 <= j < |t| && edges[t[i]].pool != edges[t[j]].pool
  }

  /** A closed trail of at least 2 edges over at least 2 pools. */
  ghost predicate ClosedTrail(edges: seq<Edge>, t: seq<nat>) {
    && Trail(edges, t) && |t| >= 2
    && edges[t[|t| - 1]].tokenOut == edges[t[0]].tokenIn
    && TwoPools(edges, t)
  }

  function WalkOf(edges: seq<Edge>, t: seq<nat>): Walk
    requires t != [] && forall i :: 0 <= i < |t| ==> t[i] < |edges|
  {
    Walk(edges[t[0]].tokenIn,
         (set i | i in t :: edges[i].tokenIn) + (set i | i in t :: edges[i].tokenOut))
  }

  /** A closed trail that does not pass its start in between, except that its
      first edge may be a self-loop there: the walks the search can close. */
  ghost predicate FirstReturn(edges: seq<Edge>, t: seq<nat>) {
    && ClosedTrail(edges, t)
    && forall j :: 1 <= j < |t| - 1 ==> edges[t[j]].tokenOut != edges[t[0]].tokenIn
  }

  // ----- the search

  /** The walk `path` may still be extended by the search. */
  ghost predicate Open(edges: seq<Edge>, path: seq<nat>) {
    Trail(edges, path) && forall j :: 1 <= j < |path| - 1 ==> edges[path[j]].tokenOut != edges[path[0]].tokenIn
  }

  ghost predicate Marks(used: seq<bool>, path: seq<nat>) {
    forall i :: 0 <= i < |used| ==> (used[i] <==> i in path)
  }

  lemma DistinctFits(path: seq<nat>, n: nat)
    requires Distinct(path) && forall i :: 0 <= i < |path| ==> path[i] < n
    ensures |path| <= n
    decreases n
  {
    if path != [] {
      assert path[0] < n;
      if n - 1 in path {
        var i :| 0 <= i < |path| && path[i] == n - 1;
        var rest := path[..i] + path[i + 1..];
        DistinctFits(rest, n - 1);
      } else {
        DistinctFits(path, n - 1);
      }
    }
  }

  /** `w` is what some closable walk that continues `path` looks like. */
  ghost predicate Witnessed(edges: seq<Edge>, path: seq<nat>, w: Walk) {
    exists t :: path <= t && FirstReturn(edges, t) && w == WalkOf(edges, t)
  }

  /** No closable walk continues `path`. */
  ghost predicate Exhausted(edges: seq<Edge>, path: seq<nat>) {
    forall t :: path <= t ==> !FirstReturn(edges, t)
  }

  /** No closable walk continues `path` with an edge below `e`. */
  ghost predicate ExhaustedBelow(edges: seq<Edge>, path: seq<nat>, e: nat) {
    forall x: nat :: x < e ==> Exhausted(edges, path + [x])
  }

  /** Depth-first search from `startEdge`; the walk so far is `path`, whose last
      edge is `curEdge`. The mark array comes back as it was. */
  method DfsCycle(edges: seq<Edge>, startEdge: nat, curEdge: nat, used: array<bool>, depth: nat, ghost path: seq<nat>)
    returns (found: Option<Walk>)
    requires used.Length == |edges| && |path| == depth + 1
    requires Open(edges, path) && path[0] == startEdge && path[depth] == curEdge
    requires Marks(used[..], path[..depth])
    modifies used
    ensures used[..] == old(used[..])
    ensures found.Some? ==> Witnessed(edges, path, found.value)
    ensures found.None? ==> Exhausted(edges, path)
    decreases |edges| - depth
  {
    hide Witnessed, Exhausted, ExhaustedBelow, FirstReturn, ClosedTrail, TwoPools, Open, Marks, Distinct;
    PathFacts(edges, path, used[..]);
    var next := edges[curEdge].tokenOut;
    var start := edges[startEdge].tokenIn;
    used[curEdge] := true;
    ghost var marked := used[..];
    assert marked == old(used[..])[curEdge := true];
    found := None;
    if depth + 1 >= 2 && next == start {
      var pools := set i | 0 <= i < |edges| && used[i] :: edges[i].pool;
      assert pools == set i | 0 <= i < |edges| && marked[i] :: edges[i].pool;
      if |pools| >= 2 {
        ClosedHere(edges, path, marked, pools);
        var tokensIn := set i | 0 <= i < |edges| && used[i] :: edges[i].tokenIn;
        var tokensOut := set i | 0 <= i < |edges| && used[i] :: edges[i].tokenOut;
        found := Some(Walk(start, tokensIn + tokensOut));
        MarkedWalk(edges, path, marked);
        assert tokensIn == set i | 0 <= i < |edges| && marked[i] :: edges[i].tokenIn;
        assert tokensOut == set i | 0 <= i < |edges| && marked[i] :: edges[i].tokenOut;
      } else {
        OnePoolHere(edges, path, marked, pools);
      }
    } else {
      NothingBelow(edges, path);
      var e := 0;
      while e < |edges| && found.None?
        invariant 0 <= e <= |edges|
        invariant used[..] == marked
        invariant found.None? ==> ExhaustedBelow(edges, path, e)
        invariant found.Some? ==> Witnessed(edges, path, found.value)
      {
        assert used[e] == marked[e];
        if !used[e] && edges[e].tokenIn == next {
          ExtendOpen(edges, path, e, marked);
          assert (path + [e])[..depth + 1] == path;
          found := DfsCycle(edges, startEdge, e, used, depth + 1, path + [e]);
          if found.Some? {
            WitnessedDeeper(edges, path, e, found.value);
          }
        } else {
          NotAnExtension(edges, path, e, marked);
        }
        if found.None? {
          OneMoreBelow(edges, path, e);
        }
        e := e + 1;
      }
      if found.None? {
        NoneLeft(edges, path);
      }
    }
    used[curEdge] := false;
    assert used[..] == old(used[..]);
  }

  /** What the search knows about its walk on entry. */
  lemma PathFacts(edges: seq<Edge>, path: seq<nat>, used: seq<bool>)
    requires |used| == |edges| && Open(edges, path) && Marks(used, path[..|path| - 1])
    ensures path[0] < |edges| && path[|path| - 1] < |edges| && |path| <= |edges|
    ensures !used[path[|path| - 1]] && Marks(used[path[|path| - 1] := true], path)
  {
    DistinctFits(path, |edges|);
    assert path == path[..|path| - 1] + [path[|path| - 1]];
  }

  lemma WitnessedDeeper(edges: seq<Edge>, path: seq<nat>, e: nat, w: Walk)
    requires Witnessed(edges, path + [e], w)
    ensures Witnessed(edges, path, w)
  {
    var t :| path + [e] <= t && FirstReturn(edges, t) && w == WalkOf(edges, t);
    assert path <= t;
  }

  lemma NothingBelow(edges: seq<Edge>, path: seq<nat>)
    ensures ExhaustedBelow(edges, path, 0)
  {
  }

  lemma OneMoreBelow(edges: seq<Edge>, path: seq<nat>, e: nat)
    requires ExhaustedBelow(edges, path, e) && Exhausted(edges, path + [e])
    ensures ExhaustedBelow(edges, path, e + 1)
  {
  }

  /** Back at the start over two pools: the walk is an answer. */
  lemma ClosedHere(edges: seq<Edge>, path: seq<nat>, used: seq<bool>, pools: set<Address>)
    requires |used| == |edges| && Marks(used, path) && Open(edges, path) && |path| >= 2
    requires edges[path[|path| - 1]].tokenOut == edges[path[0]].tokenIn
    requires pools == (set i | 0 <= i < |edges| && used[i] :: edges[i].pool) && |pools| >= 2
    ensures Witnessed(edges, path, WalkOf(edges, path))
  {
    var p := edges[path[0]].pool;
    assert used[path[0]];
    assert p in pools;
    var rest := pools - {p};
    assert |rest| >= 1;
    var q :| q in rest;
    var i :| 0 <= i < |edges| && used[i] && edges[i].pool == q;
    var k :| 0 <= k < |path| && path[k] == i;
    assert edges[path[0]].pool != edges[path[k]].pool;
    assert TwoPools(edges, path);
    assert FirstReturn(edges, path);
  }

  /** Back at the start over one pool: pruned, and rightly so, since a walk that
      goes on from here has already returned. */
  lemma OnePoolHere(edges: seq<Edge>, path: seq<nat>, used: seq<bool>, pools: set<Address>)
    requires |used| == |edges| && Marks(used, path) && Open(edges, path) && |path| >= 2
    requires edges[path[|path| - 1]].tokenOut == edges[path[0]].tokenIn
    requires pools == (set i | 0 <= i < |edges| && used[i] :: edges[i].pool) && |pools| < 2
    ensures Exhausted(edges, path)
  {
    forall i, j | 0 <= i < |path| && 0 <= j < |path| ensures edges[path[i]].pool == edges[path[j]].pool {
      assert used[path[i]] && used[path[j]];
      var p, q := edges[path[i]].pool, edges[path[j]].pool;
      assert {p, q} <= pools;
      SubsetSize({p, q}, pools);
    }
    forall t | path <= t ensures !FirstReturn(edges, t) {
      if |t| > |path| {
        assert t[|path| - 1] == path[|path| - 1] && t[0] == path[0];
      } else {
        assert t == path;
      }
    }
  }

  lemma SubsetSize(a: set<Address>, b: set<Address>)
    requires a <= b
    ensures |a| <= |b|
  {
    assert b == a + (b - a);
  }

  lemma MarkedWalk(edges: seq<Edge>, path: seq<nat>, used: seq<bool>)
    requires |used| == |edges| && Marks(used, path) && Open(edges, path)
    ensures (set i | 0 <= i < |edges| && used[i] :: edges[i].tokenIn) == set i | i in path :: edges[i].tokenIn
    ensures (set i | 0 <= i < |edges| && used[i] :: edges[i].tokenOut) == set i | i in path :: edges[i].tokenOut
    ensures forall i :: 0 <= i < |path| ==> path[i] < |edges|
  {
  }

  lemma ExtendOpen(edges: seq<Edge>, path: seq<nat>, e: nat, used: seq<bool>)
    requires |used| == |edges| && Marks(used, path) && Open(edges, path)
    requires e < |edges| && !used[e] && path[|path| - 1] < |edges| && path[0] < |edges|
    requires edges[path[|path| - 1]].tokenOut == edges[e].tokenIn
    requires |path| < 2 || edges[path[|path| - 1]].tokenOut != edges[path[0]].tokenIn
    ensures Open(edges, path + [e])
  {
    assert e !in path;
  }

  lemma NotAnExtension(edges: seq<Edge>, path: seq<nat>, e: nat, used: seq<bool>)
    requires |used| == |edges| && Marks(used, path) && Open(edges, path)
    requires e < |edges| && path[|path| - 1] < |edges|
    requires used[e] || edges[path[|path| - 1]].tokenOut != edges[e].tokenIn
    ensures Exhausted(edges, path + [e])
  {
    forall t | path + [e] <= t ensures !Trail(edges, t) {
      assert t[|path|] == e && t[|path| - 1] == path[|path| - 1];
      if used[e] {
        var i :| 0 <= i < |path| && path[i] == e;
        assert t[i] == path[i];
      }
    }
  }

  /** With no extension left, the walk itself is the only candidate, and it is
      not closed. */
  lemma NoneLeft(edges: seq<Edge>, path: seq<nat>)
    requires Open(edges, path) && path[|path| - 1] < |edges| && path[0] < |edges|
    requires |path| < 2 || edges[path[|path| - 1]].tokenOut != edges[path[0]].tokenIn
    requires ExhaustedBelow(edges, path, |edges|)
    ensures Exhausted(edges, path)
  {
    forall t | path <= t ensures !FirstReturn(edges, t) {
      if |t| == |path| {
        assert t == path;
      } else if t[|path|] < |edges| {
        assert Exhausted(edges, path + [t[|path|]]);
        assert path + [t[|path|]] <= t;
      }
    }
  }

  // ----- why pruning loses nothing

  /** A list with two different pools has two neighbours with different pools. */
  lemma {:induction false} NeighboursDiffer(edges: seq<Edge>, t: seq<nat>) returns (i: nat)
    requires (forall k :: 0 <= k < |t| ==> t[k] < |edges|) && TwoPools(edges, t)
    ensures i + 1 < |t| && edges[t[i]].pool != edges[t[i + 1]].pool
  {
    i := 0;
    while i + 1 < |t| && edges[t[i]].pool == edges[t[i + 1]].pool
      invariant i < |t|
      invariant forall k :: 0 <= k <= i ==> edges[t[k]].pool == edges[t[0]].pool
    {
      i := i + 1;
    }
  }

  function Turn(t: seq<nat>, i: nat): (r: seq<nat>)
    requires i <= |t|
    ensures |r| == |t|
    ensures forall k :: 0 <= k < |t| ==> r[k] == if k < |t| - i then t[i + k] else t[k - (|t| - i)]
  {
    t[i..] + t[..i]
  }

  lemma TurnIsTrail(edges: seq<Edge>, t: seq<nat>, i: nat)
    requires Trail(edges, t) && edges[t[|t| - 1]].tokenOut == edges[t[0]].tokenIn && 0 < i < |t|
    ensures Trail(edges, Turn(t, i))
    ensures edges[Turn(t, i)[|t| - 1]].tokenOut == edges[Turn(t, i)[0]].tokenIn
  {
    var r := Turn(t, i);
    hide Turn;
    TurnDistinct(t, i);
    hide Distinct;
    forall k | 0 < k < |r| ensures edges[r[k - 1]].tokenOut == edges[r[k]].tokenIn {
      if k == |t| - i {
        assert r[k - 1] == t[|t| - 1] && r[k] == t[0];
      }
    }
  }

  lemma TurnDistinct(t: seq<nat>, i: nat)
    requires Distinct(t) && i <= |t|
    ensures Distinct(Turn(t, i))
  {
    hide Turn;
  }

  /** Starting the same closed trail elsewhere. */
  lemma Rotated(edges: seq<Edge>, t: seq<nat>, i: nat) returns (r: seq<nat>)
    requires ClosedTrail(edges, t) && i + 1 < |t| && edges[t[i]].pool != edges[t[i + 1]].pool
    ensures ClosedTrail(edges, r) && r[0] == t[i] && r[1] == t[i + 1]
  {
    r := t;
    if i > 0 {
      r := Turn(t, i);
      TurnIsTrail(edges, t, i);
      hide Turn, Trail;
      assert edges[r[0]].pool != edges[r[1]].pool;
    }
  }

  /** Cutting a closed trail at its first return to the start. The two first
      edges stay, so when they are in different pools the cut trail counts. */
  lemma CutAtFirstReturn(edges: seq<Edge>, r: seq<nat>) returns (c: seq<nat>)
    requires ClosedTrail(edges, r) && edges[r[0]].pool != edges[r[1]].pool
    ensures FirstReturn(edges, c) && c[0] == r[0]
  {
    var m := 1;
    while edges[r[m]].tokenOut != edges[r[0]].tokenIn
      invariant 1 <= m < |r|
      invariant forall j :: 1 <= j < m ==> edges[r[j]].tokenOut != edges[r[0]].tokenIn
      decreases |r| - m
    {
      m := m + 1;
    }
    c := r[..m + 1];
    assert c[0] == r[0] && c[1] == r[1];
  }

  /** Some start edge sees a closed trail that pruning does not lose. */
  lemma PruningIsHarmless(edges: seq<Edge>, t: seq<nat>)
    requires ClosedTrail(edges, t)
    ensures exists c :: FirstReturn(edges, c) && c[0] < |edges|
  {
    var i := NeighboursDiffer(edges, t);
    var r := Rotated(edges, t, i);
    var c := CutAtFirstReturn(edges, r);
  }

  lemma WitnessIsClosed(edges: seq<Edge>, path: seq<nat>, w: Walk)
    requires Witnessed(edges, path, w)
    ensures exists t :: ClosedTrail(edges, t) && w == WalkOf(edges, t)
  {
  }

  /** Sound and complete: a walk is returned exactly when a closed trail
      exists, and it is the anchor and tokens of one. */
  method FindClosedCycle(edges: seq<Edge>) returns (r: Option<Walk>)
    ensures r.Some? <==> exists t :: ClosedTrail(edges, t)
    ensures r.Some? ==> exists t :: ClosedTrail(edges, t) && r.value == WalkOf(edges, t)
  {
    var n := |edges|;
    if n < 2 {
      forall t ensures !ClosedTrail(edges, t) {
        if Trail(edges, t) {
          DistinctFits(t, n);
        }
      }
      return None;
    }
    var used := new bool[n](_ => false);
    for startEdge := 0 to n
      invariant forall i :: 0 <= i < n ==> !used[i]
      invariant forall t :: t != [] && t[0] < startEdge ==> !FirstReturn(edges, t)
    {
      assert used[..] == seq(n, _ => false);
      r := DfsCycle(edges, startEdge, startEdge, used, 0, [startEdge]);
      assert forall i :: 0 <= i < n ==> used[i] == used[..][i];
      if r.Some? {
        WitnessIsClosed(edges, [startEdge], r.value);
        return;
      }
      forall t | t != [] && t[0] == startEdge ensures !FirstReturn(edges, t) {
        assert [startEdge] <= t;
      }
    }
    forall t ensures !ClosedTrail(edges, t) {
      if ClosedTrail(edges, t) {
        PruningIsHarmless(edges, t);
      }
    }
    r := None;
  }

  method HasClosedCycle(edges: seq<Edge>) returns (b: bool)
    ensures b <==> exists t :: ClosedTrail(edges, t)
  {
    var r := FindClosedCycle(edges);
    b := r.Some?;
  }
}
