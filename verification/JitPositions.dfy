/** Open just-in-time liquidity positions across blocks: each block records the
    mints it did not close in the same transaction, then deletes every position
    it saw a burn for. */
module JitPositions {
  import opened RustInts
  import opened PaperTypes

  datatype PosKey = PosKey(pool: Address, owner: Address, tickLower: int, tickUpper: int)

  datatype JitFact = JitFact(key: PosKey, isMint: bool, liquidity: u128)

  datatype OpenPosition = OpenPosition(openedBlock: u64, liquidity: u128)

  type Positions = map<PosKey, OpenPosition>

  predicate Burns(tx: seq<JitFact>, k: PosKey) {
    exists j :: j in tx && !j.isMint && j.key == k
  }

  predicate Mints(tx: seq<JitFact>, k: PosKey) {
    exists j :: j in tx && j.isMint && j.key == k
  }

  /** Some transaction of the block mints `k` and does not burn it. */
  ghost predicate Opened(txs: seq<seq<JitFact>>, k: PosKey) {
    exists t :: t in txs && Mints(t, k) && !Burns(t, k)
  }

  ghost predicate Closed(txs: seq<seq<JitFact>>, k: PosKey) {
    exists t :: t in txs && Burns(t, k)
  }

  /** A position that the next block's detection will be shown. */
  predicate Visible(m: Positions, minBlock: u64, k: PosKey) {
    k in m && m[k].openedBlock >= minBlock
  }

  /** The position as the next block's detection will be shown it. */
  function Position(m: Positions, minBlock: u64, k: PosKey): Option<OpenPosition> {
    if Visible(m, minBlock, k) then Some(m[k]) else None
  }

  ghost predicate HasKey(rows: seq<(PosKey, u128)>, k: PosKey) {
    exists i :: 0 <= i < |rows| && rows[i].0 == k
  }

  /** The liquidity of the last row for `k`. */
  function LastLiquidity(rows: seq<(PosKey, u128)>, k: PosKey): u128 {
    if rows == [] then 0
    else if rows[|rows| - 1].0 == k then rows[|rows| - 1].1
    else LastLiquidity(rows[..|rows| - 1], k)
  }

  /** The mints among `facts` whose position `tx` does not burn, in order. */
  function Unburned(facts: seq<JitFact>, tx: seq<JitFact>): seq<(PosKey, u128)> {
    if facts == [] then []
    else
      var before, j := Unburned(facts[..|facts| - 1], tx), facts[|facts| - 1];
      if j.isMint && !Burns(tx, j.key) then before + [(j.key, j.liquidity)] else before
  }

  /** The rows a block opens: each transaction's unburned mints, in order. */
  function OpenRows(txs: seq<seq<JitFact>>): seq<(PosKey, u128)> {
    if txs == [] then []
    else OpenRows(txs[..|txs| - 1]) + Unburned(txs[|txs| - 1], txs[|txs| - 1])
  }

  /** A position after the block: gone if any transaction burned it, else as the
      block opened it, else as before. */
  ghost function AfterBlock(txs: seq<seq<JitFact>>, block: u64, k: PosKey,
                            before: Option<OpenPosition>): Option<OpenPosition> {
    if Closed(txs, k) then None
    else if Opened(txs, k) then Some(OpenPosition(block, LastLiquidity(OpenRows(txs), k)))
    else before
  }

  class JitStore {
    var open: Positions

    /** `INSERT OR REPLACE` of each row. */
    method RecordJitOpen(rows: seq<(PosKey, u128)>, block: u64)
      modifies this
      ensures forall k :: k in open <==> k in old(open) || HasKey(rows, k)
      ensures forall k :: k in open ==>
        open[k] == if HasKey(rows, k) then OpenPosition(block, LastLiquidity(rows, k)) else old(open)[k]
    {
      for n := 0 to |rows|
        invariant forall k :: k in open <==> k in old(open) || HasKey(rows[..n], k)
        invariant forall k :: k in open ==>
          open[k] == if HasKey(rows[..n], k) then OpenPosition(block, LastLiquidity(rows[..n], k)) else old(open)[k]
      {
        assert rows[..n + 1][..n] == rows[..n];
        forall k ensures HasKey(rows[..n + 1], k) <==> HasKey(rows[..n], k) || k == rows[n].0 {
          assert rows[..n + 1] == rows[..n] + [rows[n]];
          HasKeyOfConcat(rows[..n], [rows[n]], k);
          assert [rows[n]][0].0 == rows[n].0;
        }
        open := open[rows[n].0 := OpenPosition(block, rows[n].1)];
      }
      assert rows[..|rows|] == rows;
    }

    method CloseJitPositions(keys: set<PosKey>)
      modifies this
      ensures open == old(open) - keys
    {
      open := open - keys;
    }

    method PruneJitPositions(before: u64)
      modifies this
      ensures open == map k | k in old(open) && old(open)[k].openedBlock >= before :: old(open)[k]
    {
      open := map k | k in open && open[k].openedBlock >= before :: open[k];
    }
  }

  /** The rows a block's facts open and the keys they close. */
  method CollectRows(txs: seq<seq<JitFact>>) returns (opens: seq<(PosKey, u128)>, closes: set<PosKey>)
    ensures opens == OpenRows(txs)
    ensures forall k :: HasKey(opens, k) <==> Opened(txs, k)
    ensures forall k :: k in closes <==> Closed(txs, k)
  {
    opens, closes := [], {};
    for n := 0 to |txs|
      invariant opens == OpenRows(txs[..n])
      invariant forall k :: k in closes <==> exists i :: 0 <= i < n && Burns(txs[i], k)
      invariant forall k :: HasKey(opens, k) <==>
        exists i :: 0 <= i < n && Mints(txs[i], k) && !Burns(txs[i], k)
    {
      var t := txs[n];
      assert txs[..n + 1][..n] == txs[..n];
      var burned := set j | j in t && !j.isMint :: j.key;
      forall k ensures k in burned <==> Burns(t, k) {
      }
      var minted := FreshMints(t, burned);
      forall k ensures HasKey(opens + minted, k) <==> HasKey(opens, k) || HasKey(minted, k) {
        HasKeyOfConcat(opens, minted, k);
      }
      opens := opens + minted;
      closes := closes + burned;
    }
    assert txs[..|txs|] == txs;
    MeaningByIndex(txs);
  }

  /** What a block's facts do to the open positions. */
  method PersistJitPositions(store: JitStore, block: u64, txs: seq<seq<JitFact>>, window: u64)
    modifies store
    ensures forall k :: Position(store.open, SatSubU64(block, window), k)
                     == AfterBlock(txs, block, k, Position(old(store.open), SatSubU64(block, window), k))
    ensures (exists k :: Opened(txs, k) || Closed(txs, k)) ==>
      forall k :: k in store.open ==> store.open[k].openedBlock + window >= block
  {
    hide Opened, Closed, HasKey, OpenRows, LastLiquidity;
    var opens, closes := CollectRows(txs);
    if opens == [] && closes == {} {
      forall k ensures !Opened(txs, k) && !Closed(txs, k) {
        NoRowsNoKeys(k);
      }
      return;
    }
    if opens != [] {
      store.RecordJitOpen(opens, block);
    } else {
      forall k ensures !Opened(txs, k) {
        NoRowsNoKeys(k);
      }
    }
    store.CloseJitPositions(closes);
    store.PruneJitPositions(SatSubU64(block, window));
  }

  lemma NoRowsNoKeys(k: PosKey)
    ensures !HasKey([], k)
  {
  }

  lemma HasKeyOfConcat(a: seq<(PosKey, u128)>, b: seq<(PosKey, u128)>, k: PosKey)
    ensures HasKey(a + b, k) <==> HasKey(a, k) || HasKey(b, k)
  {
    if HasKey(a, k) {
      var i :| 0 <= i < |a| && a[i].0 == k;
      assert (a + b)[i].0 == k;
    }
    if HasKey(b, k) {
      var i :| 0 <= i < |b| && b[i].0 == k;
      assert (a + b)[|a| + i].0 == k;
    }
  }

  lemma MeaningByIndex(txs: seq<seq<JitFact>>)
    ensures forall k :: Opened(txs, k) <==> exists i :: 0 <= i < |txs| && Mints(txs[i], k) && !Burns(txs[i], k)
    ensures forall k :: Closed(txs, k) <==> exists i :: 0 <= i < |txs| && Burns(txs[i], k)
  {
  }

  /** The mints of one transaction that it does not burn itself. */
  method FreshMints(t: seq<JitFact>, burned: set<PosKey>) returns (rows: seq<(PosKey, u128)>)
    requires forall k :: k in burned <==> Burns(t, k)
    ensures forall k :: HasKey(rows, k) <==> Mints(t, k) && !Burns(t, k)
    ensures rows == Unburned(t, t)
  {
    rows := [];
    for n := 0 to |t|
      invariant rows == Unburned(t[..n], t)
      invariant forall k :: HasKey(rows, k) <==>
        (exists i :: 0 <= i < n && t[i].isMint && t[i].key == k) && k !in burned
    {
      var j := t[n];
      assert t[..n + 1][..n] == t[..n];
      if j.isMint && j.key !in burned {
        forall k ensures HasKey(rows + [(j.key, j.liquidity)], k) <==> HasKey(rows, k) || k == j.key {
          HasKeyOfConcat(rows, [(j.key, j.liquidity)], k);
          assert [(j.key, j.liquidity)][0].0 == j.key;
        }
        rows := rows + [(j.key, j.liquidity)];
      }
    }
    assert t[..|t|] == t;
  }

  // ----- against replaying the facts in order

  /** The position of `k` after the facts so far, replayed one at a time. */
  function Replay(facts: seq<JitFact>, block: u64, k: PosKey, before: Option<OpenPosition>): Option<OpenPosition> {
    if facts == [] then before
    else
      var last := facts[|facts| - 1];
      if last.key != k then Replay(facts[..|facts| - 1], block, k, before)
      else if last.isMint then Some(OpenPosition(block, last.liquidity))
      else None
  }

  function InOrder(txs: seq<seq<JitFact>>): seq<JitFact> {
    if txs == [] then [] else InOrder(txs[..|txs| - 1]) + txs[|txs| - 1]
  }

  /** The last fact about `k`. */
  function LastFact(facts: seq<JitFact>, k: PosKey): Option<JitFact> {
    if facts == [] then None
    else if facts[|facts| - 1].key == k then Some(facts[|facts| - 1])
    else LastFact(facts[..|facts| - 1], k)
  }

  lemma {:induction false} ReplayEndsWithLastFact(facts: seq<JitFact>, block: u64, k: PosKey,
                                                  before: Option<OpenPosition>)
    ensures LastFact(facts, k).None? <==> forall j :: j in facts ==> j.key != k
    ensures LastFact(facts, k).Some? ==>
      (Replay(facts, block, k, before).Some? <==> LastFact(facts, k).value.isMint)
  {
    if facts != [] {
      ReplayEndsWithLastFact(facts[..|facts| - 1], block, k, before);
      assert facts == facts[..|facts| - 1] + [facts[|facts| - 1]];
    }
  }

  lemma {:induction false} ReplayInTwo(a: seq<JitFact>, b: seq<JitFact>, block: u64, k: PosKey,
                                       before: Option<OpenPosition>)
    ensures Replay(a + b, block, k, before) == Replay(b, block, k, Replay(a, block, k, before))
  {
    if b == [] {
      assert a + b == a;
    } else {
      var init := b[..|b| - 1];
      assert (a + b)[..|a + b| - 1] == a + init;
      ReplayInTwo(a, init, block, k, before);
    }
  }

  /** What recorded rows make of a position. */
  function Recorded(rows: seq<(PosKey, u128)>, block: u64, k: PosKey,
                    before: Option<OpenPosition>): Option<OpenPosition> {
    if rows == [] then before
    else if rows[|rows| - 1].0 == k then Some(OpenPosition(block, rows[|rows| - 1].1))
    else Recorded(rows[..|rows| - 1], block, k, before)
  }

  lemma {:induction false} RecordedMeaning(rows: seq<(PosKey, u128)>, block: u64, k: PosKey,
                                           before: Option<OpenPosition>)
    ensures Recorded(rows, block, k, before)
         == if HasKey(rows, k) then Some(OpenPosition(block, LastLiquidity(rows, k))) else before
  {
    if rows != [] {
      var init, row := rows[..|rows| - 1], rows[|rows| - 1];
      RecordedMeaning(init, block, k, before);
      HasKeyOfConcat(init, [row], k);
      assert rows == init + [row] && [row][0] == row;
    }
  }

  lemma {:induction false} RecordedInTwo(a: seq<(PosKey, u128)>, b: seq<(PosKey, u128)>, block: u64, k: PosKey,
                                         before: Option<OpenPosition>)
    ensures Recorded(a + b, block, k, before) == Recorded(b, block, k, Recorded(a, block, k, before))
  {
    if b == [] {
      assert a + b == a;
    } else {
      var init := b[..|b| - 1];
      assert (a + b)[..|a + b| - 1] == a + init;
      RecordedInTwo(a, init, block, k, before);
    }
  }

  /** Facts of a transaction that never burns `k`: recording its unburned mints
      is replaying it. */
  lemma {:induction false} UnburnedIsReplay(facts: seq<JitFact>, tx: seq<JitFact>, block: u64, k: PosKey,
                                            before: Option<OpenPosition>)
    requires !Burns(tx, k) && forall j :: j in facts ==> j in tx
    ensures Recorded(Unburned(facts, tx), block, k, before) == Replay(facts, block, k, before)
  {
    if facts != [] {
      var init, j := facts[..|facts| - 1], facts[|facts| - 1];
      assert j in facts;
      UnburnedIsReplay(init, tx, block, k, before);
      var row := (j.key, j.liquidity);
      assert (Unburned(init, tx) + [row])[..|Unburned(init, tx)|] == Unburned(init, tx);
    }
  }

  lemma {:induction false} UnclosedIsReplay(txs: seq<seq<JitFact>>, block: u64, k: PosKey, before: Option<OpenPosition>)
    requires !Closed(txs, k)
    ensures Recorded(OpenRows(txs), block, k, before) == Replay(InOrder(txs), block, k, before)
  {
    if txs != [] {
      var init, t := txs[..|txs| - 1], txs[|txs| - 1];
      assert t in txs;
      UnclosedIsReplay(init, block, k, before);
      UnburnedIsReplay(t, t, block, k, Replay(InOrder(init), block, k, before));
      ReplayInTwo(InOrder(init), t, block, k, before);
      RecordedInTwo(OpenRows(init), Unburned(t, t), block, k, before);
    }
  }

  lemma {:induction false} RowsAreOpened(txs: seq<seq<JitFact>>, k: PosKey)
    ensures HasKey(OpenRows(txs), k) <==> Opened(txs, k)
  {
    if txs != [] {
      var init, t := txs[..|txs| - 1], txs[|txs| - 1];
      RowsAreOpened(init, k);
      UnburnedKeys(t, t, k);
      HasKeyOfConcat(OpenRows(init), Unburned(t, t), k);
      assert txs == init + [t];
    }
  }

  lemma {:induction false} UnburnedKeys(facts: seq<JitFact>, tx: seq<JitFact>, k: PosKey)
    ensures HasKey(Unburned(facts, tx), k) <==> Mints(facts, k) && !Burns(tx, k)
  {
    if facts != [] {
      var init, j := facts[..|facts| - 1], facts[|facts| - 1];
      UnburnedKeys(init, tx, k);
      assert facts == init + [j];
      var row := (j.key, j.liquidity);
      HasKeyOfConcat(Unburned(init, tx), [row], k);
      assert [row][0] == row;
    }
  }

  lemma {:induction false} ClosedHasFact(txs: seq<seq<JitFact>>, k: PosKey)
    requires Closed(txs, k)
    ensures exists j :: j in InOrder(txs) && j.key == k
  {
    var init, t := txs[..|txs| - 1], txs[|txs| - 1];
    assert txs == init + [t];
    if Burns(t, k) {
      var j :| j in t && !j.isMint && j.key == k;
      assert j in InOrder(txs);
    } else {
      ClosedHasFact(init, k);
      var j :| j in InOrder(init) && j.key == k;
      assert j in InOrder(txs);
    }
  }

  /** A stored position is what replaying the block's facts in order gives, its
      block and liquidity included, exactly unless some transaction burns it
      and the last fact about it is a mint: the deletes run after the inserts,
      so such a re-opened position is lost. */
  lemma BatchedIsReplayExactlyUnlessReopened(txs: seq<seq<JitFact>>, block: u64, k: PosKey,
                                             before: Option<OpenPosition>)
    ensures var last := LastFact(InOrder(txs), k);
      AfterBlock(txs, block, k, before) == Replay(InOrder(txs), block, k, before) <==>
        !(Closed(txs, k) && last.Some? && last.value.isMint)
  {
    hide Opened, Closed, HasKey, OpenRows, InOrder, Replay, LastFact, Recorded, LastLiquidity;
    ReplayEndsWithLastFact(InOrder(txs), block, k, before);
    if Closed(txs, k) {
      ClosedHasFact(txs, k);
    } else {
      UnclosedIsReplay(txs, block, k, before);
      RecordedMeaning(OpenRows(txs), block, k, before);
      RowsAreOpened(txs, k);
    }
  }
}
