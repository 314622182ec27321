/** The explorer database as the indexer sees it: the hash of every classified
    block, and the sync checkpoint. A block row and its classified mark are
    written in one transaction and deleted in one, so one map stands for both. */
module ExplorerStore {
  import opened RustInts
  import opened PaperTypes
  import opened Sequences

  type Hash = nat
  type Blocks = map<u64, Hash>

  /** A block row as it is written. */
  datatype Row = Row(block: u64, hash: Hash)

  /** The rows of `rows`, inserted in order. */
  function WithRows(m: Blocks, rows: seq<Row>): Blocks {
    if rows == [] then m
    else
      var last := rows[|rows| - 1];
      Inserted(WithRows(m, rows[..|rows| - 1]), last.block, last.hash)
  }

  /** `DELETE .. WHERE block >= fork` */
  function Unwound(m: Blocks, fork: u64): Blocks {
    map b | b in m && b < fork :: m[b]
  }

  /** `INSERT OR IGNORE` of a block row. */
  function Inserted(m: Blocks, block: u64, hash: Hash): Blocks {
    if block in m then m else m[block := hash]
  }

  lemma {:induction false} WithRowsInTwo(m: Blocks, a: seq<Row>, b: seq<Row>)
    ensures WithRows(m, a + b) == WithRows(WithRows(m, a), b)
  {
    if b == [] {
      assert a + b == a;
    } else {
      assert (a + b)[..|a + b| - 1] == a + b[..|b| - 1];
      WithRowsInTwo(m, a, b[..|b| - 1]);
    }
  }

  lemma RowsSnoc(m: Blocks, rows: seq<Row>, row: Row)
    ensures WithRows(m, rows + [row]) == Inserted(WithRows(m, rows), row.block, row.hash)
  {
    assert (rows + [row])[..|rows|] == rows;
  }

  ghost predicate HasRow(rows: seq<Row>, b: u64) {
    exists k :: 0 <= k < |rows| && rows[k].block == b
  }

  lemma HasRowSnoc(rows: seq<Row>, row: Row, b: u64)
    ensures HasRow(rows + [row], b) <==> HasRow(rows, b) || row.block == b
  {
    var more := rows + [row];
    assert more[|rows|] == row;
    if HasRow(rows, b) {
      var k :| 0 <= k < |rows| && rows[k].block == b;
      assert more[k].block == b;
    }
    if HasRow(more, b) {
      var k :| 0 <= k < |more| && more[k].block == b;
      assert k < |rows| ==> rows[k].block == b;
    }
  }

  lemma {:induction false} WithRowsKeys(m: Blocks, rows: seq<Row>)
    ensures forall b :: b in WithRows(m, rows) <==> b in m || HasRow(rows, b)
  {
    if rows != [] {
      var init, last := rows[..|rows| - 1], rows[|rows| - 1];
      WithRowsKeys(m, init);
      assert rows == init + [last];
      forall b ensures HasRow(rows, b) <==> HasRow(init, b) || last.block == b {
        HasRowSnoc(init, last, b);
      }
    }
  }

  /** A stored block keeps its hash whatever is inserted, and a new one gets that of
      its first row. */
  lemma {:induction false} FirstRowStays(m: Blocks, rows: seq<Row>, b: u64, hash: Hash)
    ensures b in m ==> b in WithRows(m, rows) && WithRows(m, rows)[b] == m[b]
    ensures b !in m && (exists k :: 0 <= k < |rows| && rows[k] == Row(b, hash)
                                    && forall l :: 0 <= l < k ==> rows[l].block != b) ==>
      b in WithRows(m, rows) && WithRows(m, rows)[b] == hash
  {
    if rows != [] {
      var init := rows[..|rows| - 1];
      FirstRowStays(m, init, b, hash);
      WithRowsKeys(m, init);
      forall k | 0 <= k < |rows| ensures k < |init| ==> rows[k] == init[k] {
      }
      if b !in m && !HasRow(init, b) && rows[|rows| - 1] == Row(b, hash) {
        assert b !in WithRows(m, init);
      }
    }
  }

  /** The blocks of `[lo, hi]` that are not classified, ascending. */
  function Unclassified(m: Blocks, lo: u64, hi: u64): seq<u64>
    decreases hi
  {
    if hi < lo then []
    else
      var before := if lo < hi then Unclassified(m, lo, hi - 1) else [];
      if hi in m then before else before + [hi]
  }

  lemma {:induction false} UnclassifiedMeaning(m: Blocks, lo: u64, hi: u64)
    ensures forall b: u64 :: b in Unclassified(m, lo, hi) <==> lo <= b <= hi && b !in m
    ensures Ascends(Unclassified(m, lo, hi))
    decreases hi
  {
    if lo <= hi {
      var before := if lo < hi then Unclassified(m, lo, hi - 1) else [];
      assert Unclassified(m, lo, hi) == if hi in m then before else before + [hi];
      hide Ascends, Unclassified;
      if lo < hi {
        UnclassifiedMeaning(m, lo, hi - 1);
      } else {
        EmptyAscends();
      }
      OneBlockMore(m, lo, hi, before);
    }
  }

  lemma EmptyAscends()
    ensures Ascends([])
  {
  }

  lemma OneBlockMore(m: Blocks, lo: u64, hi: u64, before: seq<u64>)
    requires lo <= hi && Ascends(before)
    requires forall b: u64 :: b in before <==> lo <= b < hi && b !in m
    ensures var after := if hi in m then before else before + [hi];
      Ascends(after) && forall b: u64 :: b in after <==> lo <= b <= hi && b !in m
  {
    hide Ascends;
    AscendsSnoc(before, hi);
    forall b: u64 ensures b in before + [hi] <==> b in before || b == hi {
    }
  }

  lemma AscendsSnoc(s: seq<u64>, x: u64)
    requires Ascends(s) && forall b :: b in s ==> b < x
    ensures Ascends(s + [x])
  {
    forall i | 0 <= i < |s| ensures s[i] < x {
      assert s[i] in s;
    }
  }

  class Store {
    var blocks: Blocks
    var head: u64
    var indexedTo: u64
    ghost var history: seq<Row>

    constructor (blocks: Blocks, head: u64, indexedTo: u64)
      ensures this.blocks == blocks && this.head == head && this.indexedTo == indexedTo && history == []
    {
      this.blocks, this.head, this.indexedTo, history := blocks, head, indexedTo, [];
    }

    function BlockHash(b: u64): Option<Hash>
      reads this
    {
      if b in blocks then Some(blocks[b]) else None
    }

    method UnwindFrom(fork: u64)
      modifies this`blocks
      ensures blocks == Unwound(old(blocks), fork)
    {
      blocks := map b | b in blocks && b < fork :: blocks[b];
    }

    /** `history` lists the rows ever added, in order. */
    method InsertBlock(b: u64, hash: Hash)
      modifies this`blocks, this`history
      ensures blocks == Inserted(old(blocks), b, hash)
      ensures history == if b in old(blocks) then old(history) else old(history) + [Row(b, hash)]
    {
      if b !in blocks {
        blocks := blocks[b := hash];
        history := history + [Row(b, hash)];
      }
    }

    method SetSyncState(head: u64, indexedTo: u64)
      modifies this`head, this`indexedTo
      ensures this.head == head && this.indexedTo == indexedTo
    {
      this.head, this.indexedTo := head, indexedTo;
    }
  }
}
