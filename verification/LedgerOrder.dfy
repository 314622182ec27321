/** The consideration order of the ledger: the four-part sort key, the stable
    sort of a block's candidates, and the grouping by block. */
module LedgerOrder {
  import opened RustInts
  import opened PaperTypes
  import opened StableSort
  import opened OrderedGroups

  /** Byte-wise order of strings, as `String::cmp`. */
  predicate StringLeq(a: string, b: string) {
    a == [] || (b != [] && (a[0] < b[0] || (a[0] == b[0] && StringLeq(a[1..], b[1..]))))
  }

  lemma {:induction false} StringLeqTotal(a: string, b: string)
    ensures StringLeq(a, b) || StringLeq(b, a)
    ensures StringLeq(a, b) && StringLeq(b, a) ==> a == b
  {
    if a != [] && b != [] && a[0] == b[0] {
      StringLeqTotal(a[1..], b[1..]);
      assert a == [a[0]] + a[1..] && b == [b[0]] + b[1..];
    }
  }

  lemma {:induction false} StringLeqTransitive(a: string, b: string, c: string)
    requires StringLeq(a, b) && StringLeq(b, c)
    ensures StringLeq(a, c)
  {
    if a != [] && a[0] == b[0] && b[0] == c[0] {
      StringLeqTransitive(a[1..], b[1..], c[1..]);
    }
  }

  /** `a` comes before `b`: it is the beginning of it, or smaller at the first
      character where they differ. */
  ghost predicate ByteBefore(a: string, b: string) {
    || (|a| < |b| && a == b[..|a|])
    || exists i :: 0 <= i < |a| && i < |b| && a[..i] == b[..i] && a[i] < b[i]
  }

  lemma {:induction false} StringLeqIsByteOrder(a: string, b: string)
    ensures StringLeq(a, b) <==> a == b || ByteBefore(a, b)
  {
    if a != [] && b != [] && a[0] == b[0] {
      StringLeqIsByteOrder(a[1..], b[1..]);
      assert a == [a[0]] + a[1..] && b == [b[0]] + b[1..];
      TailBefore(a, b);
    } else if a != [] && b != [] {
      assert a[..0] == b[..0];
      forall i | 0 < i < |a| && i < |b| ensures a[..i] != b[..i] {
        assert a[..i][0] == a[0] && b[..i][0] == b[0];
      }
    }
  }

  lemma TailBefore(a: string, b: string)
    requires a != [] && b != [] && a[0] == b[0]
    ensures ByteBefore(a, b) <==> ByteBefore(a[1..], b[1..])
  {
    var c, d := a[1..], b[1..];
    assert a == [a[0]] + c && b == [b[0]] + d;
    forall i | 0 <= i < |c| && i < |d| ensures c[..i] == d[..i] <==> a[..i + 1] == b[..i + 1] {
      SamePrefix(a, b, i);
    }
    if |c| < |d| {
      SamePrefix(a, b, |c|);
      assert a[..|a|] == a && c[..|c|] == c;
    }
    if ByteBefore(a, b) && !(|a| < |b| && a == b[..|a|]) {
      var i :| 0 <= i < |a| && i < |b| && a[..i] == b[..i] && a[i] < b[i];
      assert c[i - 1] < d[i - 1];
    }
    if ByteBefore(c, d) && !(|c| < |d| && c == d[..|c|]) {
      var i :| 0 <= i < |c| && i < |d| && c[..i] == d[..i] && c[i] < d[i];
      assert a[i + 1] < b[i + 1];
    }
  }

  lemma SamePrefix(a: string, b: string, i: nat)
    requires a != [] && b != [] && a[0] == b[0] && i < |a| && i < |b|
    ensures a[1..][..i] == b[1..][..i] <==> a[..i + 1] == b[..i + 1]
  {
    assert a[..i + 1] == [a[0]] + a[1..][..i] && b[..i + 1] == [b[0]] + b[1..][..i];
    assert a[..i + 1][1..] == a[1..][..i] && b[..i + 1][1..] == b[1..][..i];
  }

  datatype SortKey = SortKey(net: i128, mempoolRank: nat, txIndex: usize, cid: string)

  function KeyOf(opp: Opportunity): SortKey {
    SortKey(NetWei(opp),
            if opp.mempoolOnly then 1 else 0,
            opp.txIndex,
            if opp.canonicalId.Some? then opp.canonicalId.value else "")
  }

  /** Descending net, then mempool last, then transaction index, then id. */
  predicate KeyLeq(a: SortKey, b: SortKey) {
    a.net > b.net || (a.net == b.net &&
    (a.mempoolRank < b.mempoolRank || (a.mempoolRank == b.mempoolRank &&
    (a.txIndex < b.txIndex || (a.txIndex == b.txIndex && StringLeq(a.cid, b.cid))))))
  }

  lemma KeyLeqTotal(a: SortKey, b: SortKey)
    ensures KeyLeq(a, b) || KeyLeq(b, a)
    ensures KeyLeq(a, b) && KeyLeq(b, a) ==> a == b
  {
    StringLeqTotal(a.cid, b.cid);
  }

  lemma KeyLeqTransitive(a: SortKey, b: SortKey, c: SortKey)
    requires KeyLeq(a, b) && KeyLeq(b, c)
    ensures KeyLeq(a, c)
  {
    if StringLeq(a.cid, b.cid) && StringLeq(b.cid, c.cid) {
      StringLeqTransitive(a.cid, b.cid, c.cid);
    }
  }

  predicate OppLeq(a: Opportunity, b: Opportunity) {
    KeyLeq(KeyOf(a), KeyOf(b))
  }

  lemma OppLeqIsTotalPreorder()
    ensures TotalPreorder(OppLeq)
  {
    forall a, b ensures OppLeq(a, b) || OppLeq(b, a) {
      KeyLeqTotal(KeyOf(a), KeyOf(b));
    }
    forall a, b, c | OppLeq(a, b) && OppLeq(b, c) ensures OppLeq(a, c) {
      KeyLeqTransitive(KeyOf(a), KeyOf(b), KeyOf(c));
    }
  }

  /** `opps.sort_by(..)`: by key, equal keys in input order. */
  function SortOpps(s: seq<Opportunity>): seq<Opportunity> {
    Sort(OppLeq, s)
  }

  /** Equal keys only on equal candidates. */
  ghost predicate DistinctKeys(s: seq<Opportunity>) {
    forall x, y :: x in s && y in s && KeyOf(x) == KeyOf(y) ==> x == y
  }

  lemma SortOppsSorts(s: seq<Opportunity>)
    ensures Sorted(OppLeq, SortOpps(s))
    ensures multiset(SortOpps(s)) == multiset(s)
    ensures forall k :: Ties(OppLeq, SortOpps(s), k) == Ties(OppLeq, s, k)
  {
    OppLeqIsTotalPreorder();
    SortIsStableSort(OppLeq, s);
  }

  lemma SortOppsDependsOnMultiset(a: seq<Opportunity>, b: seq<Opportunity>)
    requires multiset(a) == multiset(b)
    requires DistinctKeys(a)
    ensures SortOpps(a) == SortOpps(b)
  {
    OppLeqIsTotalPreorder();
    forall x, y | x in a && y in a && OppLeq(x, y) && OppLeq(y, x) ensures x == y {
      KeyLeqTotal(KeyOf(x), KeyOf(y));
    }
    SortDependsOnMultiset(OppLeq, a, b);
  }

  // ----- grouping by block

  function BlockOf(opp: Opportunity): int {
    opp.blockNumber
  }

  function ByBlock(opps: seq<Opportunity>): seq<Group<Opportunity>> {
    Grouped(BlockOf, opps)
  }

  /** The candidates in the order in which their turn comes. */
  function InTurn(groups: seq<Group<Opportunity>>): seq<Opportunity> {
    if groups == [] then [] else SortOpps(groups[0].items) + InTurn(groups[1..])
  }

  lemma SortedItems(g: Group<Opportunity>)
    requires forall x :: x in g.items ==> BlockOf(x) == g.key
    ensures forall x :: x in SortOpps(g.items) ==> BlockOf(x) == g.key
  {
    hide SortOpps;
    SortOppsSorts(g.items);
    forall x | x in SortOpps(g.items) ensures x in g.items {
      assert x in multiset(SortOpps(g.items));
    }
  }
}
