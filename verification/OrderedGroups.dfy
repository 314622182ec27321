/** `BTreeMap<u64, Vec<T>>` filled with `entry(key).or_default().push(x)`:
    a list of groups in ascending key order. What is proved is what a reader of
    the map relies on: each key holds exactly its items in input order, the order
    of the input does not matter across keys, and later keys leave the groups of
    the earlier ones alone. */
module OrderedGroups {

  datatype Group<T> = Group(key: int, items: seq<T>)

  function Upsert<T>(g: seq<Group<T>>, key: int, x: T): seq<Group<T>> {
    if g == [] then [Group(key, [x])]
    else if g[0].key == key then [Group(key, g[0].items + [x])] + g[1..]
    else if key < g[0].key then [Group(key, [x])] + g
    else [g[0]] + Upsert(g[1..], key, x)
  }

  function Grouped<T>(key: T -> int, s: seq<T>): seq<Group<T>> {
    if s == [] then [] else Upsert(Grouped(key, s[..|s| - 1]), key(s[|s| - 1]), s[|s| - 1])
  }

  ghost predicate Ascending<T>(g: seq<Group<T>>) {
    |g| <= 1 || (g[0].key < g[1].key && Ascending(g[1..]))
  }

  ghost predicate NoneEmpty<T>(g: seq<Group<T>>) {
    forall e :: e in g ==> e.items != []
  }

  lemma {:induction false} AscendingHead<T(!new)>(g: seq<Group<T>>)
    requires Ascending(g) && g != []
    ensures forall e :: e in g[1..] ==> g[0].key < e.key
  {
    if |g| > 1 {
      AscendingHead(g[1..]);
      forall e | e in g[1..] ensures g[0].key < e.key {
        assert e == g[1] || e in g[1..][1..];
      }
    }
  }

  /** The items of `s` with key `k`, in input order. */
  ghost function WithKey<T>(key: T -> int, s: seq<T>, k: int): seq<T> {
    if s == [] then []
    else if key(s[|s| - 1]) == k then WithKey(key, s[..|s| - 1], k) + [s[|s| - 1]]
    else WithKey(key, s[..|s| - 1], k)
  }

  ghost function Lookup<T>(g: seq<Group<T>>, k: int): seq<T> {
    if g == [] then [] else if g[0].key == k then g[0].items else Lookup(g[1..], k)
  }

  lemma {:induction false} LookupAbsent<T(!new)>(g: seq<Group<T>>, k: int)
    requires forall e :: e in g ==> e.key != k
    ensures Lookup(g, k) == []
  {
    if g != [] {
      assert g[0] in g;
      LookupAbsent(g[1..], k);
    }
  }

  lemma {:induction false} LookupAt<T(!new)>(g: seq<Group<T>>, i: nat)
    requires Ascending(g) && i < |g|
    ensures Lookup(g, g[i].key) == g[i].items
  {
    if i > 0 {
      AscendingHead(g);
      assert g[i] == g[1..][i - 1];
      LookupAt(g[1..], i - 1);
    }
  }

  lemma {:induction false} UpsertAscending<T(!new)>(g: seq<Group<T>>, key: int, x: T)
    requires Ascending(g)
    ensures Upsert(g, key, x) != [] && Ascending(Upsert(g, key, x))
    ensures Upsert(g, key, x)[0].key == if g == [] || key < g[0].key then key else g[0].key
  {
    if g != [] && g[0].key < key {
      var r := Upsert(g[1..], key, x);
      UpsertAscending(g[1..], key, x);
      assert ([g[0]] + r)[1..] == r;
    } else if g != [] && g[0].key == key {
      assert ([Group(key, g[0].items + [x])] + g[1..])[1..] == g[1..];
    } else {
      assert ([Group(key, [x])] + g)[1..] == g;
    }
  }

  lemma {:induction false} UpsertNoneEmpty<T(!new)>(g: seq<Group<T>>, key: int, x: T)
    requires NoneEmpty(g)
    ensures NoneEmpty(Upsert(g, key, x))
  {
    if g != [] && g[0].key != key && g[0].key < key {
      UpsertNoneEmpty(g[1..], key, x);
    }
  }

  lemma {:induction false} UpsertLookup<T(!new)>(g: seq<Group<T>>, key: int, x: T, k: int)
    requires Ascending(g)
    ensures Lookup(Upsert(g, key, x), k) == Lookup(g, k) + if k == key then [x] else []
  {
    if g == [] {
      assert Lookup(g, k) == [];
    } else if g[0].key == key {
      assert ([Group(key, g[0].items + [x])] + g[1..])[1..] == g[1..];
    } else if key < g[0].key {
      assert ([Group(key, [x])] + g)[1..] == g;
      if k == key {
        LookupBelow(g, k);
      }
    } else {
      UpsertLookup(g[1..], key, x, k);
      assert ([g[0]] + Upsert(g[1..], key, x))[1..] == Upsert(g[1..], key, x);
    }
  }

  /** Grouping is right: ascending keys, no empty group, and each group is
      exactly the items of its key in input order. */
  lemma {:induction false} GroupedMeaning<T(!new)>(key: T -> int, s: seq<T>)
    ensures Ascending(Grouped(key, s)) && NoneEmpty(Grouped(key, s))
    ensures forall k :: Lookup(Grouped(key, s), k) == WithKey(key, s, k)
  {
    if s != [] {
      var init, x := s[..|s| - 1], s[|s| - 1];
      GroupedMeaning(key, init);
      UpsertAscending(Grouped(key, init), key(x), x);
      UpsertNoneEmpty(Grouped(key, init), key(x), x);
      forall k ensures Lookup(Grouped(key, s), k) == WithKey(key, s, k) {
        UpsertLookup(Grouped(key, init), key(x), x, k);
      }
    }
  }

  lemma {:induction false} WithKeyCounts<T(!new)>(key: T -> int, s: seq<T>, k: int)
    ensures forall x :: multiset(WithKey(key, s, k))[x] == if key(x) == k then multiset(s)[x] else 0
  {
    if s != [] {
      WithKeyCounts(key, s[..|s| - 1], k);
      assert s == s[..|s| - 1] + [s[|s| - 1]];
    }
  }

  /** What group `i` holds, counted. */
  lemma GroupCounts<T(!new)>(key: T -> int, s: seq<T>, i: nat)
    requires i < |Grouped(key, s)|
    ensures var g := Grouped(key, s)[i];
            forall x :: multiset(g.items)[x] == if key(x) == g.key then multiset(s)[x] else 0
  {
    GroupedMeaning(key, s);
    LookupAt(Grouped(key, s), i);
    WithKeyCounts(key, s, Grouped(key, s)[i].key);
  }

  // ----- groupings of related inputs

  lemma HeadNotEmpty<T(!new)>(g: seq<Group<T>>)
    requires NoneEmpty(g) && g != []
    ensures |multiset(Lookup(g, g[0].key))| > 0
  {
    assert g[0] in g;
    assert Lookup(g, g[0].key) == g[0].items;
  }

  /** Every key is above `k`, so looking `k` up finds nothing. */
  lemma LookupBelow<T(!new)>(g: seq<Group<T>>, k: int)
    requires Ascending(g) && (g != [] ==> k < g[0].key)
    ensures Lookup(g, k) == []
  {
    if g != [] {
      AscendingHead(g);
      forall e | e in g ensures e.key != k {
        assert e == g[0] || e in g[1..];
      }
    }
    LookupAbsent(g, k);
  }

  /** Two ordered groupings that agree on every key, up to order within a key,
      have the same keys. */
  lemma {:induction false} SameLookupSameGroups<T(!new)>(g: seq<Group<T>>, h: seq<Group<T>>)
    requires Ascending(g) && NoneEmpty(g) && Ascending(h) && NoneEmpty(h)
    requires forall k :: multiset(Lookup(g, k)) == multiset(Lookup(h, k))
    ensures |g| == |h|
    ensures forall i :: 0 <= i < |g| ==> g[i].key == h[i].key && multiset(g[i].items) == multiset(h[i].items)
  {
    if g == [] && h == [] {
    } else {
      if g == [] || (h != [] && h[0].key < g[0].key) {
        LookupBelow(g, h[0].key);
        HeadNotEmpty(h);
        assert false;
      }
      if h == [] || g[0].key < h[0].key {
        LookupBelow(h, g[0].key);
        HeadNotEmpty(g);
        assert false;
      }
      forall k ensures multiset(Lookup(g[1..], k)) == multiset(Lookup(h[1..], k)) {
        if k == g[0].key {
          LookupBelow(g[1..], k);
          LookupBelow(h[1..], k);
        } else {
          assert Lookup(g, k) == Lookup(g[1..], k) && Lookup(h, k) == Lookup(h[1..], k);
        }
      }
      SameLookupSameGroups(g[1..], h[1..]);
      assert Lookup(g, g[0].key) == g[0].items && Lookup(h, h[0].key) == h[0].items;
      forall i | 1 <= i < |g| ensures g[i].key == h[i].key && multiset(g[i].items) == multiset(h[i].items) {
        assert g[i] == g[1..][i - 1] && h[i] == h[1..][i - 1];
      }
    }
  }

  /** Permuting the input permutes each group and nothing else. */
  lemma GroupedOfPermutation<T(!new)>(key: T -> int, a: seq<T>, b: seq<T>)
    requires multiset(a) == multiset(b)
    ensures |Grouped(key, a)| == |Grouped(key, b)|
    ensures forall i :: 0 <= i < |Grouped(key, a)| ==>
      && Grouped(key, a)[i].key == Grouped(key, b)[i].key
      && multiset(Grouped(key, a)[i].items) == multiset(Grouped(key, b)[i].items)
  {
    GroupedMeaning(key, a);
    GroupedMeaning(key, b);
    forall k ensures multiset(Lookup(Grouped(key, a), k)) == multiset(Lookup(Grouped(key, b), k)) {
      WithKeyCounts(key, a, k);
      WithKeyCounts(key, b, k);
      assert multiset(WithKey(key, a, k)) == multiset(WithKey(key, b, k));
    }
    SameLookupSameGroups(Grouped(key, a), Grouped(key, b));
  }

  /** Every key of `a` is below every key of `b`. */
  ghost predicate KeysPrecede<T>(key: T -> int, a: seq<T>, b: seq<T>) {
    forall x, y :: x in a && y in b ==> key(x) < key(y)
  }

  lemma GroupKeyWitness<T(!new)>(key: T -> int, s: seq<T>, i: nat)
    requires i < |Grouped(key, s)|
    ensures exists x :: x in s && key(x) == Grouped(key, s)[i].key
  {
    GroupedMeaning(key, s);
    GroupCounts(key, s, i);
    var g := Grouped(key, s)[i];
    assert g in Grouped(key, s);
    var x := g.items[0];
    assert x in multiset(g.items);
    assert multiset(g.items)[x] == if key(x) == g.key then multiset(s)[x] else 0;
    assert x in s && key(x) == g.key;
  }

  lemma {:induction false} UpsertAbove<T(!new)>(g: seq<Group<T>>, h: seq<Group<T>>, key: int, x: T)
    requires forall e :: e in g ==> e.key < key
    ensures Upsert(g + h, key, x) == g + Upsert(h, key, x)
  {
    if g == [] {
      assert g + h == h;
    } else {
      assert g[0] in g;
      assert (g + h)[1..] == g[1..] + h;
      UpsertAbove(g[1..], h, key, x);
    }
  }

  /** Later keys are grouped behind, and leave the earlier groups alone. */
  lemma {:induction false} GroupedOfLaterKeys<T(!new)>(key: T -> int, a: seq<T>, b: seq<T>)
    requires KeysPrecede(key, a, b)
    ensures Grouped(key, a + b) == Grouped(key, a) + Grouped(key, b)
  {
    if b == [] {
      assert a + b == a;
    } else {
      var init, x := b[..|b| - 1], b[|b| - 1];
      assert (a + b)[..|a + b| - 1] == a + init;
      GroupedOfLaterKeys(key, a, init);
      forall e | e in Grouped(key, a) ensures e.key < key(x) {
        var i :| 0 <= i < |Grouped(key, a)| && Grouped(key, a)[i] == e;
        GroupKeyWitness(key, a, i);
        assert x in b;
      }
      UpsertAbove(Grouped(key, a), Grouped(key, init), key(x), x);
    }
  }

  // ----- cutting an input at a key

  /** The items of `s` with a key below `b`, in input order. */
  function Below<T>(key: T -> int, s: seq<T>, b: int): seq<T> {
    if s == [] then []
    else if key(s[|s| - 1]) < b then Below(key, s[..|s| - 1], b) + [s[|s| - 1]]
    else Below(key, s[..|s| - 1], b)
  }

  /** The other items, in input order. */
  function From<T>(key: T -> int, s: seq<T>, b: int): seq<T> {
    if s == [] then []
    else if key(s[|s| - 1]) < b then From(key, s[..|s| - 1], b)
    else From(key, s[..|s| - 1], b) + [s[|s| - 1]]
  }

  lemma {:induction false} CutMeaning<T(!new)>(key: T -> int, s: seq<T>, b: int)
    ensures forall x :: x in Below(key, s, b) <==> x in s && key(x) < b
    ensures forall x :: x in From(key, s, b) <==> x in s && key(x) >= b
  {
    if s != [] {
      CutMeaning(key, s[..|s| - 1], b);
      assert s == s[..|s| - 1] + [s[|s| - 1]];
    }
  }

  lemma {:induction false} UpsertBelow<T(!new)>(g: seq<Group<T>>, h: seq<Group<T>>, key: int, x: T)
    requires forall e :: e in h ==> key < e.key
    ensures Upsert(g + h, key, x) == Upsert(g, key, x) + h
  {
    if g == [] {
      assert g + h == h;
      assert h != [] ==> h[0] in h;
    } else {
      assert (g + h)[0] == g[0] && (g + h)[1..] == g[1..] + h;
      if g[0].key < key {
        assert Upsert(g, key, x) == [g[0]] + Upsert(g[1..], key, x);
        assert Upsert(g + h, key, x) == [g[0]] + Upsert(g[1..] + h, key, x);
        hide Upsert;
        UpsertBelow(g[1..], h, key, x);
      }
    }
  }

  lemma GroupedKeys<T(!new)>(key: T -> int, s: seq<T>)
    ensures forall e :: e in Grouped(key, s) ==> exists x :: x in s && key(x) == e.key
  {
    forall e | e in Grouped(key, s) ensures exists x :: x in s && key(x) == e.key {
      var i :| 0 <= i < |Grouped(key, s)| && Grouped(key, s)[i] == e;
      GroupKeyWitness(key, s, i);
    }
  }

  /** Whatever the input order, the groups below a key come from the items below
      it and the others from the other items. */
  lemma {:induction false} GroupedSplits<T(!new)>(key: T -> int, s: seq<T>, b: int)
    ensures Grouped(key, s) == Grouped(key, Below(key, s, b)) + Grouped(key, From(key, s, b))
  {
    if s != [] {
      var init, x := s[..|s| - 1], s[|s| - 1];
      var low, high := Below(key, init, b), From(key, init, b);
      GroupedSplits(key, init, b);
      CutMeaning(key, init, b);
      GroupedKeys(key, low);
      GroupedKeys(key, high);
      if key(x) < b {
        assert (low + [x])[..|low|] == low;
        UpsertBelow(Grouped(key, low), Grouped(key, high), key(x), x);
      } else {
        assert (high + [x])[..|high|] == high;
        UpsertAbove(Grouped(key, low), Grouped(key, high), key(x), x);
      }
    }
  }

  /** Items at or above `b` leave the cut below `b` alone, wherever they come. */
  lemma {:induction false} BelowIgnoresLater<T(!new)>(key: T -> int, s: seq<T>, more: seq<T>, b: int)
    requires forall x :: x in more ==> key(x) >= b
    ensures Below(key, s + more, b) == Below(key, s, b)
  {
    if more == [] {
      assert s + more == s;
    } else {
      var init := more[..|more| - 1];
      assert (s + more)[..|s + more| - 1] == s + init;
      assert more[|more| - 1] in more;
      BelowIgnoresLater(key, s, init, b);
    }
  }
}
