/** The contract of Rust's stable `sort_by`, for any total preorder: the sorted
    permutation that keeps equivalent elements in input order. A list whose
    elements do not tie has one sorted permutation, so sorting forgets the input
    order then; with ties it does not. The sort itself is by insertion, since only
    its contract matters. */
module StableSort {

  ghost predicate TotalPreorder<T(!new)>(leq: (T, T) -> bool) {
    && (forall a, b :: leq(a, b) || leq(b, a))
    && (forall a, b, c :: leq(a, b) && leq(b, c) ==> leq(a, c))
  }

  /** Place `x` behind every element it does not strictly precede. */
  function Insert<T>(leq: (T, T) -> bool, s: seq<T>, x: T): seq<T> {
    if s == [] then [x]
    else if leq(s[0], x) then [s[0]] + Insert(leq, s[1..], x)
    else [x] + s
  }

  function Sort<T>(leq: (T, T) -> bool, s: seq<T>): seq<T> {
    if s == [] then [] else Insert(leq, Sort(leq, s[..|s| - 1]), s[|s| - 1])
  }

  ghost predicate Sorted<T(!new)>(leq: (T, T) -> bool, s: seq<T>) {
    s != [] ==> (forall y :: y in s[1..] ==> leq(s[0], y)) && Sorted(leq, s[1..])
  }

  /** The elements of `s` that tie with `k`, in order. */
  ghost function Ties<T>(leq: (T, T) -> bool, s: seq<T>, k: T): seq<T> {
    if s == [] then []
    else if leq(k, s[0]) && leq(s[0], k) then [s[0]] + Ties(leq, s[1..], k)
    else Ties(leq, s[1..], k)
  }

  lemma {:induction false} TiesAppend<T(!new)>(leq: (T, T) -> bool, s: seq<T>, t: seq<T>, k: T)
    ensures Ties(leq, s + t, k) == Ties(leq, s, k) + Ties(leq, t, k)
  {
    if s == [] {
      assert s + t == t;
    } else {
      var head := if leq(k, s[0]) && leq(s[0], k) then [s[0]] else [];
      assert (s + t)[0] == s[0] && (s + t)[1..] == s[1..] + t;
      assert Ties(leq, s, k) == head + Ties(leq, s[1..], k);
      assert Ties(leq, s + t, k) == head + Ties(leq, s[1..] + t, k);
      hide Ties;
      TiesAppend(leq, s[1..], t, k);
    }
  }

  lemma {:induction false} NoTies<T>(leq: (T, T) -> bool, s: seq<T>, k: T)
    requires forall y :: y in s ==> !(leq(k, y) && leq(y, k))
    ensures Ties(leq, s, k) == []
  {
    if s != [] {
      assert s[0] in s;
      NoTies(leq, s[1..], k);
    }
  }

  lemma {:induction false} InsertMultiset<T(!new)>(leq: (T, T) -> bool, s: seq<T>, x: T)
    ensures multiset(Insert(leq, s, x)) == multiset(s) + multiset{x}
  {
    if s != [] && leq(s[0], x) {
      InsertMultiset(leq, s[1..], x);
      assert s == [s[0]] + s[1..];
    }
  }

  lemma {:induction false} InsertSorts<T(!new)>(leq: (T, T) -> bool, s: seq<T>, x: T)
    requires TotalPreorder(leq) && Sorted(leq, s)
    ensures Sorted(leq, Insert(leq, s, x))
  {
    if s == [] {
    } else if leq(s[0], x) {
      var r := Insert(leq, s[1..], x);
      InsertSorts(leq, s[1..], x);
      InsertMultiset(leq, s[1..], x);
      forall y | y in r ensures leq(s[0], y) {
        assert y in multiset(r);
      }
      assert ([s[0]] + r)[1..] == r;
    } else {
      forall y | y in s ensures leq(x, y) {
        assert leq(x, s[0]);
        assert y == s[0] || y in s[1..];
      }
      assert ([x] + s)[1..] == s;
    }
  }

  lemma {:induction false} InsertKeepsTies<T(!new)>(leq: (T, T) -> bool, s: seq<T>, x: T, k: T)
    requires TotalPreorder(leq) && Sorted(leq, s)
    ensures Ties(leq, Insert(leq, s, x), k) == Ties(leq, s, k) + Ties(leq, [x], k)
  {
    if s == [] {
    } else if leq(s[0], x) {
      InsertKeepsTies(leq, s[1..], x, k);
      assert ([s[0]] + Insert(leq, s[1..], x))[1..] == Insert(leq, s[1..], x);
    } else {
      TiesAppend(leq, [x], s, k);
      if leq(k, x) && leq(x, k) {
        forall y | y in s ensures !(leq(k, y) && leq(y, k)) {
          assert y == s[0] || y in s[1..];
        }
        NoTies(leq, s, k);
      } else {
        NoTies(leq, [x], k);
      }
    }
  }

  /** `Sort` is the stable sort: sorted, a permutation, ties in input order. */
  lemma {:induction false} SortIsStableSort<T(!new)>(leq: (T, T) -> bool, s: seq<T>)
    requires TotalPreorder(leq)
    ensures Sorted(leq, Sort(leq, s))
    ensures multiset(Sort(leq, s)) == multiset(s)
    ensures forall k :: Ties(leq, Sort(leq, s), k) == Ties(leq, s, k)
  {
    if s != [] {
      var init, x := s[..|s| - 1], s[|s| - 1];
      assert s == init + [x];
      SortIsStableSort(leq, init);
      hide Insert, Sorted, Ties, TotalPreorder;
      InsertSorts(leq, Sort(leq, init), x);
      InsertMultiset(leq, Sort(leq, init), x);
      forall k ensures Ties(leq, Sort(leq, s), k) == Ties(leq, s, k) {
        InsertKeepsTies(leq, Sort(leq, init), x, k);
        TiesAppend(leq, init, [x], k);
      }
    }
  }

  /** Elements of `s` tie only with themselves. */
  ghost predicate Untied<T>(leq: (T, T) -> bool, s: seq<T>) {
    forall x, y :: x in s && y in s && leq(x, y) && leq(y, x) ==> x == y
  }

  lemma HeadLeads<T(!new)>(leq: (T, T) -> bool, s: seq<T>, x: T)
    requires TotalPreorder(leq) && Sorted(leq, s) && x in s
    ensures leq(s[0], x)
  {
    assert x == s[0] || x in s[1..];
  }

  lemma HeadsAgree<T(!new)>(leq: (T, T) -> bool, a: seq<T>, b: seq<T>)
    requires TotalPreorder(leq) && Sorted(leq, a) && Sorted(leq, b)
    requires multiset(a) == multiset(b) && Untied(leq, a) && a != [] && b != []
    ensures a[0] == b[0]
  {
    assert a[0] in multiset(b) && b[0] in multiset(a);
    HeadLeads(leq, a, b[0]);
    HeadLeads(leq, b, a[0]);
  }

  lemma TailsAgree<T(!new)>(a: seq<T>, b: seq<T>)
    requires multiset(a) == multiset(b) && a != [] && b != [] && a[0] == b[0]
    ensures multiset(a[1..]) == multiset(b[1..])
  {
    assert a == [a[0]] + a[1..] && b == [b[0]] + b[1..];
    assert multiset(a[1..]) == multiset(a) - multiset{a[0]};
    assert multiset(b[1..]) == multiset(b) - multiset{b[0]};
  }

  lemma {:induction false} SortedIsUnique<T(!new)>(leq: (T, T) -> bool, a: seq<T>, b: seq<T>)
    requires TotalPreorder(leq)
    requires Sorted(leq, a) && Sorted(leq, b)
    requires multiset(a) == multiset(b) && Untied(leq, a)
    ensures a == b
  {
    hide TotalPreorder;
    assert |multiset(a)| == |a| && |multiset(b)| == |b|;
    if a != [] {
      HeadsAgree(leq, a, b);
      TailsAgree(a, b);
      SortedIsUnique(leq, a[1..], b[1..]);
      assert a == [a[0]] + a[1..] && b == [b[0]] + b[1..];
    }
  }

  /** Without ties, sorting forgets the input order. */
  lemma SortDependsOnMultiset<T(!new)>(leq: (T, T) -> bool, a: seq<T>, b: seq<T>)
    requires TotalPreorder(leq)
    requires multiset(a) == multiset(b) && Untied(leq, a)
    ensures Sort(leq, a) == Sort(leq, b)
  {
    SortIsStableSort(leq, a);
    SortIsStableSort(leq, b);
    forall x | x in Sort(leq, a) ensures x in a {
      assert x in multiset(Sort(leq, a));
    }
    SortedIsUnique(leq, Sort(leq, a), Sort(leq, b));
  }
}
