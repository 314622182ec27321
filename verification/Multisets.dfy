/** The multiset of images of a list, which forgets the list's order. It says of
    two lists that they report on the same things: the ledger's fills and skips
    together are the identities of its opportunities, each as often as it was
    given. Permuting a list leaves it alone, and appending adds up, so a loop over
    blocks can be followed one block at a time. */
module Multisets {

  function Image<T, U>(f: T -> U, s: seq<T>): multiset<U> {
    if s == [] then multiset{} else multiset{f(s[0])} + Image(f, s[1..])
  }

  lemma {:induction false} ImageAppend<T, U>(f: T -> U, a: seq<T>, b: seq<T>)
    ensures Image(f, a + b) == Image(f, a) + Image(f, b)
  {
    if a == [] {
      assert a + b == b;
    } else {
      assert (a + b)[0] == a[0] && (a + b)[1..] == a[1..] + b;
      ImageAppend(f, a[1..], b);
    }
  }

  lemma ImageOfOne<T, U>(f: T -> U, x: T)
    ensures Image(f, [x]) == multiset{f(x)}
  {
    assert [x][1..] == [];
  }

  lemma ImageAround<T, U>(f: T -> U, l: seq<T>, x: T, r: seq<T>)
    ensures Image(f, l + [x] + r) == Image(f, l + r) + multiset{f(x)}
  {
    ImageAppend(f, l + [x], r);
    ImageAppend(f, l, [x]);
    ImageOfOne(f, x);
    ImageAppend(f, l, r);
  }

  /** Taking one occurrence of `x` out of `s`. */
  lemma Around<T>(s: seq<T>, x: T) returns (l: seq<T>, r: seq<T>)
    requires x in s
    ensures s == l + [x] + r
    ensures multiset(l + r) == multiset(s) - multiset{x}
  {
    var i :| 0 <= i < |s| && s[i] == x;
    l, r := s[..i], s[i + 1..];
    assert s == l + [x] + r;
  }

  /** The tail of a list, and what is left of a permutation of it. */
  lemma TailOfPermutation<T>(a: seq<T>, b: seq<T>, rest: seq<T>)
    requires a != [] && multiset(a) == multiset(b) && multiset(rest) == multiset(b) - multiset{a[0]}
    ensures multiset(a[1..]) == multiset(rest)
  {
    assert a == [a[0]] + a[1..];
  }

  lemma {:induction false} ImageOfPermutation<T, U>(f: T -> U, a: seq<T>, b: seq<T>)
    requires multiset(a) == multiset(b)
    ensures Image(f, a) == Image(f, b)
  {
    if a == [] {
      assert |multiset(b)| == |b|;
    } else {
      assert a[0] in multiset(b);
      assert Image(f, a) == multiset{f(a[0])} + Image(f, a[1..]);
      hide Image;
      var l, r := Around(b, a[0]);
      TailOfPermutation(a, b, l + r);
      ImageOfPermutation(f, a[1..], l + r);
      ImageAround(f, l, a[0], r);
    }
  }
}
