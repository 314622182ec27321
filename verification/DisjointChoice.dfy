/** A choice of items with pairwise disjoint footprints, weighed against a set
    of footprints that is already taken. Items, footprints and weights are
    abstract here; the ledger instantiates them. A greedy pass is charged for
    every item of the best choice: each item it takes stands for at most as many
    of them as its footprint has members. */
module DisjointChoice {
  import opened OrderedGroups

  function Total<T>(gain: T -> nat, s: seq<T>): nat {
    if s == [] then 0 else gain(s[0]) + Total(gain, s[1..])
  }

  /** The weight in `s` that the footprints of `used` already rule out. */
  ghost function Blocked<T>(gain: T -> nat, pools: T -> set<int>, s: seq<T>, used: set<int>): nat {
    if s == [] then 0
    else (if pools(s[0]) !! used then 0 else gain(s[0])) + Blocked(gain, pools, s[1..], used)
  }

  /** Items with equal key have disjoint footprints. */
  ghost predicate Disjoint<T(!new)>(key: T -> int, pools: T -> set<int>, s: seq<T>) {
    s != [] ==>
      && (forall x :: x in s[1..] && key(x) == key(s[0]) ==> pools(x) !! pools(s[0]))
      && Disjoint(key, pools, s[1..])
  }

  lemma {:induction false} DisjointByIndex<T(!new)>(key: T -> int, pools: T -> set<int>, s: seq<T>)
    requires forall i, j :: 0 <= i < j < |s| && key(s[i]) == key(s[j]) ==> pools(s[i]) !! pools(s[j])
    ensures Disjoint(key, pools, s)
  {
    if s != [] {
      var tail := s[1..];
      forall x | x in tail && key(x) == key(s[0]) ensures pools(x) !! pools(s[0]) {
        var j :| 0 <= j < |tail| && tail[j] == x;
        assert s[j + 1] == x;
      }
      DisjointByIndex(key, pools, tail);
    }
  }

  function Without<T>(s: seq<T>, i: nat): seq<T>
    requires i < |s|
  {
    s[..i] + s[i + 1..]
  }

  lemma {:induction false} TotalWithout<T(!new)>(gain: T -> nat, s: seq<T>, i: nat)
    requires i < |s|
    ensures Total(gain, s) == Total(gain, Without(s, i)) + gain(s[i])
  {
    if i == 0 {
      assert Without(s, 0) == s[1..];
    } else {
      TotalWithout(gain, s[1..], i - 1);
      assert Without(s, i)[1..] == Without(s[1..], i - 1);
    }
  }

  lemma {:induction false} BlockedWithout<T(!new)>(gain: T -> nat, pools: T -> set<int>, s: seq<T>, used: set<int>,
                                                   i: nat)
    requires i < |s|
    ensures Blocked(gain, pools, s, used) ==
      Blocked(gain, pools, Without(s, i), used) + if pools(s[i]) !! used then 0 else gain(s[i])
  {
    if i == 0 {
      assert Without(s, 0) == s[1..];
    } else {
      BlockedWithout(gain, pools, s[1..], used, i - 1);
      assert Without(s, i)[1..] == Without(s[1..], i - 1);
    }
  }

  lemma WithoutMultiset<T(!new)>(s: seq<T>, i: nat)
    requires i < |s|
    ensures multiset(Without(s, i)) == multiset(s) - multiset{s[i]}
  {
    assert s == s[..i] + [s[i]] + s[i + 1..];
  }

  /** What remains after taking one item out avoids it and stays disjoint. */
  lemma {:induction false} WithoutStaysDisjoint<T(!new)>(key: T -> int, pools: T -> set<int>, s: seq<T>, i: nat)
    requires i < |s| && Disjoint(key, pools, s)
    ensures Disjoint(key, pools, Without(s, i))
    ensures forall x :: x in Without(s, i) && key(x) == key(s[i]) ==> pools(x) !! pools(s[i])
  {
    if i == 0 {
      assert Without(s, 0) == s[1..];
    } else {
      var w := Without(s[1..], i - 1);
      WithoutStaysDisjoint(key, pools, s[1..], i - 1);
      assert Without(s, i) == [s[0]] + w && ([s[0]] + w)[1..] == w;
      assert s[i] == s[1..][i - 1];
      forall x | x in w ensures x in s[1..] {
      }
    }
  }

  lemma {:induction false} NothingBlockedAtFirst<T(!new)>(gain: T -> nat, pools: T -> set<int>, s: seq<T>)
    ensures Blocked(gain, pools, s, {}) == 0
  {
    if s != [] {
      NothingBlockedAtFirst(gain, pools, s[1..]);
    }
  }

  /** Only the footprints that occur in `s` matter. */
  lemma {:induction false} BlockedAgree<T(!new)>(gain: T -> nat, pools: T -> set<int>, s: seq<T>, a: set<int>,
                                                 b: set<int>)
    requires forall x :: x in s ==> (pools(x) !! a <==> pools(x) !! b)
    ensures Blocked(gain, pools, s, a) == Blocked(gain, pools, s, b)
  {
    if s != [] {
      assert s[0] in s;
      BlockedAgree(gain, pools, s[1..], a, b);
    }
  }

  /** Taking `taken` newly rules out at most one chosen item per element of
      `taken`, each worth at most `m`. */
  lemma {:induction false} TakingBlocksAtMost<T(!new)>(key: T -> int, gain: T -> nat, pools: T -> set<int>, s: seq<T>,
                                                       b: int, used: set<int>, taken: set<int>, m: nat)
    requires Disjoint(key, pools, s)
    requires forall x :: x in s ==> gain(x) <= m && key(x) == b
    ensures Blocked(gain, pools, s, used + taken) <= Blocked(gain, pools, s, used) + |taken| * m
  {
    if s != [] {
      assert s[0] in s;
      var tail := s[1..];
      if pools(s[0]) !! used && !(pools(s[0]) !! taken) {
        var rest := taken - pools(s[0]);
        TakingBlocksAtMost(key, gain, pools, tail, b, used, rest, m);
        forall x | x in tail ensures pools(x) !! used + taken <==> pools(x) !! used + rest {
          assert x in s;
        }
        BlockedAgree(gain, pools, tail, used + taken, used + rest);
        Smaller(taken, rest, m);
      } else {
        TakingBlocksAtMost(key, gain, pools, tail, b, used, taken, m);
      }
    }
  }

  lemma Smaller(whole: set<int>, rest: set<int>, m: nat)
    requires rest < whole
    ensures |rest| * m + m <= |whole| * m
  {
    assert whole == rest + (whole - rest);
    assert |whole| == |rest| + |whole - rest| && |whole - rest| >= 1;
    assert (|rest| + 1) * m <= |whole| * m;
  }

  // ----- splitting a choice by key

  ghost function OfKey<T>(key: T -> int, s: seq<T>, b: int): seq<T> {
    if s == [] then [] else if key(s[0]) == b then [s[0]] + OfKey(key, s[1..], b) else OfKey(key, s[1..], b)
  }

  ghost function OffKey<T>(key: T -> int, s: seq<T>, b: int): seq<T> {
    if s == [] then [] else if key(s[0]) == b then OffKey(key, s[1..], b) else [s[0]] + OffKey(key, s[1..], b)
  }

  lemma {:induction false} OfKeyFacts<T(!new)>(key: T -> int, s: seq<T>, b: int)
    ensures forall x :: x in OfKey(key, s, b) ==> x in s && key(x) == b
    ensures forall x :: x in OffKey(key, s, b) ==> x in s && key(x) != b
  {
    if s != [] {
      OfKeyFacts(key, s[1..], b);
    }
  }

  lemma {:induction false} SplitMultiset<T(!new)>(key: T -> int, s: seq<T>, b: int)
    ensures multiset(s) == multiset(OfKey(key, s, b)) + multiset(OffKey(key, s, b))
  {
    if s != [] {
      SplitMultiset(key, s[1..], b);
      assert s == [s[0]] + s[1..];
    }
  }

  /** Splitting by key loses no weight. */
  lemma {:induction false} SplitTotal<T(!new)>(gain: T -> nat, key: T -> int, s: seq<T>, b: int)
    ensures Total(gain, s) == Total(gain, OfKey(key, s, b)) + Total(gain, OffKey(key, s, b))
  {
    if s != [] {
      var of, off := OfKey(key, s[1..], b), OffKey(key, s[1..], b);
      SplitTotal(gain, key, s[1..], b);
      assert ([s[0]] + of)[1..] == of && ([s[0]] + off)[1..] == off;
    }
  }

  lemma {:induction false} SplitStaysDisjoint<T(!new)>(key: T -> int, pools: T -> set<int>, s: seq<T>, b: int)
    requires Disjoint(key, pools, s)
    ensures Disjoint(key, pools, OfKey(key, s, b)) && Disjoint(key, pools, OffKey(key, s, b))
  {
    if s != [] {
      var of, off := OfKey(key, s[1..], b), OffKey(key, s[1..], b);
      SplitStaysDisjoint(key, pools, s[1..], b);
      OfKeyFacts(key, s[1..], b);
      assert ([s[0]] + of)[1..] == of && ([s[0]] + off)[1..] == off;
    }
  }

  /** A part of the choice that cannot come from `other` comes from `home`. */
  lemma PartComesFromHome<T(!new)>(part: seq<T>, s: seq<T>, home: seq<T>, other: seq<T>)
    requires multiset(part) <= multiset(s) <= multiset(home) + multiset(other)
    requires forall x :: x in part ==> x !in other
    ensures multiset(part) <= multiset(home)
  {
    forall x ensures multiset(part)[x] <= multiset(home)[x] {
      if x in multiset(part) {
        assert x in part;
        assert x !in multiset(other);
      }
    }
  }

  // ----- items that nothing rules out yet

  /** How many items of `s` avoid `used`. */
  ghost function Free<T>(pools: T -> set<int>, s: seq<T>, used: set<int>): nat {
    if s == [] then 0 else (if pools(s[0]) !! used then 1 else 0) + Free(pools, s[1..], used)
  }

  lemma {:induction false} FreeWithout<T(!new)>(pools: T -> set<int>, s: seq<T>, used: set<int>, i: nat)
    requires i < |s|
    ensures Free(pools, s, used) == Free(pools, Without(s, i), used) + if pools(s[i]) !! used then 1 else 0
  {
    if i == 0 {
      assert Without(s, 0) == s[1..];
    } else {
      FreeWithout(pools, s[1..], used, i - 1);
      assert Without(s, i)[1..] == Without(s[1..], i - 1);
    }
  }

  /** Taking more rules out more; if it frees as many as before, it ruled out
      nothing new. */
  lemma {:induction false} FreeShrinks<T(!new)>(pools: T -> set<int>, s: seq<T>, used: set<int>, used': set<int>)
    requires used <= used'
    ensures Free(pools, s, used') <= Free(pools, s, used) <= |s|
    ensures Free(pools, s, used') == Free(pools, s, used) ==>
      forall x :: x in s ==> (pools(x) !! used <==> pools(x) !! used')
  {
    if s != [] {
      FreeShrinks(pools, s[1..], used, used');
      assert s == [s[0]] + s[1..];
    }
  }

  lemma {:induction false} FreeAgree<T(!new)>(pools: T -> set<int>, s: seq<T>, a: set<int>, b: set<int>)
    requires forall x :: x in s ==> (pools(x) !! a <==> pools(x) !! b)
    ensures Free(pools, s, a) == Free(pools, s, b)
  {
    if s != [] {
      assert s[0] in s;
      FreeAgree(pools, s[1..], a, b);
    }
  }

  lemma {:induction false} FindFree<T(!new)>(pools: T -> set<int>, s: seq<T>, used: set<int>) returns (i: nat)
    requires Free(pools, s, used) > 0
    ensures i < |s| && pools(s[i]) !! used
  {
    if pools(s[0]) !! used {
      i := 0;
    } else {
      i := FindFree(pools, s[1..], used);
      i := i + 1;
    }
  }

  // ----- greedy selection covers every disjoint choice

  /** Where a greedy pass stands: what is taken, how many more it may take, and
      what it has booked. */
  datatype Stand = Stand(used: set<int>, slots: nat, booked: int)

  /** One greedy step: the item is taken, or it is worthless or ruled out, or
      no slot is left. */
  ghost predicate GreedyStep<T(!new)>(gain: T -> nat, pools: T -> set<int>, x: T, a: Stand, z: Stand) {
    || (a.slots > 0 && pools(x) !! a.used && z == Stand(a.used + pools(x), a.slots - 1, a.booked + gain(x)))
    || (z == a && (gain(x) == 0 || !(pools(x) !! a.used) || a.slots == 0))
  }

  /** A greedy pass over `l` from `a` ends with `last` booked. */
  ghost predicate GreedyPass<T(!new)>(gain: T -> nat, pools: T -> set<int>, l: seq<T>, a: Stand, last: int) {
    if l == [] then a.booked == last
    else exists z :: GreedyStep(gain, pools, l[0], a, z) && GreedyPass(gain, pools, l[1..], z, last)
  }

  /** Items of one key in descending order of gain, each with at most `k` footprints. */
  ghost predicate Lineup<T(!new)>(key: T -> int, gain: T -> nat, pools: T -> set<int>, l: seq<T>, b: int, k: nat) {
    l != [] ==>
      && key(l[0]) == b && |pools(l[0])| <= k
      && (forall x :: x in l[1..] ==> gain(x) <= gain(l[0]))
      && Lineup(key, gain, pools, l[1..], b, k)
  }

  lemma {:induction false} LineupMembers<T(!new)>(key: T -> int, gain: T -> nat, pools: T -> set<int>, l: seq<T>,
                                                  b: int, k: nat)
    requires Lineup(key, gain, pools, l, b, k)
    ensures forall x :: x in l ==> key(x) == b && gain(x) <= gain(l[0])
  {
    if l != [] {
      LineupMembers(key, gain, pools, l[1..], b, k);
      assert l == [l[0]] + l[1..];
    }
  }

  /** `k` times what is booked from `a` on, and what `a` already rules out,
      cover the choice `s`. */
  ghost predicate Charged<T(!new)>(gain: T -> nat, pools: T -> set<int>, s: seq<T>, a: Stand, last: int, k: nat) {
    k * (last - a.booked) + Blocked(gain, pools, s, a.used) >= Total(gain, s)
  }

  /** The arithmetic of one charging step: what is booked on the way pays for the
      weight that is dropped from the choice and for what is newly ruled out. */
  lemma Settle(k: nat, gain: nat, n: nat, last: int, mid: int, first: int, later: int, total: int)
    requires n <= k && mid == first + gain && total <= later + n * gain
    ensures k * (last - mid) >= later ==> k * (last - first) >= total
  {
    assert k * (last - first) == k * (last - mid) + k * gain;
    assert k * gain == n * gain + (k - n) * gain;
    ProductNotNegative(k - n, gain);
  }

  lemma ProductNotNegative(x: nat, y: nat)
    ensures x * y >= 0
  {
  }

  /** From the stand `z` and the choice `s'` back to `a` and `s`. */
  lemma ChargeBack<T(!new)>(gain: T -> nat, pools: T -> set<int>, s: seq<T>, s': seq<T>, a: Stand, z: Stand,
                            last: int, k: nat, g: nat, n: nat)
    requires n <= k && z.booked == a.booked + g
    requires Total(gain, s) + Blocked(gain, pools, s', z.used)
          <= Total(gain, s') + Blocked(gain, pools, s, a.used) + n * g
    ensures Charged(gain, pools, s', z, last, k) ==> Charged(gain, pools, s, a, last, k)
  {
    hide Total, Blocked;
    Settle(k, g, n, last, z.booked, a.booked, Total(gain, s') - Blocked(gain, pools, s', z.used),
           Total(gain, s) - Blocked(gain, pools, s, a.used));
  }

  /** The head is chosen and taken: its rivals in the choice avoid it. */
  lemma ChargeTaken<T(!new)>(key: T -> int, gain: T -> nat, pools: T -> set<int>, s: seq<T>, i: nat, b: int,
                             a: Stand, z: Stand, last: int, k: nat)
    requires k >= 1 && i < |s| && Disjoint(key, pools, s)
    requires forall x :: x in s ==> key(x) == b
    requires z.used == a.used + pools(s[i]) && z.booked == a.booked + gain(s[i]) && pools(s[i]) !! a.used
    ensures Free(pools, Without(s, i), z.used) == Free(pools, s, a.used) - 1
    ensures Charged(gain, pools, Without(s, i), z, last, k) ==> Charged(gain, pools, s, a, last, k)
  {
    hide Charged, Total, Blocked, Free, Disjoint;
    var s' := Without(s, i);
    WithoutStaysDisjoint(key, pools, s, i);
    TotalWithout(gain, s, i);
    BlockedWithout(gain, pools, s, a.used, i);
    FreeWithout(pools, s, a.used, i);
    forall x | x in s' ensures pools(x) !! a.used <==> pools(x) !! z.used {
      assert x in s && s[i] in s;
    }
    BlockedAgree(gain, pools, s', a.used, z.used);
    FreeAgree(pools, s', a.used, z.used);
    ChargeBack(gain, pools, s, s', a, z, last, k, gain(s[i]), 1);
  }

  /** The head is chosen but refused: it is worthless or already ruled out. */
  lemma ChargeRefused<T(!new)>(gain: T -> nat, pools: T -> set<int>, s: seq<T>, i: nat, a: Stand, last: int, k: nat)
    requires i < |s| && (gain(s[i]) == 0 || !(pools(s[i]) !! a.used))
    ensures Free(pools, Without(s, i), a.used) <= Free(pools, s, a.used)
    ensures Charged(gain, pools, Without(s, i), a, last, k) ==> Charged(gain, pools, s, a, last, k)
  {
    hide Charged, Total, Blocked, Free;
    TotalWithout(gain, s, i);
    BlockedWithout(gain, pools, s, a.used, i);
    FreeWithout(pools, s, a.used, i);
    ChargeBack(gain, pools, s, Without(s, i), a, a, last, k, 0, 0);
  }

  /** A rival is taken: it outbids what it newly rules out. */
  lemma ChargeRival<T(!new)>(key: T -> int, gain: T -> nat, pools: T -> set<int>, h: T, s: seq<T>, b: int,
                             a: Stand, z: Stand, last: int, k: nat)
    requires k >= 1 && |pools(h)| <= k && Disjoint(key, pools, s)
    requires forall x :: x in s ==> key(x) == b && gain(x) <= gain(h)
    requires z.used == a.used + pools(h) && z.booked == a.booked + gain(h)
    ensures Charged(gain, pools, s, z, last, k) ==> Charged(gain, pools, s, a, last, k)
  {
    hide Charged, Total, Blocked, Disjoint;
    TakingBlocksAtMost(key, gain, pools, s, b, a.used, pools(h), gain(h));
    ChargeBack(gain, pools, s, s, a, z, last, k, gain(h), |pools(h)|);
  }

  /** A rival is taken that rules out nothing new: it pays for any one item that
      its slot could have gone to. */
  lemma ChargeSlot<T(!new)>(gain: T -> nat, pools: T -> set<int>, h: T, s: seq<T>, i: nat,
                            a: Stand, z: Stand, last: int, k: nat)
    requires k >= 1 && i < |s| && pools(s[i]) !! a.used && gain(s[i]) <= gain(h)
    requires z.used == a.used + pools(h) && z.booked == a.booked + gain(h)
    requires forall x :: x in s ==> (pools(x) !! a.used <==> pools(x) !! z.used)
    ensures Free(pools, Without(s, i), z.used) == Free(pools, s, a.used) - 1
    ensures Charged(gain, pools, Without(s, i), z, last, k) ==> Charged(gain, pools, s, a, last, k)
  {
    hide Charged, Total, Blocked, Free, Without;
    assert s[i] in s;
    TotalWithout(gain, s, i);
    BlockedWithout(gain, pools, s, z.used, i);
    FreeWithout(pools, s, z.used, i);
    BlockedAgree(gain, pools, s, a.used, z.used);
    FreeAgree(pools, s, a.used, z.used);
    ChargeBack(gain, pools, s, Without(s, i), a, z, last, k, gain(h), 1);
  }

  /** Where the choice picks the head of `l`, if it does. */
  lemma FindHead<T(!new)>(l: seq<T>, s: seq<T>) returns (i: int)
    requires l != [] && multiset(s) <= multiset(l)
    ensures i < |s|
    ensures i >= 0 ==> s[i] == l[0] && multiset(Without(s, i)) <= multiset(l[1..])
    ensures i < 0 ==> multiset(s) <= multiset(l[1..])
    ensures forall x :: x in s ==> x in l
  {
    assert multiset(l) == multiset{l[0]} + multiset(l[1..]) by { assert l == [l[0]] + l[1..]; }
    forall x | x in s ensures x in l {
      assert x in multiset(s);
    }
    i := -1;
    if l[0] in s {
      i :| 0 <= i < |s| && s[i] == l[0];
      WithoutMultiset(s, i);
    } else {
      assert l[0] !in multiset(s);
    }
  }

  lemma NothingToCharge<T(!new)>(gain: T -> nat, pools: T -> set<int>, a: Stand, k: nat)
    ensures Charged(gain, pools, [], a, a.booked, k)
  {
  }

  lemma {:induction false} NoneFree<T(!new)>(pools: T -> set<int>, s: seq<T>, used: set<int>, i: nat)
    requires i < |s| && Free(pools, s, used) == 0
    ensures !(pools(s[i]) !! used)
  {
    if i > 0 {
      NoneFree(pools, s[1..], used, i - 1);
    }
  }

  /** After a step past a head that the choice picks, the rest of the choice. */
  lemma ChargeChosen<T(!new)>(key: T -> int, gain: T -> nat, pools: T -> set<int>, s: seq<T>, i: nat, b: int,
                              a: Stand, z: Stand, last: int, k: nat)
    requires k >= 1 && i < |s| && Disjoint(key, pools, s) && Free(pools, s, a.used) <= a.slots
    requires forall x :: x in s ==> key(x) == b
    requires GreedyStep(gain, pools, s[i], a, z)
    ensures Disjoint(key, pools, Without(s, i)) && Free(pools, Without(s, i), z.used) <= z.slots
    ensures Charged(gain, pools, Without(s, i), z, last, k) ==> Charged(gain, pools, s, a, last, k)
  {
    hide Charged, Disjoint, Free;
    WithoutStaysDisjoint(key, pools, s, i);
    if z != a {
      ChargeTaken(key, gain, pools, s, i, b, a, z, last, k);
    } else {
      if a.slots == 0 {
        NoneFree(pools, s, a.used, i);
      }
      ChargeRefused(gain, pools, s, i, a, last, k);
    }
  }

  /** After a step past a head that the choice does not pick, what is left to
      charge: the choice, or the choice less one item that the head pays for. */
  lemma ChargeOther<T(!new)>(key: T -> int, gain: T -> nat, pools: T -> set<int>, h: T, s: seq<T>, b: int,
                             a: Stand, z: Stand, last: int, k: nat) returns (rest: seq<T>)
    requires k >= 1 && |pools(h)| <= k && Disjoint(key, pools, s) && Free(pools, s, a.used) <= a.slots
    requires forall x :: x in s ==> key(x) == b && gain(x) <= gain(h)
    requires GreedyStep(gain, pools, h, a, z)
    ensures multiset(rest) <= multiset(s) && Disjoint(key, pools, rest) && Free(pools, rest, z.used) <= z.slots
    ensures Charged(gain, pools, rest, z, last, k) ==> Charged(gain, pools, s, a, last, k)
  {
    hide Charged, Disjoint, Free;
    rest := s;
    if z != a {
      FreeShrinks(pools, s, a.used, z.used);
      if Free(pools, s, z.used) <= z.slots {
        ChargeRival(key, gain, pools, h, s, b, a, z, last, k);
      } else {
        var i := FindFree(pools, s, a.used);
        ChargeSlot(gain, pools, h, s, i, a, z, last, k);
        WithoutStaysDisjoint(key, pools, s, i);
        WithoutMultiset(s, i);
        rest := Without(s, i);
      }
    }
  }

  /** The charging argument: k times what a greedy pass books, and what was
      ruled out before it began, cover any disjoint choice that the slots left
      could have held. */
  lemma {:induction false} Charge<T(!new)>(key: T -> int, gain: T -> nat, pools: T -> set<int>, l: seq<T>,
                                           a: Stand, last: int, s: seq<T>, b: int, k: nat)
    requires k >= 1 && Lineup(key, gain, pools, l, b, k)
    requires GreedyPass(gain, pools, l, a, last)
    requires multiset(s) <= multiset(l) && Disjoint(key, pools, s) && Free(pools, s, a.used) <= a.slots
    ensures Charged(gain, pools, s, a, last, k)
  {
    hide Charged, Disjoint, Free, GreedyStep;
    if l == [] {
      assert |multiset(s)| == |s|;
      NothingToCharge(gain, pools, a, k);
    } else {
      LineupMembers(key, gain, pools, l, b, k);
      var z :| GreedyStep(gain, pools, l[0], a, z) && GreedyPass(gain, pools, l[1..], z, last);
      var i := FindHead(l, s);
      if i >= 0 {
        ChargeChosen(key, gain, pools, s, i, b, a, z, last, k);
        Charge(key, gain, pools, l[1..], z, last, Without(s, i), b, k);
      } else {
        var rest := ChargeOther(key, gain, pools, l[0], s, b, a, z, last, k);
        Charge(key, gain, pools, l[1..], z, last, rest, b, k);
      }
    }
  }

  // ----- from one key to many

  /** The choice has at most `room(b)` items of key `b`. */
  ghost predicate Fits<T(!new)>(key: T -> int, s: seq<T>, room: int -> nat) {
    forall b :: |OfKey(key, s, b)| <= room(b)
  }

  /** `k` times `booked` covers every disjoint choice from `items` that fits. */
  ghost predicate Covers<T(!new)>(key: T -> int, gain: T -> nat, pools: T -> set<int>, items: seq<T>, booked: int,
                                  k: nat, room: int -> nat) {
    forall s :: multiset(s) <= multiset(items) && Disjoint(key, pools, s) && Fits(key, s, room) ==>
      k * booked >= Total(gain, s)
  }

  lemma GreedyPassCovers<T(!new)>(key: T -> int, gain: T -> nat, pools: T -> set<int>, items: seq<T>,
                                  l: seq<T>, a: Stand, last: int, b: int, k: nat, room: int -> nat)
    requires k >= 1 && Lineup(key, gain, pools, l, b, k) && multiset(l) == multiset(items)
    requires a.used == {} && (a.slots >= room(b) || a.slots >= |l|) && GreedyPass(gain, pools, l, a, last)
    ensures Covers(key, gain, pools, items, last - a.booked, k, room)
  {
    hide Fits;
    forall s | multiset(s) <= multiset(items) && Disjoint(key, pools, s) && Fits(key, s, room)
      ensures k * (last - a.booked) >= Total(gain, s)
    {
      NothingBlockedAtFirst(gain, pools, s);
      FreeShrinks(pools, s, {}, {});
      FitsInSlots(key, gain, pools, l, s, b, k, room);
      Charge(key, gain, pools, l, a, last, s, b, k);
    }
  }

  lemma FitsInSlots<T(!new)>(key: T -> int, gain: T -> nat, pools: T -> set<int>, l: seq<T>, s: seq<T>,
                             b: int, k: nat, room: int -> nat)
    requires Lineup(key, gain, pools, l, b, k) && multiset(s) <= multiset(l) && Fits(key, s, room)
    ensures |s| <= room(b) && |s| <= |l|
  {
    LineupMembers(key, gain, pools, l, b, k);
    forall x | x in s ensures key(x) == b {
      assert x in multiset(s);
      assert x in l;
    }
    AllOfKey(key, s, b);
    assert |multiset(s)| == |s| && |multiset(l)| == |l|;
    assert multiset(l) == multiset(s) + (multiset(l) - multiset(s));
    assert |OfKey(key, s, b)| <= room(b);
  }

  lemma {:induction false} AllOfKey<T(!new)>(key: T -> int, s: seq<T>, b: int)
    requires forall x :: x in s ==> key(x) == b
    ensures OfKey(key, s, b) == s
  {
    if s != [] {
      assert s[0] in s && s == [s[0]] + s[1..];
      AllOfKey(key, s[1..], b);
    }
  }

  lemma CoversThis<T(!new)>(key: T -> int, gain: T -> nat, pools: T -> set<int>, items: seq<T>, booked: int,
                            s: seq<T>, k: nat, room: int -> nat)
    requires Covers(key, gain, pools, items, booked, k, room)
    requires multiset(s) <= multiset(items) && Disjoint(key, pools, s) && Fits(key, s, room)
    ensures k * booked >= Total(gain, s)
  {
  }

  lemma NothingToCover<T(!new)>(key: T -> int, gain: T -> nat, pools: T -> set<int>, k: nat, room: int -> nat)
    ensures Covers(key, gain, pools, [], 0, k, room)
  {
    forall s: seq<T> | multiset(s) <= multiset([]) ensures s == [] {
      assert |multiset(s)| == |s|;
    }
  }

  /** The parts of a choice by key, taken apart again. */
  lemma {:induction false} OfKeyOfParts<T(!new)>(key: T -> int, s: seq<T>, b: int, c: int)
    ensures |OfKey(key, OfKey(key, s, b), c)| <= |OfKey(key, s, c)|
    ensures |OfKey(key, OffKey(key, s, b), c)| <= |OfKey(key, s, c)|
  {
    if s != [] {
      var of, off := OfKey(key, s[1..], b), OffKey(key, s[1..], b);
      OfKeyOfParts(key, s[1..], b, c);
      assert ([s[0]] + of)[1..] == of && ([s[0]] + off)[1..] == off;
    }
  }

  lemma PartsFit<T(!new)>(key: T -> int, s: seq<T>, b: int, room: int -> nat)
    requires Fits(key, s, room)
    ensures Fits(key, OfKey(key, s, b), room) && Fits(key, OffKey(key, s, b), room)
  {
    forall c ensures |OfKey(key, OfKey(key, s, b), c)| <= room(c) && |OfKey(key, OffKey(key, s, b), c)| <= room(c) {
      OfKeyOfParts(key, s, b, c);
    }
  }

  function Flatten<T>(groups: seq<Group<T>>): seq<T> {
    if groups == [] then [] else groups[0].items + Flatten(groups[1..])
  }

  /** Ascending groups, each holding only items of its own key. */
  ghost predicate Filed<T(!new)>(key: T -> int, groups: seq<Group<T>>) {
    && Ascending(groups)
    && forall g, x :: g in groups && x in g.items ==> key(x) == g.key
  }

  lemma {:induction false} FlattenKeys<T(!new)>(key: T -> int, groups: seq<Group<T>>, b: int)
    requires Filed(key, groups)
    requires groups != [] ==> b < groups[0].key
    ensures forall x :: x in Flatten(groups) ==> b < key(x)
  {
    if groups != [] {
      assert groups[0] in groups;
      FlattenKeys(key, groups[1..], b);
    }
  }

  /** Covering each group covers them all, since choices of different keys
      never compete. */
  lemma CoversOneMore<T(!new)>(key: T -> int, gain: T -> nat, pools: T -> set<int>, groups: seq<Group<T>>, first: int,
                               later: int, k: nat, room: int -> nat)
    requires groups != [] && Filed(key, groups)
    requires Covers(key, gain, pools, groups[0].items, first, k, room)
    requires Covers(key, gain, pools, Flatten(groups[1..]), later, k, room)
    ensures Covers(key, gain, pools, Flatten(groups), first + later, k, room)
  {
    hide Fits, Disjoint;
    var g, rest, b := groups[0], groups[1..], groups[0].key;
    assert g in groups;
    FlattenKeys(key, rest, b);
    forall s | multiset(s) <= multiset(Flatten(groups)) && Disjoint(key, pools, s) && Fits(key, s, room)
      ensures k * (first + later) >= Total(gain, s)
    {
      var of, off := OfKey(key, s, b), OffKey(key, s, b);
      OfKeyFacts(key, s, b);
      SplitMultiset(key, s, b);
      SplitTotal(gain, key, s, b);
      SplitStaysDisjoint(key, pools, s, b);
      PartsFit(key, s, b, room);
      PartComesFromHome(of, s, g.items, Flatten(rest));
      PartComesFromHome(off, s, Flatten(rest), g.items);
      assert k * (first + later) == k * first + k * later;
    }
  }

  lemma {:induction false} FlattenUpsert<T(!new)>(g: seq<Group<T>>, key: int, x: T)
    ensures multiset(Flatten(Upsert(g, key, x))) == multiset(Flatten(g)) + multiset{x}
  {
    if g == [] {
      assert Flatten([Group(key, [x])]) == [x] + Flatten([]);
    } else if g[0].key == key {
      assert ([Group(key, g[0].items + [x])] + g[1..])[1..] == g[1..];
    } else if key < g[0].key {
      assert ([Group(key, [x])] + g)[1..] == g;
    } else {
      FlattenUpsert(g[1..], key, x);
      assert ([g[0]] + Upsert(g[1..], key, x))[1..] == Upsert(g[1..], key, x);
    }
  }

  /** Grouping keeps every item, each under its own key. */
  lemma {:induction false} GroupedKeepsItems<T(!new)>(key: T -> int, s: seq<T>)
    ensures multiset(Flatten(Grouped(key, s))) == multiset(s)
  {
    if s != [] {
      var init, x := s[..|s| - 1], s[|s| - 1];
      assert s == init + [x];
      GroupedKeepsItems(key, init);
      FlattenUpsert(Grouped(key, init), key(x), x);
    }
  }

  lemma GroupedIsFiled<T(!new)>(key: T -> int, s: seq<T>)
    ensures Filed(key, Grouped(key, s))
  {
    GroupedMeaning(key, s);
    forall g, x | g in Grouped(key, s) && x in g.items ensures key(x) == g.key {
      var i :| 0 <= i < |Grouped(key, s)| && Grouped(key, s)[i] == g;
      GroupCounts(key, s, i);
      assert x in multiset(Grouped(key, s)[i].items);
    }
  }
}
