/** Balance deltas of a transaction: what each address received and spent per
    token, netted into signed residuals, and the choice of the profit token. */
module Deltas {
  import opened RustInts
  import opened PaperTypes
  import opened DisjointChoice
  import opened Multisets
  import opened Sequences

  datatype TransferFact = TransferFact(token: Address, from: Address, to: Address, amount: u256)

  /** An address and a token: one entry of the delta maps. */
  datatype Entry = Entry(addr: Address, token: Address)

  type Deltas = map<Entry, u256>

  /** Stands for native value, which moves without a token transfer. */
  const NATIVE_MARKER: Address := TWO_160 - 1

  predicate IsWrapNoise(t: TransferFact, wrappedNative: Address, hasNativeFlow: bool) {
    hasNativeFlow && t.token == wrappedNative && (t.from == ZERO_ADDRESS || t.to == ZERO_ADDRESS)
  }

  function ValueAt(m: Deltas, k: Entry): u256 {
    if k in m then m[k] else 0
  }

  // ----- what the maps should hold

  /** The transaction's parameters: the wrapped token, and who sent how much
      native value. */
  datatype Tx = Tx(wrappedNative: Address, spender: Address, value: u256) {
    predicate Kept(t: TransferFact) {
      !IsWrapNoise(t, wrappedNative, value != 0)
    }

    /** What transfer `t` adds to entry `k` on the receiving or spending side. */
    function Adds(t: TransferFact, k: Entry, received: bool): nat {
      if Kept(t) && Touches(t, k, received) then t.amount else 0
    }

    predicate Touches(t: TransferFact, k: Entry, received: bool) {
      k.addr != ZERO_ADDRESS && k.token == t.token && k.addr == (if received then t.to else t.from)
    }

    function AddsTo(k: Entry, received: bool): TransferFact -> nat {
      t => Adds(t, k, received)
    }

    /** The native value sent counts as spent. */
    function NativeSpend(k: Entry): nat {
      if spender != ZERO_ADDRESS && value != 0 && k == Entry(spender, NATIVE_MARKER) then value else 0
    }

    ghost predicate SpendsFrom(ts: seq<TransferFact>, k: Entry) {
      NativeSpend(k) > 0 || exists t :: t in ts && Kept(t) && Touches(t, k, false)
    }

    function Received(ts: seq<TransferFact>, k: Entry): nat {
      Total(AddsTo(k, true), ts)
    }

    function Spent(ts: seq<TransferFact>, k: Entry): nat {
      Total(AddsTo(k, false), ts) + NativeSpend(k)
    }
  }

  /** `m` has an entry exactly where a kept transfer touches it, holding the
      exact sum capped at the largest u256. */
  ghost predicate Holds(tx: Tx, ts: seq<TransferFact>, m: Deltas, received: bool) {
    && (forall k :: k in m <==> exists t :: t in ts && tx.Kept(t) && tx.Touches(t, k, received))
    && (forall k :: k in m ==> m[k] == Min(Total(tx.AddsTo(k, received), ts), U256_MAX))
  }

  /** The same for one entry. */
  ghost predicate HoldsAt(tx: Tx, ts: seq<TransferFact>, m: Deltas, received: bool, k: Entry) {
    && (k in m <==> exists t :: t in ts && tx.Kept(t) && tx.Touches(t, k, received))
    && (k in m ==> m[k] == Min(Total(tx.AddsTo(k, received), ts), U256_MAX))
  }

  lemma HoldsAtEach(tx: Tx, ts: seq<TransferFact>, m: Deltas, received: bool)
    ensures Holds(tx, ts, m, received) <==> forall k :: HoldsAt(tx, ts, m, received, k)
  {
    hide Total, Tx.AddsTo, Tx.Kept, Tx.Touches;
    if forall k :: HoldsAt(tx, ts, m, received, k) {
      forall k ensures k in m <==> exists t :: t in ts && tx.Kept(t) && tx.Touches(t, k, received)
               ensures k in m ==> m[k] == Min(Total(tx.AddsTo(k, received), ts), U256_MAX)
      {
        assert HoldsAt(tx, ts, m, received, k);
      }
    }
  }

  /** The spending side also holds the native value sent. */
  ghost predicate HoldsSpent(tx: Tx, ts: seq<TransferFact>, m: Deltas) {
    && (forall k :: k in m <==> tx.SpendsFrom(ts, k))
    && (forall k :: ValueAt(m, k) == Min(tx.Spent(ts, k), U256_MAX))
  }

  lemma NativeSpendHolds(tx: Tx, ts: seq<TransferFact>, m: Deltas, m': Deltas)
    requires Holds(tx, ts, m, false)
    requires var k := Entry(tx.spender, NATIVE_MARKER);
             m' == if tx.value != 0 && tx.spender != ZERO_ADDRESS then m[k := SatAddU256(ValueAt(m, k), tx.value)] else m
    ensures HoldsSpent(tx, ts, m')
  {
    hide Total, Tx.AddsTo;
    forall k ensures ValueAt(m', k) == Min(tx.Spent(ts, k), U256_MAX) {
      HoldsValue(tx, ts, m, false, k);
    }
    forall k ensures k in m' <==> tx.SpendsFrom(ts, k) {
    }
  }

  lemma {:induction false} TotalAppend<T(!new)>(gain: T -> nat, s: seq<T>, x: T)
    ensures Total(gain, s + [x]) == Total(gain, s) + gain(x)
  {
    if s == [] {
      assert s + [x] == [x] && [x][1..] == [];
    } else {
      assert (s + [x])[0] == s[0] && (s + [x])[1..] == s[1..] + [x];
      TotalAppend(gain, s[1..], x);
    }
  }

  lemma {:induction false} TotalOfPermutation<T(!new)>(gain: T -> nat, a: seq<T>, b: seq<T>)
    requires multiset(a) == multiset(b)
    ensures Total(gain, a) == Total(gain, b)
  {
    if a == [] {
      assert |multiset(b)| == |b|;
    } else {
      assert a[0] in multiset(b);
      var l, r := Around(b, a[0]);
      assert a == [a[0]] + a[1..];
      assert multiset(a[1..]) == multiset(a) - multiset{a[0]};
      TotalOfPermutation(gain, a[1..], l + r);
      TotalAround(gain, l, a[0], r);
    }
  }

  lemma {:induction false} TotalAround<T(!new)>(gain: T -> nat, l: seq<T>, x: T, r: seq<T>)
    ensures Total(gain, l + [x] + r) == Total(gain, l + r) + gain(x)
  {
    if l == [] {
      assert l + [x] + r == [x] + r && l + r == r && ([x] + r)[1..] == r;
    } else {
      assert (l + [x] + r)[0] == l[0] && (l + [x] + r)[1..] == l[1..] + [x] + r;
      assert (l + r)[0] == l[0] && (l + r)[1..] == l[1..] + r;
      TotalAround(gain, l[1..], x, r);
    }
  }

  lemma NothingHolds(tx: Tx, received: bool)
    ensures Holds(tx, [], map[], received)
  {
  }

  /** Saturating one more amount into its entry keeps the sums. */
  lemma HoldsOneMore(tx: Tx, ts: seq<TransferFact>, t: TransferFact, m: Deltas, m': Deltas, received: bool)
    requires Holds(tx, ts, m, received) && tx.Kept(t)
    requires var a := if received then t.to else t.from; var k := Entry(a, t.token);
             m' == if a == ZERO_ADDRESS then m else m[k := SatAddU256(ValueAt(m, k), t.amount)]
    ensures Holds(tx, ts + [t], m', received)
  {
    hide Holds, HoldsAt;
    HoldsAtEach(tx, ts, m, received);
    forall k ensures HoldsAt(tx, ts + [t], m', received, k) {
      EntryOneMore(tx, ts, t, m, m', received, k);
    }
    HoldsAtEach(tx, ts + [t], m', received);
  }

  lemma EntryOneMore(tx: Tx, ts: seq<TransferFact>, t: TransferFact, m: Deltas, m': Deltas, received: bool, k: Entry)
    requires HoldsAt(tx, ts, m, received, k) && tx.Kept(t)
    requires k in m' <==> k in m || tx.Touches(t, k, received)
    requires k in m' ==> m'[k] == if tx.Touches(t, k, received) then SatAddU256(ValueAt(m, k), t.amount) else m[k]
    ensures HoldsAt(tx, ts + [t], m', received, k)
  {
    hide Total, Tx.AddsTo;
    if tx.Touches(t, k, received) {
      assert t in ts + [t];
    }
    if k in m {
      var x :| x in ts && tx.Kept(x) && tx.Touches(x, k, received);
      assert x in ts + [t];
    } else {
      UntouchedTotal(tx, ts, k, received);
    }
    TotalAppend(tx.AddsTo(k, received), ts, t);
    assert tx.AddsTo(k, received)(t) == if tx.Touches(t, k, received) then t.amount else 0 by {
      WhatItAdds(tx, t, k, received);
    }
  }

  lemma WhatItAdds(tx: Tx, t: TransferFact, k: Entry, received: bool)
    requires tx.Kept(t)
    ensures tx.AddsTo(k, received)(t) == if tx.Touches(t, k, received) then t.amount else 0
  {
  }

  lemma {:induction false} UntouchedTotal(tx: Tx, ts: seq<TransferFact>, k: Entry, received: bool)
    requires forall t :: t in ts ==> !(tx.Kept(t) && tx.Touches(t, k, received))
    ensures Total(tx.AddsTo(k, received), ts) == 0
  {
    if ts != [] {
      assert ts[0] in ts;
      UntouchedTotal(tx, ts[1..], k, received);
    }
  }

  lemma HoldsWithNoise(tx: Tx, ts: seq<TransferFact>, t: TransferFact, m: Deltas, received: bool)
    requires Holds(tx, ts, m, received) && !tx.Kept(t)
    ensures Holds(tx, ts + [t], m, received)
  {
    forall k ensures k in m <==> exists x :: x in ts + [t] && tx.Kept(x) && tx.Touches(x, k, received) {
      if k in m {
        var x :| x in ts && tx.Kept(x) && tx.Touches(x, k, received);
        assert x in ts + [t];
      }
    }
    forall k | k in m ensures m[k] == Min(Total(tx.AddsTo(k, received), ts + [t]), U256_MAX) {
      TotalAppend(tx.AddsTo(k, received), ts, t);
    }
  }

  lemma HoldsValue(tx: Tx, ts: seq<TransferFact>, m: Deltas, received: bool, k: Entry)
    requires Holds(tx, ts, m, received)
    ensures ValueAt(m, k) == Min(Total(tx.AddsTo(k, received), ts), U256_MAX)
  {
    if k !in m {
      UntouchedTotal(tx, ts, k, received);
    }
  }

  /** What the two maps hold is the same for any order of the transfers. */
  lemma HoldsIgnoresOrder(tx: Tx, a: seq<TransferFact>, b: seq<TransferFact>, m: Deltas, n: Deltas, received: bool)
    requires multiset(a) == multiset(b)
    requires Holds(tx, a, m, received) && Holds(tx, b, n, received)
    ensures m == n
  {
    forall t ensures t in a <==> t in b {
      assert t in multiset(a) <==> t in multiset(b);
    }
    assert m.Keys == n.Keys;
    forall k | k in m ensures m[k] == n[k] {
      TotalOfPermutation(tx.AddsTo(k, received), a, b);
    }
  }

  // ----- the ledger

  /** Signed residual of an entry as the program computes it, wrapping. */
  function NetSigned(p: u256, n: u256): i256 {
    WrapI256(I256FromRaw(p) - I256FromRaw(n))
  }

  function NetOf(p: u256, n: u256): u256 {
    SatSubU256(p, n)
  }

  function DeficitOf(p: u256, n: u256): u256 {
    var s := NetSigned(p, n);
    if s < 0 then I256NegRaw(s) else 0
  }

  /** The signed residual is the true one, and `net` and the deficit are its
      positive and negative parts, exactly when the true one fits in i256; else it
      is off by 2^256. */
  lemma NetSignedExactWhen(p: u256, n: u256)
    ensures NetSigned(p, n) == p - n <==> -TWO_255 <= p - n < TWO_255
    ensures NetOf(p, n) == Max(p - n, 0)
    ensures DeficitOf(p, n) == Max(n - p, 0) <==> -TWO_255 <= p - n < TWO_255
    ensures NetSigned(p, n) - (p - n) in {-TWO_256, 0, TWO_256}
    ensures NetSigned(p, n) < 0 <==> -TWO_255 <= p - n < 0 || p - n >= TWO_255
  {
  }

  class DeltaLedger {
    var pos: Deltas
    var neg: Deltas

    /** The ledger of one transaction's transfers and native value. */
    constructor FromTransfers(transfers: seq<TransferFact>, wrappedNative: Address, spender: Address, value: u256)
      ensures Holds(Tx(wrappedNative, spender, value), transfers, pos, true)
      ensures HoldsSpent(Tx(wrappedNative, spender, value), transfers, neg)
    {
      hide Holds, HoldsSpent;
      pos, neg := map[], map[];
      new;
      ghost var tx := Tx(wrappedNative, spender, value);
      var hasNativeFlow := value != 0;
      NothingHolds(tx, true);
      NothingHolds(tx, false);
      for i := 0 to |transfers|
        invariant Holds(tx, transfers[..i], pos, true)
        invariant Holds(tx, transfers[..i], neg, false)
      {
        var t := transfers[i];
        assert transfers[..i + 1] == transfers[..i] + [t];
        if IsWrapNoise(t, wrappedNative, hasNativeFlow) {
          HoldsWithNoise(tx, transfers[..i], t, pos, true);
          HoldsWithNoise(tx, transfers[..i], t, neg, false);
        } else {
          ghost var p, n := pos, neg;
          Apply(t.token, t.from, t.amount, false);
          Apply(t.token, t.to, t.amount, true);
          HoldsOneMore(tx, transfers[..i], t, p, pos, true);
          HoldsOneMore(tx, transfers[..i], t, n, neg, false);
        }
      }
      assert transfers[..|transfers|] == transfers;
      ghost var n := neg;
      if value != 0 && spender != ZERO_ADDRESS {
        Apply(NATIVE_MARKER, spender, value, false);
      }
      NativeSpendHolds(tx, transfers, n, neg);
    }

    method Apply(token: Address, addr: Address, amount: u256, positive: bool)
      modifies this
      ensures pos == if positive && addr != ZERO_ADDRESS
                     then old(pos)[Entry(addr, token) := SatAddU256(ValueAt(old(pos), Entry(addr, token)), amount)]
                     else old(pos)
      ensures neg == if !positive && addr != ZERO_ADDRESS
                     then old(neg)[Entry(addr, token) := SatAddU256(ValueAt(old(neg), Entry(addr, token)), amount)]
                     else old(neg)
    {
      if addr == ZERO_ADDRESS {
        return;
      }
      var k := Entry(addr, token);
      if positive {
        pos := pos[k := SatAddU256(ValueAt(pos, k), amount)];
      } else {
        neg := neg[k := SatAddU256(ValueAt(neg, k), amount)];
      }
    }

    function Net(addr: Address, token: Address): u256
      reads this
    {
      NetOf(ValueAt(pos, Entry(addr, token)), ValueAt(neg, Entry(addr, token)))
    }

    function Signed(addr: Address, token: Address): i256
      reads this
    {
      NetSigned(ValueAt(pos, Entry(addr, token)), ValueAt(neg, Entry(addr, token)))
    }

    /** The tokens with a strictly positive net, ascending. */
    method PositiveTokens(addr: Address) returns (tokens: seq<Address>)
      ensures Ascends(tokens)
      ensures forall t :: t in tokens <==> Net(addr, t) > 0
    {
      tokens := SortedTokens(set k | k in pos && k.addr == addr && Net(addr, k.token) > 0 :: k.token);
    }

    /** The tokens on either side of the ledger, ascending. */
    method TouchedTokens(addr: Address) returns (tokens: seq<Address>)
      ensures Ascends(tokens)
      ensures forall t :: t in tokens <==> Entry(addr, t) in pos || Entry(addr, t) in neg
    {
      tokens := SortedTokens((set k | k in pos && k.addr == addr :: k.token) + (set k | k in neg && k.addr == addr :: k.token));
    }

    /** A token with a negative signed residual: true exactly when some token
        was spent on balance, or its gain is too large for i256. */
    method HasInventorySpend(addr: Address) returns (b: bool)
      ensures b <==> exists t: Address :: var d := ValueAt(pos, Entry(addr, t)) - ValueAt(neg, Entry(addr, t));
                                          -TWO_255 <= d < 0 || d >= TWO_255
    {
      var tokens := TouchedTokens(addr);
      var i := 0;
      b := false;
      while i < |tokens| && !b
        invariant 0 <= i <= |tokens|
        invariant b <==> exists j :: 0 <= j < i && Signed(addr, tokens[j]) < 0
      {
        b := Signed(addr, tokens[i]) < 0;
        i := i + 1;
      }
      forall t: Address ensures Signed(addr, t) < 0 <==>
        var d := ValueAt(pos, Entry(addr, t)) - ValueAt(neg, Entry(addr, t)); -TWO_255 <= d < 0 || d >= TWO_255
      {
        NetSignedExactWhen(ValueAt(pos, Entry(addr, t)), ValueAt(neg, Entry(addr, t)));
      }
      if !b {
        forall t: Address ensures Signed(addr, t) >= 0 {
          if t in tokens {
            var j :| 0 <= j < |tokens| && tokens[j] == t;
          }
        }
      } else {
        var j :| 0 <= j < i && Signed(addr, tokens[j]) < 0;
      }
    }

    /** The profit token: the first priority token with a positive net, else the
        token with the largest net and, among those, the lowest address. */
    method SelectProfitToken(searcher: Address, priority: seq<Address>) returns (r: Option<Address>)
      ensures r.None? <==> forall t: Address :: Net(searcher, t) == 0
      ensures r.Some? ==> Net(searcher, r.value) > 0
      ensures r.Some? && (exists i :: 0 <= i < |priority| && Net(searcher, priority[i]) > 0) ==>
        exists i :: 0 <= i < |priority| && priority[i] == r.value
                 && forall j :: 0 <= j < i ==> Net(searcher, priority[j]) == 0
      ensures r.Some? && (forall i :: 0 <= i < |priority| ==> Net(searcher, priority[i]) == 0) ==>
        forall t: Address :: Net(searcher, t) < Net(searcher, r.value)
                          || (Net(searcher, t) == Net(searcher, r.value) && r.value <= t)
    {
      for i := 0 to |priority|
        invariant forall j :: 0 <= j < i ==> Net(searcher, priority[j]) == 0
      {
        if Net(searcher, priority[i]) > 0 {
          return Some(priority[i]);
        }
      }
      var tokens := PositiveTokens(searcher);
      r := None;
      for i := 0 to |tokens|
        invariant r.None? <==> i == 0
        invariant r.Some? ==> Net(searcher, r.value) > 0
        invariant r.Some? ==> exists k :: 0 <= k < i && tokens[k] == r.value
        invariant r.Some? ==> forall j :: 0 <= j < i ==>
          (Net(searcher, tokens[j]) < Net(searcher, r.value)
           || (Net(searcher, tokens[j]) == Net(searcher, r.value) && r.value <= tokens[j]))
      {
        assert tokens[i] in tokens;
        if r.None? || Net(searcher, r.value) < Net(searcher, tokens[i]) {
          r := Some(tokens[i]);
        }
      }
      if |tokens| > 0 {
        forall t: Address ensures Net(searcher, t) < Net(searcher, r.value)
                               || (Net(searcher, t) == Net(searcher, r.value) && r.value <= t)
        {
          if Net(searcher, t) > 0 {
            var j :| 0 <= j < |tokens| && tokens[j] == t;
          }
        }
      } else {
        forall t: Address ensures Net(searcher, t) == 0 {
          assert t !in tokens;
        }
      }
    }

    /** Net out a flash-loan loop: the loan and its fee count as spent. */
    method NetFlashLoan(searcher: Address, token: Address, borrowed: u256, fee: u256)
      modifies this
      ensures pos == old(pos)
      ensures forall k :: k != Entry(searcher, token) ==> ValueAt(neg, k) == ValueAt(old(neg), k)
      ensures ValueAt(neg, Entry(searcher, token)) == Min(ValueAt(old(neg), Entry(searcher, token)) + borrowed + fee, U256_MAX)
    {
      var k := Entry(searcher, token);
      neg := neg[k := SatAddU256(ValueAt(neg, k), SatAddU256(borrowed, fee))];
    }
  }

  /** Collect, sort and drop duplicates. */
  method SortedTokens(tokens: set<Address>) returns (s: seq<Address>)
    ensures Ascends(s)
    ensures forall t :: t in s <==> t in tokens
  {
    s := [];
    var rest := tokens;
    while rest != {}
      invariant rest <= tokens
      invariant Ascends(s)
      invariant forall t :: t in s <==> t in tokens - rest
      invariant forall t, u :: t in s && u in rest ==> t < u
      decreases |rest|
    {
      var m := Least(rest);
      forall i | 0 <= i < |s| ensures s[i] < m {
        assert s[i] in s;
      }
      s := s + [m];
      rest := rest - {m};
    }
  }

  method Least(s: set<Address>) returns (m: Address)
    requires s != {}
    ensures m in s && forall t :: t in s ==> m <= t
  {
    m :| m in s;
    var rest := s - {m};
    while rest != {}
      invariant rest <= s && m in s
      invariant forall x :: x in s && x !in rest ==> m <= x
      decreases |rest|
    {
      var t :| t in rest;
      if t < m {
        m := t;
      }
      rest := rest - {t};
    }
  }

  // ----- order and conservation

  /** Two ledgers of the same transaction, whatever order its transfers come in
      and whether or not sums saturate, are the same. */
  lemma LedgersIgnoreOrder(tx: Tx, a: seq<TransferFact>, b: seq<TransferFact>, pos: Deltas, neg: Deltas, pos': Deltas,
                           neg': Deltas)
    requires multiset(a) == multiset(b)
    requires Holds(tx, a, pos, true) && HoldsSpent(tx, a, neg)
    requires Holds(tx, b, pos', true) && HoldsSpent(tx, b, neg')
    ensures pos == pos' && neg == neg'
  {
    HoldsIgnoresOrder(tx, a, b, pos, pos', true);
    forall t ensures t in a <==> t in b {
      assert t in multiset(a) <==> t in multiset(b);
    }
    forall k ensures k in neg <==> k in neg' {
      assert tx.SpendsFrom(a, k) <==> tx.SpendsFrom(b, k);
    }
    forall k | k in neg ensures neg[k] == neg'[k] {
      TotalOfPermutation(tx.AddsTo(k, false), a, b);
      assert ValueAt(neg, k) == ValueAt(neg', k);
    }
  }

  /** The residual of `token` summed over a list of accounts. */
  function Residual(tx: Tx, ts: seq<TransferFact>, token: Address, accounts: seq<Address>): int {
    if accounts == [] then 0
    else (
      var k := Entry(accounts[0], token);
      tx.Received(ts, k) - tx.Spent(ts, k) + Residual(tx, ts, token, accounts[1..])
    )
  }

  /** Kept transfers of `token` out of, or into, the zero address. */
  function Minted(tx: Tx, ts: seq<TransferFact>, token: Address): nat {
    if ts == [] then 0
    else (
      var here := if tx.Kept(ts[0]) && ts[0].token == token && ts[0].from == ZERO_ADDRESS then ts[0].amount else 0;
      here + Minted(tx, ts[1..], token)
    )
  }

  function Burned(tx: Tx, ts: seq<TransferFact>, token: Address): nat {
    if ts == [] then 0
    else (
      var here := if tx.Kept(ts[0]) && ts[0].token == token && ts[0].to == ZERO_ADDRESS then ts[0].amount else 0;
      here + Burned(tx, ts[1..], token)
    )
  }

  /** Each account once, and every real party of `ts` among them. */
  ghost predicate Roster(ts: seq<TransferFact>, accounts: seq<Address>) {
    && (forall i, j :: 0 <= i < j < |accounts| ==> accounts[i] != accounts[j])
    && (forall t :: t in ts ==> (t.from == ZERO_ADDRESS || t.from in accounts) && (t.to == ZERO_ADDRESS || t.to in accounts))
  }

  /** What one transfer moves, summed over the accounts. */
  function Moved(tx: Tx, t: TransferFact, token: Address, accounts: seq<Address>): int {
    if accounts == [] then 0
    else (
      var k := Entry(accounts[0], token);
      tx.Adds(t, k, true) - tx.Adds(t, k, false) + Moved(tx, t, token, accounts[1..])
    )
  }

  lemma {:induction false} ResidualCons(tx: Tx, ts: seq<TransferFact>, token: Address, accounts: seq<Address>)
    requires ts != []
    ensures Residual(tx, ts, token, accounts)
         == Residual(tx, ts[1..], token, accounts) + Moved(tx, ts[0], token, accounts)
  {
    if accounts != [] {
      ResidualCons(tx, ts, token, accounts[1..]);
    }
  }

  lemma {:induction false} MovedByOne(tx: Tx, t: TransferFact, token: Address, accounts: seq<Address>)
    requires forall i, j :: 0 <= i < j < |accounts| ==> accounts[i] != accounts[j]
    ensures Moved(tx, t, token, accounts)
         == (if tx.Kept(t) && t.token == token && t.to != ZERO_ADDRESS && t.to in accounts then t.amount else 0)
          - (if tx.Kept(t) && t.token == token && t.from != ZERO_ADDRESS && t.from in accounts then t.amount else 0)
  {
    if accounts != [] {
      var rest := accounts[1..];
      forall i, j | 0 <= i < j < |rest| ensures rest[i] != rest[j] {
        assert rest[i] == accounts[i + 1] && rest[j] == accounts[j + 1];
      }
      forall j | 0 <= j < |rest| ensures rest[j] != accounts[0] {
        assert rest[j] == accounts[j + 1];
      }
      assert accounts == [accounts[0]] + rest;
      MovedByOne(tx, t, token, rest);
    }
  }

  /** Nothing is lost between accounts: the residuals of a token sum to what was
      minted minus what was burned over the kept transfers; for native value,
      also minus what was sent along. */
  lemma {:induction false} ResidualIsMintedMinusBurned(tx: Tx, ts: seq<TransferFact>, token: Address,
                                                       accounts: seq<Address>)
    requires Roster(ts, accounts)
    ensures Residual(tx, ts, token, accounts)
         == Minted(tx, ts, token) - Burned(tx, ts, token) - NativeOut(tx, token, accounts)
  {
    if ts == [] {
      OnlyNativeResidual(tx, token, accounts);
    } else {
      assert ts[0] in ts;
      ResidualCons(tx, ts, token, accounts);
      MovedByOne(tx, ts[0], token, accounts);
      ResidualIsMintedMinusBurned(tx, ts[1..], token, accounts);
    }
  }

  /** Native value leaves its sender and arrives nowhere in the ledger. */
  function NativeOut(tx: Tx, token: Address, accounts: seq<Address>): nat {
    if token == NATIVE_MARKER && tx.spender != ZERO_ADDRESS && tx.spender in accounts then tx.value else 0
  }

  lemma {:induction false} OnlyNativeResidual(tx: Tx, token: Address, accounts: seq<Address>)
    requires forall i, j :: 0 <= i < j < |accounts| ==> accounts[i] != accounts[j]
    ensures Residual(tx, [], token, accounts) == -(NativeOut(tx, token, accounts) as int)
  {
    if accounts != [] {
      var rest := accounts[1..];
      forall i, j | 0 <= i < j < |rest| ensures rest[i] != rest[j] {
        assert rest[i] == accounts[i + 1] && rest[j] == accounts[j + 1];
      }
      forall j | 0 <= j < |rest| ensures rest[j] != accounts[0] {
        assert rest[j] == accounts[j + 1];
      }
      assert accounts == [accounts[0]] + rest;
      OnlyNativeResidual(tx, token, rest);
    }
  }

  /** The ledger's own residuals of a token, summed over a list of accounts. */
  function LedgerResidual(pos: Deltas, neg: Deltas, token: Address, accounts: seq<Address>): int {
    if accounts == [] then 0
    else (
      var k := Entry(accounts[0], token);
      ValueAt(pos, k) as int - ValueAt(neg, k) + LedgerResidual(pos, neg, token, accounts[1..])
    )
  }

  /** Without saturation the ledger conserves every token. */
  lemma {:induction false} LedgerConserves(tx: Tx, ts: seq<TransferFact>, token: Address, accounts: seq<Address>,
                                           pos: Deltas, neg: Deltas)
    requires Roster(ts, accounts)
    requires Holds(tx, ts, pos, true) && HoldsSpent(tx, ts, neg)
    requires forall a :: a in accounts ==> ValueAt(pos, Entry(a, token)) < U256_MAX && ValueAt(neg, Entry(a, token)) < U256_MAX
    ensures LedgerResidual(pos, neg, token, accounts)
         == Minted(tx, ts, token) - Burned(tx, ts, token) - NativeOut(tx, token, accounts)
  {
    ResidualIsMintedMinusBurned(tx, ts, token, accounts);
    LedgerResidualIsExact(tx, ts, token, accounts, pos, neg);
  }

  lemma {:induction false} LedgerResidualIsExact(tx: Tx, ts: seq<TransferFact>, token: Address,
                                                 accounts: seq<Address>, pos: Deltas, neg: Deltas)
    requires Holds(tx, ts, pos, true) && HoldsSpent(tx, ts, neg)
    requires forall a :: a in accounts ==> ValueAt(pos, Entry(a, token)) < U256_MAX && ValueAt(neg, Entry(a, token)) < U256_MAX
    ensures LedgerResidual(pos, neg, token, accounts) == Residual(tx, ts, token, accounts)
  {
    if accounts != [] {
      assert accounts[0] in accounts;
      HoldsValue(tx, ts, pos, true, Entry(accounts[0], token));
      LedgerResidualIsExact(tx, ts, token, accounts[1..], pos, neg);
    }
  }

  // ----- what the noise filter leaves out

  /** Every mint and burn of `token` counts: no native value was sent, or the token
      is not the wrapped one. */
  predicate CountsAll(tx: Tx, token: Address) {
    tx.value == 0 || token != tx.wrappedNative
  }

  /** The amounts that reach, or leave, entry `k`: over all transfers, or over those
      between two real accounts. */
  function SumOver(ts: seq<TransferFact>, k: Entry, received: bool, all: bool): nat {
    if ts == [] then 0
    else (
      var t := ts[0];
      var counts := t.token == k.token && (if received then t.to else t.from) == k.addr
                    && (all || (t.from != ZERO_ADDRESS && t.to != ZERO_ADDRESS));
      (if counts then t.amount else 0) + SumOver(ts[1..], k, received, all)
    )
  }

  lemma {:induction false} KeptSum(tx: Tx, ts: seq<TransferFact>, k: Entry, received: bool)
    ensures Total(tx.AddsTo(k, received), ts)
         == if k.addr == ZERO_ADDRESS then 0 else SumOver(ts, k, received, CountsAll(tx, k.token))
  {
    if ts != [] {
      KeptSum(tx, ts[1..], k, received);
      assert tx.AddsTo(k, received)(ts[0]) == tx.Adds(ts[0], k, received);
    }
  }

  /** What the two maps hold, over the transfers themselves: without native value,
      every transfer counts; with it, only the wrapped token's mints and burns are
      left out. The zero address has no entry. */
  lemma EntriesSumTheTransfers(tx: Tx, ts: seq<TransferFact>, pos: Deltas, neg: Deltas, k: Entry)
    requires Holds(tx, ts, pos, true) && HoldsSpent(tx, ts, neg)
    ensures k.addr == ZERO_ADDRESS ==> k !in pos && k !in neg
    ensures k.addr != ZERO_ADDRESS ==>
      var all := CountsAll(tx, k.token); var sent := if k == Entry(tx.spender, NATIVE_MARKER) then tx.value else 0;
      && ValueAt(pos, k) == Min(SumOver(ts, k, true, all), U256_MAX)
      && ValueAt(neg, k) == Min(SumOver(ts, k, false, all) + sent, U256_MAX)
  {
    hide Total, Tx.AddsTo;
    HoldsValue(tx, ts, pos, true, k);
    KeptSum(tx, ts, k, true);
    KeptSum(tx, ts, k, false);
  }

  /** Entry `k` receives, or sends, in some transfer that counts. */
  ghost predicate IsParty(ts: seq<TransferFact>, k: Entry, received: bool, all: bool) {
    exists t :: t in ts && t.token == k.token && (if received then t.to else t.from) == k.addr
                && (all || (t.from != ZERO_ADDRESS && t.to != ZERO_ADDRESS))
  }

  /** Which entries there are: the parties of the transfers that count, and the
      sender of native value. */
  lemma EntriesAreOfTheParties(tx: Tx, ts: seq<TransferFact>, pos: Deltas, neg: Deltas, k: Entry)
    requires Holds(tx, ts, pos, true) && HoldsSpent(tx, ts, neg) && k.addr != ZERO_ADDRESS
    ensures k in pos <==> IsParty(ts, k, true, CountsAll(tx, k.token))
    ensures k in neg <==>
      IsParty(ts, k, false, CountsAll(tx, k.token)) || (tx.value != 0 && k == Entry(tx.spender, NATIVE_MARKER))
  {
  }

  /** Amounts of `token` that come from, or go to, the zero address. */
  function AllMinted(ts: seq<TransferFact>, token: Address): nat {
    if ts == [] then 0
    else (if ts[0].token == token && ts[0].from == ZERO_ADDRESS then ts[0].amount else 0) + AllMinted(ts[1..], token)
  }

  function AllBurned(ts: seq<TransferFact>, token: Address): nat {
    if ts == [] then 0
    else (if ts[0].token == token && ts[0].to == ZERO_ADDRESS then ts[0].amount else 0) + AllBurned(ts[1..], token)
  }

  lemma {:induction false} KeptSupply(tx: Tx, ts: seq<TransferFact>, token: Address)
    ensures CountsAll(tx, token) ==>
      Minted(tx, ts, token) == AllMinted(ts, token) && Burned(tx, ts, token) == AllBurned(ts, token)
    ensures !CountsAll(tx, token) ==> Minted(tx, ts, token) == 0 && Burned(tx, ts, token) == 0
  {
    if ts != [] {
      KeptSupply(tx, ts[1..], token);
    }
  }

  /** Without saturation the residuals of a token sum to all that was minted minus
      all that was burned; those of the wrapped token, when native value was sent,
      to nothing. Native value leaves its sender. */
  lemma SupplyIsConserved(tx: Tx, ts: seq<TransferFact>, token: Address, accounts: seq<Address>,
                          pos: Deltas, neg: Deltas)
    requires Roster(ts, accounts) && Holds(tx, ts, pos, true) && HoldsSpent(tx, ts, neg)
    requires forall a :: a in accounts ==> ValueAt(pos, Entry(a, token)) < U256_MAX && ValueAt(neg, Entry(a, token)) < U256_MAX
    ensures LedgerResidual(pos, neg, token, accounts)
         == (if CountsAll(tx, token) then AllMinted(ts, token) - AllBurned(ts, token) else 0)
          - NativeOut(tx, token, accounts)
  {
    hide Holds, HoldsSpent, Roster, LedgerResidual;
    LedgerConserves(tx, ts, token, accounts, pos, neg);
    KeptSupply(tx, ts, token);
  }

  /** Wrapping inside a transaction that sends no native value, then spending what
      was wrapped, leaves nothing behind: there is no phantom spend. */
  lemma WrapThenSpendLeavesNothing(wrapped: Address, me: Address, pool: Address, amount: u256, pos: Deltas, neg: Deltas)
    requires me != ZERO_ADDRESS && pool != ZERO_ADDRESS && me != pool
    requires var tx := Tx(wrapped, me, 0);
             var ts := [TransferFact(wrapped, ZERO_ADDRESS, me, amount), TransferFact(wrapped, me, pool, amount)];
             Holds(tx, ts, pos, true) && HoldsSpent(tx, ts, neg)
    ensures ValueAt(pos, Entry(me, wrapped)) == ValueAt(neg, Entry(me, wrapped)) == amount
  {
    var tx, k := Tx(wrapped, me, 0), Entry(me, wrapped);
    var ts := [TransferFact(wrapped, ZERO_ADDRESS, me, amount), TransferFact(wrapped, me, pool, amount)];
    EntriesSumTheTransfers(tx, ts, pos, neg, k);
    forall received: bool ensures SumOver(ts, k, received, true) == amount {
      assert ts[1..][1..] == [] && ts[1..][0] == ts[1];
      assert SumOver(ts[1..][1..], k, received, true) == 0;
      assert SumOver(ts[1..], k, received, true) == if received then 0 else amount;
    }
  }
}
