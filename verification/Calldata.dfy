/** The calldata of one arbitrage plan and the readers of ABI words. A writer
    fills 32-byte words, right-aligned and big-endian; the readers live in
    another part of the program and must undo it at every offset. */
module Calldata {
  import opened RustInts
  import opened PaperTypes
  import opened Division

  type byte = x: int | 0 <= x < 256

  datatype ExecLeg = ExecLeg(pool: Address, tokenIn: Address, tokenOut: Address, kind: nat, fee: nat)
  {
    /** `kind` is a u8 and `fee` a u32. */
    predicate Valid() {
      kind < 0x100 && fee < 0x1_0000_0000
    }
  }

  datatype Provider = Auto | Balancer | Aave | Uniswap

  datatype ExecPlan = ExecPlan(vault: Address, borrowToken: Address, amount: u256, minProfit: u256,
                               deadline: u64, legs: seq<ExecLeg>, provider: Provider)
  {
    /** The buffer for the encoding can be allocated. */
    predicate Valid() {
      CalldataSize(|legs|) <= USIZE_MAX && forall l :: l in legs ==> l.Valid()
    }
  }

  const TUPLE_AT: nat := 36
  const LEGS_AT: nat := 228

  function CalldataSize(legs: nat): nat {
    260 + 160 * legs
  }

  function LegAt(i: nat): nat {
    260 + 160 * i
  }

  // ----- big-endian numbers

  function Pow256(n: nat): (p: nat)
    ensures p > 0
  {
    if n == 0 then 1 else 256 * Pow256(n - 1)
  }

  /** The number a big-endian byte string denotes. */
  function FromBytes(b: seq<byte>): nat {
    if b == [] then 0 else FromBytes(b[..|b| - 1]) * 256 + b[|b| - 1]
  }

  /** `v`, big-endian, in `n` bytes. */
  function ToBytes(v: nat, n: nat): (b: seq<byte>)
    ensures |b| == n
  {
    if n == 0 then [] else ToBytes(v / 256, n - 1) + [v % 256]
  }

  function Zeros(n: nat): (b: seq<byte>)
    ensures |b| == n
  {
    seq(n, i => 0)
  }

  lemma {:induction false} NumberSurvivesBytes(v: nat, n: nat)
    requires v < Pow256(n)
    ensures FromBytes(ToBytes(v, n)) == v
  {
    if n > 0 {
      NumberSurvivesBytes(v / 256, n - 1);
      var b := ToBytes(v, n);
      assert b[..|b| - 1] == ToBytes(v / 256, n - 1);
    }
  }

  lemma {:induction false} BytesSurviveNumber(b: seq<byte>)
    ensures FromBytes(b) < Pow256(|b|) && ToBytes(FromBytes(b), |b|) == b
  {
    if b != [] {
      BytesSurviveNumber(b[..|b| - 1]);
      assert FromBytes(b) / 256 == FromBytes(b[..|b| - 1]);
      assert b == b[..|b| - 1] + [b[|b| - 1]];
    }
  }

  lemma {:induction false} ValueOfConcatenation(a: seq<byte>, b: seq<byte>)
    ensures FromBytes(a + b) == FromBytes(a) * Pow256(|b|) + FromBytes(b)
  {
    if b == [] {
      assert a + b == a;
    } else {
      var c, last := b[..|b| - 1], b[|b| - 1];
      ValueOfConcatenation(a, c);
      LastByte(a + b);
      LastByte(b);
      assert (a + b)[..|a + b| - 1] == a + c;
      assert Pow256(|b|) == 256 * Pow256(|c|);
      hide FromBytes, Pow256;
      MulShift(FromBytes(a), Pow256(|c|), FromBytes(c), last);
    }
  }

  lemma LastByte(b: seq<byte>)
    requires b != []
    ensures FromBytes(b) == FromBytes(b[..|b| - 1]) * 256 + b[|b| - 1]
  {
  }

  lemma MulShift(x: nat, p: nat, f: nat, last: nat)
    ensures (x * p + f) * 256 + last == x * (256 * p) + (f * 256 + last)
  {
    assert x * (256 * p) == 256 * (x * p);
  }

  lemma {:induction false} ZerosDenoteZero(n: nat)
    ensures FromBytes(Zeros(n)) == 0
  {
    if n > 0 {
      ZerosDenoteZero(n - 1);
      assert Zeros(n)[..n - 1] == Zeros(n - 1);
    }
  }

  /** Padding on the left with zeros changes neither the number nor its bytes. */
  lemma LeftPadding(b: seq<byte>, n: nat)
    ensures FromBytes(Zeros(n) + b) == FromBytes(b)
    ensures Zeros(n) + b == ToBytes(FromBytes(b), n + |b|)
  {
    hide FromBytes, ToBytes, Zeros, Pow256;
    ZerosDenoteZero(n);
    ValueOfConcatenation(Zeros(n), b);
    BytesSurviveNumber(Zeros(n) + b);
  }

  /** The last `k` bytes are what is left of the number by 256^k. */
  lemma LastBytes(b: seq<byte>, k: nat)
    requires k <= |b|
    ensures FromBytes(b) == FromBytes(b[..|b| - k]) * Pow256(k) + FromBytes(b[|b| - k..])
    ensures FromBytes(b[|b| - k..]) < Pow256(k)
  {
    hide FromBytes, ToBytes, Pow256;
    var high, low := b[..|b| - k], b[|b| - k..];
    assert b == high + low;
    ValueOfConcatenation(high, low);
    BytesSurviveNumber(low);
  }

  lemma {:induction false} Pow256Grows(a: nat, b: nat)
    requires a <= b
    ensures Pow256(a) <= Pow256(b)
  {
    if a < b {
      Pow256Grows(a, b - 1);
    }
  }

  lemma Widths()
    ensures Pow256(8) == U64_MAX + 1 && Pow256(16) == TWO_128 && Pow256(20) == TWO_160 && Pow256(32) == TWO_256
  {
    assert Pow256(4) == 0x1_0000_0000;
    assert Pow256(8) == 0x1_0000_0000 * Pow256(4);
    assert Pow256(12) == 0x1_0000_0000 * Pow256(8);
    assert Pow256(16) == 0x1_0000_0000 * Pow256(12);
    assert Pow256(20) == 0x1_0000_0000 * Pow256(16);
    assert Pow256(24) == 0x1_0000_0000 * Pow256(20);
    assert Pow256(28) == 0x1_0000_0000 * Pow256(24);
    assert Pow256(32) == 0x1_0000_0000 * Pow256(28);
  }

  // ----- the readers

  /** The bytes that `u128_from_be_bytes` reads: at most the last sixteen. */
  function LastSixteen(bytes: seq<byte>): (tail: seq<byte>)
    ensures |tail| == Min(|bytes|, 16)
  {
    bytes[|bytes| - Min(|bytes|, 16)..]
  }

  function U128Of(bytes: seq<byte>): u128 {
    FitsU128(LastSixteen(bytes));
    FromBytes(LastSixteen(bytes))
  }

  lemma FitsU128(tail: seq<byte>)
    requires |tail| <= 16
    ensures FromBytes(tail) < TWO_128
  {
    hide FromBytes, ToBytes, Pow256;
    BytesSurviveNumber(tail);
    Pow256Grows(|tail|, 16);
    Widths();
  }

  /** The value read is the number modulo 2^128. */
  lemma U128OfIsLowPart(bytes: seq<byte>)
    ensures U128Of(bytes) == FromBytes(bytes) % TWO_128
  {
    hide FromBytes, ToBytes, Pow256;
    Widths();
    if |bytes| >= 16 {
      LastBytes(bytes, 16);
      RemainderOf(FromBytes(bytes[..|bytes| - 16]), Pow256(16), FromBytes(bytes[|bytes| - 16..]));
    } else {
      assert bytes[0..] == bytes;
      BytesSurviveNumber(bytes);
      Pow256Grows(|bytes|, 16);
      SmallRemainder(FromBytes(bytes), Pow256(16));
    }
  }

  /** Sixteen bytes, padded on the left, denote what their tail does. */
  lemma PaddedSixteen(buf: seq<byte>, bytes: seq<byte>)
    requires buf == Zeros(16 - |LastSixteen(bytes)|) + LastSixteen(bytes)
    ensures FromBytes(buf) == U128Of(bytes)
  {
    hide FromBytes, ToBytes, Pow256, Zeros, LastSixteen;
    LeftPadding(LastSixteen(bytes), 16 - |LastSixteen(bytes)|);
  }

  method U128FromBeBytes(bytes: seq<byte>) returns (r: u128)
    ensures r == U128Of(bytes)
  {
    hide FromBytes, U128Of;
    var buf := new byte[16](i => 0);
    var len := Min(|bytes|, 16);
    forall i | 0 <= i < len {
      buf[16 - len + i] := bytes[|bytes| - len + i];
    }
    assert buf[..] == Zeros(16 - len) + LastSixteen(bytes);
    PaddedSixteen(buf[..], bytes);
    r := FromBytes(buf[..]);
  }

  /** The word at `offset` as a u128: its low sixteen bytes. */
  function AbiDecodeU128(data: seq<byte>, offset: nat): (r: Option<u128>)
    requires offset + 32 <= USIZE_MAX
    ensures r.None? <==> offset + 32 > |data|
    ensures r.Some? ==> r.value == FromBytes(data[offset..offset + 32]) % TWO_128
  {
    if offset + 32 > |data| then None
    else
      U128OfIsLowPart(data[offset..offset + 32]);
      Some(U128Of(data[offset..offset + 32]))
  }

  /** The last twenty bytes of a word are its number modulo 2^160. */
  lemma LastTwentyBytes(word: seq<byte>)
    requires |word| == 32
    ensures FromBytes(word[12..]) == FromBytes(word) % TWO_160 < TWO_160
  {
    hide FromBytes, ToBytes, Pow256;
    Widths();
    LastBytes(word, 20);
    RemainderOf(FromBytes(word[..12]), Pow256(20), FromBytes(word[12..]));
  }

  /** The word at `offset` as an address: its low twenty bytes. */
  function AbiDecodeAddress(data: seq<byte>, offset: nat): (r: Option<Address>)
    requires offset + 32 <= USIZE_MAX
    ensures r.None? <==> offset + 32 > |data|
    ensures r.Some? ==> r.value == FromBytes(data[offset..offset + 32]) % TWO_160
  {
    if offset + 32 > |data| then None
    else
      LastTwentyBytes(data[offset..offset + 32]);
      assert data[offset..offset + 32][12..] == data[offset + 12..offset + 32];
      Some(FromBytes(data[offset + 12..offset + 32]))
  }

  function AbiDecodeU256(data: seq<byte>, offset: nat): (r: Option<u256>)
    requires offset + 32 <= USIZE_MAX
    ensures r.None? <==> offset + 32 > |data|
    ensures r.Some? ==> ToBytes(r.value, 32) == data[offset..offset + 32]
  {
    if offset + 32 > |data| then None
    else
      Widths();
      BytesSurviveNumber(data[offset..offset + 32]);
      Some(FromBytes(data[offset..offset + 32]))
  }

  // ----- the writer

  /** The encoding of an unsigned integer or address: 32 bytes, big-endian. */
  function Word(v: nat): (w: seq<byte>)
    ensures |w| == 32
  {
    ToBytes(v, 32)
  }

  lemma NarrowWord(v: nat, n: nat)
    requires n <= 32 && v < Pow256(n)
    ensures Zeros(32 - n) + ToBytes(v, n) == Word(v)
  {
    LeftPadding(ToBytes(v, n), 32 - n);
    NumberSurvivesBytes(v, n);
  }

  method WordAddr(addr: Address) returns (word: array<byte>)
    ensures fresh(word) && word[..] == Word(addr)
  {
    word := new byte[32](i => 0);
    Widths();
    var b := ToBytes(addr, 20);
    forall i | 0 <= i < 20 {
      word[12 + i] := b[i];
    }
    assert word[..] == Zeros(12) + b;
    NarrowWord(addr, 20);
  }

  method WordU256(v: u256) returns (word: array<byte>)
    ensures fresh(word) && word[..] == Word(v)
  {
    var b := ToBytes(v, 32);
    word := new byte[32](i requires 0 <= i < 32 => b[i]);
    assert word[..] == b;
  }

  method WordU64(v: u64) returns (word: array<byte>)
    ensures fresh(word) && word[..] == Word(v)
  {
    word := new byte[32](i => 0);
    Widths();
    var b := ToBytes(v, 8);
    forall i | 0 <= i < 8 {
      word[24 + i] := b[i];
    }
    assert word[..] == Zeros(24) + b;
    NarrowWord(v, 8);
  }

  function Serialize(words: seq<nat>): (b: seq<byte>)
    ensures |b| == 32 * |words|
  {
    if words == [] then [] else Serialize(words[..|words| - 1]) + Word(words[|words| - 1])
  }

  function LegWords(l: ExecLeg): seq<nat> {
    [l.pool, l.tokenIn, l.tokenOut, l.kind, l.fee]
  }

  function LegsWords(legs: seq<ExecLeg>): (w: seq<nat>)
    ensures |w| == 5 * |legs|
  {
    if legs == [] then [] else LegsWords(legs[..|legs| - 1]) + LegWords(legs[|legs| - 1])
  }

  function HeadWords(p: ExecPlan): seq<nat> {
    [32, p.vault, p.borrowToken, p.amount, p.minProfit, p.deadline, 192, |p.legs|]
  }

  /** The argument words of `execute(plan)`. */
  function PlanWords(p: ExecPlan): seq<nat> {
    HeadWords(p) + LegsWords(p.legs)
  }

  function CalldataOf(selector: seq<byte>, p: ExecPlan): seq<byte> {
    selector + Serialize(PlanWords(p))
  }

  lemma {:induction false} SerializeAppends(words: seq<nat>, more: seq<nat>)
    ensures Serialize(words + more) == Serialize(words) + Serialize(more)
  {
    if more == [] {
      assert words + more == words;
    } else {
      var init := more[..|more| - 1];
      assert (words + more)[..|words + more| - 1] == words + init;
      SerializeAppends(words, init);
    }
  }

  lemma SerializeOne(v: nat)
    ensures Serialize([v]) == Word(v)
  {
    assert [v][..0] == [];
  }

  /** Appending words one by one is appending their serialization. */
  lemma AppendOne(out: seq<byte>, words: seq<nat>, v: nat)
    ensures out + Serialize(words) + Word(v) == out + Serialize(words + [v])
  {
    hide Word, Serialize;
    SerializeOne(v);
    SerializeAppends(words, [v]);
  }

  lemma AppendThree(out: seq<byte>, a: nat, b: nat, c: nat)
    ensures out + Word(a) + Word(b) + Word(c) == out + Serialize([a, b, c])
  {
    hide Word, Serialize;
    SerializeOne(a);
    AppendOne(out, [a], b);
    assert [a] + [b] == [a, b];
    AppendOne(out, [a, b], c);
    assert [a, b] + [c] == [a, b, c];
  }

  lemma AppendFive(out: seq<byte>, a: nat, b: nat, c: nat, d: nat, e: nat)
    ensures out + Word(a) + Word(b) + Word(c) + Word(d) + Word(e) == out + Serialize([a, b, c, d, e])
  {
    hide Word, Serialize;
    AppendThree(out, a, b, c);
    AppendOne(out, [a, b, c], d);
    assert [a, b, c] + [d] == [a, b, c, d];
    AppendOne(out, [a, b, c, d], e);
    assert [a, b, c, d] + [e] == [a, b, c, d, e];
  }

  lemma AppendHead(out: seq<byte>, p: ExecPlan)
    ensures out + Word(32) + Word(p.vault) + Word(p.borrowToken) + Word(p.amount) + Word(p.minProfit)
              + Word(p.deadline) + Word(192) + Word(|p.legs|)
         == out + Serialize(HeadWords(p))
  {
    hide Word, Serialize;
    var first, rest := [32, p.vault, p.borrowToken, p.amount, p.minProfit], [p.deadline, 192, |p.legs|];
    AppendFive(out, 32, p.vault, p.borrowToken, p.amount, p.minProfit);
    AppendThree(out + Serialize(first), p.deadline, 192, |p.legs|);
    SerializeAppends(first, rest);
    assert first + rest == HeadWords(p);
  }

  lemma AppendLeg(prefix: seq<byte>, words: seq<nat>, l: ExecLeg)
    ensures prefix + Serialize(words) + Word(l.pool) + Word(l.tokenIn) + Word(l.tokenOut) + Word(l.kind) + Word(l.fee)
         == prefix + Serialize(words + LegWords(l))
  {
    hide Word, Serialize;
    AppendFive(prefix + Serialize(words), l.pool, l.tokenIn, l.tokenOut, l.kind, l.fee);
    SerializeAppends(words, LegWords(l));
  }

  lemma OneMoreLeg(head: seq<nat>, legs: seq<ExecLeg>, i: nat)
    requires i < |legs|
    ensures head + LegsWords(legs[..i]) + LegWords(legs[i]) == head + LegsWords(legs[..i + 1])
  {
    assert legs[..i + 1][..i] == legs[..i];
  }

  /** `selector` is the four-byte function selector, a hash this model takes as given. */
  method EncodeExecute(selector: seq<byte>, plan: ExecPlan) returns (out: seq<byte>)
    requires |selector| == 4 && plan.Valid()
    ensures out == CalldataOf(selector, plan)
  {
    hide Word, Serialize, ToBytes;
    out := selector;
    var w := WordU64(32);
    out := out + w[..];
    w := WordAddr(plan.vault);
    out := out + w[..];
    w := WordAddr(plan.borrowToken);
    out := out + w[..];
    w := WordU256(plan.amount);
    out := out + w[..];
    w := WordU256(plan.minProfit);
    out := out + w[..];
    w := WordU64(plan.deadline);
    out := out + w[..];
    w := WordU64(32 * 6);
    out := out + w[..];
    w := WordU64(|plan.legs|);
    out := out + w[..];
    AppendHead(selector, plan);
    ghost var head := HeadWords(plan);
    assert head + LegsWords(plan.legs[..0]) == head;
    for i := 0 to |plan.legs|
      invariant out == selector + Serialize(head + LegsWords(plan.legs[..i]))
    {
      var leg := plan.legs[i];
      assert leg in plan.legs;
      w := WordAddr(leg.pool);
      out := out + w[..];
      w := WordAddr(leg.tokenIn);
      out := out + w[..];
      w := WordAddr(leg.tokenOut);
      out := out + w[..];
      w := WordU64(leg.kind);
      out := out + w[..];
      w := WordU64(leg.fee);
      out := out + w[..];
      AppendLeg(selector, head + LegsWords(plan.legs[..i]), leg);
      OneMoreLeg(head, plan.legs, i);
    }
    assert plan.legs[..|plan.legs|] == plan.legs;
  }

  // ----- reading back what was written

  lemma {:induction false} WordAt(words: seq<nat>, i: nat)
    requires i < |words|
    ensures Serialize(words)[32 * i..32 * i + 32] == Word(words[i])
  {
    var init := words[..|words| - 1];
    if i < |init| {
      WordAt(init, i);
      assert Serialize(words)[32 * i..32 * i + 32] == Serialize(init)[32 * i..32 * i + 32];
    } else {
      assert Serialize(words)[32 * i..32 * i + 32] == Word(words[i]);
    }
  }

  lemma {:induction false} LegWordAt(legs: seq<ExecLeg>, i: nat)
    requires i < |legs|
    ensures LegsWords(legs)[5 * i..5 * i + 5] == LegWords(legs[i])
  {
    var init := legs[..|legs| - 1];
    if i < |init| {
      LegWordAt(init, i);
      assert LegsWords(legs)[5 * i..5 * i + 5] == LegsWords(init)[5 * i..5 * i + 5];
    }
  }

  /** Each reader recovers the value of the word at its offset. */
  lemma U256UndoesWord(data: seq<byte>, offset: nat, v: u256)
    requires offset + 32 <= |data| <= USIZE_MAX && data[offset..offset + 32] == Word(v)
    ensures FromBytes(data[offset..offset + 32]) == v
    ensures AbiDecodeU256(data, offset) == Some(v)
  {
    hide FromBytes, ToBytes;
    Widths();
    NumberSurvivesBytes(v, 32);
  }

  lemma AddressUndoesWord(data: seq<byte>, offset: nat, v: Address)
    requires offset + 32 <= |data| <= USIZE_MAX && data[offset..offset + 32] == Word(v)
    ensures AbiDecodeAddress(data, offset) == Some(v)
  {
    hide AbiDecodeAddress, AbiDecodeU256, Word, FromBytes;
    U256UndoesWord(data, offset, v);
    SmallRemainder(v, TWO_160);
  }

  lemma U128UndoesWord(data: seq<byte>, offset: nat, v: u128)
    requires offset + 32 <= |data| <= USIZE_MAX && data[offset..offset + 32] == Word(v)
    ensures AbiDecodeU128(data, offset) == Some(v)
  {
    hide AbiDecodeU128, AbiDecodeU256, Word, FromBytes;
    U256UndoesWord(data, offset, v);
    SmallRemainder(v, TWO_128);
  }

  lemma SmallRemainder(v: nat, m: nat)
    requires v < m
    ensures v % m == v
  {
  }

  lemma PlanWordAt(selector: seq<byte>, p: ExecPlan, i: nat)
    requires |selector| == 4 && i < |PlanWords(p)|
    ensures |CalldataOf(selector, p)| == CalldataSize(|p.legs|)
    ensures CalldataOf(selector, p)[4 + 32 * i..36 + 32 * i] == Word(PlanWords(p)[i])
  {
    hide Serialize, Word;
    WordAt(PlanWords(p), i);
    var data := CalldataOf(selector, p);
    assert data[4 + 32 * i..36 + 32 * i] == Serialize(PlanWords(p))[32 * i..32 * i + 32];
  }

  /** `data` reads as `plan` when the readers follow the two offset words. */
  predicate ReadsAs(data: seq<byte>, p: ExecPlan)
    requires |data| <= USIZE_MAX
  {
    && |data| == CalldataSize(|p.legs|)
    && HeadReadsAs(data, p)
    && forall i :: 0 <= i < |p.legs| ==> LegReadsAs(data, i, p.legs[i])
  }

  predicate HeadReadsAs(data: seq<byte>, p: ExecPlan)
    requires CalldataSize(0) <= |data| <= USIZE_MAX
  {
    && AbiDecodeU256(data, 4) == Some(TUPLE_AT - 4)
    && AbiDecodeAddress(data, TUPLE_AT) == Some(p.vault)
    && AbiDecodeAddress(data, TUPLE_AT + 32) == Some(p.borrowToken)
    && AbiDecodeU256(data, TUPLE_AT + 64) == Some(p.amount)
    && AbiDecodeU256(data, TUPLE_AT + 96) == Some(p.minProfit)
    && AbiDecodeU128(data, TUPLE_AT + 128) == Some(p.deadline)
    && AbiDecodeU256(data, TUPLE_AT + 160) == Some(LEGS_AT - TUPLE_AT)
    && AbiDecodeU128(data, LEGS_AT) == Some(|p.legs|)
  }

  predicate LegReadsAs(data: seq<byte>, i: nat, l: ExecLeg)
    requires LegAt(i + 1) <= |data| <= USIZE_MAX
  {
    && AbiDecodeAddress(data, LegAt(i)) == Some(l.pool)
    && AbiDecodeAddress(data, LegAt(i) + 32) == Some(l.tokenIn)
    && AbiDecodeAddress(data, LegAt(i) + 64) == Some(l.tokenOut)
    && AbiDecodeU128(data, LegAt(i) + 96) == Some(l.kind)
    && AbiDecodeU128(data, LegAt(i) + 128) == Some(l.fee)
  }

  lemma ReadU256(selector: seq<byte>, p: ExecPlan, i: nat, v: u256)
    requires |selector| == 4 && p.Valid() && i < |PlanWords(p)| && v == PlanWords(p)[i]
    ensures |CalldataOf(selector, p)| == CalldataSize(|p.legs|) && 36 + 32 * i <= |CalldataOf(selector, p)|
    ensures AbiDecodeU256(CalldataOf(selector, p), 4 + 32 * i) == Some(v)
  {
    hide CalldataOf, PlanWords, Word, AbiDecodeU256;
    PlanWordCount(p);
    PlanWordAt(selector, p, i);
    U256UndoesWord(CalldataOf(selector, p), 4 + 32 * i, v);
  }

  lemma ReadAddress(selector: seq<byte>, p: ExecPlan, i: nat, v: Address)
    requires |selector| == 4 && p.Valid() && i < |PlanWords(p)| && v == PlanWords(p)[i]
    ensures |CalldataOf(selector, p)| == CalldataSize(|p.legs|) && 36 + 32 * i <= |CalldataOf(selector, p)|
    ensures AbiDecodeAddress(CalldataOf(selector, p), 4 + 32 * i) == Some(v)
  {
    hide CalldataOf, PlanWords, Word, AbiDecodeAddress;
    PlanWordCount(p);
    PlanWordAt(selector, p, i);
    AddressUndoesWord(CalldataOf(selector, p), 4 + 32 * i, v);
  }

  lemma ReadU128(selector: seq<byte>, p: ExecPlan, i: nat, v: u128)
    requires |selector| == 4 && p.Valid() && i < |PlanWords(p)| && v == PlanWords(p)[i]
    ensures |CalldataOf(selector, p)| == CalldataSize(|p.legs|) && 36 + 32 * i <= |CalldataOf(selector, p)|
    ensures AbiDecodeU128(CalldataOf(selector, p), 4 + 32 * i) == Some(v)
  {
    hide CalldataOf, PlanWords, Word, AbiDecodeU128;
    PlanWordCount(p);
    PlanWordAt(selector, p, i);
    U128UndoesWord(CalldataOf(selector, p), 4 + 32 * i, v);
  }

  lemma PlanWordCount(p: ExecPlan)
    ensures |PlanWords(p)| == 8 + 5 * |p.legs|
  {
  }

  lemma LegIsRecovered(selector: seq<byte>, p: ExecPlan, i: nat)
    requires |selector| == 4 && p.Valid() && i < |p.legs|
    ensures |CalldataOf(selector, p)| == CalldataSize(|p.legs|)
    ensures LegReadsAs(CalldataOf(selector, p), i, p.legs[i])
  {
    hide CalldataOf, PlanWords, AbiDecodeU128, AbiDecodeU256, AbiDecodeAddress;
    var l, at := p.legs[i], 8 + 5 * i;
    assert l in p.legs;
    LegWordsInPlan(p, i);
    ReadAddress(selector, p, at, l.pool);
    ReadAddress(selector, p, at + 1, l.tokenIn);
    ReadAddress(selector, p, at + 2, l.tokenOut);
    ReadU128(selector, p, at + 3, l.kind);
    ReadU128(selector, p, at + 4, l.fee);
  }

  lemma LegWordsInPlan(p: ExecPlan, i: nat)
    requires i < |p.legs|
    ensures var at, l := 8 + 5 * i, p.legs[i]; var w := PlanWords(p);
      at + 5 <= |w| && w[at] == l.pool && w[at + 1] == l.tokenIn && w[at + 2] == l.tokenOut
      && w[at + 3] == l.kind && w[at + 4] == l.fee
  {
    LegWordAt(p.legs, i);
    var legs := LegsWords(p.legs);
    assert legs[5 * i..5 * i + 5] == LegWords(p.legs[i]);
    assert legs[5 * i] == LegWords(p.legs[i])[0];
    assert legs[5 * i + 1] == LegWords(p.legs[i])[1];
    assert legs[5 * i + 2] == LegWords(p.legs[i])[2];
    assert legs[5 * i + 3] == LegWords(p.legs[i])[3];
    assert legs[5 * i + 4] == LegWords(p.legs[i])[4];
  }

  lemma HeadIsRecovered(selector: seq<byte>, p: ExecPlan)
    requires |selector| == 4 && p.Valid()
    ensures |CalldataOf(selector, p)| == CalldataSize(|p.legs|)
    ensures HeadReadsAs(CalldataOf(selector, p), p)
  {
    hide CalldataOf, PlanWords, AbiDecodeU128, AbiDecodeU256, AbiDecodeAddress;
    PlanWordCount(p);
    HeadWordsInPlan(p);
    ReadU256(selector, p, 0, 32);
    var data := CalldataOf(selector, p);
    assert AbiDecodeAddress(data, TUPLE_AT) == Some(p.vault) by {
      ReadAddress(selector, p, 1, p.vault);
    }
    assert AbiDecodeAddress(data, TUPLE_AT + 32) == Some(p.borrowToken) by {
      ReadAddress(selector, p, 2, p.borrowToken);
    }
    assert AbiDecodeU256(data, TUPLE_AT + 64) == Some(p.amount) by {
      ReadU256(selector, p, 3, p.amount);
    }
    assert AbiDecodeU256(data, TUPLE_AT + 96) == Some(p.minProfit) by {
      ReadU256(selector, p, 4, p.minProfit);
    }
    assert AbiDecodeU128(data, TUPLE_AT + 128) == Some(p.deadline) by {
      ReadU128(selector, p, 5, p.deadline);
    }
    assert AbiDecodeU256(data, TUPLE_AT + 160) == Some(LEGS_AT - TUPLE_AT) by {
      ReadU256(selector, p, 6, 192);
    }
    assert AbiDecodeU128(data, LEGS_AT) == Some(|p.legs|) by {
      ReadU128(selector, p, 7, |p.legs|);
    }
  }

  lemma HeadWordsInPlan(p: ExecPlan)
    ensures var w := PlanWords(p);
      |w| >= 8 && w[0] == 32 && w[1] == p.vault && w[2] == p.borrowToken && w[3] == p.amount
      && w[4] == p.minProfit && w[5] == p.deadline && w[6] == 192 && w[7] == |p.legs|
  {
  }

  lemma SelectorIsPrefix(selector: seq<byte>, p: ExecPlan)
    requires |selector| == 4
    ensures |CalldataOf(selector, p)| >= 4 && CalldataOf(selector, p)[..4] == selector
  {
  }

  /** The readers recover every field and every leg of an encoded plan. */
  lemma PlanIsRecovered(selector: seq<byte>, p: ExecPlan)
    requires |selector| == 4 && p.Valid()
    ensures |CalldataOf(selector, p)| <= USIZE_MAX && ReadsAs(CalldataOf(selector, p), p)
    ensures CalldataOf(selector, p)[..4] == selector
  {
    hide CalldataOf, PlanWords, AbiDecodeU128, AbiDecodeU256, AbiDecodeAddress, LegReadsAs;
    SelectorIsPrefix(selector, p);
    HeadIsRecovered(selector, p);
    forall i | 0 <= i < |p.legs| ensures LegReadsAs(CalldataOf(selector, p), i, p.legs[i]) {
      LegIsRecovered(selector, p, i);
    }
  }

  /** Calldata determines the selector and the plan, except for the provider,
      which is not encoded. */
  lemma EncodingIsInjectiveUpToProvider(s: seq<byte>, p: ExecPlan, t: seq<byte>, q: ExecPlan)
    requires |s| == 4 && |t| == 4 && p.Valid() && q.Valid()
    ensures CalldataOf(s, p) == CalldataOf(t, q) <==> s == t && p.(provider := q.provider) == q
  {
    hide Serialize, AbiDecodeU128, AbiDecodeU256, AbiDecodeAddress, CalldataOf;
    if CalldataOf(s, p) == CalldataOf(t, q) {
      PlanIsRecovered(s, p);
      PlanIsRecovered(t, q);
      assert |p.legs| == |q.legs|;
      forall i | 0 <= i < |p.legs| ensures p.legs[i] == q.legs[i] {
        assert LegReadsAs(CalldataOf(s, p), i, p.legs[i]);
        assert LegReadsAs(CalldataOf(t, q), i, q.legs[i]);
      }
      assert p.legs == q.legs;
    }
    if s == t && p.(provider := q.provider) == q {
      ProviderIsNotEncoded(s, p, q);
    }
  }

  lemma ProviderIsNotEncoded(s: seq<byte>, p: ExecPlan, q: ExecPlan)
    requires p.(provider := q.provider) == q
    ensures CalldataOf(s, p) == CalldataOf(s, q)
  {
    assert HeadWords(p) == HeadWords(q);
  }

  /** The signature declares a leg's fee as uint24, the plan holds a u32: the
      written fees are in the declared range exactly when the plan's are. */
  lemma FeesFitUint24ExactlyWhen(selector: seq<byte>, p: ExecPlan)
    requires |selector| == 4 && p.Valid()
    ensures |CalldataOf(selector, p)| == CalldataSize(|p.legs|)
    ensures (forall i :: 0 <= i < |p.legs| ==>
               AbiDecodeU128(CalldataOf(selector, p), LegAt(i) + 128).value < 0x100_0000)
       <==> (forall l :: l in p.legs ==> l.fee < 0x100_0000)
  {
    hide CalldataOf, AbiDecodeU128;
    PlanIsRecovered(selector, p);
    forall i | 0 <= i < |p.legs|
      ensures AbiDecodeU128(CalldataOf(selector, p), LegAt(i) + 128) == Some(p.legs[i].fee)
    {
      assert LegReadsAs(CalldataOf(selector, p), i, p.legs[i]);
    }
  }
}
