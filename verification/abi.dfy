/** The head/tail encoding of the Contract ABI Specification ("Formal Specification of the Encoding"). */
module Abi {
  import opened Common

  // ---- big-endian numbers ----

  function Pow256(n: nat): (p: nat)
    ensures p > 0
  {
    if n == 0 then 1 else 256 * Pow256(n - 1)
  }

  function Be(s: seq<byte>): nat {
    if s == [] then 0 else 256 * Be(s[..|s| - 1]) + s[|s| - 1]
  }

  // The low `width` bytes of n.
  function ToBe(n: nat, width: nat): (s: seq<byte>)
    ensures |s| == width
  {
    if width == 0 then [] else ToBe(n / 256, width - 1) + [n % 256]
  }

  const ZERO_WORD: seq<byte> := ToBe(0, 32)

  type Word = w: seq<byte> | |w| == 32 witness ZERO_WORD

  lemma DivModStep(n: nat, p: nat)
    requires p > 0
    ensures n % (256 * p) == 256 * ((n / 256) % p) + n % 256
  {
    var q, r := n / 256, n % 256;
    var a, b := q / p, q % p;
    assert q == a * p + b;
    assert n == 256 * (a * p + b) + r;
    assert 256 * (a * p) == a * (256 * p);
    assert n == a * (256 * p) + (256 * b + r);
    assert 0 <= 256 * b + r < 256 * p;
    UniqueRemainder(n, 256 * p, a, 256 * b + r);
  }

  lemma UniqueRemainder(n: int, d: int, q: int, r: int)
    requires d > 0 && n == q * d + r && 0 <= r < d
    ensures n % d == r
  {
    var x := n / d - q;
    assert n / d * d + n % d == n;
    assert x * d == r - n % d by { assert x * d == n / d * d - q * d; }
    Multiples(x, d);
  }

  lemma Multiples(x: int, d: int)
    requires d > 0
    ensures x >= 1 ==> x * d >= d
    ensures x <= -1 ==> x * d <= -d
  {
  }

  lemma {:induction false} BeToBe(n: nat, width: nat)
    ensures Be(ToBe(n, width)) == n % Pow256(width)
  {
    if width > 0 {
      BeToBe(n / 256, width - 1);
      DivModStep(n, Pow256(width - 1));
      assert ToBe(n, width)[..width - 1] == ToBe(n / 256, width - 1);
    }
  }

  lemma {:induction false} LowBytes(n: nat, width: nat, k: nat)
    requires k <= width
    ensures ToBe(n, width)[width - k..] == ToBe(n, k)
  {
    if k > 0 {
      LowBytes(n / 256, width - 1, k - 1);
    }
  }

  function U64At(w: Word): nat { Be(w[24..]) }

  function U128At(w: Word): nat { Be(w[16..]) }

  lemma Powers()
    ensures Pow256(8) == U64_LIMIT && Pow256(16) == U128_LIMIT
  {
    assert Pow256(4) == U32_LIMIT;
    assert Pow256(8) == U64_LIMIT;
    assert Pow256(12) == U64_LIMIT * U32_LIMIT;
  }

  /** Reading a number back out of a 32-byte word keeps its low 64 or 128 bits. */
  lemma WordReads(n: nat)
    ensures U64At(ToBe(n, 32)) == n % U64_LIMIT
    ensures U128At(ToBe(n, 32)) == n % U128_LIMIT
  {
    Powers();
    LowBytes(n, 32, 8);
    LowBytes(n, 32, 16);
    BeToBe(n, 8);
    BeToBe(n, 16);
  }

  lemma SmallWordReads(n: nat)
    requires n < U64_LIMIT
    ensures U64At(ToBe(n, 32)) == n
  {
    WordReads(n);
    SmallRemainder(n, U64_LIMIT);
  }

  lemma SmallRemainder(n: nat, d: nat)
    requires n < d
    ensures n % d == n
  {
  }

  // ---- encoding ----

  function CeilDiv(n: nat, d: nat): nat
    requires d > 0
  {
    (n + d - 1) / d
  }

  /** A byte string: its length, its bytes, zeros up to the next word. */
  function EncodeBytes(b: seq<byte>): (s: seq<byte>)
    ensures |s| == 32 + 32 * CeilDiv(|b|, 32)
  {
    ToBe(|b|, 32) + b + Zeros(32 * CeilDiv(|b|, 32) - |b|)
  }

  function Zeros(n: nat): (s: seq<byte>)
    ensures |s| == n
  {
    seq(n, _ => 0)
  }

  datatype Arg = Static(word: Word) | Dynamic(encoding: seq<byte>)

  // The tail fills whole slots.
  predicate Slotted(a: Arg) { |TailOf(a)| % 32 == 0 }

  function BytesArg(b: seq<byte>): Arg { Dynamic(EncodeBytes(b)) }

  function NumberArg(n: nat): Arg { Static(ToBe(n, 32)) }

  lemma BytesSlotted(b: seq<byte>)
    ensures Slotted(BytesArg(b))
  {
    assert |EncodeBytes(b)| == 32 * (1 + CeilDiv(|b|, 32));
  }

  lemma NumberSlotted(n: nat)
    ensures Slotted(NumberArg(n))
  {
  }

  function TailOf(a: Arg): seq<byte> {
    match a
    case Static(_) => []
    case Dynamic(e) => e
  }

  function Tails(args: seq<Arg>, n: nat): seq<byte>
    requires n <= |args|
  {
    if n == 0 then [] else Tails(args, n - 1) + TailOf(args[n - 1])
  }

  // Where the tail of argument i starts, from the start of the tuple.
  function Offset(args: seq<Arg>, i: nat): nat
    requires i <= |args|
  {
    32 * |args| + |Tails(args, i)|
  }

  function HeadOf(args: seq<Arg>, i: nat): Word
    requires i < |args|
  {
    match args[i]
    case Static(w) => w
    case Dynamic(_) => ToBe(Offset(args, i), 32)
  }

  function Heads(args: seq<Arg>, n: nat): (s: seq<byte>)
    requires n <= |args|
    ensures |s| == 32 * n
  {
    if n == 0 then [] else Heads(args, n - 1) + HeadOf(args, n - 1)
  }

  function EncodeTuple(args: seq<Arg>): seq<byte> {
    Heads(args, |args|) + Tails(args, |args|)
  }

  // ---- where things are in an encoding ----

  predicate At(data: seq<byte>, p: nat, chunk: seq<byte>) {
    p + |chunk| <= |data| && data[p..p + |chunk|] == chunk
  }

  lemma AtWithin(data: seq<byte>, p: nat, outer: seq<byte>, q: nat, inner: seq<byte>)
    requires At(data, p, outer) && At(outer, q, inner)
    ensures At(data, p + q, inner)
  {
    forall k | 0 <= k < |inner|
      ensures data[p + q + k] == inner[k]
    {
      assert inner[k] == outer[q..q + |inner|][k] == outer[q + k];
      assert outer[q + k] == data[p..p + |outer|][q + k];
    }
  }

  lemma AtFront(a: seq<byte>, b: seq<byte>)
    ensures At(a + b, 0, a)
  {
  }

  lemma AtBack(a: seq<byte>, b: seq<byte>)
    ensures At(a + b, |a|, b)
  {
  }

  lemma {:induction false} HeadsAt(args: seq<Arg>, n: nat, i: nat)
    requires i < n <= |args|
    ensures At(Heads(args, n), 32 * i, HeadOf(args, i))
  {
    var before, last := Heads(args, n - 1), HeadOf(args, n - 1);
    if i < n - 1 {
      HeadsAt(args, n - 1, i);
      AtFront(before, last);
      AtWithin(Heads(args, n), 0, before, 32 * i, HeadOf(args, i));
    } else {
      AtBack(before, last);
    }
  }

  lemma {:induction false} TailsAt(args: seq<Arg>, n: nat, i: nat)
    requires i < n <= |args|
    ensures At(Tails(args, n), |Tails(args, i)|, TailOf(args[i]))
  {
    var before, last := Tails(args, n - 1), TailOf(args[n - 1]);
    if i < n - 1 {
      TailsAt(args, n - 1, i);
      AtFront(before, last);
      AtWithin(Tails(args, n), 0, before, |Tails(args, i)|, TailOf(args[i]));
    } else {
      AtBack(before, last);
    }
  }

  /** In an encoded tuple every head word and every tail is where the specification puts it. */
  lemma TupleLayout(args: seq<Arg>, i: nat)
    requires i < |args|
    ensures At(EncodeTuple(args), 32 * i, HeadOf(args, i))
    ensures At(EncodeTuple(args), Offset(args, i), TailOf(args[i]))
  {
    HeadLayout(args, i);
    TailLayout(args, i);
  }

  lemma HeadLayout(args: seq<Arg>, i: nat)
    requires i < |args|
    ensures At(EncodeTuple(args), 32 * i, HeadOf(args, i))
  {
    var heads, tails := Heads(args, |args|), Tails(args, |args|);
    HeadsAt(args, |args|, i);
    AtFront(heads, tails);
    AtWithin(EncodeTuple(args), 0, heads, 32 * i, HeadOf(args, i));
  }

  lemma TailLayout(args: seq<Arg>, i: nat)
    requires i < |args|
    ensures At(EncodeTuple(args), Offset(args, i), TailOf(args[i]))
  {
    var heads, tails := Heads(args, |args|), Tails(args, |args|);
    TailsAt(args, |args|, i);
    AtBack(heads, tails);
    AtWithin(EncodeTuple(args), |heads|, tails, |Tails(args, i)|, TailOf(args[i]));
  }

  ghost predicate Aligned(args: seq<Arg>) {
    forall i :: 0 <= i < |args| ==> Slotted(args[i])
  }

  lemma SumAligned(a: nat, b: nat)
    requires a % 32 == 0 && b % 32 == 0
    ensures (a + b) % 32 == 0
  {
  }

  lemma {:induction false} TailsAligned(args: seq<Arg>, n: nat)
    requires n <= |args| && Aligned(args)
    ensures |Tails(args, n)| % 32 == 0
  {
    if n > 0 {
      TailsAligned(args, n - 1);
      SumAligned(|Tails(args, n - 1)|, |TailOf(args[n - 1])|);
    }
  }

  lemma OffsetsAligned(args: seq<Arg>, n: nat)
    requires n <= |args| && Aligned(args)
    ensures Offset(args, n) % 32 == 0
  {
    TailsAligned(args, n);
    SumAligned(32 * |args|, |Tails(args, n)|);
  }

  // ---- reading 32-byte slots; a shorter last chunk is dropped ----

  function SlotCount(data: seq<byte>): nat { |data| / 32 }

  function Slot(data: seq<byte>, i: nat): Word
    requires i < SlotCount(data)
  {
    data[32 * i..32 * i + 32]
  }

  // What a length-prefixed byte string at slot `at` is, when all its slots are there.
  function BytesAt(data: seq<byte>, at: nat): Option<seq<byte>> {
    if at >= SlotCount(data) then None
    else
      var len := U64At(Slot(data, at));
      if at + 1 + CeilDiv(len, 32) <= SlotCount(data) then Some(data[32 * (at + 1)..32 * (at + 1) + len])
      else None
  }

  // A length's slots: every one but the last is full, and the last one ends it.
  lemma LastSlot(len: nat, slots: nat, i: nat)
    requires slots == CeilDiv(len, 32) && i < slots
    ensures 32 * i < len
    ensures if i + 1 == slots then len <= 32 * (i + 1) else 32 * (i + 1) < len
  {
  }

  /** The decoder's copying loop: one slot at a time, the last one cut to length. */
  method ReadBytesRelative(data: seq<byte>, os: nat, offset: Word) returns (r: Option<seq<byte>>)
    ensures r == BytesAt(data, os + U64At(offset) / 32)
  {
    var at := os + U64At(offset) / 32;
    if at >= SlotCount(data) {
      return None;
    }
    var len := U64At(Slot(data, at));
    if len == 0 {
      var none: seq<byte> := [];
      assert data[32 * (at + 1)..32 * (at + 1) + len] == none;
      return Some(none);
    }
    var slots := CeilDiv(len, 32);
    var out: seq<byte> := [];
    var i := 0;
    while i < slots
      invariant 0 <= i <= slots
      invariant i == 0 || at + 1 + i <= SlotCount(data)
      invariant 32 * (at + 1) + Min(32 * i, len) <= |data|
      invariant out == data[32 * (at + 1)..32 * (at + 1) + Min(32 * i, len)]
    {
      if at + 1 + i >= SlotCount(data) {
        return None;
      }
      LastSlot(len, slots, i);
      var take := if i + 1 == slots then len - i * 32 else 32;
      assert Min(32 * i, len) == 32 * i && Min(32 * (i + 1), len) == 32 * i + take;
      assert Slot(data, at + 1 + i)[..take] == data[32 * (at + 1) + 32 * i..32 * (at + 1) + 32 * i + take];
      out := out + Slot(data, at + 1 + i)[..take];
      i := i + 1;
    }
    return Some(out);
  }

  lemma AtParts(data: seq<byte>, p: nat, a: seq<byte>, b: seq<byte>, c: seq<byte>)
    requires At(data, p, a + b + c)
    ensures At(data, p, a) && At(data, p + |a|, b)
  {
    var whole := a + b + c;
    forall k | 0 <= k < |whole|
      ensures data[p + k] == whole[k]
    {
      assert data[p..p + |whole|][k] == data[p + k];
    }
    assert forall k :: 0 <= k < |a| ==> data[p + k] == a[k];
    assert forall k :: 0 <= k < |b| ==> data[p + |a| + k] == whole[|a| + k] == b[k];
  }

  /** Wherever an encoded byte string lies on a slot boundary, it reads back whole. */
  lemma EncodedBytesRead(data: seq<byte>, at: nat, b: seq<byte>)
    requires At(data, 32 * at, EncodeBytes(b)) && |b| < U64_LIMIT
    ensures BytesAt(data, at) == Some(b)
  {
    SmallWordReads(|b|);
    AtParts(data, 32 * at, ToBe(|b|, 32), b, Zeros(32 * CeilDiv(|b|, 32) - |b|));
    assert Slot(data, at) == ToBe(|b|, 32);
    assert data[32 * (at + 1)..32 * (at + 1) + |b|] == b;
  }
}
