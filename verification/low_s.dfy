/** The byte-wise check that a signature's s value is in the low half of the secp256k1 group order. */
module LowS {
  import opened Common
  import opened Abi
  import opened Lexicographic

  // The order n of secp256k1, SEC 2 section 2.4.1.
  const GROUP_ORDER: nat := 0xFFFFFFFF_FFFFFFFF_FFFFFFFF_FFFFFFFE_BAAEDCE6_AF48A03B_BFD25E8C_D0364141

  const HALF_HIGH: seq<byte> := [0x7F, 0xFF, 0xFF, 0xFF, 0xFF, 0xFF, 0xFF, 0xFF]
  const HALF_FULL: seq<byte> := [0xFF, 0xFF, 0xFF, 0xFF, 0xFF, 0xFF, 0xFF, 0xFF]
  const HALF_THIRD: seq<byte> := [0x5D, 0x57, 0x6E, 0x73, 0x57, 0xA4, 0x50, 0x1D]
  const HALF_LOW: seq<byte> := [0xDF, 0xE9, 0x2F, 0x46, 0x68, 0x1B, 0x20, 0xA0]

  const N_HALF_BE: seq<byte> := HALF_HIGH + HALF_FULL + HALF_THIRD + HALF_LOW

  predicate PassesLowS(s: seq<byte>) { !LexLess(N_HALF_BE, s) }

  // ---- big-endian numbers, from the front ----

  lemma {:induction false} BeBound(s: seq<byte>)
    ensures Be(s) < Pow256(|s|)
  {
    if s != [] {
      BeBound(s[..|s| - 1]);
    }
  }

  lemma {:induction false} BeConcat(a: seq<byte>, b: seq<byte>)
    ensures Be(a + b) == Be(a) * Pow256(|b|) + Be(b)
  {
    if b == [] {
      assert a + b == a;
    } else {
      var front, last := b[..|b| - 1], b[|b| - 1];
      assert (a + b)[..|a + b| - 1] == a + front;
      BeConcat(a, front);
      assert 256 * (Be(a) * Pow256(|front|)) == Be(a) * Pow256(|b|);
    }
  }

  // Numbers with a smaller leading digit are smaller.
  lemma LeadingDigit(x: nat, y: nat, p: nat, u: nat, v: nat)
    requires u < p && v < p && x < y
    ensures x * p + u < y * p + v
  {
    var d := y - x;
    Multiples(d, p);
    assert (x + d) * p == x * p + d * p;
  }

  /** Comparing equal-length byte strings lexicographically compares the big-endian numbers they spell. */
  lemma {:induction false} LexIsNumeric(a: seq<byte>, b: seq<byte>)
    requires |a| == |b|
    ensures LexLess(a, b) <==> Be(a) < Be(b)
  {
    if a != [] {
      var p := Pow256(|a| - 1);
      BeConcat([a[0]], a[1..]);
      BeConcat([b[0]], b[1..]);
      assert a == [a[0]] + a[1..] && b == [b[0]] + b[1..];
      assert Be([a[0]]) == a[0] && Be([b[0]]) == b[0];
      BeBound(a[1..]);
      BeBound(b[1..]);
      if a[0] < b[0] {
        LeadingDigit(a[0], b[0], p, Be(a[1..]), Be(b[1..]));
      } else if b[0] < a[0] {
        LeadingDigit(b[0], a[0], p, Be(b[1..]), Be(a[1..]));
      } else {
        LexIsNumeric(a[1..], b[1..]);
      }
    }
  }

  // ---- the constant ----

  lemma BeSnoc(s: seq<byte>, b: byte)
    ensures Be(s + [b]) == 256 * Be(s) + b
  {
    assert (s + [b])[..|s|] == s;
  }

  lemma Be4(a: byte, b: byte, c: byte, d: byte)
    ensures Be([a, b, c, d]) == 0x1000000 * a + 0x10000 * b + 0x100 * c + d
  {
    BeSnoc([], a);
    BeSnoc([a], b);
    BeSnoc([a, b], c);
    BeSnoc([a, b, c], d);
    assert [] + [a] == [a] && [a] + [b] == [a, b] && [a, b] + [c] == [a, b, c] && [a, b, c] + [d] == [a, b, c, d];
  }

  lemma Be8(a: byte, b: byte, c: byte, d: byte, e: byte, f: byte, g: byte, h: byte)
    ensures Be([a, b, c, d, e, f, g, h])
            == 0x1_0000_0000 * (0x1000000 * a + 0x10000 * b + 0x100 * c + d) + (0x1000000 * e + 0x10000 * f + 0x100 * g + h)
  {
    Be4(a, b, c, d);
    Be4(e, f, g, h);
    BeConcat([a, b, c, d], [e, f, g, h]);
    assert [a, b, c, d] + [e, f, g, h] == [a, b, c, d, e, f, g, h];
    assert Pow256(4) == 0x1_0000_0000;
  }

  /** The 32 bytes of the constant spell n / 2, rounded down. */
  lemma HalfIsHalf()
    ensures |N_HALF_BE| == 32 && Be(N_HALF_BE) == GROUP_ORDER / 2
  {
    Powers();
    Be8(0x7F, 0xFF, 0xFF, 0xFF, 0xFF, 0xFF, 0xFF, 0xFF);
    Be8(0xFF, 0xFF, 0xFF, 0xFF, 0xFF, 0xFF, 0xFF, 0xFF);
    Be8(0x5D, 0x57, 0x6E, 0x73, 0x57, 0xA4, 0x50, 0x1D);
    Be8(0xDF, 0xE9, 0x2F, 0x46, 0x68, 0x1B, 0x20, 0xA0);
    BeConcat(HALF_HIGH, HALF_FULL);
    BeConcat(HALF_HIGH + HALF_FULL, HALF_THIRD);
    BeConcat(HALF_HIGH + HALF_FULL + HALF_THIRD, HALF_LOW);
  }

  lemma OrderFits()
    ensures GROUP_ORDER < Pow256(32)
  {
    Powers();
    PowSum(16, 16);
  }

  lemma {:induction false} PowSum(a: nat, b: nat)
    ensures Pow256(a + b) == Pow256(a) * Pow256(b)
  {
    if a > 0 {
      PowSum(a - 1, b);
      assert 256 * (Pow256(a - 1) * Pow256(b)) == (256 * Pow256(a - 1)) * Pow256(b);
    }
  }

  lemma PassesIff(s: nat)
    requires s < GROUP_ORDER
    ensures PassesLowS(ToBe(s, 32)) <==> s <= GROUP_ORDER / 2
  {
    HalfIsHalf();
    OrderFits();
    BeToBe(s, 32);
    SmallRemainder(s, Pow256(32));
    LexIsNumeric(N_HALF_BE, ToBe(s, 32));
  }

  /** Of the two values s and n - s that sign the same message, the check accepts exactly one. */
  lemma ExactlyOneLow(s: nat)
    requires 0 < s < GROUP_ORDER
    ensures PassesLowS(ToBe(s, 32)) <==> !PassesLowS(ToBe(GROUP_ORDER - s, 32))
  {
    PassesIff(s);
    PassesIff(GROUP_ORDER - s);
  }
}
