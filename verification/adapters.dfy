/** Naming the adapter that earns a fill's donut, from the fill's protocol and chains. */
module Adapters {
  import opened Common

  // The ids under which Solana appears: a sentinel, Wormhole's and deBridge's.
  predicate IsSolanaChain(chain: nat) { chain in {0, 1_399_811_149, 100_000_001} }

  function AdapterId(protocol: string, srcChain: nat, dstChain: nat): string {
    var p := Lower(protocol);
    var solana := IsSolanaChain(srcChain) || IsSolanaChain(dstChain);
    if p == "mayan_flash" || (Contains(p, "flash") && Contains(p, "mayan")) then
      if solana then "mayan-flash-solana-v1" else "mayan-flash-evm-v1"
    else if StartsWith(p, "mayan") then
      if solana then "mayan-solana-swift-v1" else "mayan-evm-swift-v1"
    else if Contains(p, "wormhole") || p == "ntt" || Contains(p, "ntt") then "wormhole-ntt-solana-v1"
    else if p == "lifi" then "lifi-meta-v2"
    else if p == "across" then "across-v3"
    else if p == "debridge" || p == "dln" || Contains(p, "debridge") || Contains(p, "dln") then
      if solana then "debridge-dln-solana-v1" else "debridge-dln-v1"
    else "unknown-" + p + "-" + NatText(dstChain)
  }

  // Either end of the fill is on Solana.
  predicate TouchesSolana(src: nat, dst: nat) {
    src == 0 || src == 1_399_811_149 || src == 100_000_001 || dst == 0 || dst == 1_399_811_149 || dst == 100_000_001
  }

  // The name is one of Mayan's, Flash or not.
  predicate MayanName(p: string) { StartsWith(p, "mayan") || (Contains(p, "mayan") && Contains(p, "flash")) }

  predicate NttName(p: string) { Contains(p, "wormhole") || Contains(p, "ntt") }

  predicate DlnName(p: string) { Contains(p, "debridge") || Contains(p, "dln") }

  lemma OwnWords(p: string)
    ensures p == "mayan_flash" ==> MayanName(p) && Contains(p, "flash")
    ensures p == "ntt" ==> NttName(p)
    ensures p == "debridge" || p == "dln" ==> DlnName(p)
    ensures StartsWith(p, "mayan") ==> Contains(p, "mayan")
  {
    assert p[0..] == p;
    if p == "mayan_flash" {
      assert StartsWith(p[6..], "flash");
    }
  }

  lemma WholeNames(p: string)
    requires p == "lifi" || p == "across"
    ensures !MayanName(p) && !NttName(p) && !DlnName(p)
  {
    LacksCharacter(p, "mayan");
    LacksCharacter(p, "wormhole");
    LacksCharacter(p, "ntt");
    LacksCharacter(p, "debridge");
    LacksCharacter(p, "dln");
  }

  /** Which adapter a protocol's name leads to, by the words that occur in it in any letter case: Mayan before
      Wormhole before deBridge, Across and LiFi by their whole name, and Solana at either end deciding between the two
      adapters of Mayan, Mayan Flash and deBridge. */
  lemma AdapterByName(protocol: string, src: nat, dst: nat)
    ensures var (p, id, solana) := (Lower(protocol), AdapterId(protocol, src, dst), TouchesSolana(src, dst));
            if p == "across" then id == "across-v3"
            else if p == "lifi" then id == "lifi-meta-v2"
            else if MayanName(p) && Contains(p, "flash") then
              id == if solana then "mayan-flash-solana-v1" else "mayan-flash-evm-v1"
            else if MayanName(p) then id == if solana then "mayan-solana-swift-v1" else "mayan-evm-swift-v1"
            else if NttName(p) then id == "wormhole-ntt-solana-v1"
            else if DlnName(p) then id == if solana then "debridge-dln-solana-v1" else "debridge-dln-v1"
            else id == "unknown-" + p + "-" + NatText(dst)
  {
    var p := Lower(protocol);
    OwnWords(p);
    if p == "lifi" || p == "across" {
      WholeNames(p);
    }
  }

  predicate UnknownName(p: string) {
    !MayanName(p) && !NttName(p) && !DlnName(p) && p != "lifi" && p != "across"
  }

  // Text that ends in a longer tail without a dash is not text that ends in a dash and a shorter one.
  lemma TailsApart(p: string, x: string, q: string, y: string)
    requires |x| < |y| && '-' !in y
    ensures p + "-" + x != q + "-" + y
  {
    if |p| + |x| == |q| + |y| {
      assert (p + "-" + x)[|p|] == '-';
      assert (q + "-" + y)[|p|] == y[|p| - |q| - 1];
    }
  }

  lemma SameTails(p: string, x: string, q: string, y: string)
    requires '-' !in x && '-' !in y && p + "-" + x == q + "-" + y
    ensures p == q && x == y
  {
    if |x| < |y| {
      TailsApart(p, x, q, y);
    } else if |y| < |x| {
      TailsApart(q, y, p, x);
    } else {
      var s, t := p + "-" + x, q + "-" + y;
      assert s[..|p|] == p && t[..|q|] == q && s[|p| + 1..] == x && t[|q| + 1..] == y;
    }
  }

  /** Two fills of unknown protocols share an adapter exactly when their protocol, letter case aside, and their
      destination chain are the same. */
  lemma UnknownAdaptersApart(a: string, b: string, src: nat, from: nat, m: nat, n: nat)
    requires UnknownName(Lower(a)) && UnknownName(Lower(b))
    ensures AdapterId(a, src, m) == AdapterId(b, from, n) <==> Lower(a) == Lower(b) && m == n
  {
    AdapterByName(a, src, m);
    AdapterByName(b, from, n);
    TextsApart(Lower(a), Lower(b), m, n);
  }

  lemma TextsApart(p: string, q: string, m: nat, n: nat)
    ensures "unknown-" + p + "-" + NatText(m) == "unknown-" + q + "-" + NatText(n) <==> p == q && m == n
  {
    var s, t := "unknown-" + p, "unknown-" + q;
    if s + "-" + NatText(m) == t + "-" + NatText(n) {
      NatTextDigits(m);
      NatTextDigits(n);
      SameTails(s, NatText(m), t, NatText(n));
      assert s[8..] == p && t[8..] == q;
    }
  }
}
