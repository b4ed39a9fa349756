/** What the transaction builders ask of an intent before anything is sent. */
module Builders {
  import opened Common
  import opened Guards
  import Hex

  // ---- the Across builders, for the SpokePool and for the operator's adapter ----

  // Twenty bytes in hexadecimal, with or without the prefix.
  predicate EvmAddress(s: string) {
    var digits := Hex.Unprefixed(s);
    |digits| == 40 && forall k :: 0 <= k < 40 ==> Hex.Digit(digits[k]).Some?
  }

  /** What the builders take for an address is what reads as twenty bytes. */
  lemma AddressIff(s: string)
    ensures EvmAddress(s) <==> Hex.Decode(Hex.Unprefixed(s)).Some? && |Hex.Decode(Hex.Unprefixed(s)).value| == 20
  {
    Hex.DecodesIff(Hex.Unprefixed(s));
  }

  predicate OutputToken(s: string) {
    Lower(Trim(s)) == "native" || Lower(Trim(s)) == NATIVE_SENTINEL || EvmAddress(s)
  }

  predicate RelayAddresses(i: Intent) {
    EvmAddress(i.depositor) && EvmAddress(i.recipient) && EvmAddress(i.srcToken) && OutputToken(i.dstToken)
  }

  // ---- the projections of the Solana lanes ----

  predicate SolanaKey(s: string) {
    !StartsWith(s, "0x") && !StartsWith(s, "0X") && |s| > 40
  }

  // Whoever is to be paid: the trader (or depositor) if that is a Solana key, else the recipient.
  predicate HasSolanaPayee(i: Intent) {
    SolanaKey(i.trader.GetOr(i.depositor)) || SolanaKey(i.recipient)
  }

  // A Mayan order on Solana. Deriving a missing vault account and reading an amount as a float are left open.
  predicate MayanProjects(i: Intent, vaultDerives: bool, floatAmount: bool) {
    && i.mayanOrderId.Some? && HasSolanaPayee(i) && i.stateAccount.Some?
    && (i.vaultAccount.Some? || vaultDerives)
    && (i.minAmountOut.Some? || ParseUnsigned(i.outputAmount.GetOr(i.amount), U64_LIMIT).Some? || floatAmount)
  }

  predicate DlnProjects(i: Intent) {
    && i.orderId.Some? && |TrimPrefix(i.orderId.value, "0x")| == 64
    && i.takeAmount.Some? && ParseUnsigned(i.takeAmount.value, U64_LIMIT).Some?
    && !StartsWith(i.recipient, "0x") && |i.recipient| >= 32
    && !StartsWith(i.dstToken, "0x")
  }

  const WORMHOLE_SOURCES: set<nat> := {1, 56, 137, 43114, 42161, 10, 8453}

  // The sequence number is the last part of the id.
  predicate NttProjects(i: Intent) {
    var parts := SplitOn(i.id, {':'});
    ParseUnsigned(parts[|parts| - 1], U64_LIMIT).Some? && i.srcChain in WORMHOLE_SOURCES
  }
}
