/** Attesting a fill and verifying an attestation, with the adapter registry between them. */
module Adjudicator {
  import opened Common
  import opened Lexicographic
  import opened CanonicalJson
  import opened Attestations
  import opened LowS
  import opened Donut
  import opened Adapters
  import Hex

  // ---- the adapter registry ----

  datatype Registry = Registry(
    builders: map<string, Address>,
    reviewers: map<string, seq<Address>>,
    fractions: map<string, (i64, i64)>,
    ecosystem: Address)
  {
    function FractionFor(id: string): (i64, i64) {
      if id in fractions then fractions[id] else (1, 1)
    }

    // Who gets the builder's and the reviewers' shares.
    function Payees(id: string): (Address, seq<Address>) {
      if id in builders then (builders[id], if id in reviewers then reviewers[id] else [])
      else (ecosystem, [ecosystem])
    }
  }

  // The file a registry is published to and loaded from.
  datatype Listing = Listing(builder: Address, reviewers: seq<Address>, num: Option<i64>, den: Option<i64>) {
    function Fraction(): (i64, i64) {
      if num.Some? && den.Some? && den.value > 0 then (num.value, den.value) else (1, 1)
    }
  }

  datatype RegistryFile = RegistryFile(ecosystem: Address, adapters: map<string, Listing>)

  function Load(file: RegistryFile): Registry {
    var listed := file.adapters;
    Registry(map id | id in listed :: listed[id].builder,
             map id | id in listed :: listed[id].reviewers,
             map id | id in listed && listed[id].Fraction() != (1, 1) :: listed[id].Fraction(),
             file.ecosystem)
  }

  function Publish(r: Registry): RegistryFile {
    RegistryFile(
      r.ecosystem,
      map id | id in r.builders ::
        Listing(r.builders[id],
                if id in r.reviewers then r.reviewers[id] else [],
                if id in r.fractions then Some(r.fractions[id].0) else None,
                if id in r.fractions then Some(r.fractions[id].1) else None))
  }

  /** Publishing and loading a registry keeps who is paid and, for a listed adapter, its fraction exactly when
      the denominator is positive; a fraction kept for an unlisted adapter is lost. */
  lemma RegistryReloads(r: Registry, id: string)
    ensures var loaded := Load(Publish(r));
            && loaded.ecosystem == r.ecosystem
            && loaded.Payees(id) == r.Payees(id)
            && (loaded.FractionFor(id) == r.FractionFor(id) <==>
                if id in r.builders then r.FractionFor(id).1 > 0 else r.FractionFor(id) == (1, 1))
            && loaded.FractionFor(id).1 > 0
  {
  }

  // ---- attesting ----

  // Amounts arrive in micro-dollars, already rounded.
  datatype Fill = Fill(
    intentId: string,
    txHash: Option<string>,
    stamp: string,
    ts: string,
    protocol: string,
    srcChain: nat,
    dstChain: nat,
    fee: Option<i64>,
    profit: Option<i64>)

  datatype Signer = Signer(address: Address, sign: Json -> seq<byte>)

  const PURPOSE := "adapter_"
  const BUILDER := PURPOSE + "builder"
  const ECOSYSTEM := PURPOSE + "ecosystem"
  const REVIEWERS := PURPOSE + "reviewers"

  function FillId(f: Fill): string {
    f.intentId + ":" + if f.txHash.Some? && f.txHash.value != [] then f.txHash.value else f.stamp
  }

  // The first eight digits of the address, after its 0x.
  function SpinnerId(address: Address): string {
    address[Min(2, |address|)..Min(10, |address|)]
  }

  function Recipients(s: Shares, builder: Address, reviewers: seq<Address>, ecosystem: Address): seq<Entry> {
    [Entry(BUILDER, Share(BUILDER, [builder], s.builder, 70, 100, false)),
     Entry(ECOSYSTEM, Share(ECOSYSTEM, [ecosystem], s.ecosystem, 10, 100, true)),
     Entry(REVIEWERS, Share(REVIEWERS, reviewers, s.reviewers, 20, 100, false))]
  }

  function Sign(a: Attestation, signer: Signer): Attestation {
    a.(signature := "0x" + Hex.Encode(signer.sign(SigningForm(a.(signature := "")))))
  }

  // None when the division panics.
  function Attest(f: Fill, r: Registry, signer: Signer, prevHash: string): Option<Attestation> {
    var inflow: i64 := f.fee.OrElse(f.profit).GetOr(0);
    var id := AdapterId(f.protocol, f.srcChain, f.dstChain);
    var (num, den) := r.FractionFor(id);
    var (builder, reviewers) := r.Payees(id);
    match Redistribute(inflow, num, den)
    case None => None
    case Some(s) =>
      Some(Sign(
             Attestation(FillId(f), SpinnerId(signer.address), signer.address, id,
                         f.protocol, f.dstChain, f.fee.GetOr(0), f.profit.GetOr(0), inflow, num, den, s.donut,
                         Recipients(s, builder, reviewers, r.ecosystem), f.ts, prevHash, ""),
             signer))
  }

  // ---- verifying ----

  function Total(es: seq<Entry>): int {
    if es == [] then 0 else Total(es[..|es| - 1]) + es[|es| - 1].share.micro
  }

  function Residuals(es: seq<Entry>): nat {
    if es == [] then 0 else Residuals(es[..|es| - 1]) + if es[|es| - 1].share.residual then 1 else 0
  }

  ghost predicate KeysMatch(es: seq<Entry>) { forall i :: 0 <= i < |es| ==> es[i].key == es[i].share.purpose }

  // No running sum leaves the 64-bit range.
  ghost predicate RunningFits(es: seq<Entry>) { forall k :: 0 <= k <= |es| ==> Fits(Total(es[..k])) }

  type Recover = (Json, seq<byte>) -> Option<Address>

  ghost predicate SignedBy(a: Attestation, recover: Recover) {
    match SignatureBytes(a)
    case None => false
    case Some(sig) => |sig| == 65 && PassesLowS(sig[32..64]) && recover(SigningForm(a), sig) == Some(a.spinner)
  }

  predicate DonutAsCarried(a: Attestation)
    requires a.splitDen > 0
  {
    a.donutMicro == Quotient(Wrap(Max(a.inflowMicro, 0) * a.splitNum), a.splitDen)
  }

  /** What verification promises of an accepted attestation. */
  ghost predicate Acceptable(a: Attestation, recover: Recover) {
    && a.splitDen > 0 && a.splitNum >= 0 && DonutAsCarried(a)
    && KeysMatch(a.recipients) && RunningFits(a.recipients)
    && Total(a.recipients) == a.donutMicro && Residuals(a.recipients) == 1
    && SignedBy(a, recover)
  }

  datatype Objection =
    BadFraction | DonutMismatch | KeyMismatch | SumOverflow | SumMismatch | ResidualCount | BadSignature | HighS | WrongSigner

  method Verify(a: Attestation, recover: Recover) returns (r: Option<Objection>)
    ensures r == None <==> Acceptable(a, recover)
    ensures r == Some(BadFraction) <==> a.splitDen <= 0 || a.splitNum < 0
    ensures r == Some(KeyMismatch) ==> !KeysMatch(a.recipients)
    ensures r == Some(DonutMismatch) <==> a.splitDen > 0 && a.splitNum >= 0 && !DonutAsCarried(a)
    ensures r == Some(SumOverflow) ==> !RunningFits(a.recipients)
    ensures r == Some(SumMismatch) ==> Total(a.recipients) != a.donutMicro
    ensures r == Some(ResidualCount) ==> Residuals(a.recipients) != 1
    ensures r == Some(BadSignature) ==> SignatureBytes(a).None? || |SignatureBytes(a).value| != 65
    ensures r == Some(WrongSigner) ==>
              SignatureBytes(a).Some? && recover(SigningForm(a), SignatureBytes(a).value) != Some(a.spinner)
  {
    if a.splitDen <= 0 || a.splitNum < 0 {
      return Some(BadFraction);
    }
    if !DonutAsCarried(a) {
      return Some(DonutMismatch);
    }
    var es := a.recipients;
    var sum, residuals, k := 0, 0, 0;
    while k < |es|
      invariant 0 <= k <= |es|
      invariant sum == Total(es[..k]) && residuals == Residuals(es[..k])
      invariant KeysMatch(es[..k])
      invariant forall j :: 0 <= j <= k ==> Fits(Total(es[..j]))
    {
      if es[k].key != es[k].share.purpose {
        return Some(KeyMismatch);
      }
      assert es[..k + 1][..k] == es[..k];
      if !Fits(sum + es[k].share.micro) {
        assert Total(es[..k + 1]) == sum + es[k].share.micro;
        return Some(SumOverflow);
      }
      sum := sum + es[k].share.micro;
      if es[k].share.residual {
        residuals := residuals + 1;
      }
      k := k + 1;
    }
    assert es[..k] == es;
    if sum != a.donutMicro {
      return Some(SumMismatch);
    }
    if residuals != 1 {
      return Some(ResidualCount);
    }
    var decoded := SignatureBytes(a);
    if decoded.None? || |decoded.value| != 65 {
      return Some(BadSignature);
    }
    if !PassesLowS(decoded.value[32..64]) {
      return Some(HighS);
    }
    if recover(SigningForm(a), decoded.value) != Some(a.spinner) {
      return Some(WrongSigner);
    }
    return None;
  }

  // ---- what an accepted donut is ----

  // `q` is `w` over `d`, rounded toward zero.
  predicate Truncates(q: int, w: int, d: nat) {
    if w >= 0 then q * d <= w < q * d + d else q * d - d < w <= q * d
  }

  lemma QuotientTruncates(w: int, d: nat)
    requires d > 0
    ensures Truncates(Quotient(w, d), w, d)
  {
    if w >= 0 {
      assert w == (w / d) * d + w % d;
    } else {
      var q := (-w) / d;
      assert -w == q * d + (-w) % d;
      assert (-q) * d == -(q * d);
    }
  }

  lemma NoLargerTruncation(p: int, q: int, w: int, d: nat)
    requires d > 0 && Truncates(p, w, d) && p < q
    ensures !Truncates(q, w, d)
  {
    assert q * d >= p * d + d by {
      Monotone(0, q - p - 1, d);
      assert q * d == (q - p - 1) * d + p * d + d;
    }
  }

  lemma OneTruncation(p: int, q: int, w: int, d: nat)
    requires d > 0 && Truncates(p, w, d) && Truncates(q, w, d)
    ensures p == q
  {
    if p < q {
      NoLargerTruncation(p, q, w, d);
    } else if q < p {
      NoLargerTruncation(q, p, w, d);
    }
  }

  /** The donut of an accepted attestation is the positive inflow times the fraction, rounded down, whenever that
      product fits 64 bits; past that it is the quotient of the 64-bit number the product wraps to. Any other donut
      is refused. */
  lemma AcceptedDonut(a: Attestation, recover: Recover, w: int)
    requires a.splitDen > 0 && a.splitNum >= 0
    requires var product := (if a.inflowMicro > 0 then a.inflowMicro else 0) * a.splitNum;
             Fits(w) && (w - product) % U64_LIMIT == 0
    ensures DonutAsCarried(a) <==> Truncates(a.donutMicro, w, a.splitDen)
    ensures var product := (if a.inflowMicro > 0 then a.inflowMicro else 0) * a.splitNum;
            Acceptable(a, recover) && product < LIMIT ==>
              a.donutMicro * a.splitDen <= product < a.donutMicro * a.splitDen + a.splitDen
  {
    var product := (if a.inflowMicro > 0 then a.inflowMicro else 0) * a.splitNum;
    assert product == Max(a.inflowMicro, 0) * a.splitNum;
    assert product >= 0 by { Monotone(0, a.splitNum, Max(a.inflowMicro, 0)); }
    OneWrap(product, w);
    QuotientTruncates(w, a.splitDen);
    if Truncates(a.donutMicro, w, a.splitDen) {
      OneTruncation(a.donutMicro, Quotient(w, a.splitDen), w, a.splitDen);
    }
  }

  /** Two accepted attestations of one inflow and fraction carry the same donut. */
  lemma SameDonut(a: Attestation, b: Attestation, recover: Recover)
    requires Acceptable(a, recover) && Acceptable(b, recover)
    requires a.inflowMicro == b.inflowMicro && a.splitNum == b.splitNum && a.splitDen == b.splitDen
    ensures a.donutMicro == b.donutMicro
  {
  }

  // ---- what attesting and verifying promise each other ----

  // A signer whose every signature is 65 bytes, low-s, and recovers to its address.
  ghost predicate IdealSigner(s: Signer, recover: Recover) {
    forall m ::
      && |s.sign(m)| == 65
      && PassesLowS(s.sign(m)[32..64])
      && recover(m, s.sign(m)) == Some(s.address)
  }

  lemma SignedVerifies(a: Attestation, s: Signer, recover: Recover)
    requires IdealSigner(s, recover) && a.spinner == s.address
    ensures SignedBy(Sign(a, s), recover)
  {
    var b := Sign(a, s);
    var sig := s.sign(SigningForm(a.(signature := "")));
    assert SignedValues(b) == SignedValues(a.(signature := ""));
    Hex.RoundTrip(sig);
    Hex.NeverPrefixed(Hex.Encode(sig));
  }

  lemma ThreeShares(s: Shares, builder: Address, reviewers: seq<Address>, ecosystem: Address)
    ensures var es := Recipients(s, builder, reviewers, ecosystem);
            && KeysMatch(es) && Residuals(es) == 1
            && Total(es) == s.builder + s.ecosystem + s.reviewers
            && (RunningFits(es) <==> Fits(s.builder) && Fits(s.builder + s.ecosystem)
                                     && Fits(s.builder + s.ecosystem + s.reviewers))
  {
    var es := Recipients(s, builder, reviewers, ecosystem);
    assert es[..3] == es && es[..3][..2] == es[..2] && es[..2][..1] == es[..1] && es[..1][..0] == [] && es[..0] == [];
    assert Total(es[..1]) == s.builder;
    assert Total(es[..2]) == s.builder + s.ecosystem;
    assert Residuals(es[..1]) == 0 && Residuals(es[..2]) == 1;
  }

  /** Attesting builds something verification accepts exactly when the registry's fraction has a non-negative
      numerator and a positive denominator, even where the 64-bit arithmetic wraps. */
  lemma AttestVerifiesIff(f: Fill, r: Registry, s: Signer, prevHash: string, recover: Recover)
    requires IdealSigner(s, recover)
    ensures var a := Attest(f, r, s, prevHash);
            var fraction := r.FractionFor(AdapterId(f.protocol, f.srcChain, f.dstChain));
            a.Some? && Acceptable(a.value, recover) <==> fraction.0 >= 0 && fraction.1 > 0
  {
    var inflow: i64 := f.fee.OrElse(f.profit).GetOr(0);
    var id := AdapterId(f.protocol, f.srcChain, f.dstChain);
    var (num, den) := r.FractionFor(id);
    var (builder, reviewers) := r.Payees(id);
    SharesAddUp(inflow, num, den);
    if Redistribute(inflow, num, den).Some? {
      var shares := Redistribute(inflow, num, den).value;
      ThreeShares(shares, builder, reviewers, r.ecosystem);
      var a := Attest(f, r, s, prevHash).value;
      SignedVerifies(a.(signature := ""), s, recover);
    }
  }

  // ---- who is paid ----

  function AddressedTo(es: seq<Entry>, to: Address): int {
    if es == [] then 0
    else
      var last := es[|es| - 1];
      AddressedTo(es[..|es| - 1], to) + if last.share.addresses == [to] then last.share.micro else 0
  }

  function Unaddressed(es: seq<Entry>): int {
    if es == [] then 0
    else
      var last := es[|es| - 1];
      Unaddressed(es[..|es| - 1]) + if last.share.addresses == [] then last.share.micro else 0
  }

  lemma SharesBySlot(s: Shares, builder: Address, reviewers: seq<Address>, ecosystem: Address, to: Address)
    ensures var es := Recipients(s, builder, reviewers, ecosystem);
            && AddressedTo(es, to) == (if builder == to then s.builder else 0) + (if ecosystem == to then s.ecosystem else 0)
                                      + (if reviewers == [to] then s.reviewers else 0)
            && Unaddressed(es) == if reviewers == [] then s.reviewers else 0
  {
    var es := Recipients(s, builder, reviewers, ecosystem);
    assert es[..3] == es && es[..3][..2] == es[..2] && es[..2][..1] == es[..1] && es[..1][..0] == [];
    assert [builder] == [to] <==> builder == to;
    assert [ecosystem] == [to] <==> ecosystem == to;
    assert AddressedTo(es[..1], to) == if builder == to then s.builder else 0;
    assert AddressedTo(es[..2], to) == AddressedTo(es[..1], to) + if ecosystem == to then s.ecosystem else 0;
    assert Unaddressed(es[..1]) == 0 && Unaddressed(es[..2]) == 0;
  }

  /** An adapter nobody registered: the whole donut goes to the ecosystem address. A registered one: the builder
      is paid the 70 per cent cut, and no part of the donut lacks an address unless the list of reviewers is
      empty, and then exactly their 20 per cent cut does. */
  lemma WhoIsPaid(f: Fill, r: Registry, s: Signer, prevHash: string)
    requires Attest(f, r, s, prevHash).Some?
    ensures var a := Attest(f, r, s, prevHash).value;
            var id := AdapterId(f.protocol, f.srcChain, f.dstChain);
            && (id !in r.builders ==> AddressedTo(a.recipients, r.ecosystem) == a.donutMicro)
            && (id in r.builders ==> a.recipients[0].share.addresses == [r.builders[id]])
            && a.recipients[0].share.micro == Cut(a.donutMicro, 70) && a.recipients[2].share.micro == Cut(a.donutMicro, 20)
            && Unaddressed(a.recipients)
               == if id in r.builders && (id in r.reviewers ==> r.reviewers[id] == [])
                  then a.recipients[2].share.micro else 0
  {
    var inflow: i64 := f.fee.OrElse(f.profit).GetOr(0);
    var id := AdapterId(f.protocol, f.srcChain, f.dstChain);
    var (num, den) := r.FractionFor(id);
    var (builder, reviewers) := r.Payees(id);
    var shares := Redistribute(inflow, num, den).value;
    SharesAddUp(inflow, num, den);
    SharesBySlot(shares, builder, reviewers, r.ecosystem, r.ecosystem);
  }

  lemma SharesExact(raw: i64, num: i64, den: i64, s: Shares)
    requires num >= 0 && den > 0 && Redistribute(raw, num, den) == Some(s)
    requires Max(raw, 0) * num < LIMIT && 70 * s.donut < LIMIT
    ensures s.donut * den <= Max(raw, 0) * num < s.donut * den + den
    ensures s.builder * 100 <= s.donut * 70 < s.builder * 100 + 100
    ensures s.reviewers * 100 <= s.donut * 20 < s.reviewers * 100 + 100
    ensures s.builder + s.reviewers + s.ecosystem == s.donut
  {
    var x := Max(raw, 0) * num;
    assert x >= 0 by { Monotone(0, num, Max(raw, 0)); }
    QuotientFits(x, den);
    assert s.donut == IdealShares(raw, num, den).donut;
    ExactIff(raw, num, den);
    ExactShares(raw, num, den);
  }

  /** Fills whose transaction hashes have the usual length share a fill id only if they are one intent's and one
      transaction's. */
  lemma FillIdsApart(f: Fill, g: Fill)
    requires f.txHash.Some? && g.txHash.Some? && |f.txHash.value| == |g.txHash.value| > 0
    ensures FillId(f) == FillId(g) <==> f.intentId == g.intentId && f.txHash == g.txHash
  {
    var s, t := FillId(f), FillId(g);
    if s == t {
      assert s[..|f.intentId|] == f.intentId && t[..|g.intentId|] == g.intentId;
      assert s[|f.intentId| + 1..] == f.txHash.value && t[|g.intentId| + 1..] == g.txHash.value;
    }
  }

  /** What a fill's parties are paid, while nothing overflows: the donut is the fee, or the profit where no fee is
      known, times the adapter's fraction, rounded down; the builder and the reviewers listed for the adapter get 70
      and 20 per cent of it, rounded down, and the ecosystem the rest. */
  lemma AttestPays(f: Fill, r: Registry, s: Signer, prevHash: string, inflow: nat, num: i64, den: i64)
    requires Attest(f, r, s, prevHash).Some?
    requires inflow == Max(if f.fee.Some? then f.fee.value else if f.profit.Some? then f.profit.value else 0, 0)
    requires var id := AdapterId(f.protocol, f.srcChain, f.dstChain);
             if id in r.fractions then (num, den) == r.fractions[id] else (num, den) == (1, 1)
    requires num >= 0 && den > 0
    requires inflow * num < LIMIT && 70 * Attest(f, r, s, prevHash).value.donutMicro < LIMIT
    ensures var a := Attest(f, r, s, prevHash).value; var id := AdapterId(f.protocol, f.srcChain, f.dstChain);
            && |a.recipients| == 3
            && var (builder, ecosystem, reviewers) := (a.recipients[0].share, a.recipients[1].share, a.recipients[2].share);
            && a.donutMicro * den <= inflow * num < a.donutMicro * den + den
            && builder.micro * 100 <= a.donutMicro * 70 < builder.micro * 100 + 100
            && reviewers.micro * 100 <= a.donutMicro * 20 < reviewers.micro * 100 + 100
            && builder.micro + reviewers.micro + ecosystem.micro == a.donutMicro
            && ecosystem.addresses == [r.ecosystem]
            && (id in r.builders ==>
                  builder.addresses == [r.builders[id]]
                  && reviewers.addresses == if id in r.reviewers then r.reviewers[id] else [])
            && (id !in r.builders ==> builder.addresses == reviewers.addresses == [r.ecosystem])
  {
    var raw: i64 := f.fee.OrElse(f.profit).GetOr(0);
    var shares := Redistribute(raw, num, den).value;
    var id := AdapterId(f.protocol, f.srcChain, f.dstChain);
    var (payee, reviewers) := r.Payees(id);
    var a := Attest(f, r, s, prevHash).value;
    assert a.donutMicro == shares.donut;
    assert a.recipients == Recipients(shares, payee, reviewers, r.ecosystem);
    SharesExact(raw, num, den, shares);
  }

  /** Verification does not re-derive the 70 / 20 / 10 division: from any accepted attestation, the signer can
      make another accepted one that gives the whole donut to any address. */
  lemma SplitNotChecked(a: Attestation, s: Signer, recover: Recover, to: Address)
    requires IdealSigner(s, recover) && a.spinner == s.address && Acceptable(a, recover)
    ensures var all := [Entry(ECOSYSTEM, Share(ECOSYSTEM, [to], a.donutMicro, 10, 100, true))];
            Acceptable(Sign(a.(recipients := all), s), recover)
  {
    var all := [Entry(ECOSYSTEM, Share(ECOSYSTEM, [to], a.donutMicro, 10, 100, true))];
    assert all[..0] == [] && all[..1] == all && a.recipients[..|a.recipients|] == a.recipients;
    SignedVerifies(a.(recipients := all), s, recover);
  }

  /** Acceptance never fixes the chain hash: every accepted attestation has a twin, spelled with or without the
      prefix, that is accepted as well and chains differently. */
  lemma AcceptedRespelled(a: Attestation, recover: Recover)
    requires WellFormed(a) && Acceptable(a, recover)
    ensures var b := a.(signature := Hex.Respelled(a.signature));
            Acceptable(b, recover) && SignatureBytes(b) == SignatureBytes(a) && ChainForm(b) != ChainForm(a)
  {
    var b := a.(signature := Hex.Respelled(a.signature));
    Hex.RespelledDecodes(a.signature);
    assert SignedValues(b) == SignedValues(a);
    if ChainForm(b) == ChainForm(a) {
      ChainFormInjective(b, a);
    }
  }

  // ---- the built attestation is a proper record ----

  lemma {:induction false} LexCommonPrefix(p: seq<nat>, a: seq<nat>, b: seq<nat>)
    ensures LexLess(p + a, p + b) == LexLess(a, b)
  {
    if p == [] {
      assert p + a == a && p + b == b;
    } else {
      LexCommonPrefix(p[1..], a, b);
      assert (p + a)[1..] == p[1..] + a && (p + b)[1..] == p[1..] + b;
    }
  }

  lemma PurposeOrder(a: string, b: string)
    requires a != [] && b != [] && a[0] < b[0]
    ensures KeyBefore(PURPOSE + a, PURPOSE + b)
  {
    LexCommonPrefix(Codes(PURPOSE), Codes(a), Codes(b));
    assert Codes(PURPOSE + a) == Codes(PURPOSE) + Codes(a);
    assert Codes(PURPOSE + b) == Codes(PURPOSE) + Codes(b);
  }

  /** What attesting builds can stand in a ledger: its recipients are in key order. */
  lemma AttestWellFormed(f: Fill, r: Registry, s: Signer, prevHash: string)
    requires Attest(f, r, s, prevHash).Some?
    ensures WellFormed(Attest(f, r, s, prevHash).value)
    ensures Attest(f, r, s, prevHash).value.prevHash == prevHash
  {
    PurposeOrder("builder", "ecosystem");
    PurposeOrder("builder", "reviewers");
    PurposeOrder("ecosystem", "reviewers");
  }

  /** Attesting each fill on top of the ledger's head keeps the ledger linked. */
  lemma LedgerGrows(ledger: seq<Attestation>, hash: Json -> string, f: Fill, r: Registry, s: Signer)
    requires Linked(ledger, hash) && Attest(f, r, s, Head(ledger, hash)).Some?
    ensures Linked(ledger + [Attest(f, r, s, Head(ledger, hash)).value], hash)
  {
    var a := Attest(f, r, s, Head(ledger, hash)).value;
    AttestWellFormed(f, r, s, Head(ledger, hash));
    assert (ledger + [a])[..|ledger|] == ledger;
  }

  /** Where 70 times the donut overflows, an accepted attestation can leave the builder nothing. */
  lemma OverflowStarvesBuilder(f: Fill, r: Registry, s: Signer, prevHash: string, recover: Recover)
    requires IdealSigner(s, recover) && f.fee == Some(LIMIT - 1)
    requires r.FractionFor(AdapterId(f.protocol, f.srcChain, f.dstChain)) == (1, 1)
    ensures var a := Attest(f, r, s, prevHash);
            && a.Some? && Acceptable(a.value, recover) && a.value.donutMicro == LIMIT - 1
            && a.value.recipients[0].share.micro == 0
  {
    var top: i64 := LIMIT - 1;
    assert Redistribute(top, 1, 1).Some?;
    CutNearTop(1);
    assert Cut(top, 70) == 0 && Quotient(top, 1) == top;
    AttestVerifiesIff(f, r, s, prevHash, recover);
  }
}
