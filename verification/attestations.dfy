/** Donut attestations, their canonical JSON, and the hash chain of a ledger of them. */
module Attestations {
  import opened Common
  import opened CanonicalJson
  import Hex

  // Addresses and timestamps stand as the text they serialize to.
  type Address = string

  datatype Share = Share(
    purpose: string,
    addresses: seq<Address>,
    micro: int,
    num: nat,
    den: nat,
    residual: bool)

  datatype Entry = Entry(key: string, share: Share)

  datatype Attestation = Attestation(
    fillId: string,
    spinnerId: string,
    spinner: Address,
    adapter: string,
    protocol: string,
    dstChain: nat,
    feeMicro: int,
    profitMicro: int,
    inflowMicro: int,
    splitNum: int,
    splitDen: int,
    donutMicro: int,
    recipients: seq<Entry>,
    ts: string,
    prevHash: string,
    signature: string)

  // The recipients are an ordered map, so their keys ascend.
  ghost predicate WellFormed(a: Attestation) {
    forall i, j :: 0 <= i < j < |a.recipients| ==> KeyBefore(a.recipients[i].key, a.recipients[j].key)
  }

  // ---- JSON ----

  function Struct(names: seq<string>, values: seq<Json>): Json
    requires |names| == |values|
  {
    Object(Members(names, values))
  }

  function Members(names: seq<string>, values: seq<Json>): seq<Member>
    requires |names| == |values|
  {
    seq(|names|, i requires 0 <= i < |names| => Member(names[i], values[i]))
  }

  const SHARE_NAMES: seq<string> :=
    ["purpose", "addresses", "share_usd_micro", "share_num", "share_den", "is_residual"]

  const SIGNED_NAMES: seq<string> :=
    ["fill_id", "spinner_id", "spinner_addr", "adapter_id", "protocol", "dst_chain", "fee_usd_micro",
     "actual_profit_usd_micro", "inflow_usd_micro", "split_num", "split_den", "donut_take_usd_micro",
     "recipients", "ts", "prev_hash"]

  function Texts(ss: seq<string>): Json { Array(seq(|ss|, i requires 0 <= i < |ss| => Text(ss[i]))) }

  function ShareValues(s: Share): seq<Json> {
    [Text(s.purpose), Texts(s.addresses), Number(s.micro), Number(s.num), Number(s.den), Bool(s.residual)]
  }

  function ShareJson(s: Share): Json { Struct(SHARE_NAMES, ShareValues(s)) }

  function EntryMember(e: Entry): Member { Member(e.key, ShareJson(e.share)) }

  function RecipientMembers(es: seq<Entry>): seq<Member> {
    seq(|es|, i requires 0 <= i < |es| => EntryMember(es[i]))
  }

  function SignedValues(a: Attestation): seq<Json> {
    [Text(a.fillId), Text(a.spinnerId), Text(a.spinner), Text(a.adapter), Text(a.protocol), Number(a.dstChain),
     Number(a.feeMicro), Number(a.profitMicro), Number(a.inflowMicro), Number(a.splitNum), Number(a.splitDen),
     Number(a.donutMicro), Object(RecipientMembers(a.recipients)), Text(a.ts), Text(a.prevHash)]
  }

  // What is signed: everything but the signature.
  function SigningForm(a: Attestation): Json {
    Sort(Struct(SIGNED_NAMES, SignedValues(a)))
  }

  // What the next attestation's previous hash is taken of: everything.
  function ChainForm(a: Attestation): Json {
    Sort(Struct(SIGNED_NAMES + ["signature_hex"], SignedValues(a) + [Text(a.signature)]))
  }

  // ---- the canonical form loses nothing ----

  ghost predicate DistinctNames(names: seq<string>) {
    forall i, j :: 0 <= i < j < |names| ==> names[i] != names[j]
  }

  lemma StructFields(names: seq<string>, v: seq<Json>, w: seq<Json>)
    requires |names| == |v| == |w| && DistinctNames(names)
    requires Sort(Struct(names, v)) == Sort(Struct(names, w))
    ensures forall i :: 0 <= i < |names| ==> Sort(v[i]) == Sort(w[i])
  {
    var p, q := Members(names, v), Members(names, w);
    SortedMembers(p);
    SortedMembers(q);
    forall i | 0 <= i < |names|
      ensures Sort(v[i]) == Sort(w[i])
    {
      assert p[i] in p;
      assert SortedFrom(p, SortedMember(p[i])) && SortedFrom(q, SortedMember(p[i]));
      var n :| n in q && SortedMember(p[i]) == SortedMember(n);
      var j :| 0 <= j < |names| && q[j] == n;
      assert names[j] == names[i];
    }
  }

  lemma ShareNamesDistinct()
    ensures DistinctNames(SHARE_NAMES)
  {
  }

  lemma SignedNamesDistinct()
    ensures DistinctNames(SIGNED_NAMES)
    ensures DistinctNames(SIGNED_NAMES + ["signature_hex"])
  {
  }

  lemma TextsInjective(a: seq<string>, b: seq<string>)
    requires Sort(Texts(a)) == Sort(Texts(b))
    ensures a == b
  {
    SortedItems(Texts(a).items);
    SortedItems(Texts(b).items);
    assert |a| == |SortItems(Texts(a).items)| == |b|;
    forall i | 0 <= i < |a|
      ensures a[i] == b[i]
    {
      assert Sort(Texts(a).items[i]) == Sort(Texts(b).items[i]);
    }
  }

  lemma ShareInjective(s: Share, t: Share)
    requires Sort(ShareJson(s)) == Sort(ShareJson(t))
    ensures s == t
  {
    ShareNamesDistinct();
    var v, w := ShareValues(s), ShareValues(t);
    StructFields(SHARE_NAMES, v, w);
    assert Sort(v[0]) == Sort(w[0]) && Sort(v[1]) == Sort(w[1]) && Sort(v[2]) == Sort(w[2]);
    assert Sort(v[3]) == Sort(w[3]) && Sort(v[4]) == Sort(w[4]) && Sort(v[5]) == Sort(w[5]);
    TextsInjective(s.addresses, t.addresses);
  }

  function EachSorted(ms: seq<Member>): seq<Member> {
    seq(|ms|, i requires 0 <= i < |ms| => SortedMember(ms[i]))
  }

  // Members already in key order stay where they are.
  lemma OrderedStay(ms: seq<Member>)
    requires Ordered(ms)
    ensures SortMembers(ms) == EachSorted(ms)
  {
    forall i, j | 0 <= i < j < |ms|
      ensures ms[i].key != ms[j].key
    {
      KeyTrichotomy(ms[i].key, ms[j].key);
    }
    SortedMembers(ms);
    forall x
      ensures SortedFrom(ms, x) <==> x in EachSorted(ms)
    {
      if m :| m in ms && x == SortedMember(m) {
        var i :| 0 <= i < |ms| && ms[i] == m;
        assert EachSorted(ms)[i] == x;
      }
      if x in EachSorted(ms) {
        var i :| 0 <= i < |ms| && EachSorted(ms)[i] == x;
        assert ms[i] in ms;
      }
    }
    OrderedUnique(SortMembers(ms), EachSorted(ms));
  }

  lemma RecipientsInjective(a: Attestation, b: Attestation)
    requires WellFormed(a) && WellFormed(b)
    requires Sort(Object(RecipientMembers(a.recipients))) == Sort(Object(RecipientMembers(b.recipients)))
    ensures a.recipients == b.recipients
  {
    var p, q := RecipientMembers(a.recipients), RecipientMembers(b.recipients);
    OrderedStay(p);
    OrderedStay(q);
    assert |p| == |EachSorted(p)| == |EachSorted(q)| == |q|;
    forall i | 0 <= i < |p|
      ensures a.recipients[i] == b.recipients[i]
    {
      assert EachSorted(p)[i] == EachSorted(q)[i];
      ShareInjective(a.recipients[i].share, b.recipients[i].share);
    }
  }

  ghost predicate SameSigned(a: Attestation, b: Attestation) {
    a.(signature := "") == b.(signature := "")
  }

  // Field by field, from the sorted values.
  lemma ValuesInjective(a: Attestation, b: Attestation)
    requires WellFormed(a) && WellFormed(b)
    requires forall i :: 0 <= i < 15 ==> Sort(SignedValues(a)[i]) == Sort(SignedValues(b)[i])
    ensures SameSigned(a, b)
  {
    var v, w := SignedValues(a), SignedValues(b);
    assert Sort(v[0]) == Sort(w[0]) && Sort(v[1]) == Sort(w[1]) && Sort(v[2]) == Sort(w[2]);
    assert Sort(v[3]) == Sort(w[3]) && Sort(v[4]) == Sort(w[4]) && Sort(v[5]) == Sort(w[5]);
    assert Sort(v[6]) == Sort(w[6]) && Sort(v[7]) == Sort(w[7]) && Sort(v[8]) == Sort(w[8]);
    assert Sort(v[9]) == Sort(w[9]) && Sort(v[10]) == Sort(w[10]) && Sort(v[11]) == Sort(w[11]);
    assert Sort(v[12]) == Sort(w[12]) && Sort(v[13]) == Sort(w[13]) && Sort(v[14]) == Sort(w[14]);
    RecipientsInjective(a, b);
  }

  /** The signing pre-image decides every field but the signature. */
  lemma SigningFormFaithful(a: Attestation, b: Attestation)
    requires WellFormed(a) && WellFormed(b)
    ensures SigningForm(a) == SigningForm(b) <==> SameSigned(a, b)
  {
    if SameSigned(a, b) {
      assert SignedValues(a) == SignedValues(b);
    }
    if SigningForm(a) == SigningForm(b) {
      SignedNamesDistinct();
      StructFields(SIGNED_NAMES, SignedValues(a), SignedValues(b));
      ValuesInjective(a, b);
    }
  }

  /** The chaining pre-image decides the whole attestation. */
  lemma ChainFormInjective(a: Attestation, b: Attestation)
    requires WellFormed(a) && WellFormed(b)
    requires ChainForm(a) == ChainForm(b)
    ensures a == b
  {
    SignedNamesDistinct();
    var v, w := SignedValues(a) + [Text(a.signature)], SignedValues(b) + [Text(b.signature)];
    StructFields(SIGNED_NAMES + ["signature_hex"], v, w);
    forall i | 0 <= i < 15
      ensures Sort(SignedValues(a)[i]) == Sort(SignedValues(b)[i])
    {
      assert v[i] == SignedValues(a)[i] && w[i] == SignedValues(b)[i];
    }
    ValuesInjective(a, b);
    assert Sort(v[15]) == Sort(w[15]) && v[15] == Text(a.signature) && w[15] == Text(b.signature);
  }

  // ---- the signature's text ----

  // The bytes a signature's text stands for: an optional prefix, then digits in either case.
  function SignatureBytes(a: Attestation): Option<seq<byte>> { Hex.Decode(Hex.Unprefixed(a.signature)) }

  /** Two attestations alike in all that is signed, carrying the same signature bytes, chain alike exactly when
      their signatures agree on the prefix and on the case of every letter. */
  lemma SpellingDecidesChain(a: Attestation, b: Attestation)
    requires WellFormed(a) && WellFormed(b) && SameSigned(a, b)
    requires SignatureBytes(a).Some? && SignatureBytes(a) == SignatureBytes(b)
    ensures ChainForm(a) == ChainForm(b)
            <==> Hex.Prefixed(a.signature) == Hex.Prefixed(b.signature)
                 && Hex.SameCase(Hex.Unprefixed(a.signature), Hex.Unprefixed(b.signature))
  {
    Hex.SpellingsDiffer(a.signature, b.signature);
    if ChainForm(a) == ChainForm(b) {
      ChainFormInjective(a, b);
    }
    if a.signature == b.signature {
      assert a == b;
    }
  }

  // ---- the ledger ----

  const ZERO_HASH := "0x0000000000000000000000000000000000000000000000000000000000000000"

  function Head(ledger: seq<Attestation>, hash: Json -> string): string {
    if ledger == [] then ZERO_HASH else hash(ChainForm(ledger[|ledger| - 1]))
  }

  ghost predicate Linked(ledger: seq<Attestation>, hash: Json -> string) {
    ledger == [] ||
    var front, last := ledger[..|ledger| - 1], ledger[|ledger| - 1];
    WellFormed(last) && last.prevHash == Head(front, hash) && Linked(front, hash)
  }

  ghost predicate IdealHash(hash: Json -> string) {
    && (forall x, y :: hash(x) == hash(y) ==> x == y)
    && (forall x :: hash(x) != ZERO_HASH)
  }

  /** Two linked ledgers with the same head hash are the same ledger, record for record. */
  lemma {:induction false} HeadDecidesLedger(a: seq<Attestation>, b: seq<Attestation>, hash: Json -> string)
    requires IdealHash(hash) && Linked(a, hash) && Linked(b, hash)
    requires Head(a, hash) == Head(b, hash)
    ensures a == b
  {
    if a != [] && b != [] {
      var m, n := |a| - 1, |b| - 1;
      ChainFormInjective(a[m], b[n]);
      HeadDecidesLedger(a[..m], b[..n], hash);
      assert a == a[..m] + [a[m]] && b == b[..n] + [b[n]];
    }
  }

  lemma {:induction false} PrefixLinked(ledger: seq<Attestation>, n: nat, hash: Json -> string)
    requires Linked(ledger, hash) && n <= |ledger|
    ensures Linked(ledger[..n], hash)
    ensures n < |ledger| ==> ledger[n].prevHash == Head(ledger[..n], hash)
  {
    if n == |ledger| {
      assert ledger[..n] == ledger;
    } else {
      var front := ledger[..|ledger| - 1];
      assert front[..n] == ledger[..n];
      PrefixLinked(front, n, hash);
    }
  }

  /** The previous hash a record carries decides everything before it: two records of linked ledgers carry the
      same one exactly when the same records precede them. */
  lemma LinkDecidesPrefix(a: seq<Attestation>, b: seq<Attestation>, hash: Json -> string, i: nat, j: nat)
    requires IdealHash(hash) && Linked(a, hash) && Linked(b, hash)
    requires i < |a| && j < |b|
    ensures a[i].prevHash == b[j].prevHash <==> a[..i] == b[..j]
  {
    PrefixLinked(a, i, hash);
    PrefixLinked(b, j, hash);
    if a[i].prevHash == b[j].prevHash {
      HeadDecidesLedger(a[..i], b[..j], hash);
    }
  }
}
