/** The hand-written decoder for deBridge DLN CreatedOrder logs, against the ABI encoding of the event. */
module DlnOrders {
  import opened Common
  import opened Abi

  // The Order struct of the event: fourteen fields, nine of them byte strings.
  datatype Order = Order(
    nonce: nat,
    makerSrc: seq<byte>,
    giveChain: nat,
    giveToken: seq<byte>,
    giveAmount: nat,
    takeChain: nat,
    takeToken: seq<byte>,
    takeAmount: nat,
    receiver: seq<byte>,
    patchAuthority: seq<byte>,
    orderAuthority: seq<byte>,
    allowedTaker: seq<byte>,
    cancelBeneficiary: seq<byte>,
    externalCall: seq<byte>)

  // The other arguments of the event.
  datatype Extras = Extras(affiliateFee: seq<byte>, fixFee: Word, percentFee: Word, referral: Word, metadata: seq<byte>)

  function OrderArgs(o: Order): (args: seq<Arg>)
    ensures |args| == 14
  {
    [NumberArg(o.nonce), BytesArg(o.makerSrc), NumberArg(o.giveChain), BytesArg(o.giveToken),
     NumberArg(o.giveAmount), NumberArg(o.takeChain), BytesArg(o.takeToken), NumberArg(o.takeAmount),
     BytesArg(o.receiver), BytesArg(o.patchAuthority), BytesArg(o.orderAuthority), BytesArg(o.allowedTaker),
     BytesArg(o.cancelBeneficiary), BytesArg(o.externalCall)]
  }

  function EventArgs(o: Order, orderId: Word, x: Extras): (args: seq<Arg>)
    ensures |args| == 7
  {
    [Dynamic(EncodeTuple(OrderArgs(o))), Static(orderId), BytesArg(x.affiliateFee), Static(x.fixFee),
     Static(x.percentFee), Static(x.referral), BytesArg(x.metadata)]
  }

  function EncodeEvent(o: Order, orderId: Word, x: Extras): seq<byte> {
    EncodeTuple(EventArgs(o, orderId, x))
  }

  // ---- the decoder ----

  datatype Decoded = Decoded(
    orderId: Word,
    nonce: nat,
    srcChain: nat,
    dstChain: nat,
    depositor: seq<byte>,
    srcToken: seq<byte>,
    dstToken: seq<byte>,
    giveAmount: nat,
    takeAmount: nat,
    recipient: seq<byte>,
    patchAuthority: Option<seq<byte>>,
    orderAuthority: Option<seq<byte>>,
    allowedTaker: Option<seq<byte>>,
    cancelBeneficiary: Option<seq<byte>>,
    externalCall: Option<seq<byte>>,
    toSolana: bool)

  const ZERO_ADDRESS: seq<byte> := ToBe(0, 20)

  predicate IsSolanaChain(chain: nat) {
    chain in {100_000_001, 100_000_007, 100_000_022, 100_000_023, 100_000_027, 100_000_030}
  }

  // The byte string whose offset, relative to the struct at slot `os`, is in slot os + i.
  function Field(data: seq<byte>, os: nat, i: nat): Option<seq<byte>>
    requires os + i < SlotCount(data)
  {
    BytesAt(data, os + U64At(Slot(data, os + i)) / 32)
  }

  function NonEmpty(b: Option<seq<byte>>): Option<seq<byte>> {
    if b == Some([]) then None else b
  }

  function Decode(data: seq<byte>, pollChain: nat): Option<Decoded> {
    if SlotCount(data) < 22 then None
    else
      var os := U64At(Slot(data, 0)) / 32;
      if os + 13 >= SlotCount(data) then None else Some(DecodeAt(data, os, pollChain))
  }

  // The struct is at slot `os`.
  function DecodeAt(data: seq<byte>, os: nat, pollChain: nat): Decoded
    requires os + 13 < SlotCount(data)
  {
    var giveChain := U64At(Slot(data, os + 2));
    var takeChain := U64At(Slot(data, os + 5));
    Decoded(
      Slot(data, 1),
      U64At(Slot(data, os)),
      if giveChain > 0 then giveChain else pollChain,
      takeChain,
      Field(data, os, 1).GetOr(ZERO_ADDRESS),
      Field(data, os, 3).GetOr(ZERO_ADDRESS),
      Field(data, os, 6).GetOr(ZERO_ADDRESS),
      U128At(Slot(data, os + 4)),
      U128At(Slot(data, os + 7)),
      Field(data, os, 8).GetOr(ZERO_ADDRESS),
      NonEmpty(Field(data, os, 9)),
      NonEmpty(Field(data, os, 10)),
      NonEmpty(Field(data, os, 11)),
      NonEmpty(Field(data, os, 12)),
      NonEmpty(Field(data, os, 13)),
      IsSolanaChain(takeChain))
  }

  // ---- what an order is, as an intent ----

  function Present(b: seq<byte>): Option<seq<byte>> {
    if b == [] then None else Some(b)
  }

  function AsIntent(o: Order, orderId: Word): Decoded {
    Decoded(orderId, o.nonce, o.giveChain, o.takeChain, o.makerSrc, o.giveToken, o.takeToken,
            o.giveAmount, o.takeAmount, o.receiver, Present(o.patchAuthority), Present(o.orderAuthority),
            Present(o.allowedTaker), Present(o.cancelBeneficiary), Present(o.externalCall),
            IsSolanaChain(o.takeChain))
  }

  // The order with every number cut to the width the decoder reads.
  function Narrowed(o: Order, pollChain: nat): Order {
    var giveChain := o.giveChain % U64_LIMIT;
    o.(nonce := o.nonce % U64_LIMIT,
       giveChain := if giveChain > 0 then giveChain else pollChain,
       giveAmount := o.giveAmount % U128_LIMIT,
       takeChain := o.takeChain % U64_LIMIT,
       takeAmount := o.takeAmount % U128_LIMIT)
  }

  // ---- where the struct lies in the event ----

  const STRUCT_SLOT := 7

  // The arguments of the struct, one fact a field.
  ghost predicate Describes(args: seq<Arg>, o: Order) {
    && |args| == 14
    && args[0] == NumberArg(o.nonce)
    && args[1] == BytesArg(o.makerSrc)
    && args[2] == NumberArg(o.giveChain)
    && args[3] == BytesArg(o.giveToken)
    && args[4] == NumberArg(o.giveAmount)
    && args[5] == NumberArg(o.takeChain)
    && args[6] == BytesArg(o.takeToken)
    && args[7] == NumberArg(o.takeAmount)
    && args[8] == BytesArg(o.receiver)
    && args[9] == BytesArg(o.patchAuthority)
    && args[10] == BytesArg(o.orderAuthority)
    && args[11] == BytesArg(o.allowedTaker)
    && args[12] == BytesArg(o.cancelBeneficiary)
    && args[13] == BytesArg(o.externalCall)
  }

  lemma ArgsDescribe(o: Order)
    ensures Describes(OrderArgs(o), o)
  {
  }

  lemma DescribedAligned(args: seq<Arg>, o: Order)
    requires Describes(args, o)
    ensures Aligned(args)
  {
    NumberSlotted(o.nonce);
    BytesSlotted(o.makerSrc);
    NumberSlotted(o.giveChain);
    BytesSlotted(o.giveToken);
    NumberSlotted(o.giveAmount);
    NumberSlotted(o.takeChain);
    BytesSlotted(o.takeToken);
    NumberSlotted(o.takeAmount);
    BytesSlotted(o.receiver);
    BytesSlotted(o.patchAuthority);
    BytesSlotted(o.orderAuthority);
    BytesSlotted(o.allowedTaker);
    BytesSlotted(o.cancelBeneficiary);
    BytesSlotted(o.externalCall);
  }

  lemma StructPlaced(o: Order, orderId: Word, x: Extras)
    ensures At(EncodeEvent(o, orderId, x), 0, ToBe(224, 32))
    ensures At(EncodeEvent(o, orderId, x), 32, orderId)
    ensures At(EncodeEvent(o, orderId, x), 32 * STRUCT_SLOT, EncodeTuple(OrderArgs(o)))
  {
    FirstArguments(EventArgs(o, orderId, x), EncodeTuple(OrderArgs(o)), orderId);
  }

  // The layout of any seven arguments whose first is a dynamic tuple and whose second is a word.
  lemma FirstArguments(args: seq<Arg>, body: seq<byte>, word: Word)
    requires |args| == 7 && args[0] == Dynamic(body) && args[1] == Static(word)
    ensures At(EncodeTuple(args), 0, ToBe(224, 32))
    ensures At(EncodeTuple(args), 32, word)
    ensures At(EncodeTuple(args), 32 * STRUCT_SLOT, body)
  {
    assert Offset(args, 0) == 224;
    TupleLayout(args, 0);
    HeadLayout(args, 1);
    assert HeadOf(args, 0) == ToBe(224, 32);
  }

  // The data holds the event's head and the struct's head; the tails may be cut off.
  ghost predicate Headed(data: seq<byte>, args: seq<Arg>, orderId: Word) {
    && |args| == 14
    && At(data, 0, ToBe(224, 32))
    && At(data, 32, orderId)
    && At(data, 32 * STRUCT_SLOT, Heads(args, 14))
  }

  ghost predicate HasTail(data: seq<byte>, args: seq<Arg>, i: nat)
    requires i < |args|
  {
    At(data, 32 * STRUCT_SLOT + Offset(args, i), TailOf(args[i]))
  }

  lemma SlotOf(data: seq<byte>, i: nat, w: Word)
    requires At(data, 32 * i, w)
    ensures i < SlotCount(data) && Slot(data, i) == w
  {
  }

  lemma HeadSlot(data: seq<byte>, args: seq<Arg>, orderId: Word, i: nat)
    requires Headed(data, args, orderId) && i < 14
    ensures STRUCT_SLOT + i < SlotCount(data)
    ensures Slot(data, STRUCT_SLOT + i) == HeadOf(args, i)
  {
    HeadsAt(args, 14, i);
    AtWithin(data, 32 * STRUCT_SLOT, Heads(args, 14), 32 * i, HeadOf(args, i));
    SlotOf(data, STRUCT_SLOT + i, HeadOf(args, i));
  }

  lemma DynamicHead(args: seq<Arg>, i: nat)
    requires i < |args| && args[i].Dynamic?
    ensures HeadOf(args, i) == ToBe(Offset(args, i), 32)
  {
  }

  // Tails start on slot boundaries.
  lemma TailSlot(args: seq<Arg>, i: nat) returns (at: nat)
    requires i < |args| && Aligned(args)
    ensures 32 * at == 32 * STRUCT_SLOT + Offset(args, i)
  {
    OffsetsAligned(args, i);
    at := STRUCT_SLOT + Offset(args, i) / 32;
  }

  lemma OffsetReads(data: seq<byte>, i: nat, offset: nat, at: nat)
    requires STRUCT_SLOT + i < SlotCount(data) && offset < U64_LIMIT
    requires Slot(data, STRUCT_SLOT + i) == ToBe(offset, 32)
    requires 32 * at == 32 * STRUCT_SLOT + offset
    ensures Field(data, STRUCT_SLOT, i) == BytesAt(data, at)
  {
    SmallWordReads(offset);
    assert at == STRUCT_SLOT + offset / 32;
  }

  // Where a field's length slot is, as the decoder computes it from the head.
  lemma FieldSlot(data: seq<byte>, args: seq<Arg>, orderId: Word, i: nat) returns (at: nat)
    requires Headed(data, args, orderId) && i < 14 && args[i].Dynamic? && Aligned(args)
    requires Offset(args, i) < U64_LIMIT
    ensures STRUCT_SLOT + i < SlotCount(data)
    ensures 32 * at == 32 * STRUCT_SLOT + Offset(args, i)
    ensures Field(data, STRUCT_SLOT, i) == BytesAt(data, at)
  {
    HeadSlot(data, args, orderId, i);
    DynamicHead(args, i);
    at := TailSlot(args, i);
    OffsetReads(data, i, Offset(args, i), at);
  }

  lemma FieldReads(data: seq<byte>, args: seq<Arg>, orderId: Word, i: nat, b: seq<byte>)
    requires Headed(data, args, orderId) && i < 14 && args[i] == BytesArg(b) && Aligned(args)
    requires HasTail(data, args, i) && |data| < U64_LIMIT
    ensures STRUCT_SLOT + i < SlotCount(data)
    ensures Field(data, STRUCT_SLOT, i) == Some(b)
  {
    var at := FieldSlot(data, args, orderId, i);
    EncodedBytesRead(data, at, b);
  }

  lemma NumberReads(data: seq<byte>, args: seq<Arg>, orderId: Word, i: nat, n: nat)
    requires Headed(data, args, orderId) && i < 14 && args[i] == NumberArg(n)
    ensures STRUCT_SLOT + i < SlotCount(data)
    ensures U64At(Slot(data, STRUCT_SLOT + i)) == n % U64_LIMIT
    ensures U128At(Slot(data, STRUCT_SLOT + i)) == n % U128_LIMIT
  {
    HeadSlot(data, args, orderId, i);
    WordReads(n);
  }

  // Every number slot of the struct.
  ghost predicate NumbersRead(data: seq<byte>, o: Order) {
    && STRUCT_SLOT + 13 < SlotCount(data)
    && U64At(Slot(data, STRUCT_SLOT)) == o.nonce % U64_LIMIT
    && U64At(Slot(data, STRUCT_SLOT + 2)) == o.giveChain % U64_LIMIT
    && U128At(Slot(data, STRUCT_SLOT + 4)) == o.giveAmount % U128_LIMIT
    && U64At(Slot(data, STRUCT_SLOT + 5)) == o.takeChain % U64_LIMIT
    && U128At(Slot(data, STRUCT_SLOT + 7)) == o.takeAmount % U128_LIMIT
  }

  // Every byte field of the struct but the external call, which a log may cut off.
  ghost predicate FieldsRead(data: seq<byte>, o: Order) {
    && STRUCT_SLOT + 13 < SlotCount(data)
    && Field(data, STRUCT_SLOT, 1) == Some(o.makerSrc)
    && Field(data, STRUCT_SLOT, 3) == Some(o.giveToken)
    && Field(data, STRUCT_SLOT, 6) == Some(o.takeToken)
    && Field(data, STRUCT_SLOT, 8) == Some(o.receiver)
    && Field(data, STRUCT_SLOT, 9) == Some(o.patchAuthority)
    && Field(data, STRUCT_SLOT, 10) == Some(o.orderAuthority)
    && Field(data, STRUCT_SLOT, 11) == Some(o.allowedTaker)
    && Field(data, STRUCT_SLOT, 12) == Some(o.cancelBeneficiary)
  }

  lemma ReadNumbers(data: seq<byte>, args: seq<Arg>, o: Order, orderId: Word)
    requires Headed(data, args, orderId) && Describes(args, o)
    ensures NumbersRead(data, o)
  {
    NumberReads(data, args, orderId, 0, o.nonce);
    NumberReads(data, args, orderId, 2, o.giveChain);
    NumberReads(data, args, orderId, 4, o.giveAmount);
    NumberReads(data, args, orderId, 5, o.takeChain);
    NumberReads(data, args, orderId, 7, o.takeAmount);
    HeadSlot(data, args, orderId, 13);
  }

  lemma ReadFields(data: seq<byte>, args: seq<Arg>, o: Order, orderId: Word)
    requires Headed(data, args, orderId) && Describes(args, o) && |data| < U64_LIMIT
    requires forall i :: 0 <= i < 13 ==> HasTail(data, args, i)
    ensures FieldsRead(data, o)
  {
    DescribedAligned(args, o);
    FieldReads(data, args, orderId, 1, o.makerSrc);
    FieldReads(data, args, orderId, 3, o.giveToken);
    FieldReads(data, args, orderId, 6, o.takeToken);
    FieldReads(data, args, orderId, 8, o.receiver);
    FieldReads(data, args, orderId, 9, o.patchAuthority);
    FieldReads(data, args, orderId, 10, o.orderAuthority);
    FieldReads(data, args, orderId, 11, o.allowedTaker);
    FieldReads(data, args, orderId, 12, o.cancelBeneficiary);
    HeadSlot(data, args, orderId, 13);
  }

  // The decoder's result, once the slots are known.
  lemma DecodeFromReads(data: seq<byte>, o: Order, orderId: Word, pollChain: nat, call: Option<seq<byte>>)
    requires 22 <= SlotCount(data) && U64At(Slot(data, 0)) == 224 && Slot(data, 1) == orderId
    requires NumbersRead(data, o) && FieldsRead(data, o)
    requires Field(data, STRUCT_SLOT, 13) == call
    ensures Decode(data, pollChain)
            == Some(AsIntent(Narrowed(o, pollChain), orderId).(externalCall := NonEmpty(call)))
  {
  }

  lemma DecodeHeaded(data: seq<byte>, args: seq<Arg>, o: Order, orderId: Word, pollChain: nat)
    requires Headed(data, args, orderId) && Describes(args, o) && |data| < U64_LIMIT && 22 <= SlotCount(data)
    requires forall i :: 0 <= i < 13 ==> HasTail(data, args, i)
    ensures STRUCT_SLOT + 13 < SlotCount(data)
    ensures Decode(data, pollChain)
            == Some(AsIntent(Narrowed(o, pollChain), orderId)
                    .(externalCall := NonEmpty(Field(data, STRUCT_SLOT, 13))))
  {
    SlotOf(data, 0, ToBe(224, 32));
    WordReads(224);
    SlotOf(data, 1, orderId);
    ReadNumbers(data, args, o, orderId);
    ReadFields(data, args, o, orderId);
    DecodeFromReads(data, o, orderId, pollChain, Field(data, STRUCT_SLOT, 13));
  }

  // ---- a whole event ----

  lemma Placed(data: seq<byte>, args: seq<Arg>, orderId: Word)
    requires |args| == 14 && args[13].Dynamic? && |TailOf(args[13])| >= 32
    requires At(data, 0, ToBe(224, 32)) && At(data, 32, orderId)
    requires At(data, 32 * STRUCT_SLOT, EncodeTuple(args))
    ensures Headed(data, args, orderId) && 22 <= SlotCount(data)
    ensures forall i :: 0 <= i < 14 ==> HasTail(data, args, i)
  {
    var whole := EncodeTuple(args);
    assert At(whole, 0, Heads(args, 14));
    AtWithin(data, 32 * STRUCT_SLOT, whole, 0, Heads(args, 14));
    forall i | 0 <= i < 14
      ensures HasTail(data, args, i)
    {
      TupleLayout(args, i);
      AtWithin(data, 32 * STRUCT_SLOT, whole, Offset(args, i), TailOf(args[i]));
    }
    assert HasTail(data, args, 13);
  }

  lemma WholeEvent(o: Order, orderId: Word, x: Extras)
    ensures Headed(EncodeEvent(o, orderId, x), OrderArgs(o), orderId)
    ensures forall i :: 0 <= i < 14 ==> HasTail(EncodeEvent(o, orderId, x), OrderArgs(o), i)
    ensures 22 <= SlotCount(EncodeEvent(o, orderId, x))
    ensures Describes(OrderArgs(o), o)
  {
    ArgsDescribe(o);
    StructPlaced(o, orderId, x);
    Placed(EncodeEvent(o, orderId, x), OrderArgs(o), orderId);
  }

  /** Decoding an encoded event gives every field of the order, numbers cut to 64 and 128 bits. */
  lemma DecodeEncoded(o: Order, orderId: Word, x: Extras, pollChain: nat)
    requires |EncodeEvent(o, orderId, x)| < U64_LIMIT
    ensures Decode(EncodeEvent(o, orderId, x), pollChain) == Some(AsIntent(Narrowed(o, pollChain), orderId))
  {
    var data := EncodeEvent(o, orderId, x);
    WholeEvent(o, orderId, x);
    DecodeWhole(data, OrderArgs(o), o, orderId, pollChain);
  }

  lemma DecodeWhole(data: seq<byte>, args: seq<Arg>, o: Order, orderId: Word, pollChain: nat)
    requires Headed(data, args, orderId) && Describes(args, o) && |data| < U64_LIMIT && 22 <= SlotCount(data)
    requires forall i :: 0 <= i < 14 ==> HasTail(data, args, i)
    ensures Decode(data, pollChain) == Some(AsIntent(Narrowed(o, pollChain), orderId))
  {
    DecodeHeaded(data, args, o, orderId, pollChain);
    DescribedAligned(args, o);
    FieldReads(data, args, orderId, 13, o.externalCall);
  }

  lemma NarrowedIsWhole(o: Order, orderId: Word, pollChain: nat)
    requires pollChain < U64_LIMIT
    ensures AsIntent(Narrowed(o, pollChain), orderId) == AsIntent(o, orderId)
            <==> && o.nonce < U64_LIMIT && o.takeChain < U64_LIMIT
                 && o.giveAmount < U128_LIMIT && o.takeAmount < U128_LIMIT
                 && o.giveChain < U64_LIMIT && (o.giveChain == 0 ==> pollChain == 0)
  {
  }

  /** The round trip is exact exactly when the numbers fit and the give chain is not zero (or the poller's is). */
  lemma RoundTripIff(o: Order, orderId: Word, x: Extras, pollChain: nat)
    requires |EncodeEvent(o, orderId, x)| < U64_LIMIT && pollChain < U64_LIMIT
    ensures Decode(EncodeEvent(o, orderId, x), pollChain) == Some(AsIntent(o, orderId))
            <==> && o.nonce < U64_LIMIT && o.takeChain < U64_LIMIT
                 && o.giveAmount < U128_LIMIT && o.takeAmount < U128_LIMIT
                 && o.giveChain < U64_LIMIT && (o.giveChain == 0 ==> pollChain == 0)
  {
    var d := Decode(EncodeEvent(o, orderId, x), pollChain);
    assert d == Some(AsIntent(Narrowed(o, pollChain), orderId)) by { DecodeEncoded(o, orderId, x, pollChain); }
    NarrowedIsWhole(o, orderId, pollChain);
  }

  // ---- a log cut short ----

  lemma CutKeeps(data: seq<byte>, cut: nat, p: nat, chunk: seq<byte>)
    requires cut <= |data| && At(data, p, chunk) && p + |chunk| <= cut
    ensures At(data[..cut], p, chunk)
  {
  }

  lemma {:induction false} TailsGrow(args: seq<Arg>, a: nat, b: nat)
    requires a < b <= |args|
    ensures |Tails(args, a)| + |TailOf(args[a])| <= |Tails(args, b)|
  {
    if a < b - 1 {
      TailsGrow(args, a, b - 1);
    }
  }

  // Start and end of the external call's encoding within the event.
  function CallStart(args: seq<Arg>): nat
    requires |args| == 14
  {
    32 * STRUCT_SLOT + Offset(args, 13)
  }

  function CallEnd(args: seq<Arg>): nat
    requires |args| == 14
  {
    CallStart(args) + |TailOf(args[13])|
  }

  lemma CutHeaded(data: seq<byte>, args: seq<Arg>, orderId: Word, cut: nat)
    requires Headed(data, args, orderId) && CallStart(args) <= cut <= |data|
    requires forall i :: 0 <= i < 14 ==> HasTail(data, args, i)
    ensures Headed(data[..cut], args, orderId)
    ensures forall i :: 0 <= i < 13 ==> HasTail(data[..cut], args, i)
  {
    CutKeeps(data, cut, 0, ToBe(224, 32));
    CutKeeps(data, cut, 32, orderId);
    CutKeeps(data, cut, 32 * STRUCT_SLOT, Heads(args, 14));
    forall i | 0 <= i < 13
      ensures HasTail(data[..cut], args, i)
    {
      TailsGrow(args, i, 13);
      assert HasTail(data, args, i);
      CutKeeps(data, cut, 32 * STRUCT_SLOT + Offset(args, i), TailOf(args[i]));
    }
  }

  // The external call of a cut log: there when its last slot is whole, unreadable otherwise.
  lemma CutCall(whole: seq<byte>, args: seq<Arg>, orderId: Word, cut: nat, call: seq<byte>)
    requires |args| == 14 && args[13] == BytesArg(call) && Aligned(args)
    requires |whole| < U64_LIMIT && CallStart(args) <= cut <= |whole|
    requires HasTail(whole, args, 13) && Headed(whole[..cut], args, orderId)
    ensures STRUCT_SLOT + 13 < SlotCount(whole[..cut])
    ensures Field(whole[..cut], STRUCT_SLOT, 13) == if CallEnd(args) <= cut then Some(call) else None
  {
    var at := FieldSlot(whole[..cut], args, orderId, 13);
    CutRead(whole, cut, at, call);
  }

  // An encoded byte string of a cut log: read whole when its last slot is there, unreadable otherwise.
  lemma CutRead(whole: seq<byte>, cut: nat, at: nat, b: seq<byte>)
    requires |whole| < U64_LIMIT && cut <= |whole| && At(whole, 32 * at, EncodeBytes(b))
    ensures BytesAt(whole[..cut], at) == if 32 * at + |EncodeBytes(b)| <= cut then Some(b) else None
  {
    if 32 * at + |EncodeBytes(b)| <= cut {
      CutKeeps(whole, cut, 32 * at, EncodeBytes(b));
      EncodedBytesRead(whole[..cut], at, b);
    } else {
      CutBytes(whole, cut, at, b);
    }
  }

  lemma CutBytes(whole: seq<byte>, cut: nat, at: nat, b: seq<byte>)
    requires |whole| < U64_LIMIT && cut <= |whole| && At(whole, 32 * at, EncodeBytes(b))
    requires cut < 32 * at + |EncodeBytes(b)|
    ensures BytesAt(whole[..cut], at) == None
  {
    var data, len := whole[..cut], ToBe(|b|, 32);
    assert |data| == cut;
    if at < SlotCount(data) {
      AtParts(whole, 32 * at, len, b, Zeros(32 * CeilDiv(|b|, 32) - |b|));
      CutKeeps(whole, cut, 32 * at, len);
      SlotOf(data, at, len);
      SmallWordReads(|b|);
      TooShort(cut, at, CeilDiv(|b|, 32));
    }
  }

  lemma TooShort(cut: nat, at: nat, slots: nat)
    requires cut < 32 * at + (32 + 32 * slots)
    ensures at + 1 + slots > cut / 32
  {
  }

  /** A log cut inside the external call still decodes, and the call then reads as absent: it is seen exactly
      when its last slot is complete. */
  lemma CutCallReadsAbsent(o: Order, orderId: Word, x: Extras, pollChain: nat, cut: nat)
    requires |EncodeEvent(o, orderId, x)| < U64_LIMIT && o.externalCall != []
    requires CallStart(OrderArgs(o)) <= cut <= |EncodeEvent(o, orderId, x)|
    ensures Decode(EncodeEvent(o, orderId, x)[..cut], pollChain)
            == Some(AsIntent(Narrowed(o, pollChain), orderId)
                    .(externalCall := if CallEnd(OrderArgs(o)) <= cut then Some(o.externalCall) else None))
  {
    WholeEvent(o, orderId, x);
    CutDecodes(EncodeEvent(o, orderId, x), OrderArgs(o), o, orderId, pollChain, cut);
  }

  lemma CutDecodes(whole: seq<byte>, args: seq<Arg>, o: Order, orderId: Word, pollChain: nat, cut: nat)
    requires Headed(whole, args, orderId) && Describes(args, o) && |whole| < U64_LIMIT
    requires forall i :: 0 <= i < 14 ==> HasTail(whole, args, i)
    requires CallStart(args) <= cut <= |whole| && o.externalCall != []
    ensures Decode(whole[..cut], pollChain)
            == Some(AsIntent(Narrowed(o, pollChain), orderId)
                    .(externalCall := if CallEnd(args) <= cut then Some(o.externalCall) else None))
  {
    DescribedAligned(args, o);
    TailsGrow(args, 1, 13);
    CutHeaded(whole, args, orderId, cut);
    CutCall(whole, args, orderId, cut, o.externalCall);
    DecodeHeaded(whole[..cut], args, o, orderId, pollChain);
  }

  // ---- events from nowhere ----

  // The number in the last eight bytes of the word at byte 32 * i.
  function NumberAt(data: seq<byte>, i: nat): nat
    requires 32 * i + 32 <= |data|
  {
    Be(data[32 * i + 24..32 * i + 32])
  }

  // The bytes of field `i` of the struct at word `os` do not all lie inside the data.
  predicate Unreadable(data: seq<byte>, os: nat, i: nat)
    requires 32 * (os + i) + 32 <= |data|
  {
    var at := os + NumberAt(data, os + i) / 32;
    32 * at + 32 > |data| || 32 * (at + 1 + (NumberAt(data, at) + 31) / 32) > |data|
  }

  lemma FieldUnreadable(data: seq<byte>, os: nat, i: nat)
    requires 32 * (os + i) + 32 <= |data|
    ensures Field(data, os, i).None? <==> Unreadable(data, os, i)
  {
    SlotNumber(data, os + i);
    var at := os + NumberAt(data, os + i) / 32;
    if 32 * at + 32 <= |data| {
      SlotNumber(data, at);
    }
  }

  lemma SlotNumber(data: seq<byte>, i: nat)
    requires 32 * i + 32 <= |data|
    ensures i < SlotCount(data) && U64At(Slot(data, i)) == NumberAt(data, i)
  {
    assert data[32 * i..32 * i + 32][24..] == data[32 * i + 24..32 * i + 32];
  }

  /** Whatever bytes a log carries, it is taken for an order exactly when it has 22 words and the struct its first word
      points at has room for 14. */
  lemma DecodesIff(data: seq<byte>, pollChain: nat)
    ensures Decode(data, pollChain).Some? <==> |data| >= 22 * 32 && 32 * (NumberAt(data, 0) / 32 + 14) <= |data|
  {
    if |data| >= 22 * 32 {
      SlotNumber(data, 0);
    }
  }

  lemma ReadAt(data: seq<byte>, pollChain: nat)
    requires Decode(data, pollChain).Some?
    ensures var os := NumberAt(data, 0) / 32;
            os + 13 < SlotCount(data) && Decode(data, pollChain).value == DecodeAt(data, os, pollChain)
  {
    SlotNumber(data, 0);
  }

  /** In such a log, a token or a receiver that cannot be read becomes the zero address, and a reserved taker or a call
      that cannot be read is absent. */
  lemma UnreadableDefaults(data: seq<byte>, pollChain: nat, os: nat)
    requires 32 * (os + 14) <= |data| && os == NumberAt(data, 0) / 32 && Decode(data, pollChain).Some?
    ensures var d := Decode(data, pollChain).value;
            && (Unreadable(data, os, 6) ==> d.dstToken == ToBe(0, 20))
            && (Unreadable(data, os, 8) ==> d.recipient == ToBe(0, 20))
            && (Unreadable(data, os, 11) ==> d.allowedTaker == None)
            && (Unreadable(data, os, 13) ==> d.externalCall == None)
  {
    ReadAt(data, pollChain);
    FieldUnreadable(data, os, 6);
    FieldUnreadable(data, os, 8);
    FieldUnreadable(data, os, 11);
    FieldUnreadable(data, os, 13);
  }

  /** Solana is where an order goes exactly for deBridge's ids of it. */
  lemma SolanaBound(data: seq<byte>, pollChain: nat, os: nat)
    requires 32 * (os + 14) <= |data| && os == NumberAt(data, 0) / 32 && Decode(data, pollChain).Some?
    ensures Decode(data, pollChain).value.toSolana <==>
            NumberAt(data, os + 5) in {100_000_001, 100_000_007, 100_000_022, 100_000_023, 100_000_027, 100_000_030}
  {
    ReadAt(data, pollChain);
    SlotNumber(data, os + 5);
  }
}
