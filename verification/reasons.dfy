/** Why a run ended as it did: every outcome it reports is true of the intent it worked on. */
module Reasons {
  import opened Common
  import opened Guards
  import opened Wallet
  import opened Lifecycle
  import opened LifecycleProofs
  import opened Fills

  // The amounts differ too little, or not at all, for a fill to be worth it: below one part in ten thousand, where
  // their scales are comparable.
  predicate TooNarrow(larger: Option<nat>, smaller: Option<nat>) {
    larger.Some? && smaller.Some? && smaller.value <= 1000 * larger.value
    && 10_000 * (larger.value - smaller.value) < larger.value
  }

  predicate NoneOrNarrow(give: Option<nat>, take: Option<nat>) {
    give.Some? && take.Some? && take.value <= 1000 * give.value
    && (take.value == 0 || give.value <= take.value || TooNarrow(give, take))
  }

  /** What has to be so for a run to skip the intent for a reason; `j` is the intent, completed. */
  ghost predicate SkippedFor(c: Config, l: Ledger, i: Intent, j: Intent, w: World, reason: Reason)
    requires i.dstChain in c.chains
  {
    match reason
    case NotionalCap => w.usd > w.maxNotionalUsd
    case NoWiring => false
    case ReserveFailed => !c.dryRun && !l.CanReserve(i.id, w.usd)
    case NoSpokePool => i.IsAcross() && c.chains[i.dstChain].adapter == 0
    case Unprofitable => w.testRun.Some? && !w.testRun.value.profitable
    case BelowThreshold => w.testRun.Some? && w.testRun.value.netProfitUsd < c.threshold
    case ExclusiveTaker => i.IsDebridge() && ReservedForOther(i.allowedTaker, TrimPrefix(c.signer, "0x"))
    case ExternalCall => i.IsDebridge() && CarriesCall(i.externalCall)
    case DebridgeSpread => i.IsDebridge() && NoneOrNarrow(ParseAmount(i.giveAmount), ParseAmount(i.takeAmount))
    case DebridgeBalance => i.IsDebridge() && !BalanceCovers(i.dstToken, i.takeAmount, w.debridgeBalance)
    case EnrichmentFailed => Completed(c, i, w) == None
    case ExclusiveWindow => !OutsideExclusivity(c, j, w.clockExclusive)
    case IncompleteClaimInfo =>
      (j.IsAcross() && !AcrossClaimable(j)) || (j.IsMayan() && (j.LacksRecipient() || |j.mayanOrderId.GetOr("")| < 66))
    case MayanExpired => j.IsMayan() && j.deadline.Some? && j.deadline.value < Min(w.clockMayan + 30, U64_LIMIT - 1)
    case ProgramNotReady => !w.programReady && SolanaTakes(j)
    case DryRun => c.dryRun
    case NoSolanaKey => !w.solanaKeyOk && SolanaTakes(j)
    case AuctionMode => j.IsMayan() && j.mayanAuctionMode != Some(0)
    case AcrossSpread =>
      && c.chains[i.dstChain].operator == 0 && ParseU128(j.amount) != Some(0)
      && TooNarrow(ParseU128(j.amount), ParseAmount(j.outputAmount))
    case MessageHook => !Messageless(j)
    case SolanaDepositor => j.IsAcross() && !EvmWallet(j)
    case NoDepositId => j.IsAcross() && !NamesDeposit(j)
    case FillDeadline => !TimeLeft(j, w.clockFill)
    case TokenBalance => !BalanceCovers(j.dstToken, j.outputAmount, w.tokenBalance)
    case EstimateGate => !EstimateGreen(j, w)
    case NativeBalance => !ValueCovered(w)
  }

  // The same for every way a run may end.
  ghost predicate EndedFor(c: Config, l: Ledger, i: Intent, j: Intent, w: World, o: Outcome)
    requires i.dstChain in c.chains && j.dstChain == i.dstChain
  {
    match o
    case Filled(hash, gas) =>
      || (w.sentHash == Some(hash) && w.receipt == Some(Receipt(true, gas)))
      || (w.signature == Some(hash) && gas == w.solanaUnits)
    case FillReverted(hash) => w.sentHash == Some(hash) && w.receipt.Some? && !w.receipt.value.success
    case Skipped(reason) => SkippedFor(c, l, i, j, w, reason)
    case Failed(SpinnerTestRun) => w.testRun == None
    case Failed(ProofFetching) => !ProofHeld(i, w)
    case Failed(CalldataBuilding) =>
      if SolanaTakes(j) then !Projects(SolanaLaneOf(j), j, w) else !CalldataBuilds(EvmLane(c, j), j, w)
    case Failed(Submitting) => w.sentHash == None || w.signature == None
    case Failed(AwaitingReceipt) => w.sentHash.Some? && w.receipt == None
    case Error(RecordDetected) => !w.recordOk
    case Error(RpcUrl) => !c.chains[i.dstChain].rpcParses
  }

  // ---- the guards' reasons ----

  lemma SpreadReason(amount: string, output: Option<string>)
    ensures AcrossSpreadSkip(amount, output).Some? ==>
              ParseU128(amount) != Some(0) && TooNarrow(ParseU128(amount), ParseAmount(output))
  {
    AcrossSpreadExact(amount, output);
  }

  lemma AcrossReason(c: Config, l: Ledger, i: Intent, j: Intent, w: World)
    requires i.dstChain in c.chains && j.dstChain == i.dstChain
    ensures AcrossRefusal(c, j, w).Some? ==> SkippedFor(c, l, i, j, w, AcrossRefusal(c, j, w).value)
  {
    SpreadReason(j.amount, j.outputAmount);
    ChecksRead(c, j, w);
    DepositRead(j);
  }

  lemma ClaimReason(c: Config, l: Ledger, i: Intent, j: Intent, w: World)
    requires i.dstChain in c.chains && j.dstChain == i.dstChain
    ensures ClaimRefusal(c, j, w).Some? ==> SkippedFor(c, l, i, j, w, ClaimRefusal(c, j, w).value)
  {
    ChecksRead(c, j, w);
  }

  lemma DebridgeReason(c: Config, l: Ledger, i: Intent, j: Intent, w: World)
    requires i.dstChain in c.chains
    ensures DebridgeRefusal(c, i, w).Some? ==> SkippedFor(c, l, i, j, w, DebridgeRefusal(c, i, w).value)
  {
    DebridgeSpreadExact(i.giveAmount, i.takeAmount);
    ChecksRead(c, i, w);
  }

  // ---- stage by stage ----

  lemma TransmitEnd(c: Config, l: Ledger, i: Intent, j: Intent, lane: Lane, w: World)
    requires i.dstChain in c.chains && j.dstChain == i.dstChain
    ensures EndedFor(c, l, i, j, w, Transmit(c, lane, j, w).outcome)
  {
  }

  lemma LaunchEnd(c: Config, l: Ledger, i: Intent, j: Intent, lane: Lane, w: World)
    requires i.dstChain in c.chains && j.dstChain == i.dstChain && !SolanaTakes(j)
    ensures EndedFor(c, l, i, j, w, Launch(c, lane, j, w).outcome)
  {
    TransmitEnd(c, l, i, j, lane, w);
    assert !NativeShort(w) <==> ValueCovered(w);
  }

  lemma EvmEnd(c: Config, l: Ledger, i: Intent, j: Intent, w: World)
    requires i.dstChain in c.chains && j.dstChain == i.dstChain && !SolanaTakes(j)
    ensures EndedFor(c, l, i, j, w, PrepareEvm(c, j, w).outcome)
  {
    AcrossReason(c, l, i, j, w);
    LaunchEnd(c, l, i, j, EvmLane(c, j), w);
  }

  lemma SolanaEnd(c: Config, l: Ledger, i: Intent, j: Intent, w: World)
    requires i.dstChain in c.chains && j.dstChain == i.dstChain && SolanaTakes(j)
    ensures EndedFor(c, l, i, j, w, SolanaLane(c, SolanaLaneOf(j), j, w).outcome)
  {
    var lane := SolanaLaneOf(j);
    var o := SolanaLane(c, lane, j, w).outcome;
    match o
    case Skipped(reason) => assert reason == AuctionMode ==> lane == MayanSolana;
    case _ =>
  }

  lemma CompleteEnd(c: Config, l: Ledger, i: Intent, j: Intent, w: World)
    requires i.dstChain in c.chains && j == Completed(c, i, w).GetOr(i)
    ensures EndedFor(c, l, i, j, w, Complete(c, i, w).outcome)
  {
    if Completed(c, i, w).Some? {
      ClaimReason(c, l, i, j, w);
      if SolanaTakes(j) {
        SolanaEnd(c, l, i, j, w);
      } else {
        EvmEnd(c, l, i, j, w);
      }
    }
  }

  lemma ScreenEnd(c: Config, l: Ledger, i: Intent, j: Intent, w: World)
    requires i.dstChain in c.chains && j == Completed(c, i, w).GetOr(i)
    ensures EndedFor(c, l, i, j, w, Screen(c, i, w).outcome)
  {
    DebridgeReason(c, l, i, j, w);
    CompleteEnd(c, l, i, j, w);
    ProofRead(i, w);
  }

  /** Every verdict a run returns is true: a skip's reason holds of the intent it worked on, a failed stage did fail, and
      a fill's hash and gas are the receipt's, or the Solana signature and its units. */
  lemma VerdictIsTrue(c: Config, l: Ledger, i: Intent, w: World)
    requires i.dstChain in c.chains
    ensures EndedFor(c, l, i, Completed(c, i, w).GetOr(i), w, Execute(c, l, i, w).outcome)
  {
    ScreenEnd(c, l, i, Completed(c, i, w).GetOr(i), w);
  }
}
