/** One fill run as a script: what the controller does, step by step, given its configuration, the wallet
    ledger, the intent and every answer the outside world gives. */
module Lifecycle {
  import opened Common
  import opened Guards
  import opened Builders
  import opened Wallet

  // ---- configuration and the outside world ----

  datatype Wiring = Wiring(chainId: nat, operator: nat, adapter: nat, rpcUrl: string, rpcParses: bool)

  datatype Config = Config(chains: map<nat, Wiring>, dryRun: bool, threshold: real, signer: string)

  datatype TestRun = TestRun(profitable: bool, netProfitUsd: real)

  /** Deposit fields read back from the origin chain. */
  datatype Relay = Relay(outputAmount: Option<string>,
                         fillDeadline: Option<nat>,
                         exclusivityDeadline: Option<nat>,
                         exclusiveRelayer: Option<string>,
                         outputToken: Option<string>,
                         recipient: Option<string>,
                         depositor: Option<string>,
                         depositId: Option<int>,
                         message: Option<string>)

  datatype Estimate = Gas | FundsLow(mentionsRevert: bool) | Rejected | AbiInvalid | NotRouted {
    predicate IsGreen() { Gas? || FundsLow? }
  }

  datatype Receipt = Receipt(success: bool, gasUsed: nat)

  /** Every answer one run may receive; lemmas quantify over all of them. Answers that cannot be obtained
      (an unreachable node, an unparsable token address) are None. */
  datatype World = World(usd: real,
                         maxNotionalUsd: real,
                         recordOk: bool,
                         testRun: Option<TestRun>,
                         debridgeBalance: Option<nat>,
                         proofs: map<string, seq<byte>>,
                         relayFromTx: Option<Relay>,
                         relayFromDeposit: map<int, Relay>,
                         clockExclusive: nat,
                         clockMayan: nat,
                         clockFill: nat,
                         programReady: bool,
                         vaultDerives: bool,
                         floatAmount: bool,
                         solanaKeyOk: bool,
                         solanaUnits: nat,
                         signature: Option<string>,
                         tokenBalance: Option<nat>,
                         nativeValue: Option<nat>,
                         nativeBalance: Option<nat>,
                         calldataOk: bool,
                         skipEstimate: bool,
                         estimate: Estimate,
                         sentHash: Option<string>,
                         receipt: Option<Receipt>)

  // ---- outcomes and events ----

  datatype Reason =
    | NotionalCap | NoWiring | ReserveFailed | NoSpokePool | Unprofitable | BelowThreshold
    | ExclusiveTaker | ExternalCall | DebridgeSpread | DebridgeBalance
    | EnrichmentFailed | ExclusiveWindow | IncompleteClaimInfo | MayanExpired
    | ProgramNotReady | DryRun | NoSolanaKey | AuctionMode
    | AcrossSpread | MessageHook | SolanaDepositor | NoDepositId | FillDeadline | TokenBalance
    | EstimateGate | NativeBalance

  datatype Stage = SpinnerTestRun | ProofFetching | CalldataBuilding | Submitting | AwaitingReceipt

  datatype Fault = RecordDetected | RpcUrl

  datatype Outcome =
    | Filled(txHash: string, gasUsed: nat)
    | FillReverted(txHash: string)
    | Skipped(reason: Reason)
    | Failed(stage: Stage)
    | Error(fault: Fault)

  datatype Lane = MayanFlash | MayanSolana | DlnSolana | WormholeNtt | MayanSwift | DlnFulfill | SpokePool | Operator

  datatype Decision = SkipNotionalCap | SkipUnprofitableRow | DryRunRow | ExecutedFailed | Executed

  datatype Event =
    | Detect(chain: nat, usd: real)
    | Hold(usd: real)
    | Move(to: State, tx: Option<string>)
    | Unhold
    | Send(lane: Lane, intent: Intent, target: Option<nat>)
    | Row(decision: Decision, rowTx: Option<string>)

  datatype Run = Run(trace: seq<Event>, outcome: Outcome)

  function Then(e: Event, r: Run): Run { Run([e] + r.trace, r.outcome) }

  function Abandon(end: State, o: Outcome): Run { Run([Move(end, None), Unhold], o) }

  function Skip(reason: Reason): Run { Abandon(SkipUnprofitable, Skipped(reason)) }

  // ---- the stages, last first ----

  predicate Direct(c: Config, i: Intent)
    requires i.dstChain in c.chains
  {
    c.chains[i.dstChain].operator == 0
  }

  function AwaitReceipt(hash: string, w: World): Run {
    match w.receipt
    case None => Run([Move(State.Reverted, Some(hash)), Unhold], Failed(AwaitingReceipt))
    case Some(r) =>
      if r.success then
        Run([Move(State.Confirmed, Some(hash)), Unhold, Row(Executed, Some(hash))], Filled(hash, r.gasUsed))
      else
        Run([Move(State.Reverted, Some(hash)), Unhold, Row(ExecutedFailed, Some(hash))], FillReverted(hash))
  }

  // Contract addresses of the lanes that do not come from the wiring are not modelled.
  function Target(c: Config, lane: Lane, i: Intent): Option<nat>
    requires i.dstChain in c.chains
  {
    match lane
    case SpokePool => Some(c.chains[i.dstChain].adapter)
    case Operator => Some(c.chains[i.dstChain].operator)
    case _ => None
  }

  function Transmit(c: Config, lane: Lane, i: Intent, w: World): Run
    requires i.dstChain in c.chains
  {
    if !c.chains[i.dstChain].rpcParses then Run([], Error(RpcUrl))
    else
      Then(Send(lane, i, Target(c, lane, i)),
           match w.sentHash
           case None => Abandon(State.Reverted, Failed(Submitting))
           case Some(h) => Then(Move(State.PendingConfirmation, Some(h)), AwaitReceipt(h, w)))
  }

  // A deBridge node may answer "insufficient ... execution reverted": that is a revert.
  function GateAnswer(i: Intent, w: World): Estimate {
    if w.skipEstimate && !i.IsDebridge() && !i.IsMayan() then Gas
    else if i.IsDebridge() && w.estimate.FundsLow? && w.estimate.mentionsRevert then Rejected
    else w.estimate
  }

  predicate NativeShort(w: World) {
    w.nativeValue.Some? && w.nativeBalance.Some? && w.nativeBalance.value < w.nativeValue.value
  }

  function Launch(c: Config, lane: Lane, i: Intent, w: World): Run
    requires i.dstChain in c.chains
  {
    if c.dryRun then Run([Move(SkipUnprofitable, None), Row(DryRunRow, None), Unhold], Skipped(DryRun))
    else if !GateAnswer(i, w).IsGreen() then Skip(EstimateGate)
    else if NativeShort(w) then Skip(NativeBalance)
    else Then(Move(State.Broadcast, None), Transmit(c, lane, i, w))
  }

  const DLN_DESTINATIONS: set<nat> := {1, 10, 56, 137, 42161, 8453, 43114, 59144, 534352, 57073, 34443, 100}

  function EvmLane(c: Config, i: Intent): Lane
    requires i.dstChain in c.chains
  {
    if i.IsMayan() then MayanSwift
    else if i.IsDebridge() then DlnFulfill
    else if Direct(c, i) then SpokePool
    else Operator
  }

  // The SpokePool and operator builders need the relay's addresses and a deposit id, which the SpokePool takes
  // unsigned only; `calldataOk` covers what is not modelled, such as amounts of more than 128 bits.
  predicate CalldataBuilds(lane: Lane, i: Intent, w: World) {
    w.calldataOk
    && (lane == DlnFulfill ==> i.dstChain in DLN_DESTINATIONS)
    && (lane == Operator ==> RelayAddresses(i) && ResolveDepositId(i).Some?)
    && (lane == SpokePool ==> RelayAddresses(i) && ResolveDepositId(i).Some? && ResolveDepositId(i).value >= 0)
  }

  function BuildEvm(c: Config, i: Intent, w: World): Run
    requires i.dstChain in c.chains
  {
    var lane := EvmLane(c, i);
    if !CalldataBuilds(lane, i, w) then Abandon(CalldataError, Failed(CalldataBuilding))
    else Launch(c, lane, i, w)
  }

  predicate BalanceShort(required: Option<string>, balance: Option<nat>) {
    ParseAmount(required).Some? && balance.Some? && balance.value < ParseAmount(required).value
  }

  predicate FromSolanaWallet(i: Intent) {
    !StartsWith(i.depositor, "0x") && !StartsWith(i.depositor, "0X") && |i.depositor| > 10
  }

  // The Across checks between calldata-build and broadcast, in the order they are made.
  function AcrossRefusal(c: Config, i: Intent, w: World): Option<Reason>
    requires i.dstChain in c.chains
  {
    var direct := Direct(c, i);
    if i.IsDebridge() || i.IsMayan() then None
    else if direct && AcrossSpreadSkip(i.amount, i.outputAmount).Some? then Some(AcrossSpread)
    else if (direct || i.IsAcross()) && MessageHookSkip(i.message) then Some(MessageHook)
    else if i.IsAcross() && FromSolanaWallet(i) then Some(SolanaDepositor)
    else if i.IsAcross() && !HasDepositId(i) then Some(NoDepositId)
    else if (direct || i.IsAcross()) && DeadlineSkip(i.fillDeadline, w.clockFill) then Some(FillDeadline)
    else if direct && i.PaysErc20() && BalanceShort(i.outputAmount, w.tokenBalance) then Some(TokenBalance)
    else None
  }

  function PrepareEvm(c: Config, i: Intent, w: World): Run
    requires i.dstChain in c.chains
  {
    if i.IsMayan() && i.mayanAuctionMode.GetOr(2) != 0 then Skip(AuctionMode)
    else
      match AcrossRefusal(c, i, w)
      case Some(reason) => Skip(reason)
      case None => BuildEvm(c, i, w)
  }

  function SolanaAnswer(w: World): Run {
    match w.signature
    case Some(sig) =>
      Run([Move(State.Confirmed, Some(sig)), Row(Executed, Some(sig)), Unhold], Filled(sig, w.solanaUnits))
    case None => Abandon(State.Reverted, Failed(Submitting))
  }

  function SolanaBroadcast(lane: Lane, i: Intent, w: World): Run {
    Then(Move(State.Broadcast, None), Then(Send(lane, i, None), SolanaAnswer(w)))
  }

  // Whether an intent projects onto what its Solana lane needs.
  predicate Projects(lane: Lane, i: Intent, w: World) {
    match lane
    case MayanFlash | MayanSolana => MayanProjects(i, w.vaultDerives, w.floatAmount)
    case DlnSolana => DlnProjects(i)
    case _ => NttProjects(i)
  }

  // The four Solana lanes make the same checks in different orders.
  function SolanaLane(c: Config, lane: Lane, i: Intent, w: World): Run {
    if (lane == MayanFlash || lane == DlnSolana) && !w.programReady then Skip(ProgramNotReady)
    else if lane == MayanSolana && i.mayanAuctionMode.GetOr(2) != 0 then Skip(AuctionMode)
    else if lane == MayanSolana && !Projects(lane, i, w) then Abandon(CalldataError, Failed(CalldataBuilding))
    else if c.dryRun then Skip(DryRun)
    else if !Projects(lane, i, w) then Abandon(CalldataError, Failed(CalldataBuilding))
    else if !w.solanaKeyOk then Skip(NoSolanaKey)
    else SolanaBroadcast(lane, i, w)
  }

  function Dispatch(c: Config, i: Intent, w: World): Run
    requires i.dstChain in c.chains
  {
    if i.IsFlash() && i.FromSolana() then SolanaLane(c, MayanFlash, i, w)
    else if i.IsMayan() && i.FromSolana() then SolanaLane(c, MayanSolana, i, w)
    else if i.IsDebridge() && i.ToSolana() then SolanaLane(c, DlnSolana, i, w)
    else if i.IsWormhole() && !i.FromSolana() then SolanaLane(c, WormholeNtt, i, w)
    else PrepareEvm(c, i, w)
  }

  predicate ExclusiveToOther(c: Config, i: Intent, now: nat) {
    var relayer := i.exclusiveRelayer.GetOr("");
    i.exclusivityDeadline.GetOr(0) > Clock32(now)
    && Lower(relayer) != c.signer && relayer != ZERO_ADDRESS && relayer != "" && relayer != "0x"
  }

  predicate LacksAcrossClaimInfo(i: Intent) {
    || i.outputAmount.GetOr("") == "" || i.outputAmount.GetOr("") == "0"
    || i.fillDeadline.None?
    || i.LacksRecipient()
  }

  predicate LacksMayanClaimInfo(i: Intent) {
    i.LacksRecipient() || |i.mayanOrderId.GetOr("")| < 66
  }

  predicate MayanExpired(i: Intent, now: nat) {
    i.deadline.Some? && i.deadline.value < SaturatingMargin(now, U64_LIMIT)
  }

  function ClaimRefusal(c: Config, i: Intent, w: World): Option<Reason>
    requires i.dstChain in c.chains
  {
    if Direct(c, i) && ExclusiveToOther(c, i, w.clockExclusive) then Some(ExclusiveWindow)
    else if i.IsAcross() && Direct(c, i) && LacksAcrossClaimInfo(i) then Some(IncompleteClaimInfo)
    else if i.IsMayan() && LacksMayanClaimInfo(i) then Some(IncompleteClaimInfo)
    else if i.IsMayan() && MayanExpired(i, w.clockMayan) then Some(Reason.MayanExpired)
    else None
  }

  function Assemble(c: Config, i: Intent, w: World): Run
    requires i.dstChain in c.chains
  {
    match ClaimRefusal(c, i, w)
    case Some(reason) => Skip(reason)
    case None => Then(Move(CalldataBuild, None), Dispatch(c, i, w))
  }

  predicate NeedsRelay(c: Config, i: Intent)
    requires i.dstChain in c.chains
  {
    && Direct(c, i) && !i.IsDebridge() && !i.IsMayan()
    && (i.fillDeadline.None? || i.outputAmount.None? || i.depositId.None?)
    && i.srcChain in c.chains && c.chains[i.srcChain].rpcUrl != ""
  }

  predicate RealTxHash(hash: string) {
    StartsWith(hash, "0x") && |hash| == 66
  }

  function FindRelay(i: Intent, w: World): Option<Relay> {
    if RealTxHash(i.txHash) && w.relayFromTx.Some? then w.relayFromTx
    else
      match i.depositId.OrElse(CoarseId(i.id))
      case Some(d) => if d in w.relayFromDeposit then Some(w.relayFromDeposit[d]) else None
      case None => None
  }

  function Refill(text: string, found: Option<string>): string {
    if text == "" || text == ZERO_ADDRESS then found.GetOr(text) else text
  }

  function Enriched(i: Intent, r: Relay): Intent {
    i.(outputAmount := i.outputAmount.OrElse(r.outputAmount),
       fillDeadline := i.fillDeadline.OrElse(r.fillDeadline),
       exclusivityDeadline := i.exclusivityDeadline.OrElse(r.exclusivityDeadline),
       exclusiveRelayer := if i.exclusiveRelayer.GetOr("0x") == "0x" then r.exclusiveRelayer else i.exclusiveRelayer,
       dstToken := Refill(i.dstToken, r.outputToken),
       recipient := Refill(i.recipient, r.recipient),
       depositor := Refill(i.depositor, r.depositor),
       depositId := i.depositId.OrElse(r.depositId),
       message := i.message.OrElse(r.message))
  }

  // The intent the later stages work on, or None when the lookup was needed and failed.
  function Completed(c: Config, i: Intent, w: World): (r: Option<Intent>)
    requires i.dstChain in c.chains
    ensures r.Some? ==> r.value.dstChain == i.dstChain && r.value.id == i.id && r.value.protocol == i.protocol
  {
    if !NeedsRelay(c, i) then Some(i)
    else
      match FindRelay(i, w)
      case Some(r) => Some(Enriched(i, r))
      case None => None
  }

  function Complete(c: Config, i: Intent, w: World): Run
    requires i.dstChain in c.chains
  {
    match Completed(c, i, w)
    case Some(j) => Assemble(c, j, w)
    case None => Skip(EnrichmentFailed)
  }

  predicate BypassesSpinner(c: Config, i: Intent)
    requires i.dstChain in c.chains
  {
    Direct(c, i) || i.IsDebridge() || i.IsMayan()
  }

  function ProofKeys(i: Intent): seq<string> {
    (if i.depositId.Some? then [DecimalText(i.depositId.value)] else [])
    + (if i.txHash != "" && i.txHash != "0x" then [i.txHash] else [])
    + [i.id]
  }

  predicate ProofFound(i: Intent, w: World) {
    exists k :: k in ProofKeys(i) && k in w.proofs
  }

  function Prove(c: Config, i: Intent, w: World): Run
    requires i.dstChain in c.chains
  {
    if BypassesSpinner(c, i) then Complete(c, i, w)
    else
      Then(Move(ProofFetch, None),
           if ProofFound(i, w) || c.dryRun then Complete(c, i, w)
           else Abandon(ProofMissing, Failed(ProofFetching)))
  }

  function DebridgeRefusal(c: Config, i: Intent, w: World): Option<Reason> {
    if !i.IsDebridge() then None
    else if ReservedForOther(i.allowedTaker, TrimPrefix(c.signer, "0x")) then Some(ExclusiveTaker)
    else if CarriesCall(i.externalCall) then Some(ExternalCall)
    else if DebridgeSpreadSkip(i.giveAmount, i.takeAmount) then Some(DebridgeSpread)
    else if i.PaysErc20() && BalanceShort(i.takeAmount, w.debridgeBalance) then Some(DebridgeBalance)
    else None
  }

  function Screen(c: Config, i: Intent, w: World): Run
    requires i.dstChain in c.chains
  {
    match DebridgeRefusal(c, i, w)
    case Some(reason) => Skip(reason)
    case None => Prove(c, i, w)
  }

  function ProfitGate(c: Config, i: Intent, w: World): Run
    requires i.dstChain in c.chains
  {
    if BypassesSpinner(c, i) then Screen(c, i, w)
    else
      match w.testRun
      case None => if c.dryRun then Screen(c, i, w) else Abandon(SkipUnprofitable, Failed(SpinnerTestRun))
      case Some(t) =>
        if t.profitable && t.netProfitUsd >= c.threshold then Screen(c, i, w)
        else
          Run([Move(SkipUnprofitable, None), Unhold, Row(SkipUnprofitableRow, None)],
              Skipped(if t.profitable then BelowThreshold else Unprofitable))
  }

  function Check(c: Config, i: Intent, w: World): Run
    requires i.dstChain in c.chains
  {
    if i.IsAcross() && c.chains[i.dstChain].adapter == 0 then Skip(NoSpokePool)
    else Then(Move(ProfitabilityCheck, None), ProfitGate(c, i, w))
  }

  ghost function Admit(c: Config, l: Ledger, i: Intent, w: World): Run
    requires i.dstChain in c.chains
  {
    if c.dryRun then Check(c, i, w)
    else if l.CanReserve(i.id, w.usd) then Then(Hold(w.usd), Check(c, i, w))
    else Run([Move(SkipUnprofitable, None)], Skipped(ReserveFailed))
  }

  /** The whole run. */
  ghost function Execute(c: Config, l: Ledger, i: Intent, w: World): Run {
    if w.usd > w.maxNotionalUsd then Run([Row(SkipNotionalCap, None)], Skipped(NotionalCap))
    else if i.dstChain !in c.chains then Run([], Skipped(NoWiring))
    else if !w.recordOk then Run([], Error(RecordDetected))
    else Then(Detect(i.dstChain, w.usd), Admit(c, l, i, w))
  }

  // ---- what a trace does to the ledger ----

  ghost function Effect(l: Ledger, id: string, e: Event): Ledger {
    match e
    case Detect(chain, usd) => l.Detect(id, chain, usd)
    case Hold(usd) => l.Reserve(id, usd)
    case Move(s, tx) => l.Move(id, s, tx)
    case Unhold => l.Release(id)
    case _ => l
  }

  ghost function Play(l: Ledger, id: string, trace: seq<Event>): Ledger
    decreases |trace|
  {
    if trace == [] then l else Play(Effect(l, id, trace[0]), id, trace[1..])
  }

  ghost function After(c: Config, l: Ledger, i: Intent, w: World): Ledger {
    Play(l, i.id, Execute(c, l, i, w).trace)
  }
}
