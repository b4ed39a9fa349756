/** What every fill run keeps: the order of its steps, the budget, the recorded state, the outcome rows. */
module LifecycleProofs {
  import opened Common
  import opened Guards
  import opened Builders
  import Hex
  import opened Wallet
  import opened Lifecycle

  // ---- the legal order of steps, as an automaton independent of the script ----

  datatype Phase =
    | Start
    | Tracked
    | Held
    | Checking
    | Proving
    | Building
    | Broadcasting
    | Sent(lane: Lane)
    | Pending(sent: string)
    | Ended(last: State, hash: Option<string>, freed: bool, row: Option<Decision>)
    | Capped
    | Stuck

  predicate OnSolana(lane: Lane) {
    lane.MayanFlash? || lane.MayanSolana? || lane.DlnSolana? || lane.WormholeNtt?
  }

  // Each end state has its own rows, and "executed" belongs to Confirmed alone.
  predicate RowFits(d: Decision, s: State) {
    match s
    case Confirmed => d == Executed
    case Reverted => d == ExecutedFailed
    case SkipUnprofitable => d == SkipUnprofitableRow || d == DryRunRow
    case _ => false
  }

  // Which moves end a run, and from where.
  predicate CanEnd(p: Phase, to: State, tx: Option<string>) {
    match to
    case SkipUnprofitable => tx.None? && (p.Tracked? || p.Held? || p.Checking? || p.Proving? || p.Building?)
    case ProofMissing => tx.None? && p.Proving?
    case CalldataError => tx.None? && p.Building?
    case Confirmed => tx.Some? && ((p.Sent? && OnSolana(p.lane)) || (p.Pending? && p.sent == tx.value))
    case Reverted => (p.Sent? && tx.None?) || (p.Pending? && tx == Some(p.sent))
    case _ => false
  }

  function NextMove(p: Phase, to: State, tx: Option<string>): Phase {
    match to
    case ProfitabilityCheck => if tx.None? && (p.Tracked? || p.Held?) then Checking else Stuck
    case ProofFetch => if tx.None? && p.Checking? then Proving else Stuck
    case CalldataBuild => if tx.None? && (p.Checking? || p.Proving?) then Building else Stuck
    case Broadcast => if tx.None? && p.Building? then Broadcasting else Stuck
    case PendingConfirmation => if tx.Some? && p.Sent? && !OnSolana(p.lane) then Pending(tx.value) else Stuck
    case _ => if CanEnd(p, to, tx) then Ended(to, tx, false, None) else Stuck
  }

  function NextRow(p: Phase, d: Decision, tx: Option<string>): Phase {
    if p.Start? && d == SkipNotionalCap && tx.None? then Capped
    else if p.Ended? && p.row.None? && tx == p.hash && RowFits(d, p.last) then p.(row := Some(d))
    else Stuck
  }

  function Next(p: Phase, e: Event): Phase {
    match e
    case Detect(_, _) => if p.Start? then Tracked else Stuck
    case Hold(_) => if p.Tracked? then Held else Stuck
    case Move(to, tx) => NextMove(p, to, tx)
    case Unhold => if p.Ended? then p.(freed := true) else Stuck
    case Send(lane, _, _) => if p.Broadcasting? then Sent(lane) else Stuck
    case Row(d, tx) => NextRow(p, d, tx)
  }

  function Walk(p: Phase, trace: seq<Event>): Phase
    decreases |trace|
  {
    if trace == [] then p else Walk(Next(p, trace[0]), trace[1..])
  }

  /** Where a run with a given outcome must have ended, and with which outcome row. A receipt that never came
      leaves its hash open; a dry run is logged on the EVM lanes only. */
  predicate EndsAs(p: Phase, o: Outcome) {
    match o
    case Filled(h, _) => p == Ended(State.Confirmed, Some(h), true, Some(Executed))
    case FillReverted(h) => p == Ended(State.Reverted, Some(h), true, Some(ExecutedFailed))
    case Skipped(NotionalCap) => p == Capped
    case Skipped(NoWiring) => p == Start
    case Skipped(ReserveFailed) => p == Ended(SkipUnprofitable, None, false, None)
    case Skipped(DryRun) =>
      p == Ended(SkipUnprofitable, None, true, None) || p == Ended(SkipUnprofitable, None, true, Some(DryRunRow))
    case Skipped(reason) =>
      p == Ended(SkipUnprofitable, None, true,
                 if reason.Unprofitable? || reason.BelowThreshold? then Some(SkipUnprofitableRow) else None)
    case Failed(SpinnerTestRun) => p == Ended(SkipUnprofitable, None, true, None)
    case Failed(ProofFetching) => p == Ended(ProofMissing, None, true, None)
    case Failed(CalldataBuilding) => p == Ended(CalldataError, None, true, None)
    case Failed(Submitting) => p == Ended(State.Reverted, None, true, None)
    case Failed(AwaitingReceipt) =>
      p.Ended? && p.hash.Some? && p == Ended(State.Reverted, p.hash, true, None)
    case Error(RecordDetected) => p == Start
    case Error(RpcUrl) => p == Phase.Broadcasting
  }

  predicate Legal(p: Phase, r: Run) { EndsAs(Walk(p, r.trace), r.outcome) }

  lemma WalkThen(p: Phase, e: Event, r: Run)
    ensures Legal(p, Then(e, r)) <==> Legal(Next(p, e), r)
  {
    assert ([e] + r.trace)[1..] == r.trace;
  }

  lemma WalkShort(p: Phase, a: Event, b: Event, d: Event)
    ensures Walk(p, [a]) == Next(p, a)
    ensures Walk(p, [a, b]) == Next(Next(p, a), b)
    ensures Walk(p, [a, b, d]) == Next(Next(Next(p, a), b), d)
  {
    assert [a][1..] == [] && [a, b][1..] == [b] && [a, b, d][1..] == [b, d] && [b, d][1..] == [d];
    assert Walk(Next(p, a), [b]) == Next(Next(p, a), b);
    assert Walk(Next(Next(p, a), b), [d]) == Next(Next(Next(p, a), b), d);
  }

  predicate InFlow(reason: Reason) {
    !reason.NotionalCap? && !reason.NoWiring? && !reason.ReserveFailed?
  }

  predicate Unlogged(reason: Reason) {
    InFlow(reason) && !reason.Unprofitable? && !reason.BelowThreshold?
  }

  lemma SkipLegal(p: Phase, reason: Reason)
    requires p.Tracked? || p.Held? || p.Checking? || p.Proving? || p.Building?
    requires Unlogged(reason)
    ensures Legal(p, Skip(reason))
  {
    WalkShort(p, Move(SkipUnprofitable, None), Unhold, Unhold);
  }

  lemma AwaitLegal(hash: string, w: World)
    ensures Legal(Pending(hash), AwaitReceipt(hash, w))
  {
    var t := AwaitReceipt(hash, w).trace;
    WalkShort(Pending(hash), t[0], t[1], if |t| == 3 then t[2] else t[1]);
  }

  lemma AbandonLegal(p: Phase, end: State, o: Outcome)
    requires Next(p, Move(end, None)).Ended?
    requires var q := Next(p, Move(end, None)); EndsAs(Ended(q.last, q.hash, true, None), o)
    ensures Legal(p, Abandon(end, o))
  {
    WalkShort(p, Move(end, None), Unhold, Unhold);
  }

  lemma TransmitLegal(c: Config, lane: Lane, i: Intent, w: World)
    requires i.dstChain in c.chains && !OnSolana(lane)
    ensures Legal(Phase.Broadcasting, Transmit(c, lane, i, w))
  {
    if c.chains[i.dstChain].rpcParses {
      var send := Send(lane, i, Target(c, lane, i));
      match w.sentHash {
        case None =>
          AbandonLegal(Sent(lane), State.Reverted, Failed(Submitting));
          WalkThen(Phase.Broadcasting, send, Abandon(State.Reverted, Failed(Submitting)));
        case Some(h) =>
          AwaitLegal(h, w);
          WalkThen(Sent(lane), Move(PendingConfirmation, Some(h)), AwaitReceipt(h, w));
          WalkThen(Phase.Broadcasting, send, Then(Move(PendingConfirmation, Some(h)), AwaitReceipt(h, w)));
      }
    }
  }

  lemma LaunchLegal(c: Config, lane: Lane, i: Intent, w: World)
    requires i.dstChain in c.chains && !OnSolana(lane)
    ensures Legal(Building, Launch(c, lane, i, w))
  {
    if c.dryRun {
      WalkShort(Building, Move(SkipUnprofitable, None), Row(DryRunRow, None), Unhold);
    } else if !GateAnswer(i, w).IsGreen() {
      SkipLegal(Building, EstimateGate);
    } else if NativeShort(w) {
      SkipLegal(Building, NativeBalance);
    } else {
      TransmitLegal(c, lane, i, w);
      WalkThen(Building, Move(Broadcast, None), Transmit(c, lane, i, w));
    }
  }

  lemma PrepareLegal(c: Config, i: Intent, w: World)
    requires i.dstChain in c.chains
    ensures Legal(Building, PrepareEvm(c, i, w))
  {
    if i.IsMayan() && i.mayanAuctionMode.GetOr(2) != 0 {
      SkipLegal(Building, AuctionMode);
    } else if AcrossRefusal(c, i, w).Some? {
      SkipLegal(Building, AcrossRefusal(c, i, w).value);
    } else if CalldataBuilds(EvmLane(c, i), i, w) {
      LaunchLegal(c, EvmLane(c, i), i, w);
    } else {
      AbandonLegal(Building, CalldataError, Failed(CalldataBuilding));
    }
  }

  lemma SolanaAnswerLegal(lane: Lane, w: World)
    requires OnSolana(lane)
    ensures Legal(Sent(lane), SolanaAnswer(w))
  {
    match w.signature {
      case Some(sig) =>
        WalkShort(Sent(lane), Move(State.Confirmed, Some(sig)), Row(Executed, Some(sig)), Unhold);
      case None =>
        AbandonLegal(Sent(lane), State.Reverted, Failed(Submitting));
    }
  }

  lemma SolanaBroadcastLegal(lane: Lane, i: Intent, w: World)
    requires OnSolana(lane)
    ensures Legal(Building, SolanaBroadcast(lane, i, w))
  {
    var send := Send(lane, i, None);
    SolanaAnswerLegal(lane, w);
    WalkThen(Phase.Broadcasting, send, SolanaAnswer(w));
    WalkThen(Building, Move(Broadcast, None), Then(send, SolanaAnswer(w)));
  }

  lemma SolanaLegal(c: Config, lane: Lane, i: Intent, w: World)
    requires OnSolana(lane)
    ensures Legal(Building, SolanaLane(c, lane, i, w))
  {
    var r := SolanaLane(c, lane, i, w);
    if r == SolanaBroadcast(lane, i, w) {
      SolanaBroadcastLegal(lane, i, w);
    } else if r.outcome.Failed? {
      AbandonLegal(Building, CalldataError, Failed(CalldataBuilding));
    } else {
      SkipLegal(Building, r.outcome.reason);
    }
  }

  lemma DispatchLegal(c: Config, i: Intent, w: World)
    requires i.dstChain in c.chains
    ensures Legal(Building, Dispatch(c, i, w))
  {
    if i.IsFlash() && i.FromSolana() {
      SolanaLegal(c, MayanFlash, i, w);
    } else if i.IsMayan() && i.FromSolana() {
      SolanaLegal(c, MayanSolana, i, w);
    } else if i.IsDebridge() && i.ToSolana() {
      SolanaLegal(c, DlnSolana, i, w);
    } else if i.IsWormhole() && !i.FromSolana() {
      SolanaLegal(c, WormholeNtt, i, w);
    } else {
      PrepareLegal(c, i, w);
    }
  }

  lemma AssembleLegal(c: Config, i: Intent, w: World, p: Phase)
    requires i.dstChain in c.chains
    requires p.Checking? || p.Proving?
    ensures Legal(p, Assemble(c, i, w))
  {
    match ClaimRefusal(c, i, w) {
      case Some(reason) => SkipLegal(p, reason);
      case None =>
        DispatchLegal(c, i, w);
        WalkThen(p, Move(CalldataBuild, None), Dispatch(c, i, w));
    }
  }

  lemma CompleteLegal(c: Config, i: Intent, w: World, p: Phase)
    requires i.dstChain in c.chains
    requires p.Checking? || p.Proving?
    ensures Legal(p, Complete(c, i, w))
  {
    match Completed(c, i, w) {
      case Some(j) => AssembleLegal(c, j, w, p);
      case None => SkipLegal(p, EnrichmentFailed);
    }
  }

  lemma ScreenLegal(c: Config, i: Intent, w: World)
    requires i.dstChain in c.chains
    ensures Legal(Checking, Screen(c, i, w))
  {
    match DebridgeRefusal(c, i, w) {
      case Some(reason) => SkipLegal(Checking, reason);
      case None => ProveLegal(c, i, w);
    }
  }

  lemma ProveLegal(c: Config, i: Intent, w: World)
    requires i.dstChain in c.chains
    ensures Legal(Checking, Prove(c, i, w))
  {
    if BypassesSpinner(c, i) {
      CompleteLegal(c, i, w, Checking);
    } else {
      CompleteLegal(c, i, w, Proving);
      AbandonLegal(Proving, ProofMissing, Failed(ProofFetching));
      WalkThen(Checking, Move(ProofFetch, None), Complete(c, i, w));
      WalkThen(Checking, Move(ProofFetch, None), Abandon(ProofMissing, Failed(ProofFetching)));
    }
  }

  lemma ProfitGateLegal(c: Config, i: Intent, w: World)
    requires i.dstChain in c.chains
    ensures Legal(Checking, ProfitGate(c, i, w))
  {
    var r := ProfitGate(c, i, w);
    if r == Screen(c, i, w) {
      ScreenLegal(c, i, w);
    } else if r.outcome.Failed? {
      AbandonLegal(Checking, SkipUnprofitable, Failed(SpinnerTestRun));
    } else {
      WalkShort(Checking, Move(SkipUnprofitable, None), Unhold, Row(SkipUnprofitableRow, None));
    }
  }

  lemma CheckLegal(c: Config, i: Intent, w: World, p: Phase)
    requires i.dstChain in c.chains
    requires p.Tracked? || p.Held?
    ensures Legal(p, Check(c, i, w))
  {
    if i.IsAcross() && c.chains[i.dstChain].adapter == 0 {
      SkipLegal(p, NoSpokePool);
    } else {
      ProfitGateLegal(c, i, w);
      WalkThen(p, Move(ProfitabilityCheck, None), ProfitGate(c, i, w));
    }
  }

  /** Every run walks the lifecycle in order, stops where its outcome says, and does nothing illegal after. */
  lemma LegalLifecycle(c: Config, l: Ledger, i: Intent, w: World)
    ensures Legal(Start, Execute(c, l, i, w))
  {
    if w.usd > w.maxNotionalUsd {
      WalkShort(Start, Row(SkipNotionalCap, None), Unhold, Unhold);
    } else if i.dstChain in c.chains && w.recordOk {
      CheckLegal(c, i, w, Tracked);
      CheckLegal(c, i, w, Held);
      WalkThen(Tracked, Hold(w.usd), Check(c, i, w));
      WalkShort(Tracked, Move(SkipUnprofitable, None), Unhold, Unhold);
      WalkThen(Start, Detect(i.dstChain, w.usd), Admit(c, l, i, w));
    }
  }

  // ---- what a legal run leaves in the wallet ----

  function StateAt(p: Phase, before: State): State {
    match p
    case Checking => ProfitabilityCheck
    case Proving => ProofFetch
    case Building => CalldataBuild
    case Broadcasting => State.Broadcast
    case Sent(_) => State.Broadcast
    case Pending(_) => PendingConfirmation
    case Ended(last, _, _, _) => last
    case _ => before
  }

  // `l` is what the ledger `base` (intent recorded, budget held) has become on reaching phase `p`.
  ghost predicate Reached(p: Phase, base: Ledger, l: Ledger, id: string) {
    && id in base.intents && id in l.intents
    && l == base.(intents := l.intents, reservations := l.reservations)
    && l.intents - {id} == base.intents - {id}
    && l.reservations - {id} == base.reservations - {id}
    && (if base.Frozen(id) then l.intents == base.intents
        else && l.intents[id].state == StateAt(p, base.intents[id].state)
             && (p.Ended? && p.hash.Some? ==> l.intents[id].txHash == p.hash)
             && (p.Pending? ==> l.intents[id].txHash == Some(p.sent)))
    && (!p.Ended? ==> l.reservations == base.reservations)
    && (p.Ended? && p.freed ==> id !in l.reservations)
  }

  lemma MoveLocal(l: Ledger, id: string, to: State, tx: Option<string>)
    ensures var n := l.Move(id, to, tx);
            && n == l.(intents := n.intents, reservations := n.reservations)
            && n.intents - {id} == l.intents - {id} && n.reservations - {id} == l.reservations - {id}
            && (id in l.intents <==> id in n.intents)
  {
    var n := l.Move(id, to, tx);
    assert n.intents - {id} == l.intents - {id};
    assert n.reservations - {id} == l.reservations - {id};
  }

  lemma ReachedMove(p: Phase, base: Ledger, l: Ledger, id: string, to: State, tx: Option<string>)
    requires Reached(p, base, l, id)
    requires !p.Start? && !p.Tracked? && !p.Capped? && NextMove(p, to, tx) != Stuck
    ensures Reached(NextMove(p, to, tx), base, l.Move(id, to, tx), id)
  {
    MoveLocal(l, id, to, tx);
    if base.Frozen(id) {
      assert l.Move(id, to, tx) == l;
    } else {
      assert !l.Frozen(id);
    }
  }

  lemma ReachedStep(p: Phase, base: Ledger, l: Ledger, id: string, e: Event)
    requires Reached(p, base, l, id)
    requires !p.Start? && !p.Tracked? && !p.Capped? && Next(p, e) != Stuck
    ensures Reached(Next(p, e), base, Effect(l, id, e), id)
  {
    match e
    case Move(to, tx) =>
      ReachedMove(p, base, l, id, to, tx);
    case Unhold =>
      assert l.Release(id).reservations - {id} == l.reservations - {id};
    case _ =>
  }

  lemma {:induction false} ReachedAll(p: Phase, base: Ledger, l: Ledger, id: string, trace: seq<Event>)
    requires Reached(p, base, l, id)
    requires !p.Start? && !p.Tracked? && !p.Capped? && !Walk(p, trace).Stuck?
    ensures Reached(Walk(p, trace), base, Play(l, id, trace), id)
    decreases |trace|
  {
    if trace != [] {
      if Next(p, trace[0]) == Stuck {
        StuckForever(trace[1..]);
      }
      ReachedStep(p, base, l, id, trace[0]);
      ReachedAll(Next(p, trace[0]), base, Effect(l, id, trace[0]), id, trace[1..]);
    }
  }

  lemma {:induction false} StuckForever(trace: seq<Event>)
    ensures Walk(Stuck, trace) == Stuck
    decreases |trace|
  {
    if trace != [] {
      StuckForever(trace[1..]);
    }
  }

  // The ledger a run has once the intent is recorded and, when live, its budget is held.
  ghost function Entered(c: Config, l: Ledger, i: Intent, w: World): Ledger {
    var tracked := l.Detect(i.id, i.dstChain, w.usd);
    if c.dryRun then tracked else tracked.Reserve(i.id, w.usd)
  }

  lemma PlayThen(l: Ledger, id: string, e: Event, r: Run)
    ensures Play(l, id, Then(e, r).trace) == Play(Effect(l, id, e), id, r.trace)
  {
    assert Then(e, r).trace[1..] == r.trace;
  }

  lemma LegalNotStuck(p: Phase, r: Run)
    requires Legal(p, r)
    ensures !Walk(p, r.trace).Stuck?
  {
  }

  lemma ReachedAtOnce(base: Ledger, id: string)
    requires id in base.intents
    ensures Reached(Held, base, base, id)
  {
  }

  // Everything below the held phase, for any legal continuation `k`.
  lemma HeldRun(base: Ledger, id: string, k: Run)
    requires id in base.intents && Legal(Held, k)
    ensures Reached(Walk(Held, k.trace), base, Play(base, id, k.trace), id)
  {
    LegalNotStuck(Held, k);
    ReachedAtOnce(base, id);
    ReachedAll(Held, base, base, id, k.trace);
  }

  ghost predicate Enters(c: Config, l: Ledger, i: Intent, w: World) {
    w.usd <= w.maxNotionalUsd && i.dstChain in c.chains && w.recordOk && (c.dryRun || l.CanReserve(i.id, w.usd))
  }

  lemma EnteredRun(c: Config, l: Ledger, i: Intent, w: World)
    requires Enters(c, l, i, w)
    ensures Execute(c, l, i, w).outcome == Check(c, i, w).outcome
    ensures After(c, l, i, w) == Play(Entered(c, l, i, w), i.id, Check(c, i, w).trace)
    ensures Legal(Held, Check(c, i, w))
    ensures Reached(Walk(Held, Check(c, i, w).trace), Entered(c, l, i, w), After(c, l, i, w), i.id)
  {
    var k := Check(c, i, w);
    CheckLegal(c, i, w, Held);
    HeldRun(Entered(c, l, i, w), i.id, k);
    PlayThen(l, i.id, Detect(i.dstChain, w.usd), Admit(c, l, i, w));
    PlayThen(l.Detect(i.id, i.dstChain, w.usd), i.id, Hold(w.usd), k);
  }

  // The reservations once the run is over, from the phase it ended in.
  lemma HeldReservations(l: Ledger, base: Ledger, after: Ledger, id: string, p: Phase, o: Outcome)
    requires EndsAs(p, o) && Reached(p, base, after, id)
    requires base.reservations - {id} == l.reservations - {id}
    ensures !o.Error? && Began(o) && o != Skipped(ReserveFailed) ==> after.reservations == l.reservations - {id}
    ensures o == Error(RpcUrl) ==> after.reservations == base.reservations
  {
    if p.Ended? && p.freed {
      assert after.reservations == after.reservations - {id};
    }
  }

  lemma WithoutId(m: map<string, real>, id: string)
    requires id !in m
    ensures m - {id} == m
  {
  }

  lemma DispatchFault(c: Config, i: Intent, w: World)
    requires i.dstChain in c.chains && Dispatch(c, i, w).outcome.Error?
    ensures Dispatch(c, i, w).outcome.fault == RpcUrl && !c.dryRun && !c.chains[i.dstChain].rpcParses
  {
    SolanaFaultless(c, MayanFlash, i, w);
    SolanaFaultless(c, MayanSolana, i, w);
    SolanaFaultless(c, DlnSolana, i, w);
    SolanaFaultless(c, WormholeNtt, i, w);
    PrepareFault(c, i, w);
  }

  lemma SolanaFaultless(c: Config, lane: Lane, i: Intent, w: World)
    ensures !SolanaLane(c, lane, i, w).outcome.Error?
  {
  }

  lemma PrepareFault(c: Config, i: Intent, w: World)
    requires i.dstChain in c.chains
    ensures var o := PrepareEvm(c, i, w).outcome;
            o.Error? ==> o.fault == RpcUrl && !c.dryRun && !c.chains[i.dstChain].rpcParses
  {
    var r := Launch(c, EvmLane(c, i), i, w);
    assert r.outcome.Error? ==> r.outcome.fault == RpcUrl && !c.dryRun && !c.chains[i.dstChain].rpcParses;
  }

  lemma RpcFault(c: Config, i: Intent, w: World)
    requires i.dstChain in c.chains && Check(c, i, w).outcome.Error?
    ensures Check(c, i, w).outcome.fault == RpcUrl && !c.dryRun && !c.chains[i.dstChain].rpcParses
  {
    assert Check(c, i, w).outcome == Complete(c, i, w).outcome;
    DispatchFault(c, Completed(c, i, w).value, w);
  }

  predicate Began(o: Outcome) {
    o != Skipped(NotionalCap) && o != Skipped(NoWiring) && o != Error(RecordDetected)
  }

  predicate Decided(o: Outcome) {
    (o.Skipped? ==> InFlow(o.reason)) && (o.Error? ==> o.fault == RpcUrl)
  }

  lemma PrepareOutcome(c: Config, i: Intent, w: World)
    requires i.dstChain in c.chains
    ensures Decided(PrepareEvm(c, i, w).outcome)
  {
    var o := Launch(c, EvmLane(c, i), i, w).outcome;
    assert Decided(o);
    if AcrossRefusal(c, i, w).Some? {
      assert InFlow(AcrossRefusal(c, i, w).value);
    }
  }

  lemma DispatchOutcome(c: Config, i: Intent, w: World)
    requires i.dstChain in c.chains
    ensures Decided(Dispatch(c, i, w).outcome)
  {
    PrepareOutcome(c, i, w);
    SolanaOutcome(c, MayanFlash, i, w);
    SolanaOutcome(c, MayanSolana, i, w);
    SolanaOutcome(c, DlnSolana, i, w);
    SolanaOutcome(c, WormholeNtt, i, w);
  }

  lemma SolanaOutcome(c: Config, lane: Lane, i: Intent, w: World)
    ensures Decided(SolanaLane(c, lane, i, w).outcome)
  {
  }

  lemma CompleteOutcome(c: Config, i: Intent, w: World)
    requires i.dstChain in c.chains
    ensures Decided(Complete(c, i, w).outcome)
  {
    if Completed(c, i, w).Some? {
      DispatchOutcome(c, Completed(c, i, w).value, w);
    }
  }

  lemma CheckOutcome(c: Config, i: Intent, w: World)
    requires i.dstChain in c.chains
    ensures Decided(Check(c, i, w).outcome)
  {
    ScreenOutcome(c, i, w);
  }

  lemma ScreenOutcome(c: Config, i: Intent, w: World)
    requires i.dstChain in c.chains
    ensures Decided(Screen(c, i, w).outcome)
  {
    CompleteOutcome(c, i, w);
  }

  lemma EnteredBudget(c: Config, l: Ledger, i: Intent, w: World)
    requires Enters(c, l, i, w)
    ensures var o := Execute(c, l, i, w).outcome; var after := After(c, l, i, w).reservations;
            if o.Error? then
              o == Error(RpcUrl) && !c.dryRun && !c.chains[i.dstChain].rpcParses
              && after == l.Reserve(i.id, w.usd).reservations
            else after == l.reservations - {i.id}
  {
    EnteredRun(c, l, i, w);
    CheckOutcome(c, i, w);
    var base := Entered(c, l, i, w);
    assert base.reservations - {i.id} == l.reservations - {i.id};
    HeldReservations(l, base, After(c, l, i, w), i.id, Walk(Held, Check(c, i, w).trace), Check(c, i, w).outcome);
    if Check(c, i, w).outcome.Error? {
      RpcFault(c, i, w);
    }
  }

  /** The budget: a run that returns a verdict leaves every other intent's reservation alone and none of its own,
      so with none held beforehand the reservations are exactly as before. Only the unparsable RPC URL
      of a live run leaves the hold in place. */
  lemma BudgetRestored(c: Config, l: Ledger, i: Intent, w: World)
    ensures var o := Execute(c, l, i, w).outcome; var after := After(c, l, i, w).reservations;
            && (o != Error(RpcUrl) ==> after == l.reservations || after == l.reservations - {i.id})
            && (i.id !in l.reservations ==> (after == l.reservations <==> o != Error(RpcUrl)))
            && (o == Error(RpcUrl) ==>
                  !c.dryRun && i.dstChain in c.chains && !c.chains[i.dstChain].rpcParses
                  && after == l.Reserve(i.id, w.usd).reservations)
  {
    var r := Execute(c, l, i, w);
    if i.id !in l.reservations {
      WithoutId(l.reservations, i.id);
    }
    if Enters(c, l, i, w) {
      EnteredBudget(c, l, i, w);
    } else if w.usd > w.maxNotionalUsd {
      assert r.trace[1..] == [];
    } else if i.dstChain in c.chains && w.recordOk {
      PlayThen(l, i.id, Detect(i.dstChain, w.usd), Admit(c, l, i, w));
      assert [Move(SkipUnprofitable, None)][1..] == [];
    }
  }

  /** Budget accounting survives exactly as long as every destination's RPC URL parses (or nothing is sent):
      then no run, for any intent and any answers, leaks a reservation; otherwise some run does. */
  lemma NoLeakIffUrlsParse(c: Config)
    ensures (forall l: Ledger, i: Intent, w: World ::
               i.id !in l.reservations ==> After(c, l, i, w).reservations == l.reservations)
            <==> (c.dryRun || forall k :: k in c.chains ==> c.chains[k].rpcParses)
  {
    if c.dryRun || forall k :: k in c.chains ==> c.chains[k].rpcParses {
      forall l: Ledger, i: Intent, w: World | i.id !in l.reservations
        ensures After(c, l, i, w).reservations == l.reservations
      {
        BudgetRestored(c, l, i, w);
      }
    } else {
      var k :| k in c.chains && !c.chains[k].rpcParses;
      var l, i, w := Ledger(1.0, map[], map[], map[]), PlainIntent(k), CalmWorld(c);
      PlainIntentLeaks(c, k);
      BudgetRestored(c, l, i, w);
      assert i.id !in l.reservations && After(c, l, i, w).reservations != l.reservations;
    }
  }

  // A hexadecimal address, and a Solana key (the mint of wrapped SOL).
  function SomeAddress(): string { "0x" + seq(40, _ => '1') }

  const SOME_KEY := "So11111111111111111111111111111111111111112"

  // An intent of no particular protocol, complete in every field the guards and the Across builders look at: its
  // addresses are twenty bytes, its amounts one digit, its deposit id 0.
  function PlainIntent(chain: nat): Intent {
    Intent("x", "x", chain, chain, "9", Some("1"), None, None, SomeAddress(), SomeAddress(), SomeAddress(), SomeAddress(),
           "", Some(0), Some(U32_LIMIT - 1), None, None, None, None, None, None, None, None, None, None, None, None, None,
           None, None)
  }

  // Answers that let such an intent through, up to the wire: a profitable test run, a proof, a green estimate, and
  // builders that accept one-digit amounts. Nothing is heard back.
  function CalmWorld(c: Config): World {
    World(1.0, 1.0, true, Some(TestRun(true, c.threshold)), None, map["x" := []], None, map[], 0, 0, 0,
          false, false, false, true, 0, None, None, None, None, true, true, Gas, None, None)
  }

  lemma PlainBuilds(k: nat)
    ensures RelayAddresses(PlainIntent(k))
    ensures ResolveDepositId(PlainIntent(k)) == Some(0)
    ensures AcrossSpreadSkip(PlainIntent(k).amount, PlainIntent(k).outputAmount) == None
  {
    var s, digits := SomeAddress(), seq(40, _ => '1');
    assert s[..2] == "0x" && s[2..] == digits;
    assert EvmAddress(s);
    SmallNumber("9", U128_LIMIT);
    SmallNumber("1", U128_LIMIT);
    AcrossSpreadExact("9", Some("1"));
  }

  lemma PlainKind(k: nat)
    ensures var i := PlainIntent(k);
            !i.IsAcross() && !i.IsDebridge() && !i.IsMayan() && !i.IsFlash() && !i.IsWormhole()
  {
    var p := Lower(PlainIntent(k).protocol);
    LongerNotContained(p, "across");
    LongerNotContained(p, "debridge");
    LongerNotContained(p, "dln");
    LongerNotContained(p, "mayan");
    LongerNotContained(p, "flash");
    LongerNotContained(p, "wormhole");
    LongerNotContained(p, "ntt");
  }

  lemma PlainIntentLeaks(c: Config, k: nat)
    requires !c.dryRun && k in c.chains && !c.chains[k].rpcParses
    ensures Execute(c, Ledger(1.0, map[], map[], map[]), PlainIntent(k), CalmWorld(c)).outcome == Error(RpcUrl)
  {
    var i, w := PlainIntent(k), CalmWorld(c);
    PlainKind(k);
    PlainBuilds(k);
    assert i.id in ProofKeys(i);
    assert AcrossRefusal(c, i, w).None?;
    assert Dispatch(c, i, w).outcome == Error(RpcUrl);
    assert Check(c, i, w).outcome == Complete(c, i, w).outcome;
  }

  // ---- the recorded state ----

  // A run that began has ended, or stopped at a bad URL after the broadcast move.
  lemma EndPhase(p: Phase, o: Outcome)
    requires EndsAs(p, o) && Decided(o)
    ensures p.Ended? || p.Broadcasting?
  {
  }

  lemma RecordedFrom(l: Ledger, base: Ledger, after: Ledger, id: string, p: Phase)
    requires base.intents == (if id in l.intents then l.intents else base.intents)
    requires id !in l.intents ==> id in base.intents && base.intents[id].state == IntentDetected
    requires Reached(p, base, after, id) && (p.Ended? || p.Broadcasting?)
    ensures if id in l.intents && l.Frozen(id) then after.intents == l.intents
            else after.StateOf(id) == Some(StateAt(p, IntentDetected))
                 && (p.Ended? && p.hash.Some? ==> after.intents[id].txHash == p.hash)
  {
  }

  /** What the wallet says after a run: if the record was still open on entry, its state is the one the outcome
      stands for, with the hash; a record already in a terminal state is never touched. */
  lemma RecordedState(c: Config, l: Ledger, i: Intent, w: World)
    requires Enters(c, l, i, w)
    ensures var o := Execute(c, l, i, w).outcome; var after := After(c, l, i, w);
            if i.id in l.intents && l.Frozen(i.id) then after.intents == l.intents
            else
              exists p :: EndsAs(p, o) && after.StateOf(i.id) == Some(StateAt(p, IntentDetected))
                          && (p.Ended? && p.hash.Some? ==> after.intents[i.id].txHash == p.hash)
  {
    EnteredRun(c, l, i, w);
    CheckOutcome(c, i, w);
    var p, o, after := Walk(Held, Check(c, i, w).trace), Execute(c, l, i, w).outcome, After(c, l, i, w);
    assert EndsAs(p, o);
    EndPhase(p, o);
    RecordedFrom(l, Entered(c, l, i, w), after, i.id, p);
  }

  /** A fill reported as confirmed is recorded as CONFIRMED exactly when the intent was new or still open. */
  lemma ConfirmedRecordedIff(c: Config, l: Ledger, i: Intent, w: World)
    requires Execute(c, l, i, w).outcome.Filled?
    ensures After(c, l, i, w).StateOf(i.id) == Some(State.Confirmed)
            <==> (i.id !in l.intents || !l.intents[i.id].state.IsTerminal())
  {
    var o, after := Execute(c, l, i, w).outcome, After(c, l, i, w);
    RecordedState(c, l, i, w);
    if i.id in l.intents && l.Frozen(i.id) {
      assert after.StateOf(i.id) == l.StateOf(i.id);
    } else {
      var p :| EndsAs(p, o) && after.StateOf(i.id) == Some(StateAt(p, IntentDetected));
      assert p.Ended? && p.last == State.Confirmed;
    }
  }

  // ---- outcome rows ----

  function ExecutedRows(trace: seq<Event>): seq<Option<string>> {
    if trace == [] then []
    else (if trace[0].Row? && trace[0].decision == Executed then [trace[0].rowTx] else []) + ExecutedRows(trace[1..])
  }

  predicate Logged(p: Phase) { p.Ended? && p.row == Some(Executed) }

  lemma {:induction false} RowsFromWalk(p: Phase, trace: seq<Event>)
    requires !Walk(p, trace).Stuck?
    ensures var q := Walk(p, trace);
            && (Logged(p) ==> Logged(q))
            && ExecutedRows(trace) == if Logged(q) && !Logged(p) then [q.hash] else []
    decreases |trace|
  {
    if trace != [] {
      if Next(p, trace[0]) == Stuck {
        StuckForever(trace[1..]);
      }
      RowsFromWalk(Next(p, trace[0]), trace[1..]);
      if Logged(Next(p, trace[0])) {
        EndedStays(Next(p, trace[0]), trace[1..]);
      }
    }
  }

  lemma {:induction false} EndedStays(p: Phase, trace: seq<Event>)
    requires p.Ended? && !Walk(p, trace).Stuck?
    ensures var q := Walk(p, trace);
            q.Ended? && q.last == p.last && q.hash == p.hash && (p.row.Some? ==> q.row == p.row)
    decreases |trace|
  {
    if trace != [] {
      if Next(p, trace[0]) == Stuck {
        StuckForever(trace[1..]);
      }
      EndedStays(Next(p, trace[0]), trace[1..]);
    }
  }

  lemma LegalRows(r: Run)
    requires Legal(Start, r)
    ensures ExecutedRows(r.trace) == if r.outcome.Filled? then [Some(r.outcome.txHash)] else []
  {
    RowsFromWalk(Start, r.trace);
  }

  /** One "executed" row per confirmed fill, with that fill's hash, from every broadcast site; none otherwise. */
  lemma ExecutedRowIffFilled(c: Config, l: Ledger, i: Intent, w: World)
    ensures var r := Execute(c, l, i, w);
            ExecutedRows(r.trace) == if r.outcome.Filled? then [Some(r.outcome.txHash)] else []
  {
    LegalLifecycle(c, l, i, w);
    LegalRows(Execute(c, l, i, w));
  }

  // ---- submissions ----

  /** The transaction a trace submits, if any; a legal trace submits at most one. */
  function Submission(trace: seq<Event>): (s: Option<Event>)
    ensures s.Some? ==> s.value.Send?
  {
    if trace == [] then None
    else if trace[0].Send? then Some(trace[0])
    else Submission(trace[1..])
  }

  lemma SubmissionThen(e: Event, r: Run)
    ensures Submission(Then(e, r).trace) == if e.Send? then Some(e) else Submission(r.trace)
  {
    assert Then(e, r).trace[1..] == r.trace;
  }

  lemma SubmissionShort(a: Event, b: Event, d: Event)
    requires !a.Send? && !b.Send? && !d.Send?
    ensures Submission([a]) == Submission([a, b]) == Submission([a, b, d]) == None
  {
    assert [a][1..] == [] && [a, b][1..] == [b] && [a, b, d][1..] == [b, d];
    assert [b][1..] == [] && [b, d][1..] == [d] && [d][1..] == [];
    assert Submission([d]) == None;
    assert Submission([b]) == Submission([b, d]) == None;
  }

  lemma LaunchSubmission(c: Config, lane: Lane, i: Intent, w: World)
    requires i.dstChain in c.chains
    ensures Submission(Launch(c, lane, i, w).trace) ==
            if !c.dryRun && GateAnswer(i, w).IsGreen() && !NativeShort(w) && c.chains[i.dstChain].rpcParses
            then Some(Send(lane, i, Target(c, lane, i))) else None
  {
    SubmissionShort(Move(SkipUnprofitable, None), Row(DryRunRow, None), Unhold);
    SubmissionShort(Move(SkipUnprofitable, None), Unhold, Unhold);
    SubmissionThen(Move(Broadcast, None), Transmit(c, lane, i, w));
    if c.chains[i.dstChain].rpcParses {
      assert Transmit(c, lane, i, w).trace[0] == Send(lane, i, Target(c, lane, i));
    }
  }

  lemma SkipSubmission(end: State, o: Outcome)
    ensures Submission(Abandon(end, o).trace) == None
  {
    SubmissionShort(Move(end, None), Unhold, Unhold);
  }

  // The checks between calldata-build and the wire, for an intent no Solana lane takes.
  predicate EvmClear(c: Config, j: Intent, w: World)
    requires j.dstChain in c.chains
  {
    && !(j.IsMayan() && j.mayanAuctionMode.GetOr(2) != 0)
    && AcrossRefusal(c, j, w).None?
    && CalldataBuilds(EvmLane(c, j), j, w)
    && !c.dryRun && GateAnswer(j, w).IsGreen() && !NativeShort(w) && c.chains[j.dstChain].rpcParses
  }

  lemma PrepareSubmission(c: Config, j: Intent, w: World)
    requires j.dstChain in c.chains
    ensures Submission(PrepareEvm(c, j, w).trace) ==
            if EvmClear(c, j, w) then Some(Send(EvmLane(c, j), j, Target(c, EvmLane(c, j), j))) else None
  {
    SkipSubmission(SkipUnprofitable, Skipped(AuctionMode));
    SkipSubmission(CalldataError, Failed(CalldataBuilding));
    if AcrossRefusal(c, j, w).Some? {
      SkipSubmission(SkipUnprofitable, Skipped(AcrossRefusal(c, j, w).value));
    }
    LaunchSubmission(c, EvmLane(c, j), j, w);
  }

  predicate SolanaTakes(j: Intent) {
    || ((j.IsFlash() || j.IsMayan()) && j.FromSolana())
    || (j.IsDebridge() && j.ToSolana())
    || (j.IsWormhole() && !j.FromSolana())
  }

  // Which Solana lane takes an intent.
  function SolanaLaneOf(j: Intent): Lane
    requires SolanaTakes(j)
  {
    if j.IsFlash() && j.FromSolana() then MayanFlash
    else if j.IsMayan() && j.FromSolana() then MayanSolana
    else if j.IsDebridge() && j.ToSolana() then DlnSolana
    else WormholeNtt
  }

  // What a Solana lane needs before it broadcasts.
  predicate SolanaClear(c: Config, lane: Lane, j: Intent, w: World) {
    && !c.dryRun && Projects(lane, j, w) && w.solanaKeyOk
    && (lane == MayanFlash || lane == DlnSolana ==> w.programReady)
    && (lane == MayanSolana ==> j.mayanAuctionMode == Some(0))
  }

  lemma SolanaSubmission(c: Config, lane: Lane, j: Intent, w: World)
    ensures Submission(SolanaLane(c, lane, j, w).trace)
            == if SolanaClear(c, lane, j, w) then Some(Send(lane, j, None)) else None
  {
    var r := SolanaLane(c, lane, j, w);
    if r == SolanaBroadcast(lane, j, w) {
      SubmissionThen(Move(Broadcast, None), Then(Send(lane, j, None), SolanaAnswer(w)));
      SubmissionThen(Send(lane, j, None), SolanaAnswer(w));
    } else if r.outcome.Skipped? {
      SkipSubmission(SkipUnprofitable, r.outcome);
    } else {
      SkipSubmission(CalldataError, r.outcome);
    }
  }

  lemma DispatchSubmission(c: Config, j: Intent, w: World)
    requires j.dstChain in c.chains
    ensures Submission(Dispatch(c, j, w).trace) ==
            if SolanaTakes(j) then
              if SolanaClear(c, SolanaLaneOf(j), j, w) then Some(Send(SolanaLaneOf(j), j, None)) else None
            else if EvmClear(c, j, w) then Some(Send(EvmLane(c, j), j, Target(c, EvmLane(c, j), j)))
            else None
  {
    if SolanaTakes(j) {
      SolanaSubmission(c, SolanaLaneOf(j), j, w);
    } else {
      PrepareSubmission(c, j, w);
    }
  }

  // The checks before calldata-build, leading to the completed intent `j`.
  predicate Approved(c: Config, i: Intent, j: Intent, w: World)
    requires i.dstChain in c.chains
  {
    && (i.IsAcross() ==> c.chains[i.dstChain].adapter != 0)
    && (BypassesSpinner(c, i)
        || ((if w.testRun.Some? then w.testRun.value.profitable && w.testRun.value.netProfitUsd >= c.threshold
             else c.dryRun)
            && (ProofFound(i, w) || c.dryRun)))
    && DebridgeRefusal(c, i, w).None?
    && Completed(c, i, w) == Some(j)
    && ClaimRefusal(c, j, w).None?
  }

  lemma CompleteSubmission(c: Config, i: Intent, w: World)
    requires i.dstChain in c.chains
    ensures Submission(Complete(c, i, w).trace) ==
            match Completed(c, i, w)
            case Some(j) => if ClaimRefusal(c, j, w).None? then Submission(Dispatch(c, j, w).trace) else None
            case None => None
  {
    match Completed(c, i, w) {
      case Some(j) =>
        if ClaimRefusal(c, j, w).Some? {
          SkipSubmission(SkipUnprofitable, Skipped(ClaimRefusal(c, j, w).value));
        } else {
          SubmissionThen(Move(CalldataBuild, None), Dispatch(c, j, w));
        }
      case None =>
        SkipSubmission(SkipUnprofitable, Skipped(EnrichmentFailed));
    }
  }

  lemma ScreenSubmission(c: Config, i: Intent, w: World)
    requires i.dstChain in c.chains
    ensures Submission(Screen(c, i, w).trace) ==
            if DebridgeRefusal(c, i, w).None? && (BypassesSpinner(c, i) || ProofFound(i, w) || c.dryRun)
            then Submission(Complete(c, i, w).trace) else None
  {
    if DebridgeRefusal(c, i, w).Some? {
      SkipSubmission(SkipUnprofitable, Skipped(DebridgeRefusal(c, i, w).value));
    }
    SkipSubmission(ProofMissing, Failed(ProofFetching));
    SubmissionThen(Move(ProofFetch, None), Complete(c, i, w));
    SubmissionThen(Move(ProofFetch, None), Abandon(ProofMissing, Failed(ProofFetching)));
  }

  lemma CheckSubmission(c: Config, i: Intent, w: World)
    requires i.dstChain in c.chains
    ensures Submission(Check(c, i, w).trace) ==
            match Completed(c, i, w)
            case Some(j) => if Approved(c, i, j, w) then Submission(Dispatch(c, j, w).trace) else None
            case None => None
  {
    SkipSubmission(SkipUnprofitable, Skipped(NoSpokePool));
    SkipSubmission(SkipUnprofitable, Failed(SpinnerTestRun));
    SubmissionShort(Move(SkipUnprofitable, None), Unhold, Row(SkipUnprofitableRow, None));
    SubmissionThen(Move(ProfitabilityCheck, None), ProfitGate(c, i, w));
    ScreenSubmission(c, i, w);
    CompleteSubmission(c, i, w);
  }

  lemma ExecuteSubmission(c: Config, l: Ledger, i: Intent, w: World)
    ensures Submission(Execute(c, l, i, w).trace) ==
            if Enters(c, l, i, w) then Submission(Check(c, i, w).trace) else None
  {
    SubmissionShort(Row(SkipNotionalCap, None), Unhold, Unhold);
    SubmissionShort(Move(SkipUnprofitable, None), Unhold, Unhold);
    if i.dstChain in c.chains {
      SubmissionThen(Detect(i.dstChain, w.usd), Admit(c, l, i, w));
      SubmissionThen(Hold(w.usd), Check(c, i, w));
    }
  }

  // ---- enrichment ----

  // A deposit read back holds what an intent lacks of the three fields that make a lookup needed.
  predicate Supplies(r: Relay, i: Intent) {
    && (i.fillDeadline.None? ==> r.fillDeadline.Some?)
    && (i.outputAmount.None? ==> r.outputAmount.Some?)
    && (i.depositId.None? ==> r.depositId.Some?)
  }

  /** Once a run has completed an intent, every later run of the completed intent works on that same intent,
      whatever it is answered, exactly when no lookup is needed any more: either none was needed at first, or the
      deposit supplied the deadline, the output amount and the deposit id where they were missing. */
  lemma LaterRunsAgreeIff(c: Config, i: Intent, j: Intent, w: World)
    requires i.dstChain in c.chains && Completed(c, i, w) == Some(j)
    ensures (forall later: World :: Completed(c, j, later) == Some(j))
            <==> !NeedsRelay(c, i) || Supplies(FindRelay(i, w).value, i)
  {
    if NeedsRelay(c, i) {
      assert NeedsRelay(c, j) <==> !Supplies(FindRelay(i, w).value, i);
      if NeedsRelay(c, j) {
        var silent := w.(relayFromTx := None, relayFromDeposit := map[]);
        assert Completed(c, j, silent) == None;
      }
    }
  }

  // ---- what a direct SpokePool fill has been through ----

  // The solver is paid in native coin or, as far as both are known, holds at least what it has to pay out.
  predicate BalanceCovers(token: string, required: Option<string>, balance: Option<nat>) {
    || Lower(Trim(token)) in {"", "native", NATIVE_SENTINEL, ZERO_ADDRESS}
    || ParseAmount(required).None? || balance.None? || ParseAmount(required).value <= balance.value
  }

  predicate ValueCovered(w: World) {
    w.nativeValue.Some? && w.nativeBalance.Some? ==> w.nativeValue.value <= w.nativeBalance.value
  }

  // Nobody else holds an exclusive window at that time.
  predicate OutsideExclusivity(c: Config, j: Intent, now: nat) {
    || j.exclusivityDeadline.None? || j.exclusivityDeadline.value <= now % U32_LIMIT
    || j.exclusiveRelayer.None? || j.exclusiveRelayer.value in {"", "0x", ZERO_ADDRESS}
    || Lower(j.exclusiveRelayer.value) == c.signer
  }

  // An Across fill that can be claimed back.
  predicate AcrossClaimable(j: Intent) {
    && j.outputAmount.Some? && j.outputAmount.value != "" && j.outputAmount.value != "0"
    && j.fillDeadline.Some?
    && j.recipient != "" && j.recipient != ZERO_ADDRESS
  }

  predicate EvmWallet(j: Intent) { |j.depositor| <= 10 || j.depositor[..2] in {"0x", "0X"} }

  // The deposit's id is known, or stands in the intent's id or transaction hash.
  ghost predicate NamesDeposit(j: Intent) {
    || j.depositId.Some?
    || exists p :: (p in SplitOn(j.id, {':', '_'}) || p in SplitOn(j.txHash, {':', '_'})) && ParseI64(p).Some?
  }

  predicate Messageless(j: Intent) { j.message.Some? ==> j.message.value in {"", "0x", "0x0"} }

  // Half a minute is left to fill, in 32-bit seconds.
  predicate TimeLeft(j: Intent, now: nat) {
    j.fillDeadline.Some? ==> j.fillDeadline.value >= Min(now % U32_LIMIT + 30, U32_LIMIT - 1)
  }

  lemma ChecksRead(c: Config, j: Intent, w: World)
    ensures !NativeShort(w) <==> ValueCovered(w)
    ensures !ExclusiveToOther(c, j, w.clockExclusive) <==> OutsideExclusivity(c, j, w.clockExclusive)
    ensures !LacksAcrossClaimInfo(j) <==> AcrossClaimable(j)
    ensures forall required, balance ::
              !(j.PaysErc20() && BalanceShort(required, balance)) <==> BalanceCovers(j.dstToken, required, balance)
    ensures DeadlineSkip(j.fillDeadline, w.clockFill) <==> !TimeLeft(j, w.clockFill)
  {
  }

  lemma DepositRead(j: Intent)
    ensures FromSolanaWallet(j) <==> !EvmWallet(j)
    ensures HasDepositId(j) <==> NamesDeposit(j)
  {
    LastIntSome(SplitOn(j.id, COARSE));
    LastIntSome(SplitOn(j.txHash, COARSE));
    if |j.depositor| > 10 {
      assert StartsWith(j.depositor, "0x") <==> j.depositor[..2] == "0x";
    }
  }

  // The refusals between calldata-build and the wire, on the SpokePool lane.
  ghost predicate AcrossAdmissible(j: Intent, w: World) {
    && (j.IsAcross() ==> EvmWallet(j) && NamesDeposit(j)) && Messageless(j) && TimeLeft(j, w.clockFill)
    && (match (ParseU128(j.amount), ParseAmount(j.outputAmount))
        case (Some(inp), Some(out)) => 0 < inp && out <= 1000 * inp ==> out <= inp && 10_000 * (inp - out) >= inp
        case _ => true)
    && BalanceCovers(j.dstToken, j.outputAmount, w.tokenBalance)
  }

  ghost predicate SpokePoolAdmissible(c: Config, l: Ledger, i: Intent, j: Intent, w: World) {
    // live, capped, wired to a chain without an operator, budget available
    && !c.dryRun && w.usd <= w.maxNotionalUsd && w.recordOk && l.CanReserve(i.id, w.usd)
    && i.dstChain in c.chains && c.chains[i.dstChain].operator == 0 && c.chains[i.dstChain].rpcParses
    && (i.IsAcross() ==> c.chains[i.dstChain].adapter != 0)
    // a protocol with no lane of its own, completed from the origin chain where needed
    && !i.IsMayan() && !i.IsDebridge() && Completed(c, i, w) == Some(j) && !SolanaTakes(j)
    // an Across fill can be claimed back, and nobody else holds an active exclusive window
    && (i.IsAcross() ==> AcrossClaimable(j)) && OutsideExclusivity(c, j, w.clockExclusive)
    // no message, a live deadline, a real spread, the balance to pay
    && AcrossAdmissible(j, w)
    // calldata, estimate and native value
    && w.calldataOk && RelayAddresses(j) && ResolveDepositId(j).Some? && ResolveDepositId(j).value >= 0
    && (w.skipEstimate || w.estimate.Gas? || w.estimate.FundsLow?) && ValueCovered(w)
  }

  /** A run submits a direct SpokePool fill exactly when every one of these conditions holds, and then it submits
      the completed intent to the chain's SpokePool. */
  lemma SpokePoolFillIff(c: Config, l: Ledger, i: Intent, w: World)
    ensures var s := Submission(Execute(c, l, i, w).trace);
            && (s.Some? && s.value.lane == SpokePool ==> SpokePoolAdmissible(c, l, i, s.value.intent, w))
            && (forall j :: SpokePoolAdmissible(c, l, i, j, w) ==>
                              s == Some(Send(SpokePool, j, Some(c.chains[i.dstChain].adapter))))
  {
    ExecuteSubmission(c, l, i, w);
    if Enters(c, l, i, w) {
      CheckSubmission(c, i, w);
      if Completed(c, i, w).Some? {
        var j := Completed(c, i, w).value;
        DispatchSubmission(c, j, w);
        SpokePoolChecks(c, l, i, j, w);
      }
    }
  }

  lemma AcrossClear(c: Config, j: Intent, w: World)
    requires j.dstChain in c.chains && Direct(c, j) && !j.IsDebridge() && !j.IsMayan()
    ensures AcrossRefusal(c, j, w).None? <==> AcrossAdmissible(j, w)
  {
    AcrossSpreadExact(j.amount, j.outputAmount);
    ChecksRead(c, j, w);
    DepositRead(j);
  }

  lemma SpokePoolChecks(c: Config, l: Ledger, i: Intent, j: Intent, w: World)
    requires Enters(c, l, i, w) && Completed(c, i, w) == Some(j)
    ensures SpokePoolAdmissible(c, l, i, j, w) <==>
            Approved(c, i, j, w) && !SolanaTakes(j) && EvmClear(c, j, w) && EvmLane(c, j) == SpokePool
  {
    ChecksRead(c, j, w);
    if Direct(c, j) && !j.IsDebridge() && !j.IsMayan() {
      AcrossClear(c, j, w);
    }
  }
}
