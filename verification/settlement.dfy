/** What a reported fill rests on: one submission, and the chain's word for it. */
module Settlement {
  import opened Common
  import opened Guards
  import opened Wallet
  import opened Lifecycle
  import opened LifecycleProofs

  // ---- at most one submission ----

  function Sends(trace: seq<Event>): nat {
    if trace == [] then 0 else (if trace[0].Send? then 1 else 0) + Sends(trace[1..])
  }

  predicate PastSend(p: Phase) { p.Sent? || p.Pending? || p.Ended? || p.Capped? }

  lemma {:induction false} SendsFromWalk(p: Phase, trace: seq<Event>)
    requires !Walk(p, trace).Stuck?
    ensures Sends(trace) <= if PastSend(p) then 0 else 1
    decreases |trace|
  {
    if trace != [] {
      if Next(p, trace[0]) == Stuck {
        StuckForever(trace[1..]);
      }
      SendsFromWalk(Next(p, trace[0]), trace[1..]);
    }
  }

  /** No run submits two transactions. */
  lemma SingleSubmission(c: Config, l: Ledger, i: Intent, w: World)
    ensures Sends(Execute(c, l, i, w).trace) <= 1
  {
    LegalLifecycle(c, l, i, w);
    SendsFromWalk(Start, Execute(c, l, i, w).trace);
  }

  // ---- what the chain said ----

  // The hash under which a submission on this lane went through, if it did.
  function Landed(lane: Lane, w: World): Option<string> {
    if OnSolana(lane) then w.signature
    else if w.receipt.Some? && w.receipt.value.success then w.sentHash
    else None
  }

  // The outcome is a fill exactly when the submission landed, with the hash it landed under.
  predicate Settled(r: Run, w: World) {
    match Submission(r.trace)
    case None => !r.outcome.Filled?
    case Some(s) =>
      if Landed(s.lane, w).Some? then r.outcome.Filled? && r.outcome.txHash == Landed(s.lane, w).value
      else !r.outcome.Filled?
  }

  lemma SettledThen(e: Event, r: Run, w: World)
    requires !e.Send? && Settled(r, w)
    ensures Settled(Then(e, r), w)
  {
    SubmissionThen(e, r);
  }

  lemma SettledAbandon(end: State, o: Outcome, w: World)
    requires !o.Filled?
    ensures Settled(Abandon(end, o), w)
  {
    SkipSubmission(end, o);
  }

  lemma TransmitSettled(c: Config, lane: Lane, i: Intent, w: World)
    requires i.dstChain in c.chains && !OnSolana(lane)
    ensures Settled(Transmit(c, lane, i, w), w)
  {
    if c.chains[i.dstChain].rpcParses {
      assert Transmit(c, lane, i, w).trace[0] == Send(lane, i, Target(c, lane, i));
    }
  }

  lemma PrepareSettled(c: Config, i: Intent, w: World)
    requires i.dstChain in c.chains
    ensures Settled(PrepareEvm(c, i, w), w)
  {
    var lane := EvmLane(c, i);
    SettledAbandon(SkipUnprofitable, Skipped(AuctionMode), w);
    SettledAbandon(SkipUnprofitable, Skipped(EstimateGate), w);
    SettledAbandon(SkipUnprofitable, Skipped(NativeBalance), w);
    SettledAbandon(CalldataError, Failed(CalldataBuilding), w);
    if AcrossRefusal(c, i, w).Some? {
      SettledAbandon(SkipUnprofitable, Skipped(AcrossRefusal(c, i, w).value), w);
    }
    SubmissionShort(Move(SkipUnprofitable, None), Row(DryRunRow, None), Unhold);
    TransmitSettled(c, lane, i, w);
    SettledThen(Move(Broadcast, None), Transmit(c, lane, i, w), w);
  }

  lemma SolanaSettled(c: Config, lane: Lane, i: Intent, w: World)
    requires OnSolana(lane)
    ensures Settled(SolanaLane(c, lane, i, w), w)
  {
    var r := SolanaLane(c, lane, i, w);
    if r == SolanaBroadcast(lane, i, w) {
      SubmissionThen(Send(lane, i, None), SolanaAnswer(w));
      SettledThen(Move(Broadcast, None), Then(Send(lane, i, None), SolanaAnswer(w)), w);
    } else if r.outcome.Skipped? {
      SettledAbandon(SkipUnprofitable, r.outcome, w);
    } else {
      SettledAbandon(CalldataError, r.outcome, w);
    }
  }

  lemma DispatchSettled(c: Config, i: Intent, w: World)
    requires i.dstChain in c.chains
    ensures Settled(Dispatch(c, i, w), w)
  {
    SolanaSettled(c, MayanFlash, i, w);
    SolanaSettled(c, MayanSolana, i, w);
    SolanaSettled(c, DlnSolana, i, w);
    SolanaSettled(c, WormholeNtt, i, w);
    PrepareSettled(c, i, w);
  }

  lemma CompleteSettled(c: Config, i: Intent, w: World)
    requires i.dstChain in c.chains
    ensures Settled(Complete(c, i, w), w)
  {
    match Completed(c, i, w) {
      case Some(j) =>
        if ClaimRefusal(c, j, w).Some? {
          SettledAbandon(SkipUnprofitable, Skipped(ClaimRefusal(c, j, w).value), w);
        } else {
          DispatchSettled(c, j, w);
          SettledThen(Move(CalldataBuild, None), Dispatch(c, j, w), w);
        }
      case None =>
        SettledAbandon(SkipUnprofitable, Skipped(EnrichmentFailed), w);
    }
  }

  lemma CheckSettled(c: Config, i: Intent, w: World)
    requires i.dstChain in c.chains
    ensures Settled(Check(c, i, w), w)
  {
    CompleteSettled(c, i, w);
    SettledAbandon(SkipUnprofitable, Skipped(NoSpokePool), w);
    SettledAbandon(SkipUnprofitable, Failed(SpinnerTestRun), w);
    SettledAbandon(ProofMissing, Failed(ProofFetching), w);
    SubmissionShort(Move(SkipUnprofitable, None), Unhold, Row(SkipUnprofitableRow, None));
    SettledThen(Move(ProofFetch, None), Complete(c, i, w), w);
    SettledThen(Move(ProofFetch, None), Abandon(ProofMissing, Failed(ProofFetching)), w);
    if DebridgeRefusal(c, i, w).Some? {
      SettledAbandon(SkipUnprofitable, Skipped(DebridgeRefusal(c, i, w).value), w);
    }
    SettledThen(Move(ProfitabilityCheck, None), ProfitGate(c, i, w), w);
  }

  /** A run reports a fill exactly when it submitted a transaction and the chain confirmed it, and it reports the
      hash the chain confirmed: for every lane, a receipt that never came or that reverted is never a fill. */
  lemma FilledIffLanded(c: Config, l: Ledger, i: Intent, w: World)
    ensures Settled(Execute(c, l, i, w), w)
  {
    SubmissionShort(Row(SkipNotionalCap, None), Unhold, Unhold);
    SubmissionShort(Move(SkipUnprofitable, None), Unhold, Unhold);
    if i.dstChain in c.chains {
      CheckSettled(c, i, w);
      SettledThen(Hold(w.usd), Check(c, i, w), w);
      SettledThen(Detect(i.dstChain, w.usd), Admit(c, l, i, w), w);
    }
  }

  // ---- the record and the chain ----

  // The run heard back about its submission: a signature, or a receipt.
  predicate Heard(lane: Lane, w: World) {
    if OnSolana(lane) then w.signature.Some? else w.sentHash.Some? && w.receipt.Some?
  }

  // Nodes do not lie: a signature or a receipt says what happened, `mined` being what really did.
  predicate Honest(lane: Lane, w: World, mined: bool) {
    Heard(lane, w) ==> (mined <==> Landed(lane, w).Some?)
  }

  lemma SubmittedEnters(c: Config, l: Ledger, i: Intent, w: World)
    requires Submission(Execute(c, l, i, w).trace).Some?
    ensures Enters(c, l, i, w) && !c.dryRun
  {
    ExecuteSubmission(c, l, i, w);
    CheckSubmission(c, i, w);
    DispatchSubmission(c, Completed(c, i, w).value, w);
  }

  // After a submission a legal run can only end confirmed or reverted.
  lemma {:induction false} SendEnds(p: Phase, trace: seq<Event>)
    requires !Walk(p, trace).Stuck? && Submission(trace).Some?
    ensures AfterSend(Walk(p, trace))
    decreases |trace|
  {
    if Next(p, trace[0]) == Stuck {
      StuckForever(trace[1..]);
    }
    if trace[0].Send? {
      SentStays(Next(p, trace[0]), trace[1..]);
    } else {
      SendEnds(Next(p, trace[0]), trace[1..]);
    }
  }

  predicate AfterSend(p: Phase) {
    p.Sent? || p.Pending? || (p.Ended? && (p.last == State.Confirmed || p.last == State.Reverted))
  }

  lemma {:induction false} SentStays(p: Phase, trace: seq<Event>)
    requires AfterSend(p) && !Walk(p, trace).Stuck?
    ensures AfterSend(Walk(p, trace))
    decreases |trace|
  {
    if trace != [] {
      if Next(p, trace[0]) == Stuck {
        StuckForever(trace[1..]);
      }
      SentStays(Next(p, trace[0]), trace[1..]);
    }
  }

  // The outcomes whose run ends confirmed or reverted.
  lemma SentOutcome(r: Run)
    requires Legal(Start, r) && AfterSend(Walk(Start, r.trace))
    ensures forall p :: EndsAs(p, r.outcome) ==>
              p.Ended? && p.last == if r.outcome.Filled? then State.Confirmed else State.Reverted
  {
  }

  lemma SubmittedOutcome(c: Config, l: Ledger, i: Intent, w: World)
    requires Submission(Execute(c, l, i, w).trace).Some?
    ensures var r := Execute(c, l, i, w);
            forall p :: EndsAs(p, r.outcome) ==>
              p.Ended? && p.last == if Landed(Submission(r.trace).value.lane, w).Some? then State.Confirmed else State.Reverted
  {
    var r := Execute(c, l, i, w);
    FilledIffLanded(c, l, i, w);
    LegalLifecycle(c, l, i, w);
    LegalNotStuck(Start, r);
    SendEnds(Start, r.trace);
    SentOutcome(r);
  }

  // The record of a submitted intent: CONFIRMED if the submission landed, REVERTED if not.
  lemma SubmittedRecord(c: Config, l: Ledger, i: Intent, w: World)
    requires var s := Submission(Execute(c, l, i, w).trace);
             s.Some? && (i.id in l.intents ==> !l.Frozen(i.id))
    ensures var lane := Submission(Execute(c, l, i, w).trace).value.lane;
            After(c, l, i, w).StateOf(i.id)
            == Some(if Landed(lane, w).Some? then State.Confirmed else State.Reverted)
  {
    SubmittedEnters(c, l, i, w);
    SubmittedOutcome(c, l, i, w);
    RecordedEnd(c, l, i, w, if Landed(Submission(Execute(c, l, i, w).trace).value.lane, w).Some? then State.Confirmed
                            else State.Reverted);
  }

  lemma RecordedEnd(c: Config, l: Ledger, i: Intent, w: World, last: State)
    requires Enters(c, l, i, w) && (i.id in l.intents ==> !l.Frozen(i.id))
    requires forall p :: EndsAs(p, Execute(c, l, i, w).outcome) ==> p.Ended? && p.last == last
    ensures After(c, l, i, w).StateOf(i.id) == Some(last)
  {
    RecordedState(c, l, i, w);
    var o, state := Execute(c, l, i, w).outcome, After(c, l, i, w).StateOf(i.id);
    var p :| EndsAs(p, o) && state == Some(StateAt(p, IntentDetected));
    EndedState(p, o, state, last);
  }

  lemma EndedState(p: Phase, o: Outcome, state: Option<State>, last: State)
    requires EndsAs(p, o) && state == Some(StateAt(p, IntentDetected))
    requires forall q :: EndsAs(q, o) ==> q.Ended? && q.last == last
    ensures state == Some(last)
  {
  }

  /** The wallet's record of a submitted intent agrees with the chain exactly when the run heard back, or nothing
      was mined: a transaction mined while its receipt could not be had is recorded as REVERTED. */
  lemma RecordAgreesIff(c: Config, l: Ledger, i: Intent, w: World, mined: bool)
    requires var s := Submission(Execute(c, l, i, w).trace);
             s.Some? && (i.id in l.intents ==> !l.Frozen(i.id)) && Honest(s.value.lane, w, mined)
    ensures var lane := Submission(Execute(c, l, i, w).trace).value.lane;
            (After(c, l, i, w).StateOf(i.id) == Some(State.Confirmed) <==> mined) <==> Heard(lane, w) || !mined
  {
    SubmittedRecord(c, l, i, w);
  }

  // ---- what a run leaves alone ----

  lemma {:induction false} DetectsOnce(p: Phase, trace: seq<Event>)
    requires !p.Start? && !Walk(p, trace).Stuck?
    ensures forall e :: e in trace ==> !e.Detect?
    decreases |trace|
  {
    if trace != [] {
      if Next(p, trace[0]) == Stuck {
        StuckForever(trace[1..]);
      }
      DetectsOnce(Next(p, trace[0]), trace[1..]);
      assert trace == [trace[0]] + trace[1..];
    }
  }

  // The same chain and amount are recorded.
  predicate SameFacts(a: Record, b: Record) { a.chain == b.chain && a.amountUsd == b.amountUsd }

  // Apart from the state and the hash of one intent, and its hold, the ledger is the same.
  ghost predicate Untouched(l: Ledger, n: Ledger, id: string) {
    && n.intents - {id} == l.intents - {id} && n.reservations - {id} == l.reservations - {id}
    && n.revenue == l.revenue && n.budget == l.budget
    && (id in l.intents <==> id in n.intents)
    && (id in l.intents ==> SameFacts(l.intents[id], n.intents[id]))
  }

  lemma {:induction false} PlayTouches(l: Ledger, id: string, trace: seq<Event>)
    requires forall e :: e in trace ==> !e.Detect?
    ensures Untouched(l, Play(l, id, trace), id)
    decreases |trace|
  {
    if trace != [] {
      var m := Effect(l, id, trace[0]);
      assert trace[0] in trace;
      EffectTouches(l, id, trace[0]);
      PlayTouches(m, id, trace[1..]);
    }
  }

  lemma EffectTouches(l: Ledger, id: string, e: Event)
    requires !e.Detect?
    ensures Untouched(l, Effect(l, id, e), id)
  {
    var n := Effect(l, id, e);
    assert n.intents - {id} == l.intents - {id};
    assert n.reservations - {id} == l.reservations - {id};
  }

  /** A run changes nothing but its own intent's record and hold: no other intent, no revenue. A new intent is
      recorded with its destination and its value in dollars, unless it is over the cap, bound for a chain without
      wiring, or could not be recorded; an intent already recorded keeps the chain and the value it was recorded with. */
  lemma RecordedFacts(c: Config, l: Ledger, i: Intent, w: World)
    ensures var n := After(c, l, i, w);
            && n.intents - {i.id} == l.intents - {i.id} && n.reservations - {i.id} == l.reservations - {i.id}
            && n.revenue == l.revenue && n.budget == l.budget
            && (i.id in l.intents ==> i.id in n.intents && SameFacts(n.intents[i.id], l.intents[i.id]))
            && (i.id !in l.intents ==>
                  if w.usd <= w.maxNotionalUsd && i.dstChain in c.chains && w.recordOk
                  then i.id in n.intents && n.intents[i.id].chain == i.dstChain && n.intents[i.id].amountUsd == w.usd
                  else i.id !in n.intents)
  {
    var r := Execute(c, l, i, w);
    LegalLifecycle(c, l, i, w);
    LegalNotStuck(Start, r);
    if w.usd <= w.maxNotionalUsd && i.dstChain in c.chains && w.recordOk {
      assert r.trace == [Detect(i.dstChain, w.usd)] + r.trace[1..];
      DetectsOnce(Tracked, r.trace[1..]);
      var m := l.Detect(i.id, i.dstChain, w.usd);
      assert m.intents - {i.id} == l.intents - {i.id};
      PlayTouches(m, i.id, r.trace[1..]);
    } else {
      assert forall e :: e in r.trace ==> !e.Detect?;
      PlayTouches(l, i.id, r.trace);
    }
  }
}
