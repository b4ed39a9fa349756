/** What a fill on each lane has been through before it is sent (deBridge, Mayan, the Universal Operator, Solana),
    and sending a finished intent again. */
module Fills {
  import opened Common
  import opened Guards
  import opened Builders
  import opened Wallet
  import opened Lifecycle
  import opened LifecycleProofs
  import S = Settlement

  // Live, capped, wired, recorded and reserved; outside foreign exclusivity; claimable if it is an Across fill.
  ghost predicate Entitled(c: Config, l: Ledger, i: Intent, w: World) {
    && !c.dryRun && w.usd <= w.maxNotionalUsd && w.recordOk && l.CanReserve(i.id, w.usd)
    && i.dstChain in c.chains && c.chains[i.dstChain].rpcParses
    && (i.IsAcross() ==> c.chains[i.dstChain].adapter != 0)
    && (c.chains[i.dstChain].operator == 0 ==>
          && OutsideExclusivity(c, i, w.clockExclusive)
          && (i.IsAcross() ==> AcrossClaimable(i)))
  }

  // deBridge orders: not reserved for another taker, no call to execute, a real spread, the balance to pay.
  predicate DebridgeSound(c: Config, i: Intent, w: World) {
    && !ReservedForOther(i.allowedTaker, TrimPrefix(c.signer, "0x"))
    && !CarriesCall(i.externalCall)
    && (match (ParseAmount(i.giveAmount), ParseAmount(i.takeAmount))
        case (Some(g), Some(t)) => t <= 1000 * g ==> 0 < t < g && 10_000 * (g - t) >= g
        case _ => true)
    && BalanceCovers(i.dstToken, i.takeAmount, w.debridgeBalance)
  }

  // The node's estimate must be green; an insufficient balance that reads as a revert is not, for deBridge.
  predicate EstimateGreen(i: Intent, w: World) {
    w.estimate.Gas? || (w.estimate.FundsLow? && !(i.IsDebridge() && w.estimate.mentionsRevert))
  }

  ghost predicate DlnAdmissible(c: Config, l: Ledger, i: Intent, w: World) {
    && Entitled(c, l, i, w) && i.IsDebridge() && !i.IsMayan() && !SolanaTakes(i)
    && DebridgeSound(c, i, w)
    && w.calldataOk && i.dstChain in DLN_DESTINATIONS && EstimateGreen(i, w) && ValueCovered(w)
  }

  // A Mayan fill can be claimed back, and is half a minute from its deadline.
  predicate MayanClaimable(i: Intent, w: World) {
    && i.recipient != "" && i.recipient != ZERO_ADDRESS
    && i.mayanOrderId.Some? && |i.mayanOrderId.value| >= 66
    && (i.deadline.Some? ==> i.deadline.value >= Min(w.clockMayan + 30, U64_LIMIT - 1))
  }

  ghost predicate MayanAdmissible(c: Config, l: Ledger, i: Intent, w: World) {
    && Entitled(c, l, i, w) && i.IsMayan() && !SolanaTakes(i)
    && (i.IsDebridge() ==> DebridgeSound(c, i, w))
    && MayanClaimable(i, w)
    && i.mayanAuctionMode == Some(0)
    && w.calldataOk && EstimateGreen(i, w) && ValueCovered(w)
  }

  lemma RefusalExact(c: Config, i: Intent, w: World)
    requires i.IsDebridge()
    ensures DebridgeRefusal(c, i, w).None? <==> DebridgeSound(c, i, w)
  {
    DebridgeSpreadExact(i.giveAmount, i.takeAmount);
    ChecksRead(c, i, w);
  }

  // Neither protocol is looked up on the origin chain.
  lemma OwnLaneComplete(c: Config, i: Intent, w: World)
    requires i.dstChain in c.chains && (i.IsDebridge() || i.IsMayan())
    ensures Completed(c, i, w) == Some(i) && BypassesSpinner(c, i) && AcrossRefusal(c, i, w).None?
    ensures GateAnswer(i, w).IsGreen() <==> EstimateGreen(i, w)
  {
  }

  lemma OwnLaneSubmission(c: Config, l: Ledger, i: Intent, w: World)
    requires Enters(c, l, i, w) && (i.IsDebridge() || i.IsMayan())
    ensures var s := Submission(Execute(c, l, i, w).trace);
            if !Approved(c, i, i, w) then s == None
            else if SolanaTakes(i) then
              s == if SolanaClear(c, SolanaLaneOf(i), i, w) then Some(Send(SolanaLaneOf(i), i, None)) else None
            else s == if EvmClear(c, i, w) then Some(Send(EvmLane(c, i), i, None)) else None
  {
    ExecuteSubmission(c, l, i, w);
    OwnLaneComplete(c, i, w);
    CheckSubmission(c, i, w);
    DispatchSubmission(c, i, w);
  }

  /** A deBridge order is fulfilled on an EVM chain exactly when every one of these conditions holds. */
  lemma DlnFillIff(c: Config, l: Ledger, i: Intent, w: World)
    requires i.IsDebridge() && !i.IsMayan()
    ensures Submission(Execute(c, l, i, w).trace) == Some(Send(DlnFulfill, i, None)) <==> DlnAdmissible(c, l, i, w)
  {
    if Enters(c, l, i, w) {
      OwnLaneSubmission(c, l, i, w);
      OwnLaneComplete(c, i, w);
      ChecksRead(c, i, w);
      RefusalExact(c, i, w);
    } else {
      ExecuteSubmission(c, l, i, w);
    }
  }

  /** A Mayan Swift fill is sent exactly when every one of these conditions holds: among them auction mode zero,
      a full order id to claim with, and half a minute to the deadline. */
  lemma MayanFillIff(c: Config, l: Ledger, i: Intent, w: World)
    requires i.IsMayan()
    ensures Submission(Execute(c, l, i, w).trace) == Some(Send(MayanSwift, i, None)) <==> MayanAdmissible(c, l, i, w)
  {
    if Enters(c, l, i, w) {
      OwnLaneSubmission(c, l, i, w);
      OwnLaneComplete(c, i, w);
      ChecksRead(c, i, w);
      if i.IsDebridge() {
        RefusalExact(c, i, w);
      }
    } else {
      ExecuteSubmission(c, l, i, w);
    }
  }

  // ---- the lanes behind the spinner's gates, and the Solana lanes ----

  // Outside the lanes that bypass it, the spinner's test run must pay and a proof must be there.
  predicate GatesPassed(c: Config, i: Intent, w: World)
    requires i.dstChain in c.chains
  {
    || c.chains[i.dstChain].operator == 0 || i.IsDebridge() || i.IsMayan()
    || (w.testRun.Some? && w.testRun.value.profitable && w.testRun.value.netProfitUsd >= c.threshold && ProofHeld(i, w))
  }

  // The prover knows the deposit by its id, by its transaction, or by the intent.
  predicate ProofHeld(i: Intent, w: World) {
    || (i.depositId.Some? && DecimalText(i.depositId.value) in w.proofs)
    || (i.txHash !in {"", "0x"} && i.txHash in w.proofs)
    || i.id in w.proofs
  }

  lemma ProofRead(i: Intent, w: World)
    ensures ProofFound(i, w) <==> ProofHeld(i, w)
  {
    if i.depositId.Some? {
      assert DecimalText(i.depositId.value) in ProofKeys(i);
    }
    assert i.txHash !in {"", "0x"} ==> i.txHash in ProofKeys(i);
    assert i.id in ProofKeys(i);
  }

  // Everything up to calldata-build, for a live run working on the completed intent j.
  ghost predicate Cleared(c: Config, l: Ledger, i: Intent, j: Intent, w: World) {
    && !c.dryRun && w.usd <= w.maxNotionalUsd && w.recordOk && l.CanReserve(i.id, w.usd)
    && i.dstChain in c.chains && (i.IsAcross() ==> c.chains[i.dstChain].adapter != 0)
    && GatesPassed(c, i, w) && (i.IsDebridge() ==> DebridgeSound(c, i, w))
    && Completed(c, i, w) == Some(j)
    && (c.chains[i.dstChain].operator == 0 ==>
          && OutsideExclusivity(c, j, w.clockExclusive)
          && (j.IsAcross() ==> AcrossClaimable(j)))
    && (j.IsMayan() ==> MayanClaimable(j, w))
  }

  lemma ClearedIff(c: Config, l: Ledger, i: Intent, j: Intent, w: World)
    requires i.dstChain in c.chains && !c.dryRun
    ensures Cleared(c, l, i, j, w) <==> Enters(c, l, i, w) && Approved(c, i, j, w)
  {
    ChecksRead(c, j, w);
    ProofRead(i, w);
    if i.IsDebridge() {
      RefusalExact(c, i, w);
    }
  }

  ghost predicate SolanaAdmissible(c: Config, l: Ledger, i: Intent, lane: Lane, j: Intent, w: World) {
    && Cleared(c, l, i, j, w)
    && SolanaTakes(j) && lane == SolanaLaneOf(j)
    && Projects(lane, j, w) && w.solanaKeyOk
    && (lane == MayanFlash || lane == DlnSolana ==> w.programReady)
    && (lane == MayanSolana ==> j.mayanAuctionMode == Some(0))
  }

  lemma RunSubmission(c: Config, l: Ledger, i: Intent, w: World)
    requires Enters(c, l, i, w)
    ensures Submission(Execute(c, l, i, w).trace)
            == match Completed(c, i, w)
               case Some(j) => if Approved(c, i, j, w) then Submission(Dispatch(c, j, w).trace) else None
               case None => None
  {
    ExecuteSubmission(c, l, i, w);
    CheckSubmission(c, i, w);
  }

  /** A fill is sent on a Solana lane exactly when the live run was cleared and the lane's own needs are met, and
      then it is the completed intent, on the lane that takes it. */
  lemma SolanaFillIff(c: Config, l: Ledger, i: Intent, lane: Lane, j: Intent, w: World)
    requires OnSolana(lane)
    ensures Submission(Execute(c, l, i, w).trace) == Some(Send(lane, j, None)) <==> SolanaAdmissible(c, l, i, lane, j, w)
  {
    if Enters(c, l, i, w) {
      RunSubmission(c, l, i, w);
      if Completed(c, i, w).Some? {
        DispatchSubmission(c, Completed(c, i, w).value, w);
      }
      if !c.dryRun {
        ClearedIff(c, l, i, j, w);
      }
    } else {
      ExecuteSubmission(c, l, i, w);
    }
  }

  // What the Across checks leave of an intent for the operator.
  ghost predicate OperatorSound(i: Intent, w: World) {
    && (i.IsAcross() ==>
          Messageless(i) && EvmWallet(i) && NamesDeposit(i) && TimeLeft(i, w.clockFill))
    && RelayAddresses(i) && ResolveDepositId(i).Some?
  }

  ghost predicate OperatorAdmissible(c: Config, l: Ledger, i: Intent, w: World) {
    && Cleared(c, l, i, i, w) && c.chains[i.dstChain].operator != 0 && c.chains[i.dstChain].rpcParses
    && !i.IsDebridge() && !i.IsMayan() && !SolanaTakes(i)
    && OperatorSound(i, w)
    && w.calldataOk && (w.skipEstimate || w.estimate.Gas? || w.estimate.FundsLow?) && ValueCovered(w)
  }

  lemma OperatorRefusal(c: Config, i: Intent, w: World)
    requires i.dstChain in c.chains && !i.IsDebridge() && !i.IsMayan() && !Direct(c, i)
    ensures AcrossRefusal(c, i, w).None? && RelayAddresses(i) && ResolveDepositId(i).Some? <==> OperatorSound(i, w)
  {
    ChecksRead(c, i, w);
    DepositRead(i);
  }

  lemma OperatorChecks(c: Config, i: Intent, w: World)
    requires i.dstChain in c.chains && !c.dryRun && !i.IsDebridge() && !i.IsMayan() && !Direct(c, i)
    ensures EvmClear(c, i, w) <==>
            && OperatorSound(i, w) && w.calldataOk && (w.skipEstimate || w.estimate.Gas? || w.estimate.FundsLow?)
            && ValueCovered(w) && c.chains[i.dstChain].rpcParses
  {
    OperatorRefusal(c, i, w);
    assert !NativeShort(w) <==> ValueCovered(w);
  }

  /** A fill goes through the Universal Operator exactly when the spinner's test run is profitable at or above the
      threshold, a proof is there under some key, the Across checks pass, and the calldata, estimate and native
      value are in order. */
  lemma OperatorFillIff(c: Config, l: Ledger, i: Intent, w: World)
    ensures var s := Submission(Execute(c, l, i, w).trace);
            && (s.Some? && s.value.lane == Operator <==> OperatorAdmissible(c, l, i, w))
            && (OperatorAdmissible(c, l, i, w) ==> s == Some(Send(Operator, i, Some(c.chains[i.dstChain].operator))))
  {
    if Enters(c, l, i, w) {
      RunSubmission(c, l, i, w);
      if Completed(c, i, w).Some? {
        var j := Completed(c, i, w).value;
        DispatchSubmission(c, j, w);
        if !c.dryRun {
          ClearedIff(c, l, i, j, w);
          if !j.IsDebridge() && !j.IsMayan() && !Direct(c, j) {
            OperatorChecks(c, j, w);
          }
        }
      }
    } else {
      ExecuteSubmission(c, l, i, w);
    }
  }

  // ---- running a finished intent again ----

  // A Mayan order on Solana, complete in every field its guards and its projection look at: a 32-byte order id, a
  // recipient key, state and vault accounts and a minimum amount, all readable as the transaction needs them.
  function SolanaOrder(chain: nat): Intent {
    PlainIntent(chain).(protocol := "mayan", srcChain := SOLANA_CHAIN, recipient := SOME_KEY, depositor := SOME_KEY,
                        mayanOrderId := Some("0x" + seq(64, _ => '1')), mayanAuctionMode := Some(0),
                        stateAccount := Some(SOME_KEY), vaultAccount := Some(SOME_KEY), minAmountOut := Some(1))
  }

  lemma OrderKind(k: nat)
    ensures var i := SolanaOrder(k); i.IsMayan() && !i.IsAcross() && !i.IsDebridge() && !i.IsFlash() && i.FromSolana()
  {
    var p := Lower(SolanaOrder(k).protocol);
    assert p == "mayan";
    assert StartsWith(p[0..], "mayan");
    LongerNotContained(p, "across");
    LacksCharacter(p, "debridge");
    LacksCharacter(p, "dln");
    LacksCharacter(p, "flash");
  }

  lemma OrderProjects(k: nat, w: World)
    ensures Projects(MayanSolana, SolanaOrder(k), w) && MayanClaimable(SolanaOrder(k), w)
  {
    assert SOME_KEY[0] == 'S';
    assert SolanaKey(SOME_KEY);
    assert ZERO_ADDRESS[0] == '0';
  }

  lemma ClaimedOrderSent(c: Config, k: nat, l: Ledger)
    requires !c.dryRun && k in c.chains && l == Ledger(1.0, map["x" := Record(Claimed, k, 1.0, None)], map[], map[])
    ensures Submission(Execute(c, l, SolanaOrder(k), CalmWorld(c)).trace) == Some(Send(MayanSolana, SolanaOrder(k), None))
  {
    var i, w := SolanaOrder(k), CalmWorld(c);
    OrderKind(k);
    OrderProjects(k, w);
    assert Total(l.reservations) == 0.0;
    assert Completed(c, i, w) == Some(i);
    SolanaFillIff(c, l, i, MayanSolana, i, w);
  }

  /** No run submits anything for an intent already in a terminal state exactly when the controller is dry or the
      destination is not wired: on every wired chain a live controller sends an intent it has already claimed. */
  lemma TerminalNotResentIff(c: Config, chain: nat)
    ensures (forall l: Ledger, i: Intent, w: World ::
               i.dstChain == chain && i.id in l.intents && l.Frozen(i.id) ==> Submission(Execute(c, l, i, w).trace) == None)
            <==> c.dryRun || chain !in c.chains
  {
    if c.dryRun || chain !in c.chains {
      forall l: Ledger, i: Intent, w: World | i.dstChain == chain && i.id in l.intents && l.Frozen(i.id)
        ensures Submission(Execute(c, l, i, w).trace) == None
      {
        if Submission(Execute(c, l, i, w).trace).Some? {
          S.SubmittedEnters(c, l, i, w);
        }
      }
    } else {
      var l := Ledger(1.0, map["x" := Record(Claimed, chain, 1.0, None)], map[], map[]);
      ClaimedOrderSent(c, chain, l);
      var i := SolanaOrder(chain);
      assert i.dstChain == chain && i.id in l.intents && l.Frozen(i.id);
    }
  }
}
