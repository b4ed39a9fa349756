/** What the completed intent is: the lookup of a deposit undoes whatever the event stream left out of it. */
module Enrichment {
  import opened Common
  import opened Guards
  import opened Wallet
  import opened Lifecycle
  import opened LifecycleProofs

  predicate BlankText(text: string) { text == "" || text == ZERO_ADDRESS }

  // `i` is `d` with any of the nine deposit fields left out.
  predicate LeftOut(i: Intent, d: Intent) {
    && i == d.(outputAmount := i.outputAmount, fillDeadline := i.fillDeadline, exclusivityDeadline := i.exclusivityDeadline,
               exclusiveRelayer := i.exclusiveRelayer, dstToken := i.dstToken, recipient := i.recipient,
               depositor := i.depositor, depositId := i.depositId, message := i.message)
    && (i.outputAmount == d.outputAmount || i.outputAmount == None)
    && (i.fillDeadline == d.fillDeadline || i.fillDeadline == None)
    && (i.exclusivityDeadline == d.exclusivityDeadline || i.exclusivityDeadline == None)
    && (i.exclusiveRelayer == d.exclusiveRelayer || i.exclusiveRelayer == None || i.exclusiveRelayer == Some("0x"))
    && (i.dstToken == d.dstToken || BlankText(i.dstToken))
    && (i.recipient == d.recipient || BlankText(i.recipient))
    && (i.depositor == d.depositor || BlankText(i.depositor))
    && (i.depositId == d.depositId || i.depositId == None)
    && (i.message == d.message || i.message == None)
  }

  // The deposit as it was made, read back in full.
  predicate Carries(r: Relay, d: Intent) {
    && r.outputAmount == d.outputAmount
    && r.fillDeadline == d.fillDeadline
    && r.exclusivityDeadline == d.exclusivityDeadline
    && r.exclusiveRelayer == d.exclusiveRelayer
    && r.outputToken == Some(d.dstToken)
    && r.recipient == Some(d.recipient)
    && r.depositor == Some(d.depositor)
    && r.depositId == d.depositId
    && r.message == d.message
  }

  // The lookup answers with `r`: by the transaction if its hash is real and the node knows it, or else by the
  // deposit id, which is the intent's own or the last integer part of its id.
  predicate AnsweredBy(i: Intent, w: World, r: Relay) {
    var genuine := |i.txHash| == 66 && i.txHash[..2] == "0x";
    if genuine && w.relayFromTx.Some? then w.relayFromTx == Some(r)
    else
      var id := if i.depositId.Some? then i.depositId else CoarseId(i.id);
      id.Some? && id.value in w.relayFromDeposit && w.relayFromDeposit[id.value] == r
  }

  // A lookup is needed and possible: a direct fill of neither deBridge nor Mayan that lacks a deadline, an output
  // amount or a deposit id, from a chain with a node to ask.
  predicate AsksFor(c: Config, i: Intent)
    requires i.dstChain in c.chains
  {
    && c.chains[i.dstChain].operator == 0 && !i.IsDebridge() && !i.IsMayan()
    && !(i.fillDeadline.Some? && i.outputAmount.Some? && i.depositId.Some?)
    && i.srcChain in c.chains && c.chains[i.srcChain].rpcUrl != ""
  }

  lemma CompletedSubmission(c: Config, l: Ledger, i: Intent, w: World)
    requires i.dstChain in c.chains
    ensures var s := Submission(Execute(c, l, i, w).trace); s.Some? ==> Completed(c, i, w) == Some(s.value.intent)
  {
    ExecuteSubmission(c, l, i, w);
    CheckSubmission(c, i, w);
    if Completed(c, i, w).Some? {
      DispatchSubmission(c, Completed(c, i, w).value, w);
    }
  }

  lemma AnswerFound(i: Intent, w: World, r: Relay)
    requires AnsweredBy(i, w, r)
    ensures FindRelay(i, w) == Some(r)
  {
    assert RealTxHash(i.txHash) <==> |i.txHash| == 66 && i.txHash[..2] == "0x";
  }

  lemma GapsRefilled(i: Intent, d: Intent, r: Relay)
    requires LeftOut(i, d) && Carries(r, d)
    ensures Enriched(i, r) == d
  {
  }

  lemma SpokePoolSends(c: Config, l: Ledger, i: Intent, d: Intent, w: World)
    requires i.dstChain in c.chains
    ensures Submission(Execute(c, l, i, w).trace) == Some(Send(SpokePool, d, Some(c.chains[i.dstChain].adapter)))
            <==> SpokePoolAdmissible(c, l, i, d, w)
  {
    SpokePoolFillIff(c, l, i, w);
  }

  /** Enrichment undoes leaving out: whatever of a deposit's nine fields an event lacks, a run that looks the deposit
      up works on the deposit as it was made, so what it submits pays the deposit's recipient the deposit's amount of
      the deposit's token, and a direct SpokePool fill is sent exactly when that deposit may be filled. */
  lemma LookupRestores(c: Config, l: Ledger, i: Intent, d: Intent, r: Relay, w: World)
    requires i.dstChain in c.chains && AsksFor(c, i)
    requires LeftOut(i, d) && Carries(r, d) && AnsweredBy(i, w, r)
    ensures Completed(c, i, w) == Some(d)
    ensures var s := Submission(Execute(c, l, i, w).trace);
            && (s.Some? ==> s.value.intent == d)
            && (s == Some(Send(SpokePool, d, Some(c.chains[i.dstChain].adapter))) <==> SpokePoolAdmissible(c, l, i, d, w))
  {
    AnswerFound(i, w, r);
    GapsRefilled(i, d, r);
    assert Completed(c, i, w) == Some(d);
    CompletedSubmission(c, l, i, w);
    SpokePoolSends(c, l, i, d, w);
  }

  /** Without need or means of a lookup a run works on the intent as it came; a lookup nobody answers ends the run
      without a submission. */
  lemma WithoutLookup(c: Config, l: Ledger, i: Intent, w: World)
    requires i.dstChain in c.chains
    ensures var s := Submission(Execute(c, l, i, w).trace);
            && (!AsksFor(c, i) ==> Completed(c, i, w) == Some(i) && (s.Some? ==> s.value.intent == i))
            && (AsksFor(c, i) && (forall r :: !AnsweredBy(i, w, r)) ==> s == None)
  {
    CompletedSubmission(c, l, i, w);
    if AsksFor(c, i) && FindRelay(i, w).Some? {
      assert AnsweredBy(i, w, FindRelay(i, w).value);
    }
  }
}
