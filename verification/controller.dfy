/** The lambda controller as the object it is: it updates the wallet and the outcome log step by step. */
module Controller {
  import opened Common
  import opened Guards
  import opened Wallet
  import opened Lifecycle
  import opened Claims
  import L = Lifecycle
  import P = LifecycleProofs

  datatype LogRow = LogRow(intentId: string, decision: Decision, txHash: Option<string>)

  // The rows a trace adds to the log.
  function RowsFor(id: string, trace: seq<Event>): seq<LogRow>
    decreases |trace|
  {
    if trace == [] then []
    else
      (if trace[0].Row? then [LogRow(id, trace[0].decision, trace[0].rowTx)] else []) + RowsFor(id, trace[1..])
  }

  function Logged(logging: bool, id: string, trace: seq<Event>): seq<LogRow> {
    if logging then RowsFor(id, trace) else []
  }

  function ExecutedIn(rows: seq<LogRow>): seq<LogRow>
    decreases |rows|
  {
    if rows == [] then []
    else (if rows[0].decision == Executed then [rows[0]] else []) + ExecutedIn(rows[1..])
  }

  lemma ExecutedInStep(r: LogRow, rest: seq<LogRow>)
    ensures ExecutedIn([r] + rest) == (if r.decision == Executed then [r] else []) + ExecutedIn(rest)
  {
    assert ([r] + rest)[1..] == rest;
  }

  function ExecutedRowsAs(id: string, hashes: seq<Option<string>>): seq<LogRow> {
    if hashes == [] then [] else [LogRow(id, Executed, hashes[0])] + ExecutedRowsAs(id, hashes[1..])
  }

  lemma RowsAsStep(id: string, h: Option<string>, rest: seq<Option<string>>)
    ensures ExecutedRowsAs(id, [h] + rest) == [LogRow(id, Executed, h)] + ExecutedRowsAs(id, rest)
  {
    assert ([h] + rest)[1..] == rest;
  }

  // The log's "executed" rows are the trace's.
  lemma {:induction false} ExecutedInLog(id: string, trace: seq<Event>)
    ensures ExecutedIn(RowsFor(id, trace)) == ExecutedRowsAs(id, P.ExecutedRows(trace))
    decreases |trace|
  {
    if trace != [] {
      ExecutedInLog(id, trace[1..]);
      var rest, hashes := RowsFor(id, trace[1..]), P.ExecutedRows(trace[1..]);
      if trace[0].Row? {
        var row := LogRow(id, trace[0].decision, trace[0].rowTx);
        assert RowsFor(id, trace) == [row] + rest;
        ExecutedInStep(row, rest);
        RowsAsStep(id, trace[0].rowTx, hashes);
        assert P.ExecutedRows(trace) == if row.decision == Executed then [row.txHash] + hashes else hashes;
      } else {
        assert RowsFor(id, trace) == rest;
        assert P.ExecutedRows(trace) == hashes;
      }
    }
  }

  lemma {:induction false} RowsConcat(id: string, s: seq<Event>, t: seq<Event>)
    ensures RowsFor(id, s + t) == RowsFor(id, s) + RowsFor(id, t)
    decreases |s|
  {
    if s == [] {
      assert s + t == t;
    } else {
      assert (s + t)[1..] == s[1..] + t;
      RowsConcat(id, s[1..], t);
      var row := if s[0].Row? then [LogRow(id, s[0].decision, s[0].rowTx)] else [];
      assert row + (RowsFor(id, s[1..]) + RowsFor(id, t)) == (row + RowsFor(id, s[1..])) + RowsFor(id, t);
    }
  }

  lemma {:induction false} PlayConcat(l: Ledger, id: string, s: seq<Event>, t: seq<Event>)
    ensures Play(l, id, s + t) == Play(Play(l, id, s), id, t)
    decreases |s|
  {
    if s == [] {
      assert s + t == t;
    } else {
      assert (s + t)[1..] == s[1..] + t;
      PlayConcat(Effect(l, id, s[0]), id, s[1..], t);
    }
  }

  /** The wallet's tables together with the outcome log. */
  datatype Ledgerbook = Ledgerbook(ledger: Ledger, rows: seq<LogRow>) {
    ghost function Played(id: string, events: seq<Event>, logging: bool): Ledgerbook {
      Ledgerbook(Play(ledger, id, events), rows + Logged(logging, id, events))
    }
  }

  lemma PlayOne(b: Ledgerbook, id: string, e: Event, logging: bool)
    ensures b.Played(id, [e], logging) ==
            Ledgerbook(Effect(b.ledger, id, e),
                       if e.Row? && logging then b.rows + [LogRow(id, e.decision, e.rowTx)] else b.rows)
  {
    assert [e][1..] == [];
    assert Play(b.ledger, id, [e]) == Play(Effect(b.ledger, id, e), id, []);
    var row := if e.Row? then [LogRow(id, e.decision, e.rowTx)] else [];
    assert RowsFor(id, [e]) == row + RowsFor(id, []) == row;
    assert b.rows + [] == b.rows;
  }

  lemma LoggedConcat(logging: bool, id: string, s: seq<Event>, t: seq<Event>)
    ensures Logged(logging, id, s + t) == Logged(logging, id, s) + Logged(logging, id, t)
  {
    RowsConcat(id, s, t);
  }

  lemma PlayBoth(b: Ledgerbook, past: seq<Event>, id: string, s: seq<Event>, t: seq<Event>, logging: bool)
    ensures b.Played(id, s, logging).Played(id, t, logging) == b.Played(id, s + t, logging)
    ensures past + s + t == past + (s + t)
  {
    PlayConcat(b.ledger, id, s, t);
    LoggedConcat(logging, id, s, t);
    var x, y := Logged(logging, id, s), Logged(logging, id, t);
    assert b.rows + x + y == b.rows + (x + y);
  }

  lemma PlayNothing(b: Ledgerbook, past: seq<Event>, id: string, logging: bool)
    ensures b.Played(id, [], logging) == b && past + [] == past
  {
    assert b.rows + [] == b.rows;
  }

  lemma PlayThree(b: Ledgerbook, past: seq<Event>, id: string, e: Event, f: Event, r: Run, logging: bool)
    ensures b.Played(id, [e] + [f], logging).Played(id, r.trace, logging) == b.Played(id, Then(e, Then(f, r)).trace, logging)
    ensures past + ([e] + [f]) + r.trace == past + Then(e, Then(f, r)).trace
  {
    PlayBoth(b, past, id, [e] + [f], r.trace, logging);
    assert [e] + [f] + r.trace == Then(e, Then(f, r)).trace;
  }

  class LambdaController {
    const config: Config
    const wallet: WalletManager
    const logging: bool
    var rows: seq<LogRow>
    ghost var trace: seq<Event>

    constructor (config: Config, wallet: WalletManager, logging: bool)
      ensures this.config == config && this.wallet == wallet && this.logging == logging
      ensures rows == [] && trace == []
    {
      this.config, this.wallet, this.logging := config, wallet, logging;
      rows, trace := [], [];
    }

    function Snapshot(): (s: Ledgerbook)
      reads this, wallet
    {
      Ledgerbook(wallet.Contents(), rows)
    }

    // Since `before`, exactly `events` happened to intent `id`, and the wallet and the log show it.
    ghost predicate Did(before: Ledgerbook, past: seq<Event>, id: string, events: seq<Event>)
      reads this, wallet
    {
      && trace == past + events
      && Snapshot() == before.Played(id, events, logging)
    }

    method Transition(id: string, next: State, tx: Option<string>)
      modifies this, wallet
      ensures Did(old(Snapshot()), old(trace), id, [Move(next, tx)])
    {
      var ok := wallet.Transition(id, next, tx);
      trace := trace + [Move(next, tx)];
      PlayOne(old(Snapshot()), id, Move(next, tx), logging);
    }

    method Release(id: string)
      modifies this, wallet
      ensures Did(old(Snapshot()), old(trace), id, [Unhold])
    {
      wallet.Release(id);
      trace := trace + [Unhold];
      PlayOne(old(Snapshot()), id, Unhold, logging);
    }

    method AppendOutcome(id: string, decision: Decision, tx: Option<string>)
      modifies this
      ensures Did(old(Snapshot()), old(trace), id, [Row(decision, tx)])
    {
      if logging {
        rows := rows + [LogRow(id, decision, tx)];
      }
      trace := trace + [Row(decision, tx)];
      PlayOne(old(Snapshot()), id, Row(decision, tx), logging);
    }

    method Submit(lane: Lane, i: Intent, target: Option<nat>)
      modifies this
      ensures Did(old(Snapshot()), old(trace), i.id, [Send(lane, i, target)])
    {
      trace := trace + [Send(lane, i, target)];
      PlayOne(old(Snapshot()), i.id, Send(lane, i, target), logging);
    }

    method RecordDetected(id: string, chain: nat, usd: real)
      modifies this, wallet
      ensures Did(old(Snapshot()), old(trace), id, [Detect(chain, usd)])
    {
      wallet.RecordDetected(id, chain, usd);
      trace := trace + [Detect(chain, usd)];
      PlayOne(old(Snapshot()), id, Detect(chain, usd), logging);
    }

    // Transition to an end state and free the hold: how almost every early exit leaves.
    method Abandon(id: string, end: State)
      modifies this, wallet
      ensures Did(old(Snapshot()), old(trace), id, [Move(end, None), Unhold])
    {
      Transition(id, end, None);
      Release(id);
      PlayBoth(old(Snapshot()), old(trace), id, [Move(end, None)], [Unhold], logging);
    }

    method Skip(id: string, reason: Reason) returns (o: Outcome)
      modifies this, wallet
      ensures o == L.Skip(reason).outcome
      ensures Did(old(Snapshot()), old(trace), id, L.Skip(reason).trace)
    {
      Abandon(id, SkipUnprofitable);
      o := Skipped(reason);
    }

    method AwaitReceipt(i: Intent, hash: string, w: World) returns (o: Outcome)
      modifies this, wallet
      ensures o == L.AwaitReceipt(hash, w).outcome
      ensures Did(old(Snapshot()), old(trace), i.id, L.AwaitReceipt(hash, w).trace)
    {
      ghost var b, t := Snapshot(), trace;
      if w.receipt == None || !w.receipt.value.success {
        Transition(i.id, State.Reverted, Some(hash));
        Release(i.id);
        PlayBoth(b, t, i.id, [Move(State.Reverted, Some(hash))], [Unhold], logging);
        if w.receipt == None {
          return Failed(AwaitingReceipt);
        }
        AppendOutcome(i.id, ExecutedFailed, Some(hash));
        PlayBoth(b, t, i.id, [Move(State.Reverted, Some(hash)), Unhold], [Row(ExecutedFailed, Some(hash))], logging);
        assert [Move(State.Reverted, Some(hash)), Unhold] + [Row(ExecutedFailed, Some(hash))] == L.AwaitReceipt(hash, w).trace;
        return FillReverted(hash);
      }
      Transition(i.id, State.Confirmed, Some(hash));
      Release(i.id);
      PlayBoth(b, t, i.id, [Move(State.Confirmed, Some(hash))], [Unhold], logging);
      AppendOutcome(i.id, Executed, Some(hash));
      PlayBoth(b, t, i.id, [Move(State.Confirmed, Some(hash)), Unhold], [Row(Executed, Some(hash))], logging);
      assert [Move(State.Confirmed, Some(hash)), Unhold] + [Row(Executed, Some(hash))] == L.AwaitReceipt(hash, w).trace;
      return Filled(hash, w.receipt.value.gasUsed);
    }

    method Transmit(lane: Lane, i: Intent, w: World) returns (o: Outcome)
      requires i.dstChain in config.chains
      modifies this, wallet
      ensures o == L.Transmit(config, lane, i, w).outcome
      ensures Did(old(Snapshot()), old(trace), i.id, L.Transmit(config, lane, i, w).trace)
    {
      ghost var b, t := Snapshot(), trace;
      if !config.chains[i.dstChain].rpcParses {
        PlayNothing(b, t, i.id, logging);
        return Error(RpcUrl);
      }
      var send := Send(lane, i, Target(config, lane, i));
      Submit(lane, i, Target(config, lane, i));
      match w.sentHash {
        case None =>
          Abandon(i.id, State.Reverted);
          PlayBoth(b, t, i.id, [send], [Move(State.Reverted, None), Unhold], logging);
          return Failed(Submitting);
        case Some(h) =>
          Transition(i.id, PendingConfirmation, Some(h));
          PlayBoth(b, t, i.id, [send], [Move(PendingConfirmation, Some(h))], logging);
          o := AwaitReceipt(i, h, w);
          PlayThree(b, t, i.id, send, Move(PendingConfirmation, Some(h)), L.AwaitReceipt(h, w), logging);
      }
    }

    method Launch(lane: Lane, i: Intent, w: World) returns (o: Outcome)
      requires i.dstChain in config.chains
      modifies this, wallet
      ensures o == L.Launch(config, lane, i, w).outcome
      ensures Did(old(Snapshot()), old(trace), i.id, L.Launch(config, lane, i, w).trace)
    {
      ghost var b, t := Snapshot(), trace;
      if config.dryRun {
        Transition(i.id, SkipUnprofitable, None);
        AppendOutcome(i.id, DryRunRow, None);
        PlayBoth(b, t, i.id, [Move(SkipUnprofitable, None)], [Row(DryRunRow, None)], logging);
        Release(i.id);
        PlayBoth(b, t, i.id, [Move(SkipUnprofitable, None)] + [Row(DryRunRow, None)], [Unhold], logging);
        assert [Move(SkipUnprofitable, None)] + [Row(DryRunRow, None)] + [Unhold]
            == L.Launch(config, lane, i, w).trace;
        return Skipped(DryRun);
      }
      if !GateAnswer(i, w).IsGreen() {
        o := Skip(i.id, EstimateGate);
        return;
      }
      if NativeShort(w) {
        o := Skip(i.id, NativeBalance);
        return;
      }
      Transition(i.id, State.Broadcast, None);
      o := Transmit(lane, i, w);
      PlayBoth(b, t, i.id, [Move(State.Broadcast, None)], L.Transmit(config, lane, i, w).trace, logging);
    }

    method PrepareEvm(i: Intent, w: World) returns (o: Outcome)
      requires i.dstChain in config.chains
      modifies this, wallet
      ensures o == L.PrepareEvm(config, i, w).outcome
      ensures Did(old(Snapshot()), old(trace), i.id, L.PrepareEvm(config, i, w).trace)
    {
      if i.IsMayan() && i.mayanAuctionMode.GetOr(2) != 0 {
        o := Skip(i.id, AuctionMode);
        return;
      }
      match AcrossRefusal(config, i, w) {
        case Some(reason) =>
          o := Skip(i.id, reason);
          return;
        case None =>
      }
      var lane := EvmLane(config, i);
      if !CalldataBuilds(lane, i, w) {
        Abandon(i.id, CalldataError);
        return Failed(CalldataBuilding);
      }
      o := Launch(lane, i, w);
    }

    method SolanaBroadcast(lane: Lane, i: Intent, w: World) returns (o: Outcome)
      modifies this, wallet
      ensures o == L.SolanaBroadcast(lane, i, w).outcome
      ensures Did(old(Snapshot()), old(trace), i.id, L.SolanaBroadcast(lane, i, w).trace)
    {
      ghost var b, t := Snapshot(), trace;
      Transition(i.id, State.Broadcast, None);
      Submit(lane, i, None);
      PlayBoth(b, t, i.id, [Move(State.Broadcast, None)], [Send(lane, i, None)], logging);
      ghost var b1, t1 := Snapshot(), trace;
      match w.signature {
        case Some(sig) =>
          Transition(i.id, State.Confirmed, Some(sig));
          AppendOutcome(i.id, Executed, Some(sig));
          PlayBoth(b1, t1, i.id, [Move(State.Confirmed, Some(sig))], [Row(Executed, Some(sig))], logging);
          Release(i.id);
          PlayBoth(b1, t1, i.id, [Move(State.Confirmed, Some(sig))] + [Row(Executed, Some(sig))], [Unhold], logging);
          assert [Move(State.Confirmed, Some(sig))] + [Row(Executed, Some(sig))] + [Unhold] == SolanaAnswer(w).trace;
          o := Filled(sig, w.solanaUnits);
        case None =>
          Abandon(i.id, State.Reverted);
          o := Failed(Submitting);
      }
      PlayThree(b, t, i.id, Move(State.Broadcast, None), Send(lane, i, None), SolanaAnswer(w), logging);
    }

    method SolanaLane(lane: Lane, i: Intent, w: World) returns (o: Outcome)
      modifies this, wallet
      ensures o == L.SolanaLane(config, lane, i, w).outcome
      ensures Did(old(Snapshot()), old(trace), i.id, L.SolanaLane(config, lane, i, w).trace)
    {
      if (lane == MayanFlash || lane == DlnSolana) && !w.programReady {
        o := Skip(i.id, ProgramNotReady);
        return;
      }
      if lane == MayanSolana && i.mayanAuctionMode.GetOr(2) != 0 {
        o := Skip(i.id, AuctionMode);
        return;
      }
      if lane == MayanSolana && !Projects(lane, i, w) {
        Abandon(i.id, CalldataError);
        return Failed(CalldataBuilding);
      }
      if config.dryRun {
        o := Skip(i.id, DryRun);
        return;
      }
      if !Projects(lane, i, w) {
        Abandon(i.id, CalldataError);
        return Failed(CalldataBuilding);
      }
      if !w.solanaKeyOk {
        o := Skip(i.id, NoSolanaKey);
        return;
      }
      o := SolanaBroadcast(lane, i, w);
    }

    method Dispatch(i: Intent, w: World) returns (o: Outcome)
      requires i.dstChain in config.chains
      modifies this, wallet
      ensures o == L.Dispatch(config, i, w).outcome
      ensures Did(old(Snapshot()), old(trace), i.id, L.Dispatch(config, i, w).trace)
    {
      if i.IsFlash() && i.FromSolana() {
        o := SolanaLane(MayanFlash, i, w);
      } else if i.IsMayan() && i.FromSolana() {
        o := SolanaLane(MayanSolana, i, w);
      } else if i.IsDebridge() && i.ToSolana() {
        o := SolanaLane(DlnSolana, i, w);
      } else if i.IsWormhole() && !i.FromSolana() {
        o := SolanaLane(WormholeNtt, i, w);
      } else {
        o := PrepareEvm(i, w);
      }
    }

    method Assemble(i: Intent, w: World) returns (o: Outcome)
      requires i.dstChain in config.chains
      modifies this, wallet
      ensures o == L.Assemble(config, i, w).outcome
      ensures Did(old(Snapshot()), old(trace), i.id, L.Assemble(config, i, w).trace)
    {
      match ClaimRefusal(config, i, w) {
        case Some(reason) =>
          o := Skip(i.id, reason);
          return;
        case None =>
      }
      ghost var b, t := Snapshot(), trace;
      Transition(i.id, CalldataBuild, None);
      o := Dispatch(i, w);
      PlayBoth(b, t, i.id, [Move(CalldataBuild, None)], L.Dispatch(config, i, w).trace, logging);
    }

    method Complete(i: Intent, w: World) returns (o: Outcome)
      requires i.dstChain in config.chains
      modifies this, wallet
      ensures o == L.Complete(config, i, w).outcome
      ensures Did(old(Snapshot()), old(trace), i.id, L.Complete(config, i, w).trace)
    {
      match Completed(config, i, w) {
        case Some(j) =>
          o := Assemble(j, w);
        case None =>
          o := Skip(i.id, EnrichmentFailed);
      }
    }

    // Asks for a proof under each key in turn and stops at the first answer.
    method FetchProof(i: Intent, w: World) returns (proof: Option<seq<byte>>)
      ensures proof.Some? <==> ProofFound(i, w)
      ensures proof.Some? ==> exists n :: 0 <= n < |ProofKeys(i)| && ProofKeys(i)[n] in w.proofs
                                          && proof.value == w.proofs[ProofKeys(i)[n]]
                                          && forall m :: 0 <= m < n ==> ProofKeys(i)[m] !in w.proofs
    {
      var keys := ProofKeys(i);
      for n := 0 to |keys|
        invariant forall m :: 0 <= m < n ==> keys[m] !in w.proofs
      {
        if keys[n] in w.proofs {
          return Some(w.proofs[keys[n]]);
        }
      }
      return None;
    }

    method Prove(i: Intent, w: World) returns (o: Outcome)
      requires i.dstChain in config.chains
      modifies this, wallet
      ensures o == L.Prove(config, i, w).outcome
      ensures Did(old(Snapshot()), old(trace), i.id, L.Prove(config, i, w).trace)
    {
      if BypassesSpinner(config, i) {
        o := Complete(i, w);
        return;
      }
      ghost var b, t := Snapshot(), trace;
      Transition(i.id, ProofFetch, None);
      var proof := FetchProof(i, w);
      if proof.None? && !config.dryRun {
        Abandon(i.id, ProofMissing);
        PlayBoth(b, t, i.id, [Move(ProofFetch, None)], [Move(ProofMissing, None), Unhold], logging);
        return Failed(ProofFetching);
      }
      o := Complete(i, w);
      PlayBoth(b, t, i.id, [Move(ProofFetch, None)], L.Complete(config, i, w).trace, logging);
    }

    method Screen(i: Intent, w: World) returns (o: Outcome)
      requires i.dstChain in config.chains
      modifies this, wallet
      ensures o == L.Screen(config, i, w).outcome
      ensures Did(old(Snapshot()), old(trace), i.id, L.Screen(config, i, w).trace)
    {
      match DebridgeRefusal(config, i, w) {
        case Some(reason) =>
          o := Skip(i.id, reason);
        case None =>
          o := Prove(i, w);
      }
    }

    method ProfitGate(i: Intent, w: World) returns (o: Outcome)
      requires i.dstChain in config.chains
      modifies this, wallet
      ensures o == L.ProfitGate(config, i, w).outcome
      ensures Did(old(Snapshot()), old(trace), i.id, L.ProfitGate(config, i, w).trace)
    {
      if !BypassesSpinner(config, i) {
        if w.testRun.None? {
          if !config.dryRun {
            Abandon(i.id, SkipUnprofitable);
            return Failed(SpinnerTestRun);
          }
        } else if !w.testRun.value.profitable || w.testRun.value.netProfitUsd < config.threshold {
          ghost var b, t := Snapshot(), trace;
          Abandon(i.id, SkipUnprofitable);
          AppendOutcome(i.id, SkipUnprofitableRow, None);
          PlayBoth(b, t, i.id, [Move(SkipUnprofitable, None), Unhold], [Row(SkipUnprofitableRow, None)], logging);
          assert [Move(SkipUnprofitable, None), Unhold] + [Row(SkipUnprofitableRow, None)]
              == L.ProfitGate(config, i, w).trace;
          return Skipped(if w.testRun.value.profitable then BelowThreshold else Unprofitable);
        }
      }
      o := Screen(i, w);
    }

    method Check(i: Intent, w: World) returns (o: Outcome)
      requires i.dstChain in config.chains
      modifies this, wallet
      ensures o == L.Check(config, i, w).outcome
      ensures Did(old(Snapshot()), old(trace), i.id, L.Check(config, i, w).trace)
    {
      if i.IsAcross() && config.chains[i.dstChain].adapter == 0 {
        o := Skip(i.id, NoSpokePool);
        return;
      }
      ghost var b, t := Snapshot(), trace;
      Transition(i.id, ProfitabilityCheck, None);
      o := ProfitGate(i, w);
      PlayBoth(b, t, i.id, [Move(ProfitabilityCheck, None)], L.ProfitGate(config, i, w).trace, logging);
    }

    method Admit(i: Intent, w: World) returns (o: Outcome)
      requires i.dstChain in config.chains
      modifies this, wallet
      ensures o == L.Admit(config, old(wallet.Contents()), i, w).outcome
      ensures Did(old(Snapshot()), old(trace), i.id, L.Admit(config, old(wallet.Contents()), i, w).trace)
    {
      if config.dryRun {
        o := Check(i, w);
        return;
      }
      ghost var b, t := Snapshot(), trace;
      var held := wallet.Reserve(i.id, w.usd);
      if !held {
        assert Snapshot() == b;
        Transition(i.id, SkipUnprofitable, None);
        return Skipped(ReserveFailed);
      }
      trace := trace + [Hold(w.usd)];
      PlayOne(b, i.id, Hold(w.usd), logging);
      o := Check(i, w);
      PlayBoth(b, t, i.id, [Hold(w.usd)], L.Check(config, i, w).trace, logging);
    }

    /** One full run. Everything it does to the wallet and the log, and its verdict, is the script's. */
    method LambdaExecute(i: Intent, w: World) returns (o: Outcome)
      modifies this, wallet
      ensures o == Execute(config, old(wallet.Contents()), i, w).outcome
      ensures Did(old(Snapshot()), old(trace), i.id, Execute(config, old(wallet.Contents()), i, w).trace)
      // no leak, one "executed" row per confirmed fill, a legal path
      ensures i.id !in old(wallet.reservations) && o != Error(RpcUrl) ==> wallet.reservations == old(wallet.reservations)
      ensures old(rows) <= rows
      ensures logging ==> ExecutedIn(rows[|old(rows)|..]) == if o.Filled? then [LogRow(i.id, Executed, Some(o.txHash))] else []
      ensures old(trace) <= trace && P.Legal(P.Start, Run(trace[|old(trace)|..], o))
    {
      ghost var b, t := Snapshot(), trace;
      o := RunScript(i, w);
      ghost var r := Execute(config, b.ledger, i, w);
      P.BudgetRestored(config, b.ledger, i, w);
      P.LegalLifecycle(config, b.ledger, i, w);
      P.ExecutedRowIffFilled(config, b.ledger, i, w);
      ExecutedInLog(i.id, r.trace);
      if o.Filled? {
        RowsAsStep(i.id, Some(o.txHash), []);
      }
      assert trace[|t|..] == r.trace && rows[|b.rows|..] == Logged(logging, i.id, r.trace);
    }

    method RunScript(i: Intent, w: World) returns (o: Outcome)
      modifies this, wallet
      ensures o == Execute(config, old(wallet.Contents()), i, w).outcome
      ensures Did(old(Snapshot()), old(trace), i.id, Execute(config, old(wallet.Contents()), i, w).trace)
    {
      ghost var b, t := Snapshot(), trace;
      if w.usd > w.maxNotionalUsd {
        AppendOutcome(i.id, SkipNotionalCap, None);
        return Skipped(NotionalCap);
      }
      if i.dstChain !in config.chains {
        PlayNothing(b, t, i.id, logging);
        return Skipped(NoWiring);
      }
      if !w.recordOk {
        PlayNothing(b, t, i.id, logging);
        return Error(Fault.RecordDetected);
      }
      RecordDetected(i.id, i.dstChain, w.usd);
      o := Admit(i, w);
      AdmitIgnoresRecord(config, b.ledger, i, w);
      PlayBoth(b, t, i.id, [Detect(i.dstChain, w.usd)], L.Admit(config, b.ledger, i, w).trace, logging);
    }

    // ---- claims ----

    method IsListed(id: string, route: Route) returns (listed: bool)
      ensures listed ==> Claimable(wallet.Contents(), id, route)
      ensures |wallet.Contents().InState(State.Confirmed)| <= LIST_LIMIT
              && |wallet.Contents().InState(State.ClaimPending)| <= LIST_LIMIT
              ==> (listed <==> Claimable(wallet.Contents(), id, route))
    {
      var confirmed := wallet.ListIntents(State.Confirmed, LIST_LIMIT);
      ListingComplete(wallet.Contents(), State.Confirmed, LIST_LIMIT, confirmed);
      listed := id in confirmed;
      if route.ViaDebridge? {
        var pending := wallet.ListIntents(State.ClaimPending, LIST_LIMIT);
        ListingComplete(wallet.Contents(), State.ClaimPending, LIST_LIMIT, pending);
        listed := listed || id in pending;
      }
    }

    method LambdaClaim(id: string, w: ClaimWorld) returns (o: ClaimOutcome, listed: bool, ghost chain: nat)
      modifies wallet
      ensures Possible(old(wallet.Contents()), Call(id, ViaOperator, chain, listed, w))
      ensures o == OperatorClaim(config, chain, listed, w).outcome
      ensures wallet.Contents() == PlayClaim(old(wallet.Contents()), id, OperatorClaim(config, chain, listed, w).trace)
      ensures wallet.revenue == if GoesThrough(config, Call(id, ViaOperator, chain, listed, w))
                                then old(wallet.revenue)[id := w.feeUsd] else old(wallet.revenue)
    {
      listed, chain := false, 0;
      if !w.listOk {
        return ClaimError, listed, chain;
      }
      listed := IsListed(id, ViaOperator);
      if !listed {
        return NotEligible, listed, chain;
      }
      var dst := wallet.intents[id].chain;
      chain := dst;
      if dst !in config.chains {
        return ClaimError, listed, chain;
      }
      if config.dryRun {
        return NotEligible, listed, chain;
      }
      if !config.chains[dst].rpcParses {
        return ClaimError, listed, chain;
      }
      if w.sentHash.None? {
        return ClaimFailed, listed, chain;
      }
      var hash := w.sentHash.value;
      ghost var l := wallet.Contents();
      ghost var t := OperatorClaim(config, chain, listed, w).trace;
      PlayTail(l, id, t);
      if w.receipt != Some(true) {
        return ClaimFailed, listed, chain;
      }
      wallet.RecordRevenue(id, w.feeUsd);
      PlayTail(l, id, t[1..]);
      ghost var l1 := wallet.Contents();
      var moved := wallet.Transition(id, Claimed, Some(hash));
      PlayTail(l1, id, t[2..]);
      return ClaimDone(hash, w.feeUsd), listed, chain;
    }

    method LambdaClaimDebridge(id: string, chain: nat, w: ClaimWorld) returns (o: ClaimOutcome, listed: bool)
      modifies wallet
      ensures Possible(old(wallet.Contents()), Call(id, ViaDebridge, chain, listed, w))
      ensures o == DebridgeClaim(config, chain, listed, w).outcome
      ensures wallet.Contents() == PlayClaim(old(wallet.Contents()), id, DebridgeClaim(config, chain, listed, w).trace)
      ensures wallet.revenue == if GoesThrough(config, Call(id, ViaDebridge, chain, listed, w)) && w.feeUsd > 0.0
                                then old(wallet.revenue)[id := w.feeUsd] else old(wallet.revenue)
    {
      listed := false;
      if !w.listOk {
        return ClaimError, listed;
      }
      listed := IsListed(id, ViaDebridge);
      if !listed || chain !in config.chains || config.dryRun {
        return NotEligible, listed;
      }
      if !w.contractKnown || !w.calldataOk {
        return ClaimFailed, listed;
      }
      if !config.chains[chain].rpcParses {
        return ClaimError, listed;
      }
      if w.sentHash.None? {
        return ClaimFailed, listed;
      }
      var hash := w.sentHash.value;
      ghost var l := wallet.Contents();
      ghost var t := DebridgeClaim(config, chain, listed, w).trace;
      PlayTail(l, id, t);
      var moved := wallet.Transition(id, State.ClaimPending, None);
      PlayTail(l, id, t[1..]);
      ghost var l1 := wallet.Contents();
      PlayTail(l1, id, t[2..]);
      if w.receipt != Some(true) {
        moved := wallet.Transition(id, State.Confirmed, None);
        return ClaimFailed, listed;
      }
      if w.feeUsd > 0.0 {
        wallet.RecordRevenue(id, w.feeUsd);
        ghost var l2 := wallet.Contents();
        PlayTail(l2, id, t[3..]);
      }
      moved := wallet.Transition(id, Claimed, Some(hash));
      return ClaimDone(hash, w.feeUsd), listed;
    }
  }

  lemma AdmitIgnoresRecord(c: Config, l: Ledger, i: Intent, w: World)
    requires i.dstChain in c.chains
    ensures L.Admit(c, Play(l, i.id, [Detect(i.dstChain, w.usd)]), i, w) == L.Admit(c, l, i, w)
  {
    assert [Detect(i.dstChain, w.usd)][1..] == [];
    assert Play(l, i.id, [Detect(i.dstChain, w.usd)]) == Play(l.Detect(i.id, i.dstChain, w.usd), i.id, []);
  }
}
