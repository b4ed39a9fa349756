/** Claiming the reward of a confirmed fill: the retry loop's state machine over arbitrary failures. */
module Claims {
  import opened Common
  import opened Wallet
  import opened Lifecycle
  import P = LifecycleProofs
  import S = Settlement
  import opened Guards

  const LIST_LIMIT: nat := 1000

  /** The answers one claim may receive. `receipt` is None when no receipt came, else its status. */
  datatype ClaimWorld = ClaimWorld(listOk: bool,
                                   contractKnown: bool,
                                   calldataOk: bool,
                                   sentHash: Option<string>,
                                   receipt: Option<bool>,
                                   feeUsd: real)

  datatype ClaimOutcome = ClaimDone(txHash: string, feeUsd: real) | NotEligible | ClaimFailed | ClaimError

  datatype ClaimEvent = Advance(to: State, tx: Option<string>) | Earn(usd: real) | SubmitClaim(hash: string)

  datatype ClaimRun = ClaimRun(trace: seq<ClaimEvent>, outcome: ClaimOutcome)

  /** A claim goes through the Universal Operator on the destination chain, or through deBridge's
      claimUnlock on the source chain. */
  datatype Route = ViaOperator | ViaDebridge

  predicate Succeeds(w: ClaimWorld) { w.sentHash.Some? && w.receipt == Some(true) }

  // ---- lambda_claim ----

  function OperatorClaim(c: Config, chain: nat, listed: bool, w: ClaimWorld): ClaimRun {
    if !w.listOk then ClaimRun([], ClaimError)
    else if !listed then ClaimRun([], NotEligible)
    else if chain !in c.chains then ClaimRun([], ClaimError)
    else if c.dryRun then ClaimRun([], NotEligible)
    else if !c.chains[chain].rpcParses then ClaimRun([], ClaimError)
    else
      match w.sentHash
      case None => ClaimRun([], ClaimFailed)
      case Some(h) =>
        if w.receipt == Some(true) then
          ClaimRun([SubmitClaim(h), Earn(w.feeUsd), Advance(Claimed, Some(h))], ClaimDone(h, w.feeUsd))
        else ClaimRun([SubmitClaim(h)], ClaimFailed)
  }

  // ---- lambda_claim_debridge ----

  function DebridgeClaim(c: Config, chain: nat, listed: bool, w: ClaimWorld): ClaimRun {
    if !w.listOk then ClaimRun([], ClaimError)
    else if !listed || chain !in c.chains || c.dryRun then ClaimRun([], NotEligible)
    else if !w.contractKnown || !w.calldataOk then ClaimRun([], ClaimFailed)
    else if !c.chains[chain].rpcParses then ClaimRun([], ClaimError)
    else
      match w.sentHash
      case None => ClaimRun([], ClaimFailed)
      case Some(h) =>
        if w.receipt == Some(true) then
          ClaimRun([SubmitClaim(h), Advance(ClaimPending, None)]
                   + (if w.feeUsd > 0.0 then [Earn(w.feeUsd)] else [])
                   + [Advance(Claimed, Some(h))],
                   ClaimDone(h, w.feeUsd))
        else ClaimRun([SubmitClaim(h), Advance(ClaimPending, None), Advance(Confirmed, None)], ClaimFailed)
  }

  function Claim(c: Config, route: Route, chain: nat, listed: bool, w: ClaimWorld): ClaimRun {
    if route.ViaOperator? then OperatorClaim(c, chain, listed, w) else DebridgeClaim(c, chain, listed, w)
  }

  // ---- effects ----

  function ClaimEffect(l: Ledger, id: string, e: ClaimEvent): Ledger {
    match e
    case Advance(s, tx) => l.Move(id, s, tx)
    case Earn(usd) => l.RecordRevenue(id, usd)
    case SubmitClaim(_) => l
  }

  function PlayClaim(l: Ledger, id: string, trace: seq<ClaimEvent>): Ledger
    decreases |trace|
  {
    if trace == [] then l else PlayClaim(ClaimEffect(l, id, trace[0]), id, trace[1..])
  }

  predicate Claimable(l: Ledger, id: string, route: Route) {
    l.StateOf(id) == Some(State.Confirmed) || (route.ViaDebridge? && l.StateOf(id) == Some(State.ClaimPending))
  }

  /** One call of a sequence; `listed` says whether the wallet's listing showed the intent. */
  datatype Call = Call(id: string, route: Route, chain: nat, listed: bool, world: ClaimWorld)

  function RunOf(c: Config, k: Call): ClaimRun { Claim(c, k.route, k.chain, k.listed, k.world) }

  function AfterCall(c: Config, l: Ledger, k: Call): Ledger { PlayClaim(l, k.id, RunOf(c, k).trace) }

  // The wallet lists an intent only if it is in a state the call accepts; an operator claim goes to the
  // destination chain of the listed record.
  predicate Possible(l: Ledger, k: Call) {
    k.listed ==> Claimable(l, k.id, k.route) && (k.route.ViaOperator? ==> k.chain == l.intents[k.id].chain)
  }

  predicate AllPossible(c: Config, l: Ledger, calls: seq<Call>)
    decreases |calls|
  {
    calls == [] || (Possible(l, calls[0]) && AllPossible(c, AfterCall(c, l, calls[0]), calls[1..]))
  }

  function AfterCalls(c: Config, l: Ledger, calls: seq<Call>): Ledger
    decreases |calls|
  {
    if calls == [] then l else AfterCalls(c, AfterCall(c, l, calls[0]), calls[1..])
  }

  function Earnings(trace: seq<ClaimEvent>): nat
    decreases |trace|
  {
    if trace == [] then 0 else (if trace[0].Earn? then 1 else 0) + Earnings(trace[1..])
  }

  function Submissions(trace: seq<ClaimEvent>): nat
    decreases |trace|
  {
    if trace == [] then 0 else (if trace[0].SubmitClaim? then 1 else 0) + Submissions(trace[1..])
  }

  /** What happened to `id` over a sequence: claims completed, revenue entries, transactions submitted. */
  datatype Tally = Tally(done: nat, earned: nat, submitted: nat)

  function TallyOf(c: Config, id: string, calls: seq<Call>): Tally
    decreases |calls|
  {
    if calls == [] then Tally(0, 0, 0)
    else
      var rest, r := TallyOf(c, id, calls[1..]), RunOf(c, calls[0]);
      if calls[0].id != id then rest
      else Tally(rest.done + (if r.outcome.ClaimDone? then 1 else 0),
                 rest.earned + Earnings(r.trace), rest.submitted + Submissions(r.trace))
  }

  // ---- one call ----

  lemma CallShape(c: Config, k: Call)
    ensures var r := RunOf(c, k);
            && Earnings(r.trace) <= (if r.outcome.ClaimDone? then 1 else 0)
            && Submissions(r.trace) == (if |r.trace| > 0 then 1 else 0)
            && (r.trace != [] ==> k.listed)
            && (r.outcome.ClaimDone? ==> r.trace != [] && Succeeds(k.world))
  {
    var r := RunOf(c, k);
    if r.trace != [] {
      Unfold(r.trace);
    }
  }

  lemma Unfold(t: seq<ClaimEvent>)
    requires 0 < |t| <= 4
    ensures Earnings(t) == (if t[0].Earn? then 1 else 0) + (if |t| > 1 && t[1].Earn? then 1 else 0)
                           + (if |t| > 2 && t[2].Earn? then 1 else 0) + (if |t| > 3 && t[3].Earn? then 1 else 0)
    ensures Submissions(t) == (if t[0].SubmitClaim? then 1 else 0) + (if |t| > 1 && t[1].SubmitClaim? then 1 else 0)
                              + (if |t| > 2 && t[2].SubmitClaim? then 1 else 0) + (if |t| > 3 && t[3].SubmitClaim? then 1 else 0)
  {
    if |t| > 1 {
      Unfold(t[1..]);
    }
  }

  // What one call does to its intent.
  ghost predicate Moved(l: Ledger, n: Ledger, id: string, r: ClaimRun) {
    && n.intents - {id} == l.intents - {id}
    && (r.trace == [] ==> n == l)
    && (r.outcome.ClaimDone? ==> n.StateOf(id) == Some(State.Claimed)
                                 && n.intents[id].txHash == Some(r.outcome.txHash)
                                 && id !in n.reservations)
    && (r.trace != [] && !r.outcome.ClaimDone? ==> n.StateOf(id) == Some(State.Confirmed))
  }

  lemma CallMoves(c: Config, l: Ledger, k: Call)
    requires Possible(l, k)
    ensures Moved(l, AfterCall(c, l, k), k.id, RunOf(c, k))
  {
    if k.route.ViaOperator? {
      OperatorMoves(c, l, k.id, k.chain, k.listed, k.world);
    } else {
      DebridgeMoves(c, l, k.id, k.chain, k.listed, k.world);
    }
  }

  lemma OperatorMoves(c: Config, l: Ledger, id: string, chain: nat, listed: bool, w: ClaimWorld)
    requires listed ==> Claimable(l, id, ViaOperator)
    ensures var r := OperatorClaim(c, chain, listed, w); Moved(l, PlayClaim(l, id, r.trace), id, r)
  {
    var t := OperatorClaim(c, chain, listed, w).trace;
    if t != [] {
      PlayTail(l, id, t);
      if |t| > 1 {
        PlayTail(l, id, t[1..]);
        PlayTail(ClaimEffect(l, id, t[1]), id, t[2..]);
      }
    }
  }

  lemma DebridgeMoves(c: Config, l: Ledger, id: string, chain: nat, listed: bool, w: ClaimWorld)
    requires listed ==> Claimable(l, id, ViaDebridge)
    ensures var r := DebridgeClaim(c, chain, listed, w); Moved(l, PlayClaim(l, id, r.trace), id, r)
  {
    var r := DebridgeClaim(c, chain, listed, w);
    if r.outcome.ClaimDone? {
      ClaimMoves(l, id, r.trace, r.outcome.txHash, w.feeUsd);
    } else if r.trace != [] {
      RollbackMoves(l, id, r.trace, w.sentHash.value);
    }
  }

  // A claim that goes through ends CLAIMED.
  lemma ClaimMoves(l: Ledger, id: string, t: seq<ClaimEvent>, h: string, fee: real)
    requires Claimable(l, id, ViaDebridge)
    requires t == [SubmitClaim(h), Advance(ClaimPending, None)]
                  + (if fee > 0.0 then [Earn(fee)] else []) + [Advance(Claimed, Some(h))]
    ensures var n := PlayClaim(l, id, t);
            && n.intents - {id} == l.intents - {id} && n.StateOf(id) == Some(State.Claimed)
            && n.intents[id].txHash == Some(h) && id !in n.reservations
  {
    var l1 := l.Move(id, State.ClaimPending, None);
    var l2 := if fee > 0.0 then l1.RecordRevenue(id, fee) else l1;
    PlayTail(l, id, t);
    PlayTail(l, id, t[1..]);
    PlayTail(l1, id, t[2..]);
    if fee > 0.0 {
      PlayTail(l2, id, t[3..]);
    }
    assert PlayClaim(l, id, t) == l2.Move(id, Claimed, Some(h));
    assert l1.intents - {id} == l.intents - {id};
    assert l2.Move(id, Claimed, Some(h)).intents - {id} == l2.intents - {id};
  }

  // A claim that submitted and failed rolls back to CONFIRMED.
  lemma RollbackMoves(l: Ledger, id: string, t: seq<ClaimEvent>, h: string)
    requires Claimable(l, id, ViaDebridge)
    requires t == [SubmitClaim(h), Advance(ClaimPending, None), Advance(State.Confirmed, None)]
    ensures var n := PlayClaim(l, id, t);
            n.intents - {id} == l.intents - {id} && n.StateOf(id) == Some(State.Confirmed)
  {
    var l1 := l.Move(id, State.ClaimPending, None);
    PlayTail(l, id, t);
    PlayTail(l, id, t[1..]);
    PlayTail(l1, id, t[2..]);
    assert PlayClaim(l, id, t) == l1.Move(id, State.Confirmed, None);
    assert l1.intents - {id} == l.intents - {id};
    assert l1.Move(id, State.Confirmed, None).intents - {id} == l1.intents - {id};
  }

  lemma PlayTail(l: Ledger, id: string, t: seq<ClaimEvent>)
    requires t != []
    ensures PlayClaim(l, id, t) == PlayClaim(ClaimEffect(l, id, t[0]), id, t[1..])
    ensures |t| == 1 ==> PlayClaim(l, id, t) == ClaimEffect(l, id, t[0])
  {
  }

  // ---- whole sequences ----

  predicate Open(s: Option<State>) { s == Some(State.Confirmed) || s == Some(State.ClaimPending) }

  lemma OtherKept(c: Config, l: Ledger, k: Call, id: string)
    requires Possible(l, k) && k.id != id
    ensures AfterCall(c, l, k).StateOf(id) == l.StateOf(id)
  {
    CallMoves(c, l, k);
    var n := AfterCall(c, l, k);
    assert id in l.intents <==> id in l.intents - {k.id};
    assert id in n.intents <==> id in n.intents - {k.id};
    assert id in l.intents ==> (l.intents - {k.id})[id] == l.intents[id];
    assert id in n.intents ==> (n.intents - {k.id})[id] == n.intents[id];
  }

  /** An intent that is neither CONFIRMED nor CLAIM_PENDING is never claimed: nothing is submitted or earned
      for it and its state stays, whatever else is claimed in between. */
  lemma {:induction false} NeverClaimed(c: Config, l: Ledger, id: string, calls: seq<Call>)
    requires AllPossible(c, l, calls)
    requires !Open(l.StateOf(id))
    ensures TallyOf(c, id, calls) == Tally(0, 0, 0)
    ensures AfterCalls(c, l, calls).StateOf(id) == l.StateOf(id)
    decreases |calls|
  {
    if calls != [] {
      CallShape(c, calls[0]);
      CallMoves(c, l, calls[0]);
      if calls[0].id != id {
        OtherKept(c, l, calls[0], id);
      }
      NeverClaimed(c, AfterCall(c, l, calls[0]), id, calls[1..]);
    }
  }

  predicate SomeReceipt(id: string, calls: seq<Call>) {
    exists k :: k in calls && k.id == id && Succeeds(k.world)
  }

  /** Over any sequence of claims with any failures, an open intent stays CONFIRMED, CLAIM_PENDING or CLAIMED;
      it is claimed at most once, then and only then CLAIMED, only on a successful receipt; revenue is
      recorded at most once; and after a submission it never rests in CLAIM_PENDING. */
  lemma {:induction false} ClaimHistory(c: Config, l: Ledger, id: string, calls: seq<Call>)
    requires AllPossible(c, l, calls)
    requires Open(l.StateOf(id))
    ensures var n := AfterCalls(c, l, calls).StateOf(id); var t := TallyOf(c, id, calls);
            && t.earned <= t.done <= 1 && t.done <= t.submitted
            && (n == Some(State.Claimed) <==> t.done == 1)
            && (t.done == 0 ==> Open(n))
            && (t.done == 1 ==> SomeReceipt(id, calls))
            && (t.submitted > 0 ==> n != Some(State.ClaimPending))
    decreases |calls|
  {
    if calls != [] {
      var k, l1 := calls[0], AfterCall(c, l, calls[0]);
      CallShape(c, k);
      CallMoves(c, l, k);
      if k.id != id {
        OtherKept(c, l, k, id);
      }
      if Open(l1.StateOf(id)) {
        ClaimHistory(c, l1, id, calls[1..]);
        if l1.StateOf(id) == Some(State.Confirmed) {
          RestsConfirmed(c, l1, id, calls[1..]);
        }
        if TallyOf(c, id, calls[1..]).done == 1 {
          var m :| m in calls[1..] && m.id == id && Succeeds(m.world);
          assert m in calls;
        }
      } else {
        NeverClaimed(c, l1, id, calls[1..]);
      }
    }
  }

  // From CONFIRMED, no call leaves an intent in CLAIM_PENDING.
  lemma {:induction false} RestsConfirmed(c: Config, l: Ledger, id: string, calls: seq<Call>)
    requires AllPossible(c, l, calls)
    requires l.StateOf(id) != Some(State.ClaimPending)
    ensures AfterCalls(c, l, calls).StateOf(id) != Some(State.ClaimPending)
    decreases |calls|
  {
    if calls != [] {
      CallMoves(c, l, calls[0]);
      if calls[0].id != id {
        OtherKept(c, l, calls[0], id);
      }
      RestsConfirmed(c, AfterCall(c, l, calls[0]), id, calls[1..]);
    }
  }

  // ---- the claim and the chain ----

  // The call heard back about the claim it submitted.
  predicate HeardClaim(w: ClaimWorld) { w.sentHash.Some? && w.receipt.Some? }

  /** After a call that submitted a claim, the record agrees with what was mined exactly when the call heard back or
      nothing was mined. A claim mined while its receipt could not be had leaves the intent CONFIRMED, and the same
      call made again submits a second claim. */
  lemma ClaimAgreesIff(c: Config, l: Ledger, k: Call, mined: bool)
    requires Possible(l, k) && RunOf(c, k).trace != []
    requires k.world.receipt.Some? ==> k.world.receipt.value == mined
    ensures (AfterCall(c, l, k).StateOf(k.id) == Some(State.Claimed) <==> mined) <==> HeardClaim(k.world) || !mined
    ensures !HeardClaim(k.world) ==>
              AfterCall(c, l, k).StateOf(k.id) == Some(State.Confirmed) && Possible(AfterCall(c, l, k), k)
  {
    CallShape(c, k);
    CallMoves(c, l, k);
    if k.route.ViaOperator? {
      ChainKept(l, k.id, RunOf(c, k).trace);
    }
  }

  // No claim changes the recorded destination.
  lemma {:induction false} ChainKept(l: Ledger, id: string, trace: seq<ClaimEvent>)
    requires id in l.intents
    ensures var n := PlayClaim(l, id, trace); id in n.intents && n.intents[id].chain == l.intents[id].chain
    decreases |trace|
  {
    if trace != [] {
      ChainKept(ClaimEffect(l, id, trace[0]), id, trace[1..]);
    }
  }

  // ---- what is earned ----

  // The listing shows the intent, a live controller can build and submit its claim, and the receipt reports success.
  predicate GoesThrough(c: Config, k: Call) {
    && k.world.listOk && k.listed && !c.dryRun && k.chain in c.chains && c.chains[k.chain].rpcParses
    && (k.route.ViaDebridge? ==> k.world.contractKnown && k.world.calldataOk)
    && k.world.sentHash.Some? && k.world.receipt == Some(true)
  }

  /** The revenue table after one call: a claim that goes through enters the fee that was measured for the intent,
      unless it is a deBridge claim and the fee is not positive; nothing else is ever entered. */
  lemma CallRevenue(c: Config, l: Ledger, k: Call)
    ensures AfterCall(c, l, k).revenue
            == if GoesThrough(c, k) && (k.route.ViaOperator? || k.world.feeUsd > 0.0)
               then l.revenue[k.id := k.world.feeUsd] else l.revenue
    ensures var o := RunOf(c, k).outcome;
            && (o.ClaimDone? <==> GoesThrough(c, k))
            && (o.ClaimDone? ==> o.feeUsd == k.world.feeUsd && k.world.sentHash == Some(o.txHash))
  {
    var t := RunOf(c, k).trace;
    Earns(l, k.id, t, k.world.feeUsd);
    if GoesThrough(c, k) && (k.route.ViaOperator? || k.world.feeUsd > 0.0) {
      assert t[if k.route.ViaOperator? then 1 else 2] == Earn(k.world.feeUsd);
    }
  }

  // Only an `Earn` touches the revenue table.
  lemma {:induction false} Earns(l: Ledger, id: string, t: seq<ClaimEvent>, fee: real)
    requires forall e :: e in t && e.Earn? ==> e.usd == fee
    ensures PlayClaim(l, id, t).revenue == if Earn(fee) in t then l.revenue[id := fee] else l.revenue
    decreases |t|
  {
    if t != [] {
      assert t == [t[0]] + t[1..];
      Earns(ClaimEffect(l, id, t[0]), id, t[1..], fee);
    }
  }

  predicate Completes(c: Config, id: string, k: Call) { k.id == id && GoesThrough(c, k) }

  function EntryOf(l: Ledger, id: string): Option<real> {
    if id in l.revenue then Some(l.revenue[id]) else None
  }

  /** An intent that may not be claimed keeps the entry it has, and no call completes a claim of it. */
  lemma {:induction false} NothingEarned(c: Config, l: Ledger, id: string, calls: seq<Call>)
    requires AllPossible(c, l, calls)
    requires !Open(l.StateOf(id))
    ensures forall k :: k in calls ==> !Completes(c, id, k)
    ensures EntryOf(AfterCalls(c, l, calls), id) == EntryOf(l, id)
    decreases |calls|
  {
    if calls != [] {
      CallShape(c, calls[0]);
      CallMoves(c, l, calls[0]);
      CallRevenue(c, l, calls[0]);
      if calls[0].id != id {
        OtherKept(c, l, calls[0], id);
      }
      NothingEarned(c, AfterCall(c, l, calls[0]), id, calls[1..]);
    }
  }

  // The entry is in the end the fee of the one call that completed the claim, if it enters one; otherwise it is kept.
  ghost predicate EntryExplained(c: Config, id: string, before: Option<real>, calls: seq<Call>, after: Option<real>) {
    && (forall i, j :: 0 <= i < j < |calls| && Completes(c, id, calls[i]) ==> !Completes(c, id, calls[j]))
    && (forall k :: k in calls && Completes(c, id, k) ==>
          after == if k.route.ViaOperator? || k.world.feeUsd > 0.0 then Some(k.world.feeUsd) else before)
    && ((forall k :: k in calls ==> !Completes(c, id, k)) ==> after == before)
  }

  lemma ExplainedBefore(c: Config, id: string, before: Option<real>, k: Call, rest: seq<Call>, after: Option<real>)
    requires !Completes(c, id, k) && EntryExplained(c, id, before, rest, after)
    ensures EntryExplained(c, id, before, [k] + rest, after)
  {
    var calls := [k] + rest;
    assert forall m :: m in rest ==> m in calls;
  }

  lemma ExplainedFirst(c: Config, id: string, before: Option<real>, k: Call, rest: seq<Call>, after: Option<real>)
    requires Completes(c, id, k) && forall m :: m in rest ==> !Completes(c, id, m)
    requires after == if k.route.ViaOperator? || k.world.feeUsd > 0.0 then Some(k.world.feeUsd) else before
    ensures EntryExplained(c, id, before, [k] + rest, after)
  {
    var calls := [k] + rest;
    assert k in calls;
    assert forall j :: 0 < j < |calls| ==> calls[j] in rest;
  }

  /** Over any sequence of claims with any failures, an open intent's revenue entry is in the end the fee of the one
      call that completed its claim, or, if none did or if that was a deBridge claim without a positive fee, what it
      was before. */
  lemma {:induction false} RevenueHistory(c: Config, l: Ledger, id: string, calls: seq<Call>)
    requires AllPossible(c, l, calls)
    requires Open(l.StateOf(id))
    ensures EntryExplained(c, id, EntryOf(l, id), calls, EntryOf(AfterCalls(c, l, calls), id))
    decreases |calls|
  {
    if calls != [] {
      var k, rest, l1 := calls[0], calls[1..], AfterCall(c, l, calls[0]);
      var after := EntryOf(AfterCalls(c, l1, rest), id);
      assert calls == [k] + rest;
      OneCall(c, l, k, id);
      if Open(l1.StateOf(id)) {
        RevenueHistory(c, l1, id, rest);
        ExplainedBefore(c, id, EntryOf(l, id), k, rest, after);
      } else {
        NothingEarned(c, l1, id, rest);
        ExplainedFirst(c, id, EntryOf(l, id), k, rest, after);
      }
    }
  }

  lemma OneCall(c: Config, l: Ledger, k: Call, id: string)
    requires Possible(l, k) && Open(l.StateOf(id))
    ensures var n := AfterCall(c, l, k);
            && (Open(n.StateOf(id)) <==> !Completes(c, id, k))
            && EntryOf(n, id) == if Completes(c, id, k) && (k.route.ViaOperator? || k.world.feeUsd > 0.0)
                                 then Some(k.world.feeUsd) else EntryOf(l, id)
  {
    CallShape(c, k);
    CallMoves(c, l, k);
    CallRevenue(c, l, k);
    if k.id != id {
      OtherKept(c, l, k, id);
    }
  }

  // ---- running a confirmed intent again ----

  /** Executing a CONFIRMED intent again forfeits its claim unless that run is itself confirmed or never begins:
      the record leaves CONFIRMED, and no later sequence of claims submits anything for it. */
  lemma RerunForfeitsClaim(c: Config, l: Ledger, i: Intent, w: World, calls: seq<Call>)
    requires l.StateOf(i.id) == Some(State.Confirmed)
    requires AllPossible(c, After(c, l, i, w), calls)
    ensures var o := Execute(c, l, i, w).outcome; var n := After(c, l, i, w);
            if !P.Began(o) || o.Filled? then n.StateOf(i.id) == Some(State.Confirmed)
            else TallyOf(c, i.id, calls) == Tally(0, 0, 0) && AfterCalls(c, n, calls).StateOf(i.id) == n.StateOf(i.id)
  {
    var o, n := Execute(c, l, i, w).outcome, After(c, l, i, w);
    if P.Enters(c, l, i, w) {
      EnteredAgain(c, l, i, w);
    } else {
      NotEntered(c, l, i, w);
    }
    if P.Began(o) && !o.Filled? {
      NeverClaimed(c, n, i.id, calls);
    }
  }

  /** A confirmed fill waiting for its claim is safe from being run again exactly when its destination is not
      wired: on any wired chain some answers make a second run take it out of CONFIRMED. */
  lemma ConfirmedKeptIff(c: Config, l: Ledger, i: Intent)
    requires l.StateOf(i.id) == Some(State.Confirmed)
    ensures (forall w: World :: After(c, l, i, w).StateOf(i.id) == Some(State.Confirmed)) <==> i.dstChain !in c.chains
  {
    if i.dstChain in c.chains {
      var w := P.CalmWorld(c);
      S.FilledIffLanded(c, l, i, w);
      if P.Enters(c, l, i, w) {
        EnteredAgain(c, l, i, w);
      } else {
        NotEntered(c, l, i, w);
      }
      assert After(c, l, i, w).StateOf(i.id) != Some(State.Confirmed);
    } else {
      forall w: World
        ensures After(c, l, i, w).StateOf(i.id) == Some(State.Confirmed)
      {
        NotEntered(c, l, i, w);
      }
    }
  }

  /** A fill that was mined while its receipt could not be had is never claimed: whatever is claimed later, nothing
      is submitted or earned for it. */
  lemma UnheardFillForfeits(c: Config, l: Ledger, i: Intent, w: World, calls: seq<Call>)
    requires var s := P.Submission(Execute(c, l, i, w).trace); s.Some? && !S.Heard(s.value.lane, w)
    requires i.id in l.intents ==> !l.Frozen(i.id)
    requires AllPossible(c, After(c, l, i, w), calls)
    ensures TallyOf(c, i.id, calls) == Tally(0, 0, 0)
    ensures AfterCalls(c, After(c, l, i, w), calls).StateOf(i.id) == Some(State.Reverted)
  {
    S.SubmittedRecord(c, l, i, w);
    NeverClaimed(c, After(c, l, i, w), i.id, calls);
  }

  lemma EnteredAgain(c: Config, l: Ledger, i: Intent, w: World)
    requires P.Enters(c, l, i, w) && l.StateOf(i.id) == Some(State.Confirmed)
    ensures P.Began(Execute(c, l, i, w).outcome)
    ensures if Execute(c, l, i, w).outcome.Filled? then After(c, l, i, w).StateOf(i.id) == Some(State.Confirmed)
            else !Open(After(c, l, i, w).StateOf(i.id))
  {
    P.RecordedState(c, l, i, w);
    P.EnteredRun(c, l, i, w);
    P.CheckOutcome(c, i, w);
    EndState(Execute(c, l, i, w).outcome);
  }

  lemma EndState(o: Outcome)
    requires P.Decided(o)
    ensures P.Began(o)
    ensures forall p :: P.EndsAs(p, o) ==>
              if o.Filled? then P.StateAt(p, IntentDetected) == State.Confirmed
              else !Open(Some(P.StateAt(p, IntentDetected)))
  {
  }

  lemma NotEntered(c: Config, l: Ledger, i: Intent, w: World)
    requires !P.Enters(c, l, i, w) && l.StateOf(i.id) == Some(State.Confirmed)
    ensures var o := Execute(c, l, i, w).outcome;
            After(c, l, i, w).StateOf(i.id) ==
            Some(if P.Began(o) then SkipUnprofitable else State.Confirmed)
    ensures !Execute(c, l, i, w).outcome.Filled?
  {
    var r := Execute(c, l, i, w);
    if w.usd > w.maxNotionalUsd {
      assert r.trace[1..] == [];
    } else if i.dstChain in c.chains && w.recordOk {
      P.PlayThen(l, i.id, Detect(i.dstChain, w.usd), Admit(c, l, i, w));
      assert [Move(SkipUnprofitable, None)][1..] == [];
    }
  }
}
