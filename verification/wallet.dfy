/** The solver's wallet ledger: every intent's lifecycle state and the budget held for it. */
module Wallet {
  import opened Common

  datatype State =
    | IntentDetected
    | ProfitabilityCheck
    | SkipUnprofitable
    | ProofFetch
    | ProofMissing
    | CalldataBuild
    | CalldataError
    | Broadcast
    | PendingConfirmation
    | Confirmed
    | ClaimPending
    | Claimed
    | Reverted
    | RetryQueued
  {
    // Confirmed is deliberately absent: a confirmed deBridge fill still has to be claimed.
    predicate IsTerminal() {
      SkipUnprofitable? || ProofMissing? || CalldataError? || Claimed? || Reverted?
    }
  }

  datatype Record = Record(state: State, chain: nat, amountUsd: real, txHash: Option<string>)

  /** The three tables of the wallet database and the configured budget, as one value. */
  datatype Ledger = Ledger(budget: real,
                           intents: map<string, Record>,
                           reservations: map<string, real>,
                           revenue: map<string, real>)
  {
    function StateOf(id: string): Option<State> {
      if id in intents then Some(intents[id].state) else None
    }

    // Whether a transition of `id` will be refused.
    predicate Frozen(id: string) {
      id !in intents || intents[id].state.IsTerminal()
    }

    function Detect(id: string, chain: nat, amountUsd: real): Ledger {
      if id in intents then this
      else this.(intents := intents[id := Record(IntentDetected, chain, amountUsd, None)])
    }

    function Move(id: string, next: State, txHash: Option<string>): Ledger {
      if Frozen(id) then this
      else
        var moved := this.(intents := intents[id := intents[id].(state := next,
                                                                 txHash := txHash.OrElse(intents[id].txHash))]);
        if next.IsTerminal() then moved.Release(id) else moved
    }

    ghost predicate CanReserve(id: string, amountUsd: real) {
      id in reservations || Total(reservations) + amountUsd <= budget
    }

    ghost function Reserve(id: string, amountUsd: real): Ledger {
      if id in reservations || !CanReserve(id, amountUsd) then this
      else this.(reservations := reservations[id := amountUsd])
    }

    function Release(id: string): Ledger {
      this.(reservations := reservations - {id})
    }

    // `aged` are the ids whose reservation is older than the cut-off; a claim in flight keeps its hold.
    function ReleaseStale(aged: set<string>): Ledger {
      this.(reservations := reservations - (set id | id in aged && id in intents && !intents[id].state.ClaimPending?
                                                       && !intents[id].state.Claimed?))
    }

    function RecordRevenue(id: string, profitUsd: real): Ledger {
      this.(revenue := revenue[id := profitUsd]).Release(id)
    }

    // The ids a listing filtered on `state` may return.
    ghost function InState(state: State): set<string> {
      set id | id in intents && intents[id].state == state
    }
  }

  /** Sum of all amounts in a table. */
  ghost function Total(m: map<string, real>): real {
    if m == map[] then 0.0
    else var k :| k in m; m[k] + Total(m - {k})
  }

  lemma {:induction false} TotalSplit(m: map<string, real>, k: string)
    requires k in m
    ensures Total(m) == m[k] + Total(m - {k})
    decreases |m|
  {
    var j :| j in m && Total(m) == m[j] + Total(m - {j});
    if j != k {
      assert |m - {j}| < |m| && |m - {k}| < |m| by {
        assert (m - {j}).Keys == m.Keys - {j} && (m - {k}).Keys == m.Keys - {k};
      }
      TotalSplit(m - {j}, k);
      TotalSplit(m - {k}, j);
      assert (m - {j}) - {k} == (m - {k}) - {j};
    }
  }

  lemma TotalInsert(m: map<string, real>, k: string, amount: real)
    requires k !in m
    ensures Total(m[k := amount]) == Total(m) + amount
  {
    TotalSplit(m[k := amount], k);
    assert m[k := amount] - {k} == m;
  }

  lemma TotalRemove(m: map<string, real>, k: string)
    ensures Total(m - {k}) == if k in m then Total(m) - m[k] else Total(m)
  {
    if k in m {
      TotalSplit(m, k);
    } else {
      assert m - {k} == m;
    }
  }

  // ---- the budget is never overdrawn ----

  datatype Op =
    | OpDetect(id: string, chain: nat, amountUsd: real)
    | OpMove(id: string, next: State, txHash: Option<string>)
    | OpReserve(id: string, amountUsd: real)
    | OpRelease(id: string)
    | OpRevenue(id: string, profitUsd: real)
    | OpReleaseStale(aged: set<string>)

  ghost function Apply(l: Ledger, op: Op): Ledger {
    match op
    case OpDetect(id, k, a) => l.Detect(id, k, a)
    case OpMove(id, s, h) => l.Move(id, s, h)
    case OpReserve(id, a) => l.Reserve(id, a)
    case OpRelease(id) => l.Release(id)
    case OpRevenue(id, p) => l.RecordRevenue(id, p)
    case OpReleaseStale(aged) => l.ReleaseStale(aged)
  }

  ghost function ApplyAll(l: Ledger, ops: seq<Op>): Ledger
    decreases |ops|
  {
    if ops == [] then l else ApplyAll(Apply(l, ops[0]), ops[1..])
  }

  ghost predicate NonNegative(m: map<string, real>) {
    forall k :: k in m ==> m[k] >= 0.0
  }

  ghost predicate Solvent(l: Ledger) {
    NonNegative(l.reservations) && Total(l.reservations) <= l.budget
  }

  lemma SolventStep(l: Ledger, op: Op)
    requires Solvent(l)
    requires op.OpReserve? ==> op.amountUsd >= 0.0
    ensures Solvent(Apply(l, op))
  {
    match op
    case OpReserve(id, amountUsd) =>
      if id !in l.reservations {
        TotalInsert(l.reservations, id, amountUsd);
      }
    case OpReleaseStale(aged) =>
      var stale := set id | id in aged && id in l.intents && !l.intents[id].state.ClaimPending?
                            && !l.intents[id].state.Claimed?;
      TotalRemoveAll(l.reservations, stale);
    case _ =>
      TotalRemove(l.reservations, op.id);
  }

  lemma {:induction false} TotalRemoveAll(m: map<string, real>, ids: set<string>)
    requires NonNegative(m)
    ensures Total(m - ids) <= Total(m)
    decreases ids
  {
    if ids == {} {
      assert m - ids == m;
    } else {
      var id :| id in ids;
      TotalRemove(m, id);
      TotalRemoveAll(m - {id}, ids - {id});
      assert (m - {id}) - (ids - {id}) == m - ids;
    }
  }

  /** No sequence of wallet operations overdraws the budget, as long as no negative amount is reserved. */
  lemma {:induction false} NeverOverdrawn(l: Ledger, ops: seq<Op>)
    requires Solvent(l)
    requires forall op :: op in ops && op.OpReserve? ==> op.amountUsd >= 0.0
    ensures Solvent(ApplyAll(l, ops))
    decreases |ops|
  {
    if ops != [] {
      SolventStep(l, ops[0]);
      NeverOverdrawn(Apply(l, ops[0]), ops[1..]);
    }
  }

  /** The sign condition is needed: any negative reservation lets a later one overdraw the budget. */
  lemma NegativeReservationOverdraws(budget: real, amount: real)
    requires budget >= 0.0 && amount < 0.0
    ensures var l := Ledger(budget, map[], map[], map[]);
            && Solvent(l)
            && !Solvent(ApplyAll(l, [OpReserve("a", amount), OpReserve("b", budget - amount), OpRelease("a")]))
  {
    var l := Ledger(budget, map[], map[], map[]);
    var ops := [OpReserve("a", amount), OpReserve("b", budget - amount), OpRelease("a")];
    var l1 := Apply(l, ops[0]);
    TotalInsert(map[], "a", amount);
    assert l1.reservations == map["a" := amount];
    var l2 := Apply(l1, ops[1]);
    TotalInsert(l1.reservations, "b", budget - amount);
    var l3 := Apply(l2, ops[2]);
    TotalRemove(l2.reservations, "a");
    assert ApplyAll(l, ops) == l3 by {
      assert ops[1..][1..] == [ops[2]] && ops[1..][0] == ops[1] && ops[1..][1..][1..] == [];
      assert ApplyAll(l3, []) == l3;
      assert ApplyAll(l2, [ops[2]]) == l3;
    }
  }

  // The states no transition leaves; CONFIRMED is not one of them.
  const TERMINAL := {SkipUnprofitable, ProofMissing, CalldataError, Claimed, Reverted}

  // Limits are clamped to 1..1000.
  function RowLimit(limit: int): nat { Max(1, Min(limit, 1000)) }

  /** The wallet as the controller holds it: operations act on the tables in place. */
  class WalletManager {
    const budget: real
    var intents: map<string, Record>
    var reservations: map<string, real>
    var revenue: map<string, real>

    function Contents(): (l: Ledger)
      reads this
    {
      Ledger(budget, intents, reservations, revenue)
    }

    constructor (budget: real)
      ensures Contents() == Ledger(budget, map[], map[], map[])
    {
      this.budget := budget;
      intents, reservations, revenue := map[], map[], map[];
    }

    method RecordDetected(id: string, chain: nat, amountUsd: real)
      modifies this`intents
      ensures Contents() == old(Contents()).Detect(id, chain, amountUsd)
      ensures id in old(intents) ==> intents == old(intents)
      ensures id !in old(intents) ==> intents == old(intents)[id := Record(IntentDetected, chain, amountUsd, None)]
    {
      if id !in intents {
        intents := intents[id := Record(IntentDetected, chain, amountUsd, None)];
      }
    }

    method Transition(id: string, next: State, txHash: Option<string>) returns (ok: bool)
      modifies this`intents, this`reservations
      ensures ok == !old(Contents()).Frozen(id)
      ensures Contents() == old(Contents()).Move(id, next, txHash)
      ensures ok <==> id in old(intents) && old(intents)[id].state !in TERMINAL
      ensures !ok ==> intents == old(intents) && reservations == old(reservations)
      ensures ok ==> id in intents && intents - {id} == old(intents) - {id}
                     && intents[id] == Record(next, old(intents)[id].chain, old(intents)[id].amountUsd, intents[id].txHash)
                     && intents[id].txHash == (if txHash.Some? then txHash else old(intents)[id].txHash)
                     && reservations == if next in TERMINAL then old(reservations) - {id} else old(reservations)
    {
      if id !in intents || intents[id].state.IsTerminal() {
        return false;
      }
      var hash := if txHash.Some? then txHash else intents[id].txHash;
      intents := intents[id := intents[id].(state := next, txHash := hash)];
      if next.IsTerminal() {
        reservations := reservations - {id};
      }
      return true;
    }

    method TotalReserved() returns (total: real)
      ensures total == Total(reservations)
    {
      total := 0.0;
      var left := reservations;
      while left != map[]
        invariant total + Total(left) == Total(reservations)
        decreases |left|
      {
        var k :| k in left;
        TotalSplit(left, k);
        total := total + left[k];
        assert (left - {k}).Keys == left.Keys - {k};
        left := left - {k};
      }
    }

    method Reserve(id: string, amountUsd: real) returns (ok: bool)
      modifies this`reservations
      ensures ok == old(Contents()).CanReserve(id, amountUsd)
      ensures Contents() == old(Contents()).Reserve(id, amountUsd)
      ensures ok ==> id in reservations
      ensures !ok || id in old(reservations) ==> reservations == old(reservations)
      ensures ok && id !in old(reservations) ==>
                && reservations == old(reservations)[id := amountUsd]
                && Total(reservations) == Total(old(reservations)) + amountUsd <= budget
    {
      if id in reservations {
        return true;
      }
      var reserved := TotalReserved();
      if reserved + amountUsd > budget {
        return false;
      }
      TotalInsert(reservations, id, amountUsd);
      reservations := reservations[id := amountUsd];
      return true;
    }

    method Release(id: string)
      modifies this`reservations
      ensures Contents() == old(Contents()).Release(id)
      ensures reservations == old(reservations) - {id}
    {
      reservations := reservations - {id};
    }

    // `aged` are the ids whose reservation is older than the cut-off.
    method ReleaseStaleReservations(aged: set<string>) returns (released: nat)
      modifies this`reservations
      ensures Contents() == old(Contents()).ReleaseStale(aged)
      ensures forall id :: id in reservations <==>
                id in old(reservations)
                && (id !in aged || id !in intents || intents[id].state in {State.ClaimPending, Claimed})
      ensures forall id :: id in reservations ==> reservations[id] == old(reservations)[id]
      ensures released == |old(reservations)| - |reservations|
    {
      var stale := set id | id in aged && id in intents && !intents[id].state.ClaimPending? && !intents[id].state.Claimed?;
      var gone := set id | id in stale && id in reservations;
      released := |gone|;
      ghost var before := reservations;
      reservations := reservations - stale;
      assert reservations.Keys == before.Keys - gone;
    }

    method RecordRevenue(id: string, profitUsd: real)
      modifies this`revenue, this`reservations
      ensures Contents() == old(Contents()).RecordRevenue(id, profitUsd)
      ensures revenue == old(revenue)[id := profitUsd]
      ensures reservations == old(reservations) - {id}
    {
      revenue := revenue[id := profitUsd];
      reservations := reservations - {id};
    }

    // A listing is cut at the row limit; which rows survive the cut is left open.
    method ListIntents(state: State, limit: int) returns (ids: set<string>)
      ensures ids <= Contents().InState(state)
      ensures |ids| == Min(RowLimit(limit), |Contents().InState(state)|)
    {
      var limit := RowLimit(limit);
      ids := {};
      var left := set id | id in intents && intents[id].state == state;
      ghost var all := left;
      while left != {} && |ids| < limit
        invariant ids !! left && ids <= all && left <= all
        invariant |ids| + |left| == |all| && |ids| <= limit
        decreases |left|
      {
        var id :| id in left;
        ids, left := ids + {id}, left - {id};
      }
    }
  }

  /** Only when more rows match than the limit allows can a matching intent go unlisted. */
  lemma ListingComplete(l: Ledger, state: State, limit: nat, ids: set<string>)
    requires ids <= l.InState(state) && |ids| == Min(limit, |l.InState(state)|)
    ensures ids == l.InState(state) <==> |l.InState(state)| <= limit
  {
    var all := l.InState(state);
    assert |all - ids| == |all| - |ids|;
    if |all| <= limit {
      assert all - ids == {};
    }
  }
}
