/** The budget over whole histories: fill runs, claims and the release of stale holds, in any order on one wallet. */
module Solvency {
  import opened Common
  import opened Guards
  import opened Wallet
  import opened Lifecycle
  import opened LifecycleProofs
  import Claims

  datatype Act =
    | Fill(intent: Intent, world: World)
    | Claiming(call: Claims.Call)
    | Expire(aged: set<string>)

  ghost function AfterAct(c: Config, l: Ledger, a: Act): Ledger {
    match a
    case Fill(i, w) => After(c, l, i, w)
    case Claiming(k) => Claims.AfterCall(c, l, k)
    case Expire(aged) => l.ReleaseStale(aged)
  }

  ghost function AfterActs(c: Config, l: Ledger, acts: seq<Act>): Ledger
    decreases |acts|
  {
    if acts == [] then l else AfterActs(c, AfterAct(c, l, acts[0]), acts[1..])
  }

  lemma {:induction false} BudgetFixed(l: Ledger, id: string, trace: seq<Event>)
    ensures Play(l, id, trace).budget == l.budget
    decreases |trace|
  {
    if trace != [] {
      BudgetFixed(Effect(l, id, trace[0]), id, trace[1..]);
    }
  }

  lemma FillSolvent(c: Config, l: Ledger, i: Intent, w: World)
    requires Solvent(l) && w.usd >= 0.0
    ensures Solvent(After(c, l, i, w))
  {
    BudgetFixed(l, i.id, Execute(c, l, i, w).trace);
    BudgetRestored(c, l, i, w);
    TotalRemove(l.reservations, i.id);
    SolventStep(l, OpReserve(i.id, w.usd));
  }

  lemma {:induction false} ClaimSolvent(l: Ledger, id: string, trace: seq<Claims.ClaimEvent>)
    requires Solvent(l)
    ensures Solvent(Claims.PlayClaim(l, id, trace))
    decreases |trace|
  {
    if trace != [] {
      match trace[0] {
        case Advance(s, tx) => SolventStep(l, OpMove(id, s, tx));
        case Earn(usd) => SolventStep(l, OpRevenue(id, usd));
        case SubmitClaim(_) =>
      }
      ClaimSolvent(Claims.ClaimEffect(l, id, trace[0]), id, trace[1..]);
    }
  }

  /** Whatever is filled, claimed and expired on one wallet, in whatever order and with whatever answers, the budget
      is never overdrawn, as long as no intent is priced below zero. */
  lemma {:induction false} HistoryNeverOverdraws(c: Config, l: Ledger, acts: seq<Act>)
    requires Solvent(l)
    requires forall a :: a in acts && a.Fill? ==> a.world.usd >= 0.0
    ensures Solvent(AfterActs(c, l, acts))
    decreases |acts|
  {
    if acts != [] {
      match acts[0] {
        case Fill(i, w) =>
          assert acts[0] in acts;
          FillSolvent(c, l, i, w);
        case Claiming(k) =>
          ClaimSolvent(l, k.id, Claims.RunOf(c, k).trace);
        case Expire(aged) =>
          SolventStep(l, OpReleaseStale(aged));
      }
      HistoryNeverOverdraws(c, AfterAct(c, l, acts[0]), acts[1..]);
    }
  }
}
