/** The shared in-flight set of the mempool monitor, under every interleaving of watchers, timers and solvers. */
module Mempool {
  import opened Common

  // ---- what a watcher looks for ----

  datatype Tx = Tx(to: Option<seq<byte>>, input: seq<byte>)

  datatype Watch = Watch(operator: seq<byte>, selectors: seq<seq<byte>>, ttl: nat)

  // The order id is a hash of the calldata after its selector.
  function Inspect(tx: Tx, watch: Watch, hash: seq<byte> -> string): Option<string> {
    if tx.to != Some(watch.operator) || |tx.input| < 4 || tx.input[..4] !in watch.selectors then None
    else Some(hash(tx.input[4..]))
  }

  /** A transaction counts as a competing fill exactly when it calls the operator with calldata that begins with
      a watched four-byte selector. */
  lemma InspectIff(tx: Tx, watch: Watch, hash: seq<byte> -> string)
    ensures Inspect(tx, watch, hash).Some?
            <==> tx.to == Some(watch.operator) && exists s :: s in watch.selectors && |s| == 4 && s <= tx.input
  {
    if tx.to == Some(watch.operator) {
      if s :| s in watch.selectors && |s| == 4 && s <= tx.input {
        assert tx.input[..4] == s;
      }
      if |tx.input| >= 4 && tx.input[..4] in watch.selectors {
        assert tx.input[..4] <= tx.input;
      }
    }
  }

  // A call of the operator: a selector, then the payload that says which order is being filled.
  function CallOf(watch: Watch, selector: seq<byte>, payload: seq<byte>): Tx {
    Tx(Some(watch.operator), selector + payload)
  }

  /** The id of a competing fill is the hash of its payload, whichever watched selector it comes under. So with a hash
      that does not collide, two such calls get one id exactly when they carry one payload. */
  lemma PayloadIdentifies(watch: Watch, s: seq<byte>, p: seq<byte>, t: seq<byte>, q: seq<byte>, hash: seq<byte> -> string)
    requires |s| == 4 && |t| == 4 && s in watch.selectors && t in watch.selectors
    ensures Inspect(CallOf(watch, s, p), watch, hash) == Some(hash(p))
    ensures (hash(p) == hash(q) ==> p == q) ==>
              (Inspect(CallOf(watch, s, p), watch, hash) == Inspect(CallOf(watch, t, q), watch, hash) <==> p == q)
  {
    assert (s + p)[..4] == s && (s + p)[4..] == p;
    assert (t + q)[..4] == t && (t + q)[4..] == q;
  }

  // ---- tasks ----

  // A handler that found a fill marks it, then spawns a timer, whose sleep starts when it is first polled.
  datatype Task =
    | Found(id: string, ttl: nat)
    | Marked(id: string, ttl: nat)
    | Spawned(id: string, ttl: nat)
    | Sleeping(id: string, due: nat)

  // `owed` is history: when, and for how long, a handler last marked an id that has not left the set since.
  datatype State = State(now: nat, inFlight: set<string>, tasks: seq<Task>, owed: map<string, (nat, nat)>)

  const EMPTY := State(0, {}, [], map[])

  datatype Step =
    | Find(tx: Tx, watch: Watch)
    | Poll(task: nat)
    | Mark(id: string)
    | Clear(id: string)
    | Tick

  predicate Enabled(s: State, step: Step) {
    step.Poll? ==> step.task < |s.tasks| && (s.tasks[step.task].Sleeping? ==> s.tasks[step.task].due <= s.now)
  }

  function Evict(s: State, id: string): State {
    s.(inFlight := s.inFlight - {id}, owed := s.owed - {id})
  }

  function Become(s: State, i: nat, t: Task): State
    requires i < |s.tasks|
  {
    s.(tasks := s.tasks[i := t])
  }

  function PollTask(s: State, i: nat): State
    requires i < |s.tasks|
  {
    match s.tasks[i]
    case Found(id, ttl) =>
      Become(s, i, Marked(id, ttl)).(inFlight := s.inFlight + {id}, owed := s.owed[id := (s.now, ttl)])
    case Marked(id, ttl) => Become(s, i, Spawned(id, ttl))
    case Spawned(id, ttl) => Become(s, i, Sleeping(id, s.now + ttl))
    case Sleeping(id, _) => Evict(s, id).(tasks := s.tasks[..i] + s.tasks[i + 1..])
  }

  function Next(s: State, step: Step, hash: seq<byte> -> string): State
    requires Enabled(s, step)
  {
    match step
    case Find(tx, watch) =>
      (match Inspect(tx, watch, hash)
       case None => s
       case Some(id) => s.(tasks := s.tasks + [Found(id, watch.ttl)]))
    case Poll(i) => PollTask(s, i)
    case Mark(id) => s.(inFlight := s.inFlight + {id})
    case Clear(id) => Evict(s, id)
    case Tick => s.(now := s.now + 1)
  }

  ghost predicate AllEnabled(s: State, steps: seq<Step>, hash: seq<byte> -> string)
    decreases |steps|
  {
    steps == [] || (Enabled(s, steps[0]) && AllEnabled(Next(s, steps[0], hash), steps[1..], hash))
  }

  function After(s: State, steps: seq<Step>, hash: seq<byte> -> string): State
    requires AllEnabled(s, steps, hash)
    decreases |steps|
  {
    if steps == [] then s else After(Next(s, steps[0], hash), steps[1..], hash)
  }

  /** Once the handler that found a call is first scheduled, the order the call fills is in flight, on top of whatever
      was, and due to leave after the watcher's TTL. */
  lemma FoundIsMarked(s: State, watch: Watch, selector: seq<byte>, p: seq<byte>, hash: seq<byte> -> string)
    requires |selector| == 4 && selector in watch.selectors
    ensures var found := Next(s, Find(CallOf(watch, selector, p), watch), hash);
            && found.inFlight == s.inFlight && found.now == s.now
            && Enabled(found, Poll(|s.tasks|))
            && var marked := Next(found, Poll(|s.tasks|), hash);
               && marked.inFlight == s.inFlight + {hash(p)} && marked.now == s.now
               && |marked.tasks| == |s.tasks| + 1 && marked.tasks[..|s.tasks|] == s.tasks
               && Removes(marked.tasks[|s.tasks|], hash(p)) && Deadline(marked.tasks[|s.tasks|], s.now) == s.now + watch.ttl
  {
    PayloadIdentifies(watch, selector, p, selector, p, hash);
    var found := Next(s, Find(CallOf(watch, selector, p), watch), hash);
    assert found.tasks == s.tasks + [Found(hash(p), watch.ttl)];
    assert found.tasks[..|s.tasks|] == s.tasks;
  }

  // ---- no id leaks ----

  // The task will take the id out of the set.
  predicate Removes(t: Task, id: string) { !t.Found? && t.id == id }

  ghost predicate Covered(s: State) {
    forall id :: id in s.owed ==> id in s.inFlight && exists i :: 0 <= i < |s.tasks| && Removes(s.tasks[i], id)
  }

  lemma CoveredStep(s: State, step: Step, hash: seq<byte> -> string)
    requires Covered(s) && Enabled(s, step)
    ensures Covered(Next(s, step, hash))
  {
    var n := Next(s, step, hash);
    forall id | id in n.owed
      ensures id in n.inFlight && exists k :: 0 <= k < |n.tasks| && Removes(n.tasks[k], id)
    {
      if step.Poll? && s.tasks[step.task].Found? && s.tasks[step.task].id == id {
        assert Removes(n.tasks[step.task], id);
      } else {
        assert id in s.owed;
        var i :| 0 <= i < |s.tasks| && Removes(s.tasks[i], id);
        if step.Poll? && s.tasks[step.task].Sleeping? {
          assert i != step.task;
          assert n.tasks[if i < step.task then i else i - 1] == s.tasks[i];
        } else {
          assert Removes(n.tasks[i], id);
        }
      }
    }
  }

  /** Over every interleaving: an id a handler marked, and that is still in the set since, has a task pending
      that will take it out. */
  lemma {:induction false} MarkedIsCovered(s: State, steps: seq<Step>, hash: seq<byte> -> string)
    requires Covered(s) && AllEnabled(s, steps, hash)
    ensures Covered(After(s, steps, hash))
    decreases |steps|
  {
    if steps != [] {
      CoveredStep(s, steps[0], hash);
      MarkedIsCovered(Next(s, steps[0], hash), steps[1..], hash);
    }
  }

  // ---- and on time, when the scheduler is prompt ----

  // Time does not pass while a timer is due or waits to start.
  predicate Ready(t: Task, now: nat) { t.Marked? || t.Spawned? || (t.Sleeping? && t.due <= now) }

  ghost predicate Prompt(s: State, step: Step) {
    step.Tick? ==> forall t :: t in s.tasks ==> !Ready(t, s.now)
  }

  ghost predicate AllPrompt(s: State, steps: seq<Step>, hash: seq<byte> -> string)
    requires AllEnabled(s, steps, hash)
    decreases |steps|
  {
    steps == [] || (Prompt(s, steps[0]) && AllPrompt(Next(s, steps[0], hash), steps[1..], hash))
  }

  // When the task will take its id out, at the latest.
  function Deadline(t: Task, now: nat): nat {
    if t.Sleeping? then t.due else now + t.ttl
  }

  // Some task will take the id out by the limit.
  ghost predicate TimelyBy(s: State, id: string, limit: nat) {
    exists t :: t in s.tasks && Removes(t, id) && Deadline(t, s.now) <= limit
  }

  function Limit(s: State, id: string): nat
    requires id in s.owed
  {
    s.owed[id].0 + s.owed[id].1
  }

  ghost predicate OnTime(s: State) {
    && (forall t :: t in s.tasks && t.Sleeping? ==> s.now <= t.due)
    && (forall id :: id in s.owed ==> id in s.inFlight && TimelyBy(s, id, Limit(s, id)))
  }

  // A step keeps an id's task, unless it runs that task to its end.
  lemma TimelyStep(s: State, step: Step, hash: seq<byte> -> string, id: string, limit: nat)
    requires Enabled(s, step) && Prompt(s, step) && TimelyBy(s, id, limit)
    ensures var n := Next(s, step, hash); TimelyBy(n, id, limit) || id !in n.owed
  {
    var n := Next(s, step, hash);
    var t :| t in s.tasks && Removes(t, id) && Deadline(t, s.now) <= limit;
    var i :| 0 <= i < |s.tasks| && s.tasks[i] == t;
    if step.Poll? && s.tasks[step.task].Sleeping? {
      if step.task != i {
        assert n.tasks[if i < step.task then i else i - 1] == t;
      }
    } else {
      assert n.tasks[i] in n.tasks && Deadline(n.tasks[i], n.now) == Deadline(t, s.now);
    }
  }

  lemma OnTimeStep(s: State, step: Step, hash: seq<byte> -> string)
    requires OnTime(s) && Enabled(s, step) && Prompt(s, step)
    ensures OnTime(Next(s, step, hash))
  {
    var n := Next(s, step, hash);
    forall id | id in n.owed
      ensures id in n.inFlight && TimelyBy(n, id, Limit(n, id))
    {
      if step.Poll? && s.tasks[step.task].Found? && s.tasks[step.task].id == id {
        assert n.tasks[step.task] in n.tasks;
      } else {
        TimelyStep(s, step, hash, id, Limit(s, id));
      }
    }
  }

  lemma {:induction false} RunsOnTime(s: State, steps: seq<Step>, hash: seq<byte> -> string)
    requires OnTime(s) && AllEnabled(s, steps, hash) && AllPrompt(s, steps, hash)
    ensures OnTime(After(s, steps, hash))
    decreases |steps|
  {
    if steps != [] {
      OnTimeStep(s, steps[0], hash);
      RunsOnTime(Next(s, steps[0], hash), steps[1..], hash);
    }
  }

  /** With a prompt scheduler no id a handler marked stays past its last mark plus that handler's TTL. */
  lemma NoLeak(steps: seq<Step>, hash: seq<byte> -> string, id: string)
    requires AllEnabled(EMPTY, steps, hash) && AllPrompt(EMPTY, steps, hash)
    requires id in After(EMPTY, steps, hash).owed
    ensures var s := After(EMPTY, steps, hash);
            id in s.inFlight && s.now <= s.owed[id].0 + s.owed[id].1
  {
    RunsOnTime(EMPTY, steps, hash);
  }

  // ---- how long a mark holds ----

  // The id is in the set, and no task will take it out before `until`.
  ghost predicate Held(s: State, id: string, until: nat) {
    s.now < until ==> id in s.inFlight && forall t :: t in s.tasks && t.id == id ==> until <= Deadline(t, s.now)
  }

  // A step that neither clears the id nor finds it for a watcher whose timer would end sooner.
  ghost predicate Spares(s: State, step: Step, id: string, until: nat, hash: seq<byte> -> string) {
    && step != Clear(id)
    && (step.Find? && Inspect(step.tx, step.watch, hash) == Some(id) ==> until <= s.now + step.watch.ttl)
  }

  ghost predicate AllSpare(s: State, steps: seq<Step>, id: string, until: nat, hash: seq<byte> -> string)
    requires AllEnabled(s, steps, hash)
    decreases |steps|
  {
    steps == [] || (Spares(s, steps[0], id, until, hash) && AllSpare(Next(s, steps[0], hash), steps[1..], id, until, hash))
  }

  lemma HeldStep(s: State, step: Step, id: string, until: nat, hash: seq<byte> -> string)
    requires Held(s, id, until) && Enabled(s, step) && Spares(s, step, id, until, hash)
    ensures Held(Next(s, step, hash), id, until)
  {
    var n := Next(s, step, hash);
    if n.now < until {
      forall t | t in n.tasks && t.id == id
        ensures until <= Deadline(t, n.now)
      {
        if t !in s.tasks && step.Poll? {
          assert s.tasks[step.task] in s.tasks;
        }
      }
    }
  }

  /** A mark holds until the first deadline among the id's tasks, over every interleaving that does not clear it:
      prompt or not, re-marked or not. */
  lemma {:induction false} MarkHolds(s: State, steps: seq<Step>, id: string, until: nat, hash: seq<byte> -> string)
    requires Held(s, id, until) && AllEnabled(s, steps, hash) && AllSpare(s, steps, id, until, hash)
    ensures After(s, steps, hash).now < until ==> id in After(s, steps, hash).inFlight
    decreases |steps|
  {
    if steps != [] {
      HeldStep(s, steps[0], id, until, hash);
      MarkHolds(Next(s, steps[0], hash), steps[1..], id, until, hash);
    }
  }

  ghost predicate NoSooner(steps: seq<Step>, id: string, ttl: nat, hash: seq<byte> -> string) {
    forall step :: step in steps ==>
      step != Clear(id) && (step.Find? && Inspect(step.tx, step.watch, hash) == Some(id) ==> ttl <= step.watch.ttl)
  }

  lemma {:induction false} NoSoonerSpares(s: State, steps: seq<Step>, id: string, from: nat, ttl: nat,
                                          hash: seq<byte> -> string)
    requires AllEnabled(s, steps, hash) && NoSooner(steps, id, ttl, hash) && from <= s.now
    ensures AllSpare(s, steps, id, from + ttl, hash)
    decreases |steps|
  {
    if steps != [] {
      assert steps[0] in steps;
      NoSoonerSpares(Next(s, steps[0], hash), steps[1..], id, from, ttl, hash);
    }
  }

  // A run that takes an id out before its time, by a task of it that ends sooner: poll, wait, poll.
  lemma Evicting(n: State, j: nat, until: nat, hash: seq<byte> -> string) returns (steps: seq<Step>)
    requires j < |n.tasks| && n.now < until && Deadline(n.tasks[j], n.now) < until
    ensures forall step :: step in steps ==> step.Poll? || step.Tick?
    ensures AllEnabled(n, steps, hash)
    ensures After(n, steps, hash).now < until && n.tasks[j].id !in After(n, steps, hash).inFlight
    decreases if n.tasks[j].Found? then 3 else if n.tasks[j].Marked? then 2 else if n.tasks[j].Spawned? then 1 else 0,
              Deadline(n.tasks[j], n.now) - n.now
  {
    if n.tasks[j].Sleeping? && n.tasks[j].due <= n.now {
      steps := [Poll(j)];
      assert steps[1..] == [];
      assert After(n, steps, hash) == PollTask(n, j);
    } else {
      var first := if n.tasks[j].Sleeping? then Tick else Poll(j);
      var rest := Evicting(Next(n, first, hash), j, until, hash);
      steps := [first] + rest;
      assert steps[1..] == rest;
    }
  }

  // Every interleaving keeps the id until then, unless it is cleared or a watcher with a shorter TTL finds it.
  ghost predicate Lasts(n: State, id: string, ttl: nat, until: nat, hash: seq<byte> -> string) {
    forall steps :: AllEnabled(n, steps, hash) && NoSooner(steps, id, ttl, hash) ==>
      (After(n, steps, hash).now < until ==> id in After(n, steps, hash).inFlight)
  }

  /** A handler's mark lasts its TTL over every interleaving exactly when no other task of the id, pending when it
      marks, ends sooner. Later timers do no harm, and marking again does not extend an earlier one. */
  lemma MarkLastsIff(s: State, i: nat, hash: seq<byte> -> string)
    requires i < |s.tasks| && s.tasks[i].Found? && s.tasks[i].ttl > 0
    ensures var until := s.now + s.tasks[i].ttl;
            Lasts(PollTask(s, i), s.tasks[i].id, s.tasks[i].ttl, until, hash)
            <==> forall t :: t in s.tasks && t.id == s.tasks[i].id ==> until <= Deadline(t, s.now)
  {
    var n, id, ttl, until := PollTask(s, i), s.tasks[i].id, s.tasks[i].ttl, s.now + s.tasks[i].ttl;
    if forall t :: t in s.tasks && t.id == id ==> until <= Deadline(t, s.now) {
      assert Held(n, id, until);
      forall steps | AllEnabled(n, steps, hash) && NoSooner(steps, id, ttl, hash)
        ensures After(n, steps, hash).now < until ==> id in After(n, steps, hash).inFlight
      {
        NoSoonerSpares(n, steps, id, s.now, ttl, hash);
        MarkHolds(n, steps, id, until, hash);
      }
    } else {
      var t :| t in s.tasks && t.id == id && Deadline(t, s.now) < until;
      var j :| 0 <= j < |s.tasks| && s.tasks[j] == t;
      assert n.tasks[j] == t;
      var steps := Evicting(n, j, until, hash);
      assert NoSooner(steps, id, ttl, hash);
    }
  }

  // ---- the monitor itself ----

  class MempoolMonitor {
    var inFlight: set<string>
    var tasks: seq<Task>
    var now: nat
    ghost var owed: map<string, (nat, nat)>

    ghost function Contents(): State
      reads this
    {
      State(now, inFlight, tasks, owed)
    }

    // Every id a handler marked and that is still in the set has a task pending that will take it out.
    ghost predicate Valid()
      reads this
    {
      Covered(Contents())
    }

    constructor ()
      ensures Contents() == EMPTY && Valid()
    {
      inFlight, tasks, now, owed := {}, [], 0, map[];
    }

    method IsInFlight(id: string) returns (r: bool)
      ensures r <==> id in inFlight
      ensures Valid() && !r ==> id !in owed
    {
      r := id in inFlight;
    }

    method MarkInFlight(id: string)
      modifies this`inFlight
      ensures old(Valid()) ==> Valid()
      ensures Contents() == old(Contents()).(inFlight := old(inFlight) + {id})
    {
      ghost var s := Contents();
      inFlight := inFlight + {id};
      if Covered(s) { CoveredStep(s, Mark(id), _ => ""); }
    }

    method ClearInFlight(id: string)
      modifies this`inFlight, this`owed
      ensures old(Valid()) ==> Valid()
      ensures Contents() == Evict(old(Contents()), id)
    {
      ghost var s := Contents();
      inFlight := inFlight - {id};
      owed := owed - {id};
      if Covered(s) { CoveredStep(s, Clear(id), _ => ""); }
    }

    // A watcher's notification, its transaction fetched.
    method HandlePendingTx(tx: Tx, watch: Watch, hash: seq<byte> -> string)
      modifies this`tasks
      ensures old(Valid()) ==> Valid()
      ensures Contents() == Next(old(Contents()), Find(tx, watch), hash)
    {
      ghost var s := Contents();
      var id := Inspect(tx, watch, hash);
      if id.Some? {
        tasks := tasks + [Found(id.value, watch.ttl)];
      }
      if Covered(s) { CoveredStep(s, Find(tx, watch), hash); }
    }

    // One scheduling of a task, up to its next await.
    method Run(i: nat)
      requires Enabled(Contents(), Poll(i))
      modifies this
      ensures old(Valid()) ==> Valid()
      ensures Contents() == PollTask(old(Contents()), i)
    {
      ghost var s := Contents();
      if Covered(s) { CoveredStep(s, Poll(i), _ => ""); }
      match tasks[i]
      case Found(id, ttl) =>
        MarkInFlight(id);
        owed := owed[id := (now, ttl)];
        tasks := tasks[i := Marked(id, ttl)];
      case Marked(id, ttl) =>
        tasks := tasks[i := Spawned(id, ttl)];
      case Spawned(id, ttl) =>
        tasks := tasks[i := Sleeping(id, now + ttl)];
      case Sleeping(id, _) =>
        ClearInFlight(id);
        tasks := tasks[..i] + tasks[i + 1..];
    }
  }
}
