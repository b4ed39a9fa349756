/** The hardened consumer: a bounded memory of recent intent ids in front of a bounded channel. */
module Dedup {
  import opened Common

  // ---- the simple form: the last few accepted ids ----

  function Window(accepted: seq<string>, cap: nat): seq<string> {
    if |accepted| <= Max(1, cap) then accepted else accepted[|accepted| - Max(1, cap)..]
  }

  predicate Distinct(s: seq<string>) {
    forall i, j :: 0 <= i < j < |s| ==> s[i] != s[j]
  }

  /** Equal ids were never accepted close together: at least a full window of other ids lies between them. */
  predicate Spaced(accepted: seq<string>, cap: nat) {
    forall i, j :: 0 <= i < j < |accepted| && accepted[i] == accepted[j] ==> j - i > Max(1, cap)
  }

  lemma InWindow(accepted: seq<string>, at: nat, cap: nat)
    requires at < |accepted| && |accepted| - at <= Max(1, cap)
    ensures accepted[at] in Window(accepted, cap)
  {
    var w := Window(accepted, cap);
    assert w[at - (|accepted| - |w|)] == accepted[at];
  }

  lemma SpacedPush(accepted: seq<string>, id: string, cap: nat)
    requires Spaced(accepted, cap) && id !in Window(accepted, cap)
    ensures Spaced(accepted + [id], cap)
  {
    var w := Window(accepted, cap);
    var skipped := |accepted| - |w|;
    forall i | 0 <= i < |accepted| && accepted[i] == id ensures i < skipped {
      assert id !in w;
      if skipped <= i {
        InWindow(accepted, i, cap);
      }
    }
  }

  lemma SpacedWindow(accepted: seq<string>, cap: nat)
    requires Spaced(accepted, cap)
    ensures Distinct(Window(accepted, cap))
  {
  }

  /** The memory as the code keeps it: a set for lookups and a queue for eviction order. */
  class BoundedDedupeState {
    var seenIds: set<string>
    var seenOrder: seq<string>
    const cap: nat
    ghost var accepted: seq<string>   // every id accepted so far

    ghost predicate Valid()
      reads this
    {
      && seenOrder == Window(accepted, cap)
      && Spaced(accepted, cap)
      && seenIds == set id | id in seenOrder
    }

    constructor (cap: nat)
      ensures Valid() && accepted == [] && this.cap == cap
    {
      seenIds, seenOrder := {}, [];
      this.cap := cap;
      accepted := [];
    }

    method CheckAndInsert(id: string) returns (duplicate: bool)
      requires Valid()
      modifies this
      ensures Valid()
      ensures duplicate == (id in Window(old(accepted), cap))
      ensures accepted == if duplicate then old(accepted) else old(accepted) + [id]
      ensures |seenIds| == |seenOrder| <= Max(1, cap)
    {
      SpacedWindow(accepted, cap);
      DistinctSize(seenOrder);
      if id in seenIds {
        return true;
      }
      PushWindow(accepted, id, cap);
      SpacedPush(accepted, id, cap);
      PushDistinct(seenOrder, id, cap);
      if |seenOrder| >= cap && seenOrder != [] {
        var oldest := seenOrder[0];
        seenOrder := seenOrder[1..];
        seenIds := seenIds - {oldest};
      }
      seenIds := seenIds + {id};
      seenOrder := seenOrder + [id];
      accepted := accepted + [id];
      DistinctSize(seenOrder);
      return false;
    }
  }

  // Evict the oldest if full, then append.
  function Push(window: seq<string>, id: string, cap: nat): seq<string> {
    (if |window| >= cap && window != [] then window[1..] else window) + [id]
  }

  lemma PushWindow(accepted: seq<string>, id: string, cap: nat)
    ensures Window(accepted + [id], cap) == Push(Window(accepted, cap), id, cap)
  {
  }

  lemma PushDistinct(window: seq<string>, id: string, cap: nat)
    requires Distinct(window) && id !in window
    ensures Distinct(Push(window, id, cap))
    ensures var ids := set x | x in window;
            (set x | x in Push(window, id, cap)) ==
            (if |window| >= cap && window != [] then ids - {window[0]} else ids) + {id}
  {
    var kept := if |window| >= cap && window != [] then window[1..] else window;
    assert forall x :: x in Push(window, id, cap) <==> x in kept || x == id;
    if window != [] {
      assert window == [window[0]] + window[1..];
      assert window[0] !in window[1..];
    }
  }

  lemma {:induction false} DistinctSize(s: seq<string>)
    requires Distinct(s)
    ensures |set id | id in s| == |s|
  {
    if s != [] {
      var init, last := s[..|s| - 1], s[|s| - 1];
      DistinctSize(init);
      assert (set id | id in s) == (set id | id in init) + {last};
      assert last !in init;
    }
  }

  // ---- the consumer loop ----

  datatype Answer = Taken | Full | Closed

  datatype Verdict = Duplicate | Quoted | DroppedFull | Stopped

  /** The loop's history: ids accepted into the memory, which of them were forwarded (as positions among the
      accepted), and one verdict per received id. */
  datatype History = History(accepted: seq<string>, forwarded: seq<nat>, verdicts: seq<Verdict>) {
    predicate Over() { verdicts != [] && verdicts[|verdicts| - 1] == Stopped }
  }

  function Receive(h: History, id: string, a: Answer, cap: nat): History {
    if h.Over() then h
    else if id in Window(h.accepted, cap) then h.(verdicts := h.verdicts + [Duplicate])
    else
      match a
      case Taken => History(h.accepted + [id], h.forwarded + [|h.accepted|], h.verdicts + [Quoted])
      case Full => History(h.accepted + [id], h.forwarded, h.verdicts + [DroppedFull])
      case Closed => History(h.accepted + [id], h.forwarded, h.verdicts + [Stopped])
  }

  /** Everything received so far, each with the answer the outbound channel had for it. */
  function Replay(h: History, ids: seq<string>, answers: seq<Answer>, cap: nat): History
    requires |answers| == |ids|
  {
    if ids == [] then h
    else
      var n := |ids| - 1;
      Receive(Replay(h, ids[..n], answers[..n], cap), ids[n], answers[n], cap)
  }

  function CountOf(verdicts: seq<Verdict>, v: Verdict): nat {
    multiset(verdicts)[v]
  }

  // Forwarded ids are accepted ids, in order.
  predicate Ordered(h: History) {
    && (forall k :: 0 <= k < |h.forwarded| ==> h.forwarded[k] < |h.accepted|)
    && (forall k, m :: 0 <= k < m < |h.forwarded| ==> h.forwarded[k] < h.forwarded[m])
  }

  // The forwarded ids themselves.
  function Texts(h: History): seq<string>
    requires Ordered(h)
  {
    seq(|h.forwarded|, k requires 0 <= k < |h.forwarded| => h.accepted[h.forwarded[k]])
  }

  lemma TextsReceive(h: History, id: string, a: Answer, cap: nat)
    requires Ordered(h) && !h.Over()
    ensures var g := Receive(h, id, a, cap);
            Ordered(g) && Texts(g) == Texts(h) + if VerdictOn(h, id, a, cap) == Quoted then [id] else []
  {
  }

  /** Over a whole run an id is forwarded twice only if at least `cap` other ids were accepted in between, and
      whatever was accepted stays in the history. */
  lemma {:induction false} RunSpaced(h: History, ids: seq<string>, answers: seq<Answer>, cap: nat)
    requires |answers| == |ids| && Spaced(h.accepted, cap) && Ordered(h)
    ensures var g := Replay(h, ids, answers, cap);
            && h.accepted <= g.accepted && Spaced(g.accepted, cap) && Ordered(g)
            && forall k, m :: 0 <= k < m < |g.forwarded| && g.accepted[g.forwarded[k]] == g.accepted[g.forwarded[m]] ==>
                                g.forwarded[m] - g.forwarded[k] > Max(1, cap)
    decreases |ids|
  {
    if ids != [] {
      var n := |ids| - 1;
      var before := Replay(h, ids[..n], answers[..n], cap);
      RunSpaced(h, ids[..n], answers[..n], cap);
      if !before.Over() && ids[n] !in Window(before.accepted, cap) {
        SpacedPush(before.accepted, ids[n], cap);
      }
    }
  }

  /** A replayed id is refused exactly while its last acceptance is still inside the window. */
  lemma ReplayRefusedIff(h: History, at: nat, ids: seq<string>, answers: seq<Answer>, a: Answer, cap: nat)
    requires |answers| == |ids| && Spaced(h.accepted, cap) && Ordered(h) && at < |h.accepted|
    requires var g := Replay(h, ids, answers, cap);
             !g.Over() && forall k :: at < k < |g.accepted| ==> g.accepted[k] != h.accepted[at]
    ensures var g := Replay(h, ids, answers, cap);
            Receive(g, h.accepted[at], a, cap) == g.(verdicts := g.verdicts + [Duplicate])
            <==> |g.accepted| - at <= Max(1, cap)
  {
    var g := Replay(h, ids, answers, cap);
    RunSpaced(h, ids, answers, cap);
    LastInWindow(g.accepted, at, cap);
    RefusedIff(g, h.accepted[at], a, cap);
  }

  lemma LastInWindow(accepted: seq<string>, at: nat, cap: nat)
    requires at < |accepted| && forall k :: at < k < |accepted| ==> accepted[k] != accepted[at]
    ensures accepted[at] in Window(accepted, cap) <==> |accepted| - at <= Max(1, cap)
  {
    if |accepted| - at <= Max(1, cap) {
      InWindow(accepted, at, cap);
    } else {
      var w := Window(accepted, cap);
      assert forall k :: 0 <= k < |w| ==> w[k] == accepted[k + (|accepted| - |w|)];
    }
  }

  lemma RefusedIff(g: History, id: string, a: Answer, cap: nat)
    requires !g.Over()
    ensures Receive(g, id, a, cap) == g.(verdicts := g.verdicts + [Duplicate]) <==> id in Window(g.accepted, cap)
  {
    if id !in Window(g.accepted, cap) {
      assert |Receive(g, id, a, cap).accepted| == |g.accepted| + 1;
    }
  }

  function VerdictOn(h: History, id: string, a: Answer, cap: nat): Verdict {
    if id in Window(h.accepted, cap) then Duplicate
    else match a case Taken => Quoted case Full => DroppedFull case Closed => Stopped
  }

  lemma ReceiveCounts(h: History, id: string, a: Answer, cap: nat, v: Verdict)
    requires !h.Over()
    ensures var g := Receive(h, id, a, cap); var given := VerdictOn(h, id, a, cap);
            && g.verdicts == h.verdicts + [given]
            && CountOf(g.verdicts, v) == CountOf(h.verdicts, v) + (if v == given then 1 else 0)
            && g.Over() == (given == Stopped)
  {
    var given := VerdictOn(h, id, a, cap);
    assert multiset(h.verdicts + [given]) == multiset(h.verdicts) + multiset{given};
  }

  /** An intent is forwarded exactly when the loop has not stopped, its id is outside the memory and the channel has
      room; it is counted as dropped exactly when the channel is full, and the loop stops exactly when the receiver is
      gone. A new id is remembered whatever the channel answers. */
  lemma ForwardedIff(h: History, ids: seq<string>, answers: seq<Answer>, n: nat, cap: nat)
    requires |answers| == |ids| && n < |ids| && Spaced(h.accepted, cap) && Ordered(h)
    ensures var before, after := Replay(h, ids[..n], answers[..n], cap), Replay(h, ids[..n + 1], answers[..n + 1], cap);
            && Ordered(before) && Ordered(after)
            && (before.Over() ==> after == before)
            && (!before.Over() ==>
                  var isNew := ids[n] !in Window(before.accepted, cap);
                  && Texts(after) == Texts(before) + (if isNew && answers[n].Taken? then [ids[n]] else [])
                  && after.accepted == before.accepted + (if isNew then [ids[n]] else [])
                  && CountOf(after.verdicts, DroppedFull) - CountOf(before.verdicts, DroppedFull)
                     == (if isNew && answers[n].Full? then 1 else 0)
                  && CountOf(after.verdicts, Duplicate) - CountOf(before.verdicts, Duplicate) == (if isNew then 0 else 1)
                  && (after.Over() <==> isNew && answers[n].Closed?))
  {
    var before := Replay(h, ids[..n], answers[..n], cap);
    RunSpaced(h, ids[..n], answers[..n], cap);
    ReplayNext(h, ids, answers, n, cap);
    if !before.Over() {
      TextsReceive(before, ids[n], answers[n], cap);
      ReceiveCounts(before, ids[n], answers[n], cap, DroppedFull);
      ReceiveCounts(before, ids[n], answers[n], cap, Duplicate);
    }
  }

  datatype ConsumerMetrics = ConsumerMetrics(received: nat, deduped: nat, droppedOverflow: nat, quoted: nat)

  // The counters account for every received intent exactly once.
  predicate Balanced(m: ConsumerMetrics, h: History) {
    && m.received == |h.verdicts|
    && m.deduped == CountOf(h.verdicts, Duplicate)
    && m.droppedOverflow == CountOf(h.verdicts, DroppedFull)
    && m.quoted == CountOf(h.verdicts, Quoted) == |h.forwarded|
    && m.received == m.deduped + m.droppedOverflow + m.quoted + if h.Over() then 1 else 0
  }

  function Counted(m: ConsumerMetrics, v: Verdict): ConsumerMetrics {
    match v
    case Duplicate => m.(received := m.received + 1, deduped := m.deduped + 1)
    case DroppedFull => m.(received := m.received + 1, droppedOverflow := m.droppedOverflow + 1)
    case Quoted => m.(received := m.received + 1, quoted := m.quoted + 1)
    case Stopped => m.(received := m.received + 1)
  }

  lemma BalancedReceive(m: ConsumerMetrics, h: History, id: string, a: Answer, cap: nat)
    requires Balanced(m, h) && !h.Over() && Ordered(h)
    ensures Balanced(Counted(m, VerdictOn(h, id, a, cap)), Receive(h, id, a, cap))
    ensures Ordered(Receive(h, id, a, cap))
  {
    ReceiveCounts(h, id, a, cap, Duplicate);
    ReceiveCounts(h, id, a, cap, DroppedFull);
    ReceiveCounts(h, id, a, cap, Quoted);
  }

  lemma HandleFacts(m: ConsumerMetrics, h: History, id: string, a: Answer, cap: nat)
    requires Balanced(m, h) && !h.Over() && Ordered(h)
    ensures var v, g := VerdictOn(h, id, a, cap), Receive(h, id, a, cap);
            && Balanced(Counted(m, v), g) && Ordered(g)
            && Texts(g) == Texts(h) + (if v == Quoted then [id] else [])
            && g.Over() == (v == Stopped)
            && g.accepted == if v == Duplicate then h.accepted else h.accepted + [id]
  {
    BalancedReceive(m, h, id, a, cap);
    TextsReceive(h, id, a, cap);
    ReceiveCounts(h, id, a, cap, Stopped);
  }

  class HardenedConsumer {
    var metrics: ConsumerMetrics
    const state: BoundedDedupeState
    ghost var history: History

    ghost predicate Valid()
      reads this, state
    {
      state.Valid() && state.accepted == history.accepted && Ordered(history) && Balanced(metrics, history)
    }

    constructor (window: nat)
      ensures Valid() && fresh(state) && state.cap == window && history == History([], [], [])
    {
      metrics := ConsumerMetrics(0, 0, 0, 0);
      state := new BoundedDedupeState(window);
      history := History([], [], []);
    }

    method Handle(id: string, a: Answer) returns (forward: bool, stop: bool)
      requires Valid() && !history.Over()
      modifies this, state
      ensures Valid()
      ensures history == Receive(old(history), id, a, state.cap)
      ensures stop == history.Over()
      ensures Texts(history) == old(Texts(history)) + if forward then [id] else []
      ensures forward <==> id !in Window(old(history).accepted, state.cap) && a.Taken?
      ensures stop <==> id !in Window(old(history).accepted, state.cap) && a.Closed?
      ensures metrics.droppedOverflow == old(metrics).droppedOverflow
                                         + if id !in Window(old(history).accepted, state.cap) && a.Full? then 1 else 0
    {
      ghost var given, next := VerdictOn(history, id, a, state.cap), Receive(history, id, a, state.cap);
      HandleFacts(metrics, history, id, a, state.cap);
      var duplicate := state.CheckAndInsert(id);
      var verdict := Duplicate;
      if !duplicate {
        verdict := match a case Taken => Quoted case Full => DroppedFull case Closed => Stopped;
      }
      assert verdict == given;
      metrics := Counted(metrics, verdict);
      history := next;
      forward, stop := verdict == Quoted, verdict == Stopped;
    }

    /** The loop over everything received, until the downstream receiver is gone. */
    method Run(ids: seq<string>, answers: seq<Answer>) returns (forwarded: seq<string>)
      requires |answers| == |ids| && Valid() && !history.Over()
      modifies this, state
      ensures Valid()
      ensures history == Replay(old(history), ids, answers, state.cap)
      ensures Texts(history) == old(Texts(history)) + forwarded
    {
      forwarded := [];
      ghost var h0 := history;
      var n, stop := 0, false;
      while n < |ids| && !stop
        invariant n <= |ids| && Valid() && stop == history.Over()
        invariant history == Replay(h0, ids[..n], answers[..n], state.cap)
        invariant Texts(history) == Texts(h0) + forwarded
      {
        ReplayNext(h0, ids, answers, n, state.cap);
        var forward;
        forward, stop := Handle(ids[n], answers[n]);
        if forward {
          forwarded := forwarded + [ids[n]];
        }
        n := n + 1;
      }
      OverStays(h0, ids, answers, n, state.cap);
    }
  }

  lemma ReplayNext(h: History, ids: seq<string>, answers: seq<Answer>, n: nat, cap: nat)
    requires |answers| == |ids| && n < |ids|
    ensures Replay(h, ids[..n + 1], answers[..n + 1], cap) ==
            Receive(Replay(h, ids[..n], answers[..n], cap), ids[n], answers[n], cap)
  {
    assert ids[..n + 1][..n] == ids[..n] && answers[..n + 1][..n] == answers[..n];
  }

  // Once stopped, nothing received changes the history.
  lemma {:induction false} StoppedFor(h: History, ids: seq<string>, answers: seq<Answer>, n: nat, k: nat, cap: nat)
    requires |answers| == |ids| && n <= k <= |ids|
    requires Replay(h, ids[..n], answers[..n], cap).Over()
    ensures Replay(h, ids[..k], answers[..k], cap) == Replay(h, ids[..n], answers[..n], cap)
    decreases k
  {
    if n < k {
      StoppedFor(h, ids, answers, n, k - 1, cap);
      ReplayNext(h, ids, answers, k - 1, cap);
    }
  }

  lemma OverStays(h: History, ids: seq<string>, answers: seq<Answer>, n: nat, cap: nat)
    requires |answers| == |ids| && n <= |ids|
    requires n == |ids| || Replay(h, ids[..n], answers[..n], cap).Over()
    ensures Replay(h, ids, answers, cap) == Replay(h, ids[..n], answers[..n], cap)
  {
    assert ids[..|ids|] == ids && answers[..|ids|] == answers;
    if n < |ids| {
      StoppedFor(h, ids, answers, n, |ids|, cap);
    }
  }
}
