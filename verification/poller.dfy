/** The deBridge order poller: scanning each chain's logs in block windows behind a moving head. */
module Poller {
  import opened Common

  const LAG_BATCHES: nat := 5

  /** A decoded order, and whether the solver has a way to fill it. */
  datatype Order = Order(id: string, fillable: bool)

  /** What one poll of a chain is told: the head block, then the logs of the window; None when the RPC fails.
      A log that does not decode is None. */
  datatype Answer = Answer(head: Option<nat>, logs: Option<seq<Option<Order>>>)

  function Below(head: nat, distance: nat): nat {
    if head >= distance then head - distance else 0
  }

  function WindowStart(last: Option<nat>, head: nat, batch: nat): nat {
    Max(last.GetOr(Below(head, batch)), Below(head, LAG_BATCHES * batch))
  }

  /** A block of a chain. */
  datatype Block = Block(chain: nat, number: nat)

  function Blocks(chain: nat, from: nat, to: nat): set<Block> {
    set n: nat | from <= n < to :: Block(chain, n)
  }

  // ---- which blocks were scanned ----

  /** A poller's scanning record: `last` is the next block to scan per chain, `start` the first one scanned, `top`
      the highest head seen, `covered` the blocks of successful queries, `skipped` those given up. */
  datatype Scan = Scan(last: map<nat, nat>,
                       start: map<nat, nat>,
                       top: map<nat, nat>,
                       covered: set<Block>,
                       skipped: set<Block>)
  {
    function Last(chain: nat): Option<nat> {
      if chain in last then Some(last[chain]) else None
    }
  }

  // A poll that learnt the head and, if its window is not empty, had its query answered.
  function Advance(s: Scan, chain: nat, head: nat, batch: nat): Scan {
    var from := WindowStart(s.Last(chain), head, batch);
    var scanned := from < head;
    Scan(s.last[chain := if scanned then head + 1 else head],
         if chain in s.start then s.start else s.start[chain := if scanned then from else head],
         s.top[chain := if chain in s.top then Max(s.top[chain], head) else head],
         s.covered + if scanned then Blocks(chain, from, head + 1) else {},
         s.skipped + Blocks(chain, s.Last(chain).GetOr(from), if scanned then from else head))
  }

  predicate Accounted(s: Scan, batch: nat) {
    && s.last.Keys == s.start.Keys == s.top.Keys
    && (forall c :: c in s.last ==> forall n: nat :: s.start[c] <= n < s.last[c] ==>
                                                       Block(c, n) in s.covered || Block(c, n) in s.skipped)
    && (forall b :: b in s.skipped ==> b.chain in s.top && b.number + 5 * batch < s.top[b.chain])
  }

  /** Each poll keeps every block from the first scanned one up to `last` covered or given up, and gives a block up
      only when it is more than five batches behind the head. */
  lemma AdvanceAccounted(s: Scan, chain: nat, head: nat, batch: nat)
    requires Accounted(s, batch)
    ensures Accounted(Advance(s, chain, head, batch), batch)
  {
    var t := Advance(s, chain, head, batch);
    var from := WindowStart(s.Last(chain), head, batch);
    assert t.last.Keys == s.last.Keys + {chain};
    forall n: nat | t.start[chain] <= n < t.last[chain]
      ensures Block(chain, n) in t.covered || Block(chain, n) in t.skipped
    {
      if from < head && from <= n {
        assert Block(chain, n) in Blocks(chain, from, head + 1);
      } else if chain in s.last && n >= s.last[chain] {
        assert Block(chain, n) in Blocks(chain, s.last[chain], if from < head then from else head);
      }
    }
  }

  /** Nothing is given up by a poll exactly when the head is at most five batches past the last scanned block. */
  lemma AdvanceLossless(s: Scan, chain: nat, head: nat, batch: nat)
    requires chain in s.last ==> forall n: nat :: n >= s.last[chain] ==> Block(chain, n) !in s.skipped
    ensures Advance(s, chain, head, batch).skipped == s.skipped
            <==> (chain !in s.last || head <= s.last[chain] + 5 * batch)
  {
    var t := Advance(s, chain, head, batch);
    if chain in s.last && head > s.last[chain] + LAG_BATCHES * batch {
      var from := WindowStart(s.Last(chain), head, batch);
      assert Block(chain, s.last[chain]) in Blocks(chain, s.last[chain], if from < head then from else head);
    }
  }

  /** The first poll of a chain scans the last batch of blocks up to the head, and gives nothing up. */
  lemma FirstScan(s: Scan, chain: nat, head: nat, batch: nat)
    requires chain !in s.last && 0 < batch && 0 < head
    ensures var t := Advance(s, chain, head, batch);
            && t.skipped == s.skipped && t.last[chain] == head + 1
            && forall n: nat :: Block(chain, n) in t.covered <==>
                                  Block(chain, n) in s.covered || head - batch <= n <= head
  {
    assert Below(head, 5 * batch) <= Below(head, batch) < head;
    var blocks := Blocks(chain, Below(head, batch), head + 1);
    assert forall n: nat :: Block(chain, n) in blocks <==> Below(head, batch) <= n < head + 1;
  }

  // ---- order emission ----

  // The log at `k` is the first that decodes to the order `id`.
  predicate FirstAt(logs: seq<Option<Order>>, k: nat, id: string) {
    && k < |logs| && logs[k].Some? && logs[k].value.id == id
    && forall j :: 0 <= j < k && logs[j].Some? ==> logs[j].value.id != id
  }

  ghost predicate Sighted(logs: seq<Option<Order>>, id: string) {
    exists o :: Some(o) in logs && o.id == id
  }

  // The order could be filled when it was first sighted.
  ghost predicate FirstFillable(logs: seq<Option<Order>>, id: string) {
    exists k: nat :: FirstAt(logs, k, id) && logs[k].value.fillable
  }

  predicate Distinct(s: seq<string>) {
    forall i, j :: 0 <= i < j < |s| ==> s[i] != s[j]
  }

  // `out` is the orders that could be filled when first sighted, each once, in the order of those sightings.
  ghost predicate Reports(out: seq<string>, logs: seq<Option<Order>>) {
    && Distinct(out)
    && (forall id :: id in out <==> FirstFillable(logs, id))
    && (forall i, j, k: nat, m: nat :: 0 <= i < j < |out| && FirstAt(logs, k, out[i]) && FirstAt(logs, m, out[j]) ==> k < m)
  }

  lemma FirstAtPrefix(a: seq<Option<Order>>, b: seq<Option<Order>>, k: nat, id: string)
    requires k < |a|
    ensures FirstAt(a + b, k, id) <==> FirstAt(a, k, id)
  {
    assert forall j :: 0 <= j < |a| ==> (a + b)[j] == a[j];
  }

  lemma FirstAtRest(a: seq<Option<Order>>, b: seq<Option<Order>>, k: nat, id: string)
    requires k >= |a|
    ensures FirstAt(a + b, k, id) <==> !Sighted(a, id) && FirstAt(b, k - |a|, id)
  {
    var s := a + b;
    assert forall j :: 0 <= j < |a| ==> s[j] == a[j];
    assert forall j :: 0 <= j < |b| ==> s[|a| + j] == b[j];
    if FirstAt(b, k - |a|, id) && !Sighted(a, id) {
      forall j | 0 <= j < k && s[j].Some?
        ensures s[j].value.id != id
      {
        if j < |a| { assert Some(s[j].value) in a; } else { assert s[j] == b[j - |a|]; }
      }
    }
    if FirstAt(s, k, id) {
      forall j | 0 <= j < k - |a| && b[j].Some?
        ensures b[j].value.id != id
      {
        assert s[|a| + j] == b[j];
      }
      forall o | Some(o) in a
        ensures o.id != id
      {
        var j :| 0 <= j < |a| && a[j] == Some(o);
        assert s[j] == Some(o);
      }
    }
  }

  /** What counts over two stretches of logs is the first stretch that has the order. */
  lemma FirstFillableSum(a: seq<Option<Order>>, b: seq<Option<Order>>, id: string)
    ensures FirstFillable(a + b, id) <==> FirstFillable(a, id) || (!Sighted(a, id) && FirstFillable(b, id))
  {
    if k: nat :| FirstAt(a + b, k, id) && (a + b)[k].value.fillable {
      if k < |a| { FirstAtPrefix(a, b, k, id); } else { FirstAtRest(a, b, k, id); }
    }
    if k: nat :| FirstAt(a, k, id) && a[k].value.fillable {
      FirstAtPrefix(a, b, k, id);
    }
    if k: nat :| FirstAt(b, k, id) && b[k].value.fillable && !Sighted(a, id) {
      FirstAtRest(a, b, |a| + k, id);
    }
  }

  lemma FirstIsSighted(logs: seq<Option<Order>>, id: string)
    requires FirstFillable(logs, id)
    ensures Sighted(logs, id)
  {
    var k: nat :| FirstAt(logs, k, id) && logs[k].value.fillable;
    assert Some(logs[k].value) in logs;
  }

  lemma NextFillable(logs: seq<Option<Order>>, x: Option<Order>, id: string)
    ensures FirstFillable(logs + [x], id)
            <==> FirstFillable(logs, id) || (!Sighted(logs, id) && x.Some? && x.value.id == id && x.value.fillable)
  {
    FirstFillableSum(logs, [x], id);
    if x.Some? && x.value.id == id && x.value.fillable {
      assert FirstAt([x], 0, id);
    }
  }

  // What one more log adds to the report.
  ghost function NewOrder(logs: seq<Option<Order>>, x: Option<Order>): seq<string> {
    if x.Some? && !Sighted(logs, x.value.id) && x.value.fillable then [x.value.id] else []
  }

  lemma StaysFirst(logs: seq<Option<Order>>, x: Option<Order>, k: nat, id: string)
    requires Sighted(logs, id) && FirstAt(logs + [x], k, id)
    ensures k < |logs| && FirstAt(logs, k, id)
  {
    if k >= |logs| {
      FirstAtRest(logs, [x], k, id);
    } else {
      FirstAtPrefix(logs, [x], k, id);
    }
  }

  lemma PlaceSighted(logs: seq<Option<Order>>, x: Option<Order>, k: nat, id: string)
    requires k < |logs| && FirstAt(logs + [x], k, id)
    ensures Sighted(logs, id)
  {
    FirstAtPrefix(logs, [x], k, id);
    assert Some(logs[k].value) in logs;
  }

  lemma SightedNext(logs: seq<Option<Order>>, x: Option<Order>, id: string)
    ensures Sighted(logs + [x], id) <==> Sighted(logs, id) || (x.Some? && x.value.id == id)
  {
    assert forall o :: Some(o) in logs + [x] <==> Some(o) in logs || x == Some(o);
  }

  lemma DistinctParts(a: seq<string>, b: seq<string>)
    requires Distinct(a + b)
    ensures forall id :: id in a ==> id !in b
  {
    forall i, j | 0 <= i < |a| && 0 <= j < |b|
      ensures a[i] != b[j]
    {
      assert (a + b)[i] == a[i] && (a + b)[|a| + j] == b[j];
    }
  }

  // What was added to a report since is what was first sighted since, and could be filled then.
  lemma ReportedSince(before: seq<string>, logs: seq<Option<Order>>, out: seq<string>, more: seq<Option<Order>>, id: string)
    requires Reports(before, logs) && Reports(before + out, logs + more)
    ensures id in out <==> !Sighted(logs, id) && FirstFillable(more, id)
  {
    FirstFillableSum(logs, more, id);
    assert id in before + out <==> id in before || id in out;
    if id in before {
      FirstIsSighted(logs, id);
    }
    DistinctParts(before, out);
  }

  lemma ReportedAfresh(before: seq<string>, logs: seq<Option<Order>>, out: seq<string>, more: seq<Option<Order>>)
    requires Reports(before + out, logs + more)
    ensures before == [] && logs == [] ==> Reports(out, more)
  {
    if before == [] && logs == [] {
      assert before + out == out && logs + more == more;
    }
  }

  lemma Regroup<T>(a: seq<T>, b: seq<T>, c: seq<T>)
    ensures a + b + c == a + (b + c)
  {
  }

  lemma ReportsNext(out: seq<string>, logs: seq<Option<Order>>, x: Option<Order>)
    requires Reports(out, logs)
    ensures Reports(out + NewOrder(logs, x), logs + [x])
  {
    var more := out + NewOrder(logs, x);
    forall id | id in out
      ensures Sighted(logs, id)
    {
      FirstIsSighted(logs, id);
    }
    forall id
      ensures id in more <==> FirstFillable(logs + [x], id)
    {
      NextFillable(logs, x, id);
    }
    forall i, j, k: nat, m: nat | 0 <= i < j < |more| && FirstAt(logs + [x], k, more[i]) && FirstAt(logs + [x], m, more[j])
      ensures k < m
    {
      assert more[i] == out[i] && out[i] in out;
      StaysFirst(logs, x, k, out[i]);
      if j < |out| {
        assert out[j] in out;
        StaysFirst(logs, x, m, out[j]);
      } else if m < |logs| {
        PlaceSighted(logs, x, m, more[j]);
      }
    }
  }

  // ---- what a run is told ----

  // The window of a poll that learnt the head is not empty.
  predicate Asks(s: Scan, chain: nat, head: nat, batch: nat) { WindowStart(s.Last(chain), head, batch) < head }

  // The head came, and so did the logs if any were asked for.
  predicate Answered(s: Scan, chain: nat, a: Answer, batch: nat) {
    a.head.Some? && (Asks(s, chain, a.head.value, batch) ==> a.logs.Some?)
  }

  function Scanned(s: Scan, chain: nat, a: Answer, batch: nat): Scan {
    if Answered(s, chain, a, batch) then Advance(s, chain, a.head.value, batch) else s
  }

  function LogsOf(s: Scan, chain: nat, a: Answer, batch: nat): seq<Option<Order>> {
    if Answered(s, chain, a, batch) && Asks(s, chain, a.head.value, batch) then a.logs.value else []
  }

  function ScannedAll(s: Scan, polls: seq<(nat, Answer)>, batch: nat): Scan
    decreases |polls|
  {
    if polls == [] then s
    else
      var n := |polls| - 1;
      Scanned(ScannedAll(s, polls[..n], batch), polls[n].0, polls[n].1, batch)
  }

  // The logs of all answered windows, in the order the run saw them.
  function LogsOfAll(s: Scan, polls: seq<(nat, Answer)>, batch: nat): seq<Option<Order>>
    decreases |polls|
  {
    if polls == [] then []
    else
      var n := |polls| - 1;
      LogsOfAll(s, polls[..n], batch) + LogsOf(ScannedAll(s, polls[..n], batch), polls[n].0, polls[n].1, batch)
  }

  lemma AllNext(s: Scan, polls: seq<(nat, Answer)>, n: nat, batch: nat)
    requires n < |polls|
    ensures var before := ScannedAll(s, polls[..n], batch);
            && ScannedAll(s, polls[..n + 1], batch) == Scanned(before, polls[n].0, polls[n].1, batch)
            && LogsOfAll(s, polls[..n + 1], batch)
               == LogsOfAll(s, polls[..n], batch) + LogsOf(before, polls[n].0, polls[n].1, batch)
  {
    assert polls[..n + 1][..n] == polls[..n];
  }

  lemma {:induction false} NeverForgets(s: Scan, polls: seq<(nat, Answer)>, batch: nat)
    ensures s.covered <= ScannedAll(s, polls, batch).covered && s.skipped <= ScannedAll(s, polls, batch).skipped
    decreases |polls|
  {
    if polls != [] {
      NeverForgets(s, polls[..|polls| - 1], batch);
    }
  }

  class DeBridgePoller {
    const batch: nat
    var lastBlock: map<nat, nat>
    var seen: set<string>
    ghost var scan: Scan
    ghost var sighted: seq<Option<Order>>
    ghost var emitted: seq<string>

    // What was emitted is what could be filled when it was first sighted, over everything read so far.
    ghost predicate Valid()
      reads this
    {
      scan.last == lastBlock && Accounted(scan, batch) && Remembers()
    }

    ghost predicate Remembers()
      reads this
    {
      (forall id :: id in seen <==> Sighted(sighted, id)) && Reports(emitted, sighted)
    }

    constructor (batch: nat)
      ensures Valid() && this.batch == batch
      ensures scan == Scan(map[], map[], map[], {}, {}) && sighted == [] && emitted == []
    {
      this.batch := batch;
      lastBlock, seen := map[], {};
      scan, sighted, emitted := Scan(map[], map[], map[], {}, {}), [], [];
    }

    /** The orders of `logs` that were unseen before and could be filled when first sighted, in the order of the logs. */
    method EmitNew(logs: seq<Option<Order>>) returns (out: seq<string>)
      requires Remembers()
      modifies this`seen, this`sighted, this`emitted
      ensures Remembers()
      ensures sighted == old(sighted) + logs && emitted == old(emitted) + out
      ensures forall id :: id in out <==> id !in old(seen) && FirstFillable(logs, id)
    {
      out := [];
      ghost var before := sighted;
      for n := 0 to |logs|
        invariant Remembers()
        invariant sighted == before + logs[..n] && emitted == old(emitted) + out
      {
        assert before + logs[..n + 1] == sighted + [logs[n]];
        ReportsNext(emitted, sighted, logs[n]);
        ghost var report := emitted + NewOrder(sighted, logs[n]);
        forall id ensures Sighted(sighted + [logs[n]], id) <==> id in seen || (logs[n].Some? && logs[n].value.id == id) {
          SightedNext(sighted, logs[n], id);
        }
        sighted := sighted + [logs[n]];
        if logs[n].Some? && logs[n].value.id !in seen {
          var o := logs[n].value;
          seen := seen + {o.id};
          if o.fillable {
            out := out + [o.id];
            emitted := emitted + [o.id];
          }
        }
        assert emitted == report;
      }
      assert logs[..|logs|] == logs;
      forall id ensures id in out <==> id !in old(seen) && FirstFillable(logs, id) {
        ReportedSince(old(emitted), before, out, logs, id);
      }
    }

    /** One poll of one chain. A failed head or log request changes nothing, so the window is retried. */
    method Poll(chain: nat, a: Answer) returns (out: seq<string>)
      requires Valid()
      modifies this
      ensures Valid()
      ensures emitted == old(emitted) + out
      ensures a.head.None? || (a.logs.None? && WindowStart(old(scan).Last(chain), a.head.value, batch) < a.head.value) ==>
                scan == old(scan) && sighted == old(sighted)
      ensures scan == Scanned(old(scan), chain, a, batch)
      ensures sighted == old(sighted) + LogsOf(old(scan), chain, a, batch)
      ensures forall id :: id in out <==> id !in old(seen) && FirstFillable(LogsOf(old(scan), chain, a, batch), id)
    {
      out := [];
      if a.head.None? {
        return;
      }
      var head := a.head.value;
      var from := WindowStart(if chain in lastBlock then Some(lastBlock[chain]) else None, head, batch);
      if from >= head {
        lastBlock := lastBlock[chain := head];
      } else {
        if a.logs.None? {
          return;
        }
        lastBlock := lastBlock[chain := head + 1];
        out := EmitNew(a.logs.value);
      }
      AdvanceAccounted(scan, chain, head, batch);
      scan := Advance(scan, chain, head, batch);
    }

    /** Any run: any polls in any order with any answers. Started afresh, it emits an order exactly when the order
        could be filled when its log was first read, each once, in the order of those first readings. */
    method Run(polls: seq<(nat, Answer)>) returns (out: seq<string>)
      requires Valid()
      modifies this
      ensures Valid()
      ensures emitted == old(emitted) + out
      ensures scan == ScannedAll(old(scan), polls, batch)
      ensures sighted == old(sighted) + LogsOfAll(old(scan), polls, batch)
      ensures old(sighted) == [] && old(emitted) == [] ==> Reports(out, LogsOfAll(old(scan), polls, batch))
      ensures old(scan).covered <= scan.covered && old(scan).skipped <= scan.skipped
    {
      out := [];
      for n := 0 to |polls|
        invariant Valid() && emitted == old(emitted) + out
        invariant scan == ScannedAll(old(scan), polls[..n], batch)
        invariant sighted == old(sighted) + LogsOfAll(old(scan), polls[..n], batch)
      {
        AllNext(old(scan), polls, n, batch);
        ghost var read := LogsOf(scan, polls[n].0, polls[n].1, batch);
        Regroup(old(sighted), LogsOfAll(old(scan), polls[..n], batch), read);
        var more := Poll(polls[n].0, polls[n].1);
        Regroup(old(emitted), out, more);
        out := out + more;
      }
      assert polls[..|polls|] == polls;
      NeverForgets(old(scan), polls, batch);
      ReportedAfresh(old(emitted), old(sighted), out, LogsOfAll(old(scan), polls, batch));
    }
  }
}
