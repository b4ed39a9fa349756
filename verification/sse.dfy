/** The genome stream reader: cutting server-sent events out of a byte stream that arrives in arbitrary chunks. */
module Sse {
  import opened Common

  type Text = seq<byte>

  const NEWLINE: byte := 10
  const MAX_BUFFER: nat := 512 * 1024

  predicate SeparatorAt(t: Text, i: int) {
    0 <= i && i + 1 < |t| && t[i] == NEWLINE && t[i + 1] == NEWLINE
  }

  ghost predicate HasSeparator(t: Text) {
    exists i :: SeparatorAt(t, i)
  }

  ghost predicate FirstSeparator(t: Text, i: int) {
    SeparatorAt(t, i) && forall k :: 0 <= k < i ==> !SeparatorAt(t, k)
  }

  datatype Cut = Cut(events: seq<Text>, rest: Text)

  /** What a text holds, independent of how it arrived: its events, in order, and the unfinished rest. */
  ghost function Split(t: Text): Cut
    decreases |t|
  {
    if !HasSeparator(t) then Cut([], t)
    else
      FirstExists(t);
      var i :| FirstSeparator(t, i);
      var tail := Split(t[i + 2..]);
      Cut([t[..i]] + tail.events, tail.rest)
  }

  lemma FirstExists(t: Text)
    requires HasSeparator(t)
    ensures exists i :: FirstSeparator(t, i)
  {
    var i :| SeparatorAt(t, i);
    FirstUpTo(t, i);
  }

  lemma {:induction false} FirstUpTo(t: Text, i: int)
    requires SeparatorAt(t, i)
    ensures exists k :: FirstSeparator(t, k)
    decreases i
  {
    if k :| 0 <= k < i && SeparatorAt(t, k) {
      FirstUpTo(t, k);
    } else {
      assert FirstSeparator(t, i);
    }
  }

  lemma SplitAt(t: Text, i: int)
    requires FirstSeparator(t, i)
    ensures Split(t) == Cut([t[..i]] + Split(t[i + 2..]).events, Split(t[i + 2..]).rest)
  {
  }

  // The first event of a text is the first event of every extension of it.
  lemma FirstEventKept(a: Text, b: Text, i: int)
    requires FirstSeparator(a, i)
    ensures FirstSeparator(a + b, i)
    ensures (a + b)[..i] == a[..i] && (a + b)[i + 2..] == a[i + 2..] + b
  {
    assert forall k :: 0 <= k <= i ==> (SeparatorAt(a + b, k) <==> SeparatorAt(a, k));
  }

  lemma EventsJoin(first: Text, x: Cut, later: Cut)
    ensures [first] + (x.events + later.events) == ([first] + x.events) + later.events
  {
  }

  // One event further: what is true of the text after the first event is true of the text.
  lemma ConcatStep(a: Text, b: Text, i: int)
    requires FirstSeparator(a, i)
    requires var x := Split(a[i + 2..]); var later := Split(x.rest + b);
             Split(a[i + 2..] + b) == Cut(x.events + later.events, later.rest)
    ensures var x := Split(a[i + 2..]); var later := Split(x.rest + b);
            Split(a + b) == Cut(([a[..i]] + x.events) + later.events, later.rest)
  {
    var x := Split(a[i + 2..]);
    EventsJoin(a[..i], x, Split(x.rest + b));
    FirstEventKept(a, b, i);
    SplitAt(a + b, i);
  }

  /** Reading `a` and then `b` gives what reading `a + b` at once gives. */
  lemma {:induction false} SplitConcat(a: Text, b: Text)
    ensures Split(a + b) == Cut(Split(a).events + Split(Split(a).rest + b).events, Split(Split(a).rest + b).rest)
    decreases |a|
  {
    if HasSeparator(a) {
      FirstExists(a);
      var i :| FirstSeparator(a, i);
      SplitConcat(a[i + 2..], b);
      ConcatStep(a, b, i);
      SplitAt(a, i);
    }
  }

  lemma {:induction false} RestHasNone(t: Text)
    ensures !HasSeparator(Split(t).rest)
    decreases |t|
  {
    if HasSeparator(t) {
      FirstExists(t);
      var i :| FirstSeparator(t, i);
      SplitAt(t, i);
      RestHasNone(t[i + 2..]);
    }
  }

  lemma {:induction false} RestLength(t: Text)
    ensures |Split(t).rest| <= |t|
    decreases |t|
  {
    if HasSeparator(t) {
      FirstExists(t);
      var i :| FirstSeparator(t, i);
      SplitAt(t, i);
      RestLength(t[i + 2..]);
    }
  }

  // The rest begins after every separator (or, in a run of newlines, at its second half).
  lemma {:induction false} RestAfter(t: Text, i: int)
    requires SeparatorAt(t, i)
    ensures |Split(t).rest| <= |t| - i - 1
    decreases |t|
  {
    FirstExists(t);
    var k :| FirstSeparator(t, k);
    SplitAt(t, k);
    RestLength(t[k + 2..]);
    if i >= k + 2 {
      assert SeparatorAt(t[k + 2..], i - k - 2);
      RestAfter(t[k + 2..], i - k - 2);
    }
  }

  // ---- reading chunk by chunk ----

  ghost predicate Overflows(buffer: Text, chunk: Text) {
    |buffer + chunk| > MAX_BUFFER && !HasSeparator(buffer + chunk)
  }

  /** `clean` says that no chunk overflowed the buffer and had it discarded. */
  datatype Reading = Reading(events: seq<Text>, rest: Text, clean: bool)

  ghost function Read(buffer: Text, chunks: seq<Text>): Reading
    decreases |chunks|
  {
    if chunks == [] then Reading([], buffer, true)
    else if Overflows(buffer, chunks[0]) then Read([], chunks[1..]).(clean := false)
    else
      var cut := Split(buffer + chunks[0]);
      var later := Read(cut.rest, chunks[1..]);
      Reading(cut.events + later.events, later.rest, later.clean)
  }

  function Flatten(chunks: seq<Text>): Text
    decreases |chunks|
  {
    if chunks == [] then [] else chunks[0] + Flatten(chunks[1..])
  }

  /** With no discard, events and leftover depend only on the concatenated text, not on how it was cut. */
  lemma {:induction false} ChunkingIrrelevant(buffer: Text, chunks: seq<Text>)
    requires !HasSeparator(buffer)
    requires Read(buffer, chunks).clean
    ensures Cut(Read(buffer, chunks).events, Read(buffer, chunks).rest) == Split(buffer + Flatten(chunks))
    decreases |chunks|
  {
    if chunks == [] {
      assert buffer + [] == buffer;
    } else {
      var x, later := buffer + chunks[0], Flatten(chunks[1..]);
      assert buffer + Flatten(chunks) == x + later;
      RestHasNone(x);
      ChunkingIrrelevant(Split(x).rest, chunks[1..]);
      SplitConcat(x, later);
    }
  }

  /** In every run, discards or not, the leftover holds no blank line and is no longer than the cap or the last chunk. */
  lemma {:induction false} LeftoverBounded(buffer: Text, chunks: seq<Text>)
    requires !HasSeparator(buffer) && chunks != []
    ensures var rest := Read(buffer, chunks).rest;
            !HasSeparator(rest) && |rest| <= Max(512 * 1024, |chunks[|chunks| - 1]|)
    decreases |chunks|
  {
    var x := buffer + chunks[0];
    var next: Text := if Overflows(buffer, chunks[0]) then [] else Split(x).rest;
    RestHasNone(x);
    if !Overflows(buffer, chunks[0]) && HasSeparator(x) {
      var i :| SeparatorAt(x, i);
      assert !SeparatorAt(buffer, i);
      RestAfter(x, i);
    }
    assert !HasSeparator(next) && |next| <= Max(MAX_BUFFER, |chunks[0]|);
    if |chunks| > 1 {
      LeftoverBounded(next, chunks[1..]);
    } else {
      assert Read(next, chunks[1..]).rest == next;
    }
  }

  /** Text whose every event (with one newline) and unfinished rest fit the buffer. */
  ghost predicate Fits(t: Text) {
    (forall e :: e in Split(t).events ==> |e| < 512 * 1024) && |Split(t).rest| <= 512 * 1024
  }

  lemma {:induction false} FittingNeverOverflows(buffer: Text, chunks: seq<Text>)
    requires !HasSeparator(buffer)
    requires Fits(buffer + Flatten(chunks))
    ensures Read(buffer, chunks).clean
    decreases |chunks|
  {
    if chunks != [] {
      var x, later := buffer + chunks[0], Flatten(chunks[1..]);
      var t := buffer + Flatten(chunks);
      assert t == x + later;
      if !HasSeparator(x) && HasSeparator(t) {
        FirstExists(t);
        var i :| FirstSeparator(t, i);
        SplitAt(t, i);
        assert !SeparatorAt(x, i);
        assert t[..i] in Split(t).events;
        assert |x| <= i + 1 <= MAX_BUFFER;
      }
      SplitConcat(x, later);
      RestHasNone(x);
      FittingNeverOverflows(Split(x).rest, chunks[1..]);
    }
  }

  lemma FirstInPrefix(t: Text, i: int)
    requires FirstSeparator(t, i)
    ensures !HasSeparator(t[..i + 1]) && FirstSeparator(t[..i + 2], i)
    ensures Split(t[..i + 2]).rest == []
  {
    var y := t[..i + 1];
    forall j ensures !SeparatorAt(y, j) {
      if 0 <= j < i {
        assert !SeparatorAt(t, j);
      }
    }
    var x := t[..i + 2];
    assert forall k :: 0 <= k <= i ==> (SeparatorAt(x, k) <==> SeparatorAt(t, k));
    SplitAt(x, i);
    assert x[i + 2..] == [];
  }

  lemma OneEventFirst(t: Text, i: int, later: seq<Text>)
    requires FirstSeparator(t, i) && Flatten(later) == t[i + 2..]
    ensures Flatten([t[..i + 2]] + later) == t
    ensures Read([], [t[..i + 2]] + later).clean == Read([], later).clean
  {
    FirstInPrefix(t, i);
    var x, chunks := t[..i + 2], [t[..i + 2]] + later;
    assert chunks[1..] == later && [] + x == x;
    assert x + t[i + 2..] == t;
  }

  lemma TwoHalves(t: Text, n: nat)
    requires n <= |t| && !HasSeparator(t[..n]) && n > MAX_BUFFER
    ensures Flatten([t[..n], t[n..]]) == t
    ensures !Read([], [t[..n], t[n..]]).clean
  {
    var chunks := [t[..n], t[n..]];
    var later := chunks[1..];
    assert later == [t[n..]] && later[1..] == [];
    assert Flatten(chunks[1..]) == t[n..];
    assert [] + t[..n] == t[..n];
  }

  // A way of cutting a text that does not fit so that the buffer is discarded.
  lemma {:induction false} OverflowingCut(t: Text) returns (chunks: seq<Text>)
    requires !Fits(t)
    ensures Flatten(chunks) == t && !Read([], chunks).clean
    decreases |t|
  {
    if !HasSeparator(t) {
      chunks := [t[..|t|], t[|t|..]];
      assert t[..|t|] == t;
      TwoHalves(t, |t|);
    } else {
      FirstExists(t);
      var i :| FirstSeparator(t, i);
      SplitAt(t, i);
      FirstInPrefix(t, i);
      if i >= MAX_BUFFER {
        chunks := [t[..i + 1], t[i + 1..]];
        TwoHalves(t, i + 1);
      } else {
        var later := OverflowingCut(t[i + 2..]);
        chunks := [t[..i + 2]] + later;
        OneEventFirst(t, i, later);
      }
    }
  }

  /** A text survives every way of cutting it exactly when each of its events and its rest fit the buffer. */
  lemma CleanIffFits(t: Text)
    ensures (forall chunks :: Flatten(chunks) == t ==> Read([], chunks).clean) <==> Fits(t)
  {
    if Fits(t) {
      forall chunks | Flatten(chunks) == t ensures Read([], chunks).clean {
        assert [] + t == t;
        FittingNeverOverflows([], chunks);
      }
    } else {
      var chunks := OverflowingCut(t);
    }
  }

  // ---- the reader ----

  method FindSeparator(t: Text) returns (at: int)
    ensures at >= 0 ==> FirstSeparator(t, at)
    ensures at < 0 ==> !HasSeparator(t)
  {
    at := 0;
    while at + 1 < |t|
      invariant 0 <= at
      invariant forall k :: 0 <= k < at ==> !SeparatorAt(t, k)
    {
      if t[at] == NEWLINE && t[at + 1] == NEWLINE {
        return;
      }
      at := at + 1;
    }
    at := -1;
  }

  class SseReader {
    var buffer: Text

    constructor ()
      ensures buffer == []
    {
      buffer := [];
    }

    method Feed(chunk: Text) returns (events: seq<Text>, discarded: bool)
      modifies this
      ensures discarded == Overflows(old(buffer), chunk)
      ensures discarded ==> events == [] && buffer == []
      ensures !discarded ==> Cut(events, buffer) == Split(old(buffer) + chunk)
    {
      events := [];
      buffer := buffer + chunk;
      var at := FindSeparator(buffer);
      if |buffer| > MAX_BUFFER && at < 0 {
        buffer := [];
        return [], true;
      }
      ghost var whole := buffer;
      while at >= 0
        invariant at >= 0 ==> FirstSeparator(buffer, at)
        invariant at < 0 ==> !HasSeparator(buffer)
        invariant Split(whole) == Cut(events + Split(buffer).events, Split(buffer).rest)
        decreases |buffer|, at
      {
        SplitAt(buffer, at);
        events := events + [buffer[..at]];
        buffer := buffer[at + 2..];
        at := FindSeparator(buffer);
      }
      discarded := false;
    }

    /** A whole connection: every chunk in turn. */
    method ReadStream(chunks: seq<Text>) returns (events: seq<Text>, ghost clean: bool)
      modifies this
      ensures Reading(events, buffer, clean) == Read(old(buffer), chunks)
      ensures clean && old(buffer) == [] ==> Cut(events, buffer) == Split(Flatten(chunks))
    {
      events, clean := [], true;
      for n := 0 to |chunks|
        invariant var later := Read(buffer, chunks[n..]);
                  Read(old(buffer), chunks) == Reading(events + later.events, later.rest, clean && later.clean)
      {
        assert chunks[n..][0] == chunks[n] && chunks[n..][1..] == chunks[n + 1..];
        var more, discarded := Feed(chunks[n]);
        events := events + more;
        clean := clean && !discarded;
      }
      if clean && old(buffer) == [] {
        ChunkingIrrelevant([], chunks);
        assert [] + Flatten(chunks) == Flatten(chunks);
      }
    }
  }
}
