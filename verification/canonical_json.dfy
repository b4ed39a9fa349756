/** Canonical JSON by recursive key sorting, against equality up to the order of object members. */
module CanonicalJson {
  import opened Lexicographic

  datatype Json =
    | Null
    | Bool(b: bool)
    | Number(n: int)
    | Text(s: string)
    | Array(items: seq<Json>)
    | Object(members: seq<Member>)

  datatype Member = Member(key: string, value: Json)

  // ---- key order: strings compare by code point ----

  function Codes(s: string): seq<nat> { seq(|s|, i requires 0 <= i < |s| => s[i] as nat) }

  predicate KeyBefore(a: string, b: string) { LexLess(Codes(a), Codes(b)) }

  lemma KeyTrichotomy(a: string, b: string)
    ensures a != b <==> KeyBefore(a, b) || KeyBefore(b, a)
    ensures !(KeyBefore(a, b) && KeyBefore(b, a))
  {
    LexTotal(Codes(a), Codes(b));
    if Codes(a) == Codes(b) {
      assert forall i :: 0 <= i < |a| ==> a[i] as nat == Codes(a)[i] == Codes(b)[i] == b[i] as nat;
      assert a == b;
    }
    if KeyBefore(a, b) {
      LexAsymmetric(Codes(a), Codes(b));
    }
  }

  lemma KeyTransitive(a: string, b: string, c: string)
    requires KeyBefore(a, b) && KeyBefore(b, c)
    ensures KeyBefore(a, c)
  {
    LexTransitive(Codes(a), Codes(b), Codes(c));
  }

  // ---- sorting ----

  // Inserting into a list kept in key order, as an ordered map does: an equal key is overwritten.
  function Put(ms: seq<Member>, m: Member): seq<Member> {
    if ms == [] then [m]
    else if KeyBefore(m.key, ms[0].key) then [m] + ms
    else if m.key == ms[0].key then [m] + ms[1..]
    else [ms[0]] + Put(ms[1..], m)
  }

  function Sort(v: Json): Json {
    match v
    case Object(ms) => Object(SortMembers(ms))
    case Array(items) => Array(SortItems(items))
    case _ => v
  }

  function SortMembers(ms: seq<Member>): seq<Member> {
    if ms == [] then [] else Put(SortMembers(ms[..|ms| - 1]), SortedMember(ms[|ms| - 1]))
  }

  function SortedMember(m: Member): Member { Member(m.key, Sort(m.value)) }

  function SortItems(items: seq<Json>): (sorted: seq<Json>)
    ensures |sorted| == |items|
  {
    if items == [] then [] else SortItems(items[..|items| - 1]) + [Sort(items[|items| - 1])]
  }

  // ---- the reference: equal up to member order, at every depth ----

  ghost predicate Same(a: Json, b: Json)
    decreases a
  {
    match (a, b)
    case (Object(p), Object(q)) =>
      && (forall m :: m in p ==> exists n :: n in q && n.key == m.key && Same(m.value, n.value))
      && (forall n :: n in q ==> exists m :: m in p && n.key == m.key && Same(m.value, n.value))
    case (Array(p), Array(q)) =>
      |p| == |q| && forall i :: 0 <= i < |p| ==> Same(p[i], q[i])
    case _ => a == b
  }

  ghost predicate Distinct(ms: seq<Member>) {
    forall i, j :: 0 <= i < j < |ms| ==> ms[i].key != ms[j].key
  }

  ghost predicate DupFree(v: Json)
    decreases v
  {
    match v
    case Object(ms) => Distinct(ms) && forall i :: 0 <= i < |ms| ==> DupFree(ms[i].value)
    case Array(items) => forall i :: 0 <= i < |items| ==> DupFree(items[i])
    case _ => true
  }

  ghost predicate Ordered(ms: seq<Member>) {
    forall i, j :: 0 <= i < j < |ms| ==> KeyBefore(ms[i].key, ms[j].key)
  }

  // ---- inserting ----

  // The members of a list after inserting m: m, and the old ones under other keys.
  lemma {:induction false} PutMembers(ms: seq<Member>, m: Member)
    requires Ordered(ms)
    ensures Ordered(Put(ms, m))
    ensures forall x :: x in Put(ms, m) <==> x == m || (x in ms && x.key != m.key)
  {
    if ms == [] {
    } else if KeyBefore(m.key, ms[0].key) {
      forall j | 0 <= j < |ms|
        ensures KeyBefore(m.key, ms[j].key) && ms[j].key != m.key
      {
        if j > 0 { KeyTransitive(m.key, ms[0].key, ms[j].key); }
        KeyTrichotomy(m.key, ms[j].key);
      }
    } else if m.key == ms[0].key {
      assert ms == [ms[0]] + ms[1..];
      forall j | 1 <= j < |ms|
        ensures ms[j].key != m.key
      {
        KeyTrichotomy(m.key, ms[j].key);
      }
    } else {
      KeyTrichotomy(m.key, ms[0].key);
      PutMembers(ms[1..], m);
      assert ms == [ms[0]] + ms[1..];
      var rest := Put(ms[1..], m);
      forall j | 0 <= j < |rest|
        ensures KeyBefore(ms[0].key, rest[j].key)
      {
        assert rest[j] in rest;
        assert rest[j] == m || rest[j] in ms[1..];
      }
    }
  }

  // Two key-ordered lists with the same members are the same list.
  lemma {:induction false} OrderedUnique(a: seq<Member>, b: seq<Member>)
    requires Ordered(a) && Ordered(b)
    requires forall x :: x in a <==> x in b
    ensures a == b
  {
    if a != [] { assert a[0] in b; }
    if b != [] { assert b[0] in a; }
    if a != [] {
      FirstIsLeast(a, b[0]);
      FirstIsLeast(b, a[0]);
      KeyTrichotomy(a[0].key, b[0].key);
      assert a == [a[0]] + a[1..] && b == [b[0]] + b[1..];
      forall x
        ensures x in a[1..] <==> x in b[1..]
      {
        NotRepeated(a);
        NotRepeated(b);
        assert x in a <==> x == a[0] || x in a[1..];
        assert x in b <==> x == b[0] || x in b[1..];
      }
      OrderedUnique(a[1..], b[1..]);
    }
  }

  lemma FirstIsLeast(a: seq<Member>, x: Member)
    requires Ordered(a) && x in a
    ensures x == a[0] || KeyBefore(a[0].key, x.key)
  {
  }

  lemma NotRepeated(a: seq<Member>)
    requires Ordered(a) && a != []
    ensures a[0] !in a[1..]
  {
    if a[0] in a[1..] {
      var i :| 0 <= i < |a| - 1 && a[1..][i] == a[0];
      assert a[i + 1] == a[0];
      KeyTrichotomy(a[0].key, a[i + 1].key);
    }
  }

  // ---- what sorting does to an object and to an array ----

  ghost predicate SortedFrom(ms: seq<Member>, x: Member) {
    exists m :: m in ms && x == SortedMember(m)
  }

  lemma {:induction false} SortedMembers(ms: seq<Member>)
    requires Distinct(ms)
    ensures Ordered(SortMembers(ms))
    ensures forall x :: x in SortMembers(ms) <==> SortedFrom(ms, x)
  {
    if ms != [] {
      var n := |ms| - 1;
      var front, last := ms[..n], ms[n];
      SortedMembers(front);
      PutMembers(SortMembers(front), SortedMember(last));
      assert ms == front + [last];
      forall x
        ensures SortedFrom(ms, x) <==> x == SortedMember(last) || (SortedFrom(front, x) && x.key != last.key)
      {
        if m :| m in front && x == SortedMember(m) {
          var i :| 0 <= i < n && front[i] == m;
          assert ms[i].key != ms[n].key;
        }
      }
    }
  }

  lemma {:induction false} SortedItems(items: seq<Json>)
    ensures forall i :: 0 <= i < |items| ==> SortItems(items)[i] == Sort(items[i])
  {
    if items != [] {
      SortedItems(items[..|items| - 1]);
    }
  }

  // ---- canonical: the sorted form stands for the value up to member order ----

  // Every member of p sorts to a member some member of q sorts to.
  ghost predicate Images(p: seq<Member>, q: seq<Member>) {
    forall m :: m in p ==> SortedFrom(q, SortedMember(m))
  }

  lemma AlikeIff(p: seq<Member>, q: seq<Member>)
    requires Distinct(p) && Distinct(q)
    ensures SortMembers(p) == SortMembers(q) <==> Images(p, q) && Images(q, p)
  {
    SortedMembers(p);
    SortedMembers(q);
    var x, y := SortMembers(p), SortMembers(q);
    if Images(p, q) && Images(q, p) {
      OrderedUnique(x, y);
    }
    if x == y {
      forall m | m in p
        ensures SortedFrom(q, SortedMember(m))
      {
        assert SortedFrom(p, SortedMember(m));
      }
      forall m | m in q
        ensures SortedFrom(p, SortedMember(m))
      {
        assert SortedFrom(q, SortedMember(m));
      }
    }
  }

  // Sorting decides sameness for each pair of member values.
  ghost predicate Decided(p: seq<Member>, q: seq<Member>) {
    forall m, n :: m in p && n in q ==> (Sort(m.value) == Sort(n.value) <==> Same(m.value, n.value))
  }

  lemma ObjectsCanonical(p: seq<Member>, q: seq<Member>)
    requires Decided(p, q)
    ensures Same(Object(p), Object(q)) <==> Images(p, q) && Images(q, p)
  {
    forall m | m in p
      ensures SortedFrom(q, SortedMember(m)) <==> exists n :: n in q && n.key == m.key && Same(m.value, n.value)
    {
      if n :| n in q && n.key == m.key && Same(m.value, n.value) {
        assert SortedMember(m) == SortedMember(n);
      }
    }
    forall n | n in q
      ensures SortedFrom(p, SortedMember(n)) <==> exists m :: m in p && n.key == m.key && Same(m.value, n.value)
    {
      if m :| m in p && n.key == m.key && Same(m.value, n.value) {
        assert SortedMember(m) == SortedMember(n);
      }
    }
  }

  lemma ArraysCanonical(p: seq<Json>, q: seq<Json>)
    requires forall i :: 0 <= i < |p| && i < |q| ==> (Sort(p[i]) == Sort(q[i]) <==> Same(p[i], q[i]))
    ensures SortItems(p) == SortItems(q) <==> Same(Array(p), Array(q))
  {
    SortedItems(p);
    SortedItems(q);
    if Same(Array(p), Array(q)) {
      assert SortItems(p) == SortItems(q);
    }
    if SortItems(p) == SortItems(q) {
      assert |p| == |q|;
      assert forall i :: 0 <= i < |p| ==> SortItems(p)[i] == SortItems(q)[i];
    }
  }

  /** Two values without duplicate keys sort to the same form exactly when they are equal up to member order. */
  lemma {:induction false} Canonical(a: Json, b: Json)
    requires DupFree(a) && DupFree(b)
    ensures Sort(a) == Sort(b) <==> Same(a, b)
    decreases a
  {
    match (a, b)
    case (Object(p), Object(q)) =>
      forall m, n | m in p && n in q
        ensures Sort(m.value) == Sort(n.value) <==> Same(m.value, n.value)
      {
        Canonical(m.value, n.value);
      }
      ObjectsCanonical(p, q);
      AlikeIff(p, q);
    case (Array(p), Array(q)) =>
      forall i | 0 <= i < |p| && i < |q|
        ensures Sort(p[i]) == Sort(q[i]) <==> Same(p[i], q[i])
      {
        Canonical(p[i], q[i]);
      }
      ArraysCanonical(p, q);
    case _ =>
  }

  lemma ObjectKept(ms: seq<Member>)
    requires Distinct(ms)
    requires forall m :: m in ms ==> Same(SortedMember(m).value, m.value) && DupFree(SortedMember(m).value)
    ensures Same(Object(SortMembers(ms)), Object(ms)) && DupFree(Object(SortMembers(ms)))
  {
    SortedMembers(ms);
    var sorted := SortMembers(ms);
    forall m | m in ms
      ensures SortedMember(m) in sorted
    {
      assert SortedFrom(ms, SortedMember(m));
    }
    forall i, j | 0 <= i < j < |sorted|
      ensures sorted[i].key != sorted[j].key
    {
      KeyTrichotomy(sorted[i].key, sorted[j].key);
    }
  }

  /** Sorting only moves members: the sorted form is the same value, and has no duplicate keys. */
  lemma {:induction false} SortKeeps(v: Json)
    requires DupFree(v)
    ensures Same(Sort(v), v) && DupFree(Sort(v))
    decreases v
  {
    match v
    case Object(ms) =>
      forall m | m in ms
        ensures Same(SortedMember(m).value, m.value) && DupFree(SortedMember(m).value)
      {
        SortKeeps(m.value);
      }
      ObjectKept(ms);
    case Array(items) =>
      SortedItems(items);
      forall i | 0 <= i < |items|
        ensures Same(Sort(items[i]), items[i]) && DupFree(Sort(items[i]))
      {
        SortKeeps(items[i]);
      }
    case _ =>
  }

  /** Sorting twice is sorting once. */
  lemma SortIdempotent(v: Json)
    requires DupFree(v)
    ensures Sort(Sort(v)) == Sort(v)
  {
    SortKeeps(v);
    Canonical(Sort(v), v);
  }
}
