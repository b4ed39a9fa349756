/** Shared vocabulary: optional values, text scanning and the number parsers the solver relies on. */
module Common {

  datatype Option<+T> = None | Some(value: T) {
    function GetOr(default: T): T {
      match this
      case Some(v) => v
      case None => default
    }

    function OrElse(other: Option<T>): Option<T> {
      if Some? then this else other
    }
  }

  const U32_LIMIT: nat := 0x1_0000_0000
  const U64_LIMIT: nat := 0x1_0000_0000_0000_0000
  const U128_LIMIT: nat := 0x1_0000_0000_0000_0000_0000_0000_0000_0000
  const I64_LIMIT: nat := 0x8000_0000_0000_0000

  type byte = b: nat | b < 256

  function Min(a: int, b: int): int { if a <= b then a else b }

  function Max(a: int, b: int): int { if a <= b then b else a }

  // Rust's integer division truncates toward zero.
  function Quotient(a: int, b: int): int
    requires b != 0
  {
    if a >= 0 then (if b > 0 then a / b else -(a / -b))
    else if b > 0 then -((-a) / b) else (-a) / -b
  }

  // ---- text ----

  function LowerChar(c: char): char {
    if 'A' <= c <= 'Z' then (c as int + 32) as char else c
  }

  function Lower(s: string): string {
    seq(|s|, i requires 0 <= i < |s| => LowerChar(s[i]))
  }

  predicate IsBlank(c: char) { c == ' ' || '\t' <= c <= '\r' }

  function Trim(s: string): string {
    if s != [] && IsBlank(s[0]) then Trim(s[1..])
    else if s != [] && IsBlank(s[|s| - 1]) then Trim(s[..|s| - 1])
    else s
  }

  predicate StartsWith(s: string, prefix: string) {
    |prefix| <= |s| && s[..|prefix|] == prefix
  }

  // `needle` stands somewhere in `s`.
  predicate Contains(s: string, needle: string) {
    exists k :: 0 <= k <= |s| && StartsWith(s[k..], needle)
  }

  lemma LongerNotContained(s: string, needle: string)
    requires |needle| > |s|
    ensures !Contains(s, needle)
  {
  }

  // A word cannot stand where one of its letters does not occur.
  lemma LacksCharacter(s: string, needle: string, k: nat := 0)
    requires k < |needle| && needle[k] !in s
    ensures !Contains(s, needle)
  {
    forall j | 0 <= j <= |s|
      ensures !StartsWith(s[j..], needle)
    {
      if |needle| <= |s[j..]| {
        assert s[j..][..|needle|][k] == s[j + k] != needle[k];
      }
    }
  }

  // ---- decimal integers, as Rust's `str::parse` reads them ----

  predicate IsDigit(c: char) { '0' <= c <= '9' }

  predicate AllDigits(s: string) { s != [] && forall i :: 0 <= i < |s| ==> IsDigit(s[i]) }

  function DecimalValue(s: string): nat
    requires forall i :: 0 <= i < |s| ==> IsDigit(s[i])
  {
    if s == [] then 0
    else
      assert IsDigit(s[|s| - 1]);
      10 * DecimalValue(s[..|s| - 1]) + (s[|s| - 1] as int - '0' as int)
  }

  function ParseUnsigned(s: string, limit: nat): Option<nat> {
    var t := if s != [] && s[0] == '+' then s[1..] else s;
    if AllDigits(t) && DecimalValue(t) < limit then Some(DecimalValue(t)) else None
  }

  function ParseU128(s: string): Option<nat> { ParseUnsigned(s, U128_LIMIT) }

  function ParseI64(s: string): Option<int> {
    if s != [] && s[0] == '-' then
      var t := s[1..];
      if AllDigits(t) && DecimalValue(t) <= I64_LIMIT then Some(-(DecimalValue(t) as int)) else None
    else
      match ParseUnsigned(s, I64_LIMIT)
      case Some(n) => Some(n)
      case None => None
  }

  // ---- writing numbers ----

  function NatText(n: nat): string {
    (if n < 10 then "" else NatText(n / 10)) + [('0' as int + n % 10) as char]
  }

  function DecimalText(n: int): string {
    if n < 0 then "-" + NatText(-n) else NatText(n)
  }

  lemma DigitAppended(p: string, d: nat)
    requires d < 10 && forall k :: 0 <= k < |p| ==> IsDigit(p[k])
    ensures var s := p + [('0' as int + d) as char];
            (forall k :: 0 <= k < |s| ==> IsDigit(s[k])) && DecimalValue(s) == 10 * DecimalValue(p) + d
  {
    var c := ('0' as int + d) as char;
    var s := p + [c];
    assert IsDigit(c) && c as int - '0' as int == d;
    assert forall k :: 0 <= k < |s| ==> IsDigit(s[k]);
    assert s[..|s| - 1] == p && s[|s| - 1] == c;
  }

  lemma {:induction false} NatTextDigits(n: nat)
    ensures NatText(n) != "" && forall k :: 0 <= k < |NatText(n)| ==> IsDigit(NatText(n)[k])
    ensures DecimalValue(NatText(n)) == n
  {
    if n < 10 {
      DigitAppended("", n);
    } else {
      NatTextDigits(n / 10);
      DigitAppended(NatText(n / 10), n % 10);
    }
  }

  /** A written number reads back, as an unsigned one below its limit and as a signed one in the 64-bit range; out
      of range it does not read at all. */
  lemma NumbersReadBack(n: nat, limit: nat)
    ensures ParseUnsigned(NatText(n), limit) == if n < limit then Some(n) else None
  {
    NatTextDigits(n);
    assert IsDigit(NatText(n)[0]);
  }

  lemma IntegersReadBack(n: int)
    ensures ParseI64(DecimalText(n)) == if -(I64_LIMIT as int) <= n < I64_LIMIT then Some(n) else None
  {
    if n < 0 {
      NegativeReadsBack(-n);
    } else {
      NaturalReadsBack(n);
    }
  }

  lemma NegativeReadsBack(m: nat)
    requires m > 0
    ensures ParseI64("-" + NatText(m)) == if m <= I64_LIMIT then Some(-(m as int)) else None
  {
    var t := NatText(m);
    assert ("-" + t)[1..] == t;
    assert AllDigits(t) && DecimalValue(t) == m by { NatTextDigits(m); }
  }

  lemma NaturalReadsBack(m: nat)
    ensures ParseI64(NatText(m)) == if m < I64_LIMIT then Some(m) else None
  {
    assert NatText(m) != "" && IsDigit(NatText(m)[0]) by { NatTextDigits(m); }
    NumbersReadBack(m, I64_LIMIT);
  }

  // ---- splitting on a set of delimiters, as Rust's `str::split` does ----

  function SplitOn(s: string, delims: set<char>): (parts: seq<string>)
    ensures parts != []
  {
    if s == [] then [[]]
    else
      var rest := SplitOn(s[1..], delims);
      if s[0] in delims then [[]] + rest
      else [[s[0]] + rest[0]] + rest[1..]
  }
}
