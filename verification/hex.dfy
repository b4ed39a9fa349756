/** Hexadecimal text with an optional prefix, in either letter case, as signatures are carried. */
module Hex {
  import opened Common

  function Digit(c: char): Option<nat> {
    if '0' <= c <= '9' then Some(c as int - '0' as int)
    else if 'a' <= c <= 'f' then Some(10 + c as int - 'a' as int)
    else if 'A' <= c <= 'F' then Some(10 + c as int - 'A' as int)
    else None
  }

  predicate IsUpper(c: char) { 'A' <= c <= 'Z' }

  // Two digits a byte; None for an odd length or a character that is no digit.
  function Decode(s: string): Option<seq<byte>> {
    if s == "" then Some([])
    else if |s| == 1 then None
    else
      match (Digit(s[0]), Digit(s[1]), Decode(s[2..]))
      case (Some(hi), Some(lo), Some(rest)) => Some([16 * hi + lo] + rest)
      case _ => None
  }

  function DigitChar(n: nat): char
    requires n < 16
  {
    if n < 10 then ('0' as int + n) as char else ('a' as int + n - 10) as char
  }

  function Encode(b: seq<byte>): string {
    if b == [] then "" else [DigitChar(b[0] / 16), DigitChar(b[0] % 16)] + Encode(b[1..])
  }

  predicate Prefixed(s: string) { StartsWith(s, "0x") }

  function Unprefixed(s: string): string { if Prefixed(s) then s[2..] else s }

  // ---- what is encoded decodes ----

  lemma DigitRoundTrip(n: nat)
    requires n < 16
    ensures Digit(DigitChar(n)) == Some(n)
  {
  }

  lemma {:induction false} RoundTrip(b: seq<byte>)
    ensures Decode(Encode(b)) == Some(b)
  {
    if b != [] {
      RoundTrip(b[1..]);
      DigitRoundTrip(b[0] / 16);
      DigitRoundTrip(b[0] % 16);
      var s := Encode(b);
      assert s[2..] == Encode(b[1..]);
      assert b == [b[0]] + b[1..];
    }
  }

  lemma {:induction false} DigitsOnly(s: string)
    requires Decode(s).Some?
    ensures forall k :: 0 <= k < |s| ==> Digit(s[k]).Some?
  {
    if |s| >= 2 {
      DigitsOnly(s[2..]);
      forall k | 0 <= k < |s|
        ensures Digit(s[k]).Some?
      {
        if k >= 2 {
          assert s[k] == s[2..][k - 2];
        }
      }
    }
  }

  /** Text decodes exactly when it is digits, two for each byte. */
  lemma {:induction false} DecodesIff(s: string)
    ensures Decode(s).Some? <==> |s| % 2 == 0 && forall k :: 0 <= k < |s| ==> Digit(s[k]).Some?
    ensures Decode(s).Some? ==> 2 * |Decode(s).value| == |s|
  {
    if |s| >= 2 {
      var t := s[2..];
      DecodesIff(t);
      if Decode(s).Some? {
        DigitsOnly(s);
      }
      if forall k :: 0 <= k < |s| ==> Digit(s[k]).Some? {
        assert forall k :: 0 <= k < |t| ==> t[k] == s[k + 2];
      }
    }
  }

  lemma NeverPrefixed(s: string)
    requires Decode(s).Some?
    ensures !Prefixed(s) && Unprefixed(s) == s && Unprefixed("0x" + s) == s
  {
    DigitsOnly(s);
    if |s| >= 2 {
      assert s[..2][1] == s[1];
    }
    assert ("0x" + s)[..2] == "0x" && ("0x" + s)[2..] == s;
  }

  // ---- one value, many spellings ----

  lemma SameByte(a: nat, b: nat, c: nat, d: nat)
    requires a < 16 && b < 16 && c < 16 && d < 16 && 16 * a + b == 16 * c + d
    ensures a == c && b == d
  {
  }

  lemma {:induction false} SameDigits(s: string, t: string)
    requires Decode(s).Some? && Decode(s) == Decode(t)
    ensures |s| == |t| && forall k :: 0 <= k < |s| ==> Digit(s[k]) == Digit(t[k])
  {
    if |s| >= 2 {
      var x, y := Decode(s).value, Decode(t).value;
      assert x[1..] == Decode(s[2..]).value;
      assert |t| >= 2;
      assert y[1..] == Decode(t[2..]).value;
      assert x[0] == y[0];
      SameByte(Digit(s[0]).value, Digit(s[1]).value, Digit(t[0]).value, Digit(t[1]).value);
      SameDigits(s[2..], t[2..]);
      forall k | 0 <= k < |s|
        ensures Digit(s[k]) == Digit(t[k])
      {
        if k >= 2 {
          assert s[k] == s[2..][k - 2] && t[k] == t[2..][k - 2];
        }
      }
    }
  }

  predicate SameCase(s: string, t: string) {
    |s| == |t| && forall k :: 0 <= k < |s| ==> IsUpper(s[k]) == IsUpper(t[k])
  }

  /** Two texts spelling the same bytes are the same text exactly when both or neither carry the prefix and their
      letters have the same case. */
  lemma SpellingsDiffer(s: string, t: string)
    requires Decode(Unprefixed(s)).Some? && Decode(Unprefixed(s)) == Decode(Unprefixed(t))
    ensures s == t <==> Prefixed(s) == Prefixed(t) && SameCase(Unprefixed(s), Unprefixed(t))
  {
    var x, y := Unprefixed(s), Unprefixed(t);
    DigitsOnly(x);
    SameDigits(x, y);
    if SameCase(x, y) {
      assert forall k :: 0 <= k < |x| ==> x[k] == y[k];
      assert x == y;
    }
    if Prefixed(s) && Prefixed(t) {
      assert s == "0x" + x && t == "0x" + y;
    }
  }

  // The other spelling as to the prefix.
  function Respelled(s: string): string { if Prefixed(s) then s[2..] else "0x" + s }

  lemma RespelledDecodes(s: string)
    requires Decode(Unprefixed(s)).Some?
    ensures Respelled(s) != s && Unprefixed(Respelled(s)) == Unprefixed(s)
  {
    NeverPrefixed(Unprefixed(s));
  }
}
