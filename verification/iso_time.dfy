/** Reading fill deadlines from text: a raw integer, or the first nineteen characters of an ISO-8601 time. */
module IsoTime {
  import opened Common
  import opened Calendar

  function ReplaceZ(s: string): string {
    if s == [] then [] else (if s[0] == 'Z' then "+00:00" else [s[0]]) + ReplaceZ(s[1..])
  }

  // The pieces that read as 32-bit numbers; the others are dropped.
  function Numbers(parts: seq<string>): seq<nat> {
    if parts == [] then []
    else
      var rest := Numbers(parts[1..]);
      match ParseUnsigned(parts[0], U32_LIMIT)
      case Some(n) => [n] + rest
      case None => rest
  }

  function ReadTime(s: string): Option<int> {
    match ParseI64(s)
    case Some(n) => Some(n)
    case None =>
      var clean := ReplaceZ(s);
      if |clean| >= 19 then
        var ymd := Numbers(SplitOn(clean[..10], {'-'}));
        var hms := Numbers(SplitOn(clean[11..19], {':'}));
        if |ymd| == 3 && |hms| == 3 then
          Some(UnixSeconds(Date(ymd[0], ymd[1], ymd[2]), hms[0], hms[1], hms[2]))
        else None
      else None
  }

  // ---- writing a time, RFC 3339 section 5.6 ----

  function Pow10(n: nat): nat { if n == 0 then 1 else 10 * Pow10(n - 1) }

  function Padded(n: nat, width: nat): (s: string)
    ensures |s| == width
  {
    if width == 0 then "" else Padded(n / 10, width - 1) + [('0' as int + n % 10) as char]
  }

  function WriteDate(d: Date): string {
    Padded(d.year, 4) + "-" + Padded(d.month, 2) + "-" + Padded(d.day, 2)
  }

  function WriteClock(h: nat, m: nat, s: nat): string {
    Padded(h, 2) + ":" + Padded(m, 2) + ":" + Padded(s, 2)
  }

  function WriteOffset(minutes: int): string {
    var size := if minutes < 0 then -minutes else minutes;
    (if minutes < 0 then "-" else "+") + Padded(size / 60, 2) + ":" + Padded(size % 60, 2)
  }

  // ---- reading back what was written ----

  lemma {:induction false} PaddedReads(n: nat, width: nat)
    requires n < Pow10(width)
    ensures forall i :: 0 <= i < width ==> IsDigit(Padded(n, width)[i])
    ensures DecimalValue(Padded(n, width)) == n
  {
    if width > 0 {
      PaddedReads(n / 10, width - 1);
      var s := Padded(n, width);
      assert s[..width - 1] == Padded(n / 10, width - 1);
      assert IsDigit(s[width - 1]);
    }
  }

  lemma PaddedParses(n: nat, width: nat)
    requires n < Pow10(width) && 0 < width
    requires n < U32_LIMIT
    ensures ParseUnsigned(Padded(n, width), U32_LIMIT) == Some(n)
  {
    PaddedReads(n, width);
    assert IsDigit(Padded(n, width)[0]);
  }

  lemma {:induction false} SplitJoined(a: string, delim: char, rest: string)
    requires delim !in a
    ensures SplitOn(a, {delim}) == [a]
    ensures SplitOn(a + [delim] + rest, {delim}) == [a] + SplitOn(rest, {delim})
  {
    var whole := a + [delim] + rest;
    if a == [] {
      assert whole[1..] == rest;
    } else {
      SplitJoined(a[1..], delim, rest);
      assert whole[1..] == a[1..] + [delim] + rest;
      assert whole[0] == a[0];
      assert [a[0]] + a[1..] == a;
    }
  }

  lemma SplitThree(a: string, b: string, c: string, delim: char)
    requires delim !in a && delim !in b && delim !in c
    ensures SplitOn(a + [delim] + b + [delim] + c, {delim}) == [a, b, c]
  {
    SplitJoined(a, delim, b + [delim] + c);
    SplitJoined(b, delim, c);
    SplitJoined(c, delim, "");
    assert a + [delim] + b + [delim] + c == a + [delim] + (b + [delim] + c);
  }

  lemma NumbersCons(part: string, rest: seq<string>, x: nat)
    requires ParseUnsigned(part, U32_LIMIT) == Some(x)
    ensures Numbers([part] + rest) == [x] + Numbers(rest)
  {
    assert ([part] + rest)[1..] == rest;
  }

  lemma ThreeNumbers(a: string, b: string, c: string, delim: char, x: nat, y: nat, z: nat)
    requires delim !in a && delim !in b && delim !in c
    requires ParseUnsigned(a, U32_LIMIT) == Some(x)
    requires ParseUnsigned(b, U32_LIMIT) == Some(y)
    requires ParseUnsigned(c, U32_LIMIT) == Some(z)
    ensures Numbers(SplitOn(a + [delim] + b + [delim] + c, {delim})) == [x, y, z]
  {
    SplitThree(a, b, c, delim);
    NumbersCons(a, [b, c], x);
    NumbersCons(b, [c], y);
    NumbersCons(c, [], z);
    assert [a] + [b, c] == [a, b, c];
    assert [b] + [c] == [b, c];
    assert [c] + [] == [c];
  }

  // Text before the first 'Z' is untouched.
  lemma {:induction false} ReplaceZPrefix(a: string, rest: string)
    requires 'Z' !in a
    ensures ReplaceZ(a + rest) == a + ReplaceZ(rest)
  {
    if a == [] {
      assert a + rest == rest;
    } else {
      ReplaceZPrefix(a[1..], rest);
      assert (a + rest)[1..] == a[1..] + rest;
      assert a == [a[0]] + a[1..];
    }
  }

  lemma DigitsAvoid(n: nat, width: nat, c: char)
    requires n < Pow10(width) && !IsDigit(c)
    ensures c !in Padded(n, width)
  {
    PaddedReads(n, width);
  }

  lemma NotAnInteger(s: string, k: nat)
    requires 1 <= k < |s| && !IsDigit(s[k])
    ensures ParseI64(s) == None
  {
    assert s[1..][k - 1] == s[k];
  }

  lemma DateReads(d: Date)
    requires d.year < 10000 && d.month < 100 && d.day < 100
    ensures Numbers(SplitOn(WriteDate(d), {'-'})) == [d.year, d.month, d.day]
  {
    assert Pow10(4) == 10000 && Pow10(2) == 100;
    PaddedParses(d.year, 4);
    PaddedParses(d.month, 2);
    PaddedParses(d.day, 2);
    DigitsAvoid(d.year, 4, '-');
    DigitsAvoid(d.month, 2, '-');
    DigitsAvoid(d.day, 2, '-');
    ThreeNumbers(Padded(d.year, 4), Padded(d.month, 2), Padded(d.day, 2), '-', d.year, d.month, d.day);
  }

  lemma ClockReads(h: nat, m: nat, s: nat)
    requires h < 100 && m < 100 && s < 100
    ensures Numbers(SplitOn(WriteClock(h, m, s), {':'})) == [h, m, s]
  {
    assert Pow10(2) == 100;
    PaddedParses(h, 2);
    PaddedParses(m, 2);
    PaddedParses(s, 2);
    DigitsAvoid(h, 2, ':');
    DigitsAvoid(m, 2, ':');
    DigitsAvoid(s, 2, ':');
    ThreeNumbers(Padded(h, 2), Padded(m, 2), Padded(s, 2), ':', h, m, s);
  }

  // Three padded numbers between two separators hold no other character.
  lemma JoinedAvoids(a: string, b: string, c: string, delim: char, other: char)
    requires other !in a && other !in b && other !in c && other != delim
    ensures other !in a + [delim] + b + [delim] + c
  {
  }

  lemma StampShape(d: Date, h: nat, m: nat, s: nat)
    requires d.year < 10000 && d.month < 100 && d.day < 100 && h < 100 && m < 100 && s < 100
    ensures |WriteDate(d)| == 10 && 'Z' !in WriteDate(d) && WriteDate(d)[4] == '-'
    ensures |WriteClock(h, m, s)| == 8 && 'Z' !in WriteClock(h, m, s)
  {
    assert Pow10(4) == 10000 && Pow10(2) == 100;
    DigitsAvoid(d.year, 4, 'Z');
    DigitsAvoid(d.month, 2, 'Z');
    DigitsAvoid(d.day, 2, 'Z');
    DigitsAvoid(h, 2, 'Z');
    DigitsAvoid(m, 2, 'Z');
    DigitsAvoid(s, 2, 'Z');
    JoinedAvoids(Padded(d.year, 4), Padded(d.month, 2), Padded(d.day, 2), '-', 'Z');
    JoinedAvoids(Padded(h, 2), Padded(m, 2), Padded(s, 2), ':', 'Z');
  }

  /** A written time reads back as its day count and clock, whatever follows the seconds. */
  lemma ReadsBack(d: Date, h: nat, m: nat, s: nat, tail: string)
    requires ValidDate(d) && 1 <= d.year < 10000 && h < 24 && m < 60 && s < 60
    ensures ReadTime(WriteDate(d) + "T" + WriteClock(h, m, s) + tail)
            == Some(Seconds(CountedDays(d), h, m, s))
  {
    var date, clock := WriteDate(d), WriteClock(h, m, s);
    DateReads(d);
    ClockReads(h, m, s);
    StampShape(d, h, m, s);
    var stamp := date + "T" + clock;
    var text := stamp + tail;
    assert text[4] == date[4] == '-';
    NotAnInteger(text, 4);
    ReplaceZPrefix(stamp, tail);
    var clean := ReplaceZ(text);
    assert clean[..10] == date;
    assert clean[11..19] == clock;
    ClosedFormCounts(d);
  }

  /** The UTC offset is not read: the instant comes out right exactly when the offset is zero. */
  lemma OffsetIgnored(d: Date, h: nat, m: nat, s: nat, offset: int)
    requires ValidDate(d) && 1 <= d.year < 10000 && h < 24 && m < 60 && s < 60
    requires -1440 < offset < 1440
    ensures ReadTime(WriteDate(d) + "T" + WriteClock(h, m, s) + WriteOffset(offset))
            == Some(Seconds(CountedDays(d), h, m, s) - 60 * offset)
            <==> offset == 0
  {
    ReadsBack(d, h, m, s, WriteOffset(offset));
  }

  // ---- raw integers ----

  lemma {:induction false} FewNumbers(parts: seq<string>)
    ensures |Numbers(parts)| <= |parts|
  {
    if parts != [] {
      FewNumbers(parts[1..]);
    }
  }

  // Text without a 'Z', and with no dash after its first character, is no date.
  lemma NoDate(s: string)
    requires 'Z' !in s && s != "" && '-' !in s[1..] && ParseI64(s) == None
    ensures ReadTime(s) == None
  {
    ReplaceZPrefix(s, "");
    assert s + "" == s;
    if |s| >= 19 {
      var head, rest := s[..10], s[1..10];
      assert s[1..][..9] == rest;
      if s[0] == '-' {
        SplitJoined("", '-', rest);
        assert "" + ['-'] + rest == head;
        SplitJoined(rest, '-', "");
      } else {
        assert head == [s[0]] + rest;
        SplitJoined(head, '-', "");
      }
      FewNumbers(SplitOn(head, {'-'}));
    }
  }

  /** A raw integer reads as itself over the whole signed 64-bit range; one out of range does not read at all. */
  lemma RawIntegerReads(n: int)
    ensures ReadTime(DecimalText(n)) == if -(I64_LIMIT as int) <= n < I64_LIMIT then Some(n) else None
  {
    IntegersReadBack(n);
    var s := DecimalText(n);
    if ParseI64(s) == None {
      var digits := NatText(if n < 0 then -n else n);
      NatTextDigits(if n < 0 then -n else n);
      assert s == (if n < 0 then "-" else "") + digits;
      assert forall k :: 1 <= k < |s| ==> IsDigit(s[k]);
      NoDate(s);
    }
  }
}
