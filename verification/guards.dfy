/** Intents and the pure pre-broadcast guards that decide whether one may be filled. */
module Guards {
  import opened Common

  const ZERO_ADDRESS := "0x0000000000000000000000000000000000000000"
  const NATIVE_SENTINEL := "0xeeeeeeeeeeeeeeeeeeeeeeeeeeeeeeeeeeeeeeee"
  const SOLANA_CHAIN: nat := 1_399_811_149
  const DLN_SOLANA_CHAIN: nat := 100_000_001
  const MARGIN: nat := 30

  datatype Intent = Intent(id: string,
                           protocol: string,
                           srcChain: nat,
                           dstChain: nat,
                           amount: string,
                           outputAmount: Option<string>,
                           giveAmount: Option<string>,
                           takeAmount: Option<string>,
                           srcToken: string,
                           dstToken: string,
                           depositor: string,
                           recipient: string,
                           txHash: string,
                           depositId: Option<int>,
                           fillDeadline: Option<nat>,
                           exclusivityDeadline: Option<nat>,
                           exclusiveRelayer: Option<string>,
                           message: Option<string>,
                           allowedTaker: Option<string>,
                           externalCall: Option<string>,
                           mayanOrderId: Option<string>,
                           mayanAuctionMode: Option<nat>,
                           deadline: Option<nat>,
                           orderId: Option<string>,
                           trader: Option<string>,
                           stateAccount: Option<string>,
                           vaultAccount: Option<string>,
                           minAmountOut: Option<nat>,
                           solanaSource: Option<bool>,
                           solanaDestination: Option<bool>)
  {
    predicate Names(word: string) { Contains(Lower(protocol), word) }
    predicate IsAcross() { Names("across") }
    predicate IsDebridge() { Names("debridge") || Names("dln") }
    predicate IsMayan() { Names("mayan") }
    predicate IsFlash() { Names("flash") }
    predicate IsWormhole() { Names("wormhole") || Names("ntt") }
    predicate FromSolana() { solanaSource.GetOr(false) || srcChain == SOLANA_CHAIN }
    predicate ToSolana() { dstChain == DLN_SOLANA_CHAIN || solanaDestination.GetOr(false) }

    predicate LacksRecipient() { recipient == "" || recipient == ZERO_ADDRESS }

    predicate PaysErc20() {
      var t := Lower(Trim(dstToken));
      t != "" && t != "native" && t != NATIVE_SENTINEL && t != ZERO_ADDRESS
    }
  }

  const KNOWN_PROTOCOLS := {"across", "debridge", "dln", "mayan", "mayan_flash", "wormhole", "ntt"}

  lemma OwnWord(p: string, word: string, k: nat)
    requires k <= |p| && word <= p[k..]
    ensures Contains(p, word)
  {
  }

  lemma AcrossWord(p: string)
    requires p in KNOWN_PROTOCOLS
    ensures Contains(p, "across") <==> p == "across"
  {
    if p == "across" { OwnWord(p, p, 0); } else { LacksCharacter(p, "across", 1); }
  }

  lemma DebridgeWord(p: string)
    requires p in KNOWN_PROTOCOLS
    ensures Contains(p, "debridge") || Contains(p, "dln") <==> p in {"debridge", "dln"}
  {
    if p in {"debridge", "dln"} {
      OwnWord(p, p, 0);
    } else {
      LacksCharacter(p, "debridge");
      LacksCharacter(p, "dln");
    }
  }

  lemma MayanWord(p: string)
    requires p in KNOWN_PROTOCOLS
    ensures Contains(p, "mayan") <==> p in {"mayan", "mayan_flash"}
  {
    if p in {"mayan", "mayan_flash"} { OwnWord(p, "mayan", 0); } else { LacksCharacter(p, "mayan", 2); }
  }

  lemma FlashWord(p: string)
    requires p in KNOWN_PROTOCOLS
    ensures Contains(p, "flash") <==> p == "mayan_flash"
  {
    if p == "mayan_flash" { OwnWord(p, "flash", 6); } else { LacksCharacter(p, "flash"); }
  }

  lemma WormholeWord(p: string)
    requires p in KNOWN_PROTOCOLS
    ensures Contains(p, "wormhole") || Contains(p, "ntt") <==> p in {"wormhole", "ntt"}
  {
    if p in {"wormhole", "ntt"} {
      OwnWord(p, p, 0);
    } else {
      LacksCharacter(p, "wormhole");
      LacksCharacter(p, "ntt", 1);
    }
  }

  /** The protocols the solver knows, whatever the letter case of their names: each is taken for itself alone, except
      that Mayan Flash is also a Mayan protocol. */
  lemma KnownProtocols(i: Intent)
    requires Lower(i.protocol) in KNOWN_PROTOCOLS
    ensures var p := Lower(i.protocol);
            && (i.IsAcross() <==> p == "across")
            && (i.IsDebridge() <==> p in {"debridge", "dln"})
            && (i.IsMayan() <==> p in {"mayan", "mayan_flash"})
            && (i.IsFlash() <==> p == "mayan_flash")
            && (i.IsWormhole() <==> p in {"wormhole", "ntt"})
  {
    var p := Lower(i.protocol);
    AcrossWord(p);
    DebridgeWord(p);
    MayanWord(p);
    FlashWord(p);
    WormholeWord(p);
  }

  // ---- spreads ----

  function ParseAmount(text: Option<string>): Option<nat> {
    match text
    case Some(s) => ParseU128(s)
    case None => None
  }

  function SaturatingThousandfold(n: nat): nat {
    Min(1000 * n, U128_LIMIT - 1)
  }

  predicate TooThin(larger: nat, smaller: nat)
    requires smaller <= larger && larger > 0
  {
    (larger - smaller) as real / larger as real * 100.0 < 0.01
  }

  datatype SpreadSkip = OutputExceedsInput | SpreadTooThin

  function AcrossSpreadSkip(amount: string, output: Option<string>): Option<SpreadSkip> {
    match (ParseU128(amount), ParseAmount(output))
    case (Some(inp), Some(out)) =>
      if inp == 0 || out > SaturatingThousandfold(inp) then None
      else if out > inp then Some(OutputExceedsInput)
      else if TooThin(inp, out) then Some(SpreadTooThin)
      else None
    case _ => None
  }

  lemma RatioBelow(gap: real, whole: real)
    requires whole > 0.0
    ensures gap / whole * 100.0 < 0.01 <==> 10_000.0 * gap < whole
  {
    var share := gap / whole;
    assert share * whole == gap;
    if share < 0.0001 {
      assert (0.0001 - share) * whole > 0.0;
    } else {
      assert (share - 0.0001) * whole >= 0.0;
    }
  }

  lemma TooThinExact(larger: nat, smaller: nat)
    requires smaller <= larger && larger > 0
    ensures TooThin(larger, smaller) <==> 10_000 * (larger - smaller) < larger
  {
    RatioBelow((larger - smaller) as real, larger as real);
    assert (10_000 * (larger - smaller)) as real == 10_000.0 * (larger - smaller) as real;
  }

  lemma ParsedBelow(s: string, limit: nat)
    ensures ParseUnsigned(s, limit).Some? ==> ParseUnsigned(s, limit).value < limit
  {
  }

  /** When the guard has an opinion (both amounts parse, a nonzero input, comparable scales), it lets exactly
      the fills through whose spread is at least one part in ten thousand; otherwise it lets everything through. */
  lemma AcrossSpreadExact(amount: string, output: Option<string>)
    ensures AcrossSpreadSkip(amount, output).None? <==>
            match (ParseU128(amount), ParseAmount(output))
            case (Some(inp), Some(out)) =>
              0 < inp && out <= 1000 * inp ==> out <= inp && 10_000 * (inp - out) >= inp
            case _ => true
    ensures AcrossSpreadSkip(amount, output) == Some(OutputExceedsInput) ==>
              ParseU128(output.value).value > ParseU128(amount).value
  {
    match (ParseU128(amount), ParseAmount(output)) {
      case (Some(inp), Some(out)) =>
        ParsedBelow(output.value, U128_LIMIT);
        if 0 < inp && out <= inp {
          TooThinExact(inp, out);
        }
      case _ =>
    }
  }

  // ---- message hooks and deadlines ----

  predicate MessageHookSkip(message: Option<string>) {
    message.Some? && message.value != "" && message.value != "0x" && message.value != "0x0"
  }

  // Clock readings are unix seconds; the code keeps the low 32 bits.
  function Clock32(now: nat): nat { now % U32_LIMIT }

  function SaturatingMargin(now: nat, limit: nat): nat
    requires limit > 0
  {
    Min(now + MARGIN, limit - 1)
  }

  predicate DeadlineSkip(deadline: Option<nat>, now: nat) {
    deadline.Some? && deadline.value < SaturatingMargin(Clock32(now), U32_LIMIT)
  }

  /** The 32-bit deadline guard means "at least 30 seconds ahead" for every deadline exactly as long as
      the clock plus the margin still fits in 32 bits. */
  lemma DeadlineGuardExact(now: nat)
    ensures (forall d: nat :: d < U32_LIMIT ==> (!DeadlineSkip(Some(d), now) <==> d >= now + 30))
            <==> now + 30 < U32_LIMIT
  {
    if now + MARGIN >= U32_LIMIT {
      var latest: nat := U32_LIMIT - 1;
      assert !DeadlineSkip(Some(latest), now) && latest < now + MARGIN;
    }
  }

  // ---- deBridge guards ----

  function TrimPrefix(s: string, prefix: string): string
    requires prefix != ""
    decreases |s|
  {
    if StartsWith(s, prefix) then TrimPrefix(s[|prefix|..], prefix) else s
  }

  predicate EndsWith(s: string, suffix: string) {
    |suffix| <= |s| && s[|s| - |suffix|..] == suffix
  }

  // `ours` is the solver's address as lower-case hex digits without a prefix.
  predicate ReservedForOther(taker: Option<string>, ours: string) {
    taker.Some?
    && var clean := TrimPrefix(TrimPrefix(taker.value, "0x"), "0");
       clean != "" && Lower(clean) != Lower(ours) && !EndsWith(Lower(taker.value), Lower(ours))
  }

  lemma {:induction false} TrimZeros(s: string)
    ensures var t := TrimPrefix(s, "0");
            && |t| <= |s| && t == s[|s| - |t|..]
            && (forall k :: 0 <= k < |s| - |t| ==> s[k] == '0')
            && (t != "" ==> t[0] != '0')
    decreases |s|
  {
    if StartsWith(s, "0") {
      TrimZeros(s[1..]);
      assert s[0] == "0"[0];
    } else if s != "" {
      assert s[..1] == [s[0]];
    }
  }

  lemma TrimHexPrefix(t: string)
    requires 'x' !in t
    ensures TrimPrefix("0x" + t, "0x") == t
  {
    var s := "0x" + t;
    assert s[..2] == "0x" && s[2..] == t;
    if |t| >= 2 {
      assert t[..2][1] == t[1];
    }
  }

  lemma LowerSlice(s: string, n: nat)
    requires n <= |s|
    ensures Lower(s)[n..] == Lower(s[n..])
  {
  }

  /** For well-formed addresses the taker guard refuses exactly the orders reserved for a real address other than
      the solver's, whatever the letter case and however many zeros either begins with. */
  lemma TakerGuardExact(taker: string, ours: string)
    requires |taker| == |ours| == 40 && 'x' !in taker && Lower(ours) == ours
    ensures ReservedForOther(Some("0x" + taker), ours)
            <==> (exists k :: 0 <= k < 40 && taker[k] != '0') && Lower(taker) != ours
  {
    TrimHexPrefix(taker);
    TrimZeros(taker);
    var clean := TrimPrefix(taker, "0");
    if clean != "" {
      assert taker[40 - |clean|] == clean[0] != '0';
    }
    if Lower(clean) == ours {
      assert |clean| == 40;
      assert clean == taker[0..] == taker;
    }
    var whole := "0x" + taker;
    LowerSlice(whole, 2);
    assert whole[2..] == taker;
    assert |Lower(whole)| - |Lower(ours)| == 2;
  }

  predicate CarriesCall(call: Option<string>) {
    call.Some? && exists i :: 0 <= i < |TrimPrefix(call.value, "0x")| && TrimPrefix(call.value, "0x")[i] != '0'
  }

  /** A call is one to execute exactly when some digit of it is not zero; no call, or an empty one, is none. */
  lemma CarriesCallIff(digits: string)
    requires 'x' !in digits
    ensures CarriesCall(Some("0x" + digits)) <==> exists k :: 0 <= k < |digits| && digits[k] != '0'
    ensures !CarriesCall(None)
  {
    TrimHexPrefix(digits);
  }

  predicate DebridgeSpreadSkip(give: Option<string>, take: Option<string>) {
    match (ParseAmount(give), ParseAmount(take))
    case (Some(g), Some(t)) =>
      t <= SaturatingThousandfold(g) && (t == 0 || g <= t || TooThin(g, t))
    case _ => false
  }

  lemma DebridgeSpreadExact(give: Option<string>, take: Option<string>)
    ensures !DebridgeSpreadSkip(give, take) <==>
            match (ParseAmount(give), ParseAmount(take))
            case (Some(g), Some(t)) => t <= 1000 * g ==> 0 < t < g && 10_000 * (g - t) >= g
            case _ => true
  {
    match (ParseAmount(give), ParseAmount(take)) {
      case (Some(g), Some(t)) =>
        ParsedBelow(take.value, U128_LIMIT);
        if t < g {
          TooThinExact(g, t);
        }
      case _ =>
    }
  }

  // ---- deposit ids ----

  const COARSE := {':', '_'}
  const FINE := {':', '_', '/'}

  function LastInt(parts: seq<string>): Option<int> {
    if parts == [] then None
    else ParseI64(parts[|parts| - 1]).OrElse(LastInt(parts[..|parts| - 1]))
  }

  // What the controller's pre-check and relay lookup read.
  function CoarseId(s: string): Option<int> { LastInt(SplitOn(s, COARSE)) }

  // What the calldata builders read.
  function LegacyId(s: string): Option<int> { LastInt(SplitOn(s, FINE)) }

  predicate HasDepositId(i: Intent) {
    i.depositId.Some? || CoarseId(i.id).Some? || CoarseId(i.txHash).Some?
  }

  function ResolveDepositId(i: Intent): Option<int> {
    i.depositId.OrElse(LegacyId(i.id)).OrElse(LegacyId(i.txHash))
  }

  // `d` is the last of the parts that read as integers.
  ghost predicate LastRead(parts: seq<string>, d: int) {
    exists k :: 0 <= k < |parts| && ParseI64(parts[k]) == Some(d)
                && forall j :: k < j < |parts| ==> ParseI64(parts[j]).None?
  }

  ghost predicate NoneReads(parts: seq<string>) { forall p :: p in parts ==> ParseI64(p).None? }

  lemma {:induction false} LastIntExact(parts: seq<string>, d: int)
    ensures LastInt(parts) == Some(d) <==> LastRead(parts, d)
    ensures LastInt(parts) == None <==> NoneReads(parts)
  {
    if parts != [] {
      var init, last := parts[..|parts| - 1], parts[|parts| - 1];
      LastIntExact(init, d);
      assert parts == init + [last];
      assert forall k :: 0 <= k < |init| ==> parts[k] == init[k];
      if ParseI64(last).None? && LastRead(init, d) {
        var k :| 0 <= k < |init| && ParseI64(init[k]) == Some(d) && forall j :: k < j < |init| ==> ParseI64(init[j]).None?;
        assert ParseI64(parts[k]) == Some(d);
      }
    }
  }

  /** The deposit id the builders write: the intent's own, or else the last integer part of the intent's id, or else
      that of its transaction hash. */
  lemma DepositIdWritten(i: Intent, d: int)
    ensures ResolveDepositId(i) == Some(d) <==>
            var (id, tx) := (SplitOn(i.id, {':', '_', '/'}), SplitOn(i.txHash, {':', '_', '/'}));
            || i.depositId == Some(d)
            || (i.depositId == None && LastRead(id, d))
            || (i.depositId == None && NoneReads(id) && LastRead(tx, d))
  {
    LastIntExact(SplitOn(i.id, FINE), d);
    LastIntExact(SplitOn(i.txHash, FINE), d);
    if LastRead(SplitOn(i.id, FINE), d) {
      assert !NoneReads(SplitOn(i.id, FINE));
    }
  }

  predicate Free(s: string, chars: set<char>) {
    forall k :: 0 <= k < |s| ==> s[k] !in chars
  }

  lemma {:induction false} LastIntSome(parts: seq<string>)
    ensures LastInt(parts).Some? <==> exists p :: p in parts && ParseI64(p).Some?
  {
    if parts != [] {
      var init, last := parts[..|parts| - 1], parts[|parts| - 1];
      LastIntSome(init);
      assert parts == init + [last];
    }
  }

  lemma IntTextFree(s: string)
    requires ParseI64(s).Some?
    ensures Free(s, FINE)
  {
    var t := if s[0] == '-' || s[0] == '+' then s[1..] else s;
    assert AllDigits(t);
    forall k | 0 <= k < |s| ensures s[k] !in FINE {
      if t != s && k > 0 {
        assert s[k] == t[k - 1];
      }
    }
  }

  // A part with none of the finer delimiters in it survives the finer split.
  lemma {:induction false} CleanPartSurvives(s: string, coarse: set<char>, fine: set<char>)
    requires coarse <= fine
    ensures var c, f := SplitOn(s, coarse), SplitOn(s, fine);
            && (Free(c[0], fine) ==> f[0] == c[0])
            && forall p :: p in c[1..] && Free(p, fine) ==> p in f[1..]
  {
    if s != [] {
      CleanPartSurvives(s[1..], coarse, fine);
      var c, f := SplitOn(s, coarse), SplitOn(s, fine);
      var ct, ft := SplitOn(s[1..], coarse), SplitOn(s[1..], fine);
      if s[0] in coarse {
        assert c[1..] == ct && f[1..] == ft;
        forall p | p in c[1..] && Free(p, fine) ensures p in f[1..] {
          if p !in ct[1..] {
            assert p == ct[0];
          }
        }
      } else {
        assert c[0][0] == s[0] && c[1..] == ct[1..];
        if s[0] !in fine && Free(c[0], fine) {
          forall k | 0 <= k < |ct[0]| ensures ct[0][k] !in fine {
            assert c[0][k + 1] == ct[0][k];
          }
        }
      }
    }
  }

  lemma {:induction false} SameSplit(s: string)
    requires '/' !in s
    ensures SplitOn(s, COARSE) == SplitOn(s, FINE)
  {
    if s != [] {
      SameSplit(s[1..]);
    }
  }

  /** Whenever the pre-check finds an integer part in a string, the builders' finer split finds one too;
      they read the same one when the string has no slash. */
  lemma CoarseImpliesLegacy(s: string)
    ensures CoarseId(s).Some? ==> LegacyId(s).Some?
    ensures '/' !in s ==> CoarseId(s) == LegacyId(s)
  {
    if '/' !in s {
      SameSplit(s);
    }
    var c, f := SplitOn(s, COARSE), SplitOn(s, FINE);
    LastIntSome(c);
    LastIntSome(f);
    if CoarseId(s).Some? {
      var p :| p in c && ParseI64(p).Some?;
      IntTextFree(p);
      CleanPartSurvives(s, COARSE, FINE);
      if p != c[0] {
        assert p in c[1..];
      }
      assert p in f;
    }
  }

  /** The deposit-id pre-check is sound for every intent: what it admits, the calldata builders resolve. */
  lemma PrecheckSound(i: Intent)
    requires HasDepositId(i)
    ensures ResolveDepositId(i).Some?
  {
    CoarseImpliesLegacy(i.id);
    CoarseImpliesLegacy(i.txHash);
  }

  lemma SplitStep(c: char, rest: string, d: set<char>)
    ensures SplitOn([c] + rest, d) ==
            var r := SplitOn(rest, d); if c in d then [[]] + r else [[c] + r[0]] + r[1..]
  {
    assert ([c] + rest)[1..] == rest;
  }

  lemma SlashTail(d: set<char>)
    requires d == COARSE || d == FINE
    ensures SplitOn("a/5", d) == if d == FINE then ["a", "5"] else ["a/5"]
  {
    SplitStep('5', "", d);
    assert "5" == ['5'] + "";
    assert SplitOn("5", d) == ["5"];
    SplitStep('/', "5", d);
    assert "/5" == ['/'] + "5";
    assert SplitOn("/5", d) == if d == FINE then ["", "5"] else ["/5"];
    SplitStep('a', "/5", d);
    assert "a/5" == ['a'] + "/5" && "a" == ['a'] + "";
  }

  lemma SlashSplits(d: set<char>)
    requires d == COARSE || d == FINE
    ensures SplitOn("7:a/5", d) == ["7"] + SplitOn("a/5", d)
  {
    var rest := SplitOn("a/5", d);
    SplitStep(':', "a/5", d);
    SplitStep('7', ":a/5", d);
    assert ":a/5" == [':'] + "a/5" && "7:a/5" == ['7'] + ":a/5" && "7" == ['7'] + "";
    assert ([[]] + rest)[1..] == rest;
  }

  lemma SmallNumber(s: string, limit: nat)
    requires |s| == 1 && IsDigit(s[0]) && limit > 9
    ensures ParseUnsigned(s, limit) == Some(s[0] as int - '0' as int)
  {
    assert AllDigits(s) && s[..0] == "";
    assert DecimalValue(s) == 10 * DecimalValue(s[..0]) + (s[0] as int - '0' as int);
  }

  lemma OneDigit(s: string)
    requires |s| == 1 && IsDigit(s[0])
    ensures ParseI64(s) == Some(s[0] as int - '0' as int)
  {
    SmallNumber(s, I64_LIMIT);
  }

  lemma CoarseOnSlash()
    ensures CoarseId("7:a/5") == Some(7) && CoarseId("a/5") == None
  {
    SlashTail(COARSE);
    SlashSplits(COARSE);
    OneDigit("7");
    assert !IsDigit("a/5"[0]);
    assert ParseI64("a/5") == None;
    LastTwo("7", "a/5");
  }

  lemma LegacyOnSlash()
    ensures LegacyId("7:a/5") == Some(5) && LegacyId("a/5") == Some(5)
  {
    SlashTail(FINE);
    SlashSplits(FINE);
    OneDigit("5");
    assert (["7"] + ["a", "5"])[2] == "5" && ["a", "5"][1] == "5";
  }

  // ---- exactly when the two readings agree ----

  // The finer split of each part, in order.
  function Pieces(parts: seq<string>): seq<string> {
    if parts == [] then [] else SplitOn(parts[0], FINE) + Pieces(parts[1..])
  }

  lemma PiecesCons(p: string, rest: seq<string>)
    ensures Pieces([p] + rest) == SplitOn(p, FINE) + Pieces(rest)
  {
    assert ([p] + rest)[1..] == rest;
  }

  lemma JoinAgain(a: seq<string>, b: seq<string>, c: seq<string>)
    ensures a + (b + c) == (a + b) + c
  {
  }

  lemma JoinHead(c: char, r: seq<string>, rest: seq<string>)
    requires r != []
    ensures ([[]] + r) + rest == [[]] + (r + rest)
    ensures ([[c] + r[0]] + r[1..]) + rest == [[c] + (r + rest)[0]] + (r + rest)[1..]
  {
  }

  // One character in front of a part, seen by the finer split.
  lemma PieceStep(c: char, part: string, parts: seq<string>)
    ensures var f, g := Pieces([part] + parts), Pieces([[c] + part] + parts);
            f != [] && g == if c in FINE then [[]] + f else [[c] + f[0]] + f[1..]
  {
    var r, rest := SplitOn(part, FINE), Pieces(parts);
    PiecesCons(part, parts);
    PiecesCons([c] + part, parts);
    SplitStep(c, part, FINE);
    JoinHead(c, r, rest);
  }

  /** The finer split is the coarse split with each part split further. */
  lemma {:induction false} FineRefinesCoarse(s: string)
    ensures SplitOn(s, FINE) == Pieces(SplitOn(s, COARSE))
  {
    if s == [] {
      assert Pieces([[]]) == SplitOn([], FINE) + Pieces([]);
    } else {
      FineRefinesCoarse(s[1..]);
      var c := SplitOn(s[1..], COARSE);
      if s[0] in COARSE {
        assert ([[]] + c)[1..] == c;
        assert SplitOn([], FINE) == [[]];
      } else {
        assert c == [c[0]] + c[1..];
        PieceStep(s[0], c[0], c[1..]);
      }
    }
  }

  lemma {:induction false} LastIntConcat(a: seq<string>, b: seq<string>)
    ensures LastInt(a + b) == LastInt(b).OrElse(LastInt(a))
  {
    if b == [] {
      assert a + b == a;
    } else {
      LastIntConcat(a, b[..|b| - 1]);
      assert (a + b)[..|a + b| - 1] == a + b[..|b| - 1];
    }
  }

  lemma {:induction false} PiecesAppend(parts: seq<string>, p: string)
    ensures Pieces(parts + [p]) == Pieces(parts) + SplitOn(p, FINE)
  {
    if parts == [] {
      PiecesCons(p, []);
      assert parts + [p] == [p] + [];
    } else {
      var q, rest := parts[0], parts[1..];
      PiecesAppend(rest, p);
      PiecesCons(q, rest);
      PiecesCons(q, rest + [p]);
      assert parts == [q] + rest && parts + [p] == [q] + (rest + [p]);
      JoinAgain(SplitOn(q, FINE), Pieces(rest), SplitOn(p, FINE));
    }
  }

  lemma {:induction false} NothingToSplit(p: string)
    requires Free(p, FINE)
    ensures SplitOn(p, FINE) == [p]
  {
    if p != [] {
      NothingToSplit(p[1..]);
      assert [p[0]] + p[1..] == p;
    }
  }

  // A part without a delimiter reads alike in both splits; an integer has none.
  lemma PartReads(p: string)
    ensures ParseI64(p).Some? ==> Free(p, FINE)
    ensures Free(p, FINE) ==> LegacyId(p) == ParseI64(p)
  {
    if ParseI64(p).Some? {
      IntTextFree(p);
    }
    if Free(p, FINE) {
      NothingToSplit(p);
      LastTwo("", p);
    }
  }

  // The last part with an integer among its slash-separated pieces, or -1.
  function Anchor(parts: seq<string>): int {
    if parts == [] then -1
    else if LegacyId(parts[|parts| - 1]).Some? then |parts| - 1
    else Anchor(parts[..|parts| - 1])
  }

  lemma {:induction false} AnchorDecides(parts: seq<string>)
    ensures var k := Anchor(parts);
            && -1 <= k < |parts|
            && (k < 0 ==> LastInt(parts) == None && LastInt(Pieces(parts)) == None)
            && (k >= 0 ==>
                  && LegacyId(parts[k]).Some? && LastInt(Pieces(parts)) == LegacyId(parts[k])
                  && LastInt(parts) == ParseI64(parts[k]).OrElse(LastInt(parts[..k])))
  {
    if parts != [] {
      var n := |parts| - 1;
      var init, p := parts[..n], parts[n];
      assert parts == init + [p];
      PiecesAppend(init, p);
      LastIntConcat(Pieces(init), SplitOn(p, FINE));
      PartReads(p);
      if LegacyId(p).None? {
        AnchorDecides(init);
        var k := Anchor(init);
        assert k >= 0 ==> init[k] == parts[k] && init[..k] == parts[..k];
      }
    }
  }

  lemma {:induction false} PartsFree(s: string)
    ensures forall p :: p in SplitOn(s, COARSE) ==> Free(p, COARSE)
  {
    if s != [] {
      PartsFree(s[1..]);
      var rest := SplitOn(s[1..], COARSE);
      assert rest[0] in rest;
      forall p | p in SplitOn(s, COARSE)
        ensures Free(p, COARSE)
      {
        if s[0] !in COARSE && p !in rest[1..] {
          assert p == [s[0]] + rest[0];
        }
      }
    }
  }

  /** The pre-check and the builders read the same id exactly when no part between colons and underscores has an
      integer among its slash-separated pieces, or the last such part has no slash, or the parts before it happen
      to end in the same number. */
  lemma ReadingsAgreeIff(s: string)
    ensures var parts := SplitOn(s, COARSE); var k := Anchor(parts);
            -1 <= k < |parts|
            && (CoarseId(s) == LegacyId(s) <==>
                k < 0 || '/' !in parts[k] || LastInt(parts[..k]) == LegacyId(parts[k]))
  {
    var parts := SplitOn(s, COARSE);
    var k := Anchor(parts);
    FineRefinesCoarse(s);
    AnchorDecides(parts);
    if k >= 0 {
      PartsFree(s);
      assert parts[k] in parts;
      PartReads(parts[k]);
    }
  }

  /** With a slash the two splits can disagree, on the id and on whether there is one. */
  lemma SlashDisagreement()
    ensures CoarseId("7:a/5") == Some(7) && LegacyId("7:a/5") == Some(5)
    ensures CoarseId("a/5") == None && LegacyId("a/5") == Some(5)
  {
    CoarseOnSlash();
    LegacyOnSlash();
  }

  lemma LastTwo(p: string, q: string)
    ensures LastInt([q]) == ParseI64(q)
    ensures LastInt([p] + [q]) == ParseI64(q).OrElse(ParseI64(p))
  {
    assert [q][..0] == [] && [p][..0] == [];
    assert ([p] + [q])[..1] == [p];
  }
}
