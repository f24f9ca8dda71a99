/** Identity of a single hop (src/template_cache.rs): DEX, pool, mints and
    direction, and the text ids built from them. */
module HopKeys {
  import opened Text
  import opened Decimal
  import opened RouteSignature

  datatype DexKind =
    | Whirlpool | WhirlpoolSwapV2 | RaydiumClmm | RaydiumV2 | MeteoraDlmm
    | MeteoraPools | AlphaQ | Aquifer | AldrinV2 | OtherDex

  datatype Direction = NoDirection | AToB(aToB: bool) | SideBid | SideAsk

  datatype HopKey = HopKey(
    dex: DexKind, pool: string, inputMint: string, outputMint: string,
    direction: Direction, remainingAccountsHash: nat)

  // ------------------------------------------------ reading swapInfo

  function Lower(s: string): string {
    seq(|s|, i requires 0 <= i < |s| =>
      if 'A' <= s[i] <= 'Z' then (s[i] as int - 'A' as int + 'a' as int) as char else s[i])
  }

  predicate Contains(s: string, part: string) {
    part <= s || (s != "" && Contains(s[1..], part))
  }

  function DexOf(name: string): DexKind {
    var l := Lower(name);
    if Contains(l, "whirlpool") then
      if Contains(l, "v2") || Contains(l, "swap_v2") || Contains(l, "swapv2") then WhirlpoolSwapV2 else Whirlpool
    else if Contains(l, "raydium") && Contains(l, "clmm") then RaydiumClmm
    else if Contains(l, "raydium") then RaydiumV2
    else if Contains(l, "meteora") && Contains(l, "dlmm") then MeteoraDlmm
    else if Contains(l, "meteora") then MeteoraPools
    else if Contains(l, "alphaq") || Contains(l, "alpha_q") then AlphaQ
    else if Contains(l, "aquifer") then Aquifer
    else if Contains(l, "aldrin") then AldrinV2
    else OtherDex
  }

  function FileStem(dex: DexKind): string {
    match dex
    case Whirlpool => "whirlpool"
    case WhirlpoolSwapV2 => "whirlpool_swap_v2"
    case RaydiumClmm => "raydium_clmm"
    case RaydiumV2 => "raydium_v2"
    case MeteoraDlmm => "meteora_dlmm"
    case MeteoraPools => "meteora_pools"
    case AlphaQ => "alphaq"
    case Aquifer => "aquifer"
    case AldrinV2 => "aldrin_v2"
    case OtherDex => "other"
  }

  function FirstBool(si: map<string, Json>, names: seq<string>): Direction {
    if names == [] then NoDirection
    else if names[0] in si && si[names[0]].Bool? then AToB(si[names[0]].b)
    else FirstBool(si, names[1..])
  }

  const DIRECTION_NAMES: seq<string> := ["a_to_b", "aToB", "atob", "a2b"]

  function ExtractDirection(dex: DexKind, si: map<string, Json>): Direction {
    match dex
    case Whirlpool | WhirlpoolSwapV2 | AlphaQ => FirstBool(si, DIRECTION_NAMES)
    case AldrinV2 =>
      if "side" in si && si["side"].Str? then
        var side := Lower(si["side"].s);
        if side == "bid" then SideBid else if side == "ask" then SideAsk else NoDirection
      else NoDirection
    case _ => NoDirection
  }

  function StringField(si: map<string, Json>, name: string): Option<string> {
    if name in si && si[name].Str? then Some(si[name].s) else None
  }

  function FromSwapInfo(si: map<string, Json>): Option<HopKey> {
    match (StringField(si, "ammKey"), StringField(si, "inputMint"), StringField(si, "outputMint"))
    case (Some(pool), Some(input), Some(output)) =>
      var dexLabel := match StringField(si, "label") case Some(l) => l case None => "";
      var dex := DexOf(dexLabel);
      Some(HopKey(dex, pool, input, output, ExtractDirection(dex, si), 0))
    case _ => None
  }

  function FromHop(hop: Json): Option<HopKey> {
    match SwapInfo(hop)
    case Some(si) => FromSwapInfo(si)
    case None => None
  }

  // ------------------------------------------------ text ids

  function DirectionText(d: Direction): string {
    match d
    case NoDirection => "none"
    case AToB(b) => if b then "a2b:true" else "a2b:false"
    case SideBid => "bid"
    case SideAsk => "ask"
  }

  function TemplateId(k: HopKey): string {
    k.pool + [':'] + (k.inputMint + [':'] + (k.outputMint + [':'] +
      (DirectionText(k.direction) + [':'] + Print(k.remainingAccountsHash))))
  }

  function PairKey(first: HopKey, second: HopKey): string {
    TemplateId(first) + ['|'] + TemplateId(second)
  }

  /** The pair key of a two-hop plan, when both hops identify themselves. */
  function PlanPairKey(plan: Json): Option<string> {
    HopsPairKey(PlanHops(plan))
  }

  function HopsPairKey(hops: Option<(HopKey, HopKey)>): Option<string> {
    match hops
    case Some(h) => Some(PairKey(h.0, h.1))
    case None => None
  }

  function PlanHops(plan: Json): Option<(HopKey, HopKey)> {
    if plan.Array? && |plan.items| == 2 then
      match (FromHop(plan.items[0]), FromHop(plan.items[1]))
      case (Some(a), Some(b)) => Some((a, b))
      case _ => None
    else None
  }

  // ------------------------------------------------ what a hop key says

  /** A hop is identified exactly when pool and mints are strings, and its key holds
      just these, the DEX of its label if it has one, and no accounts hash. */
  lemma HopKeyMeans(si: map<string, Json>)
    ensures FromSwapInfo(si).Some? <==>
      && "ammKey" in si && si["ammKey"].Str?
      && "inputMint" in si && si["inputMint"].Str?
      && "outputMint" in si && si["outputMint"].Str?
    ensures FromSwapInfo(si).Some? ==>
      var k := FromSwapInfo(si).value;
      && si["ammKey"] == Str(k.pool) && si["inputMint"] == Str(k.inputMint) && si["outputMint"] == Str(k.outputMint)
      && ("label" in si && si["label"].Str? ==> k.dex == DexOf(si["label"].s))
      && (!("label" in si && si["label"].Str?) ==> k.dex == OtherDex)
      && k.direction == ExtractDirection(k.dex, si) && k.remainingAccountsHash == 0
  {
    hide ExtractDirection, DexOf;
    NoLabel();
  }

  /** Only Whirlpools and AlphaQ take a boolean direction, the first that is one of
      four names; only Aldrin takes a side, in any case of letters. */
  lemma DirectionMeans(dex: DexKind, si: map<string, Json>)
    ensures var d := ExtractDirection(dex, si);
            if dex == Whirlpool || dex == WhirlpoolSwapV2 || dex == AlphaQ then
              if "a_to_b" in si && si["a_to_b"].Bool? then d == AToB(si["a_to_b"].b)
              else if "aToB" in si && si["aToB"].Bool? then d == AToB(si["aToB"].b)
              else if "atob" in si && si["atob"].Bool? then d == AToB(si["atob"].b)
              else if "a2b" in si && si["a2b"].Bool? then d == AToB(si["a2b"].b)
              else d == NoDirection
            else if dex == AldrinV2 && "side" in si && si["side"].Str? then
              && (d == SideBid <==> Lower(si["side"].s) == "bid")
              && (d == SideAsk <==> Lower(si["side"].s) == "ask")
              && !d.AToB?
            else d == NoDirection
  {
    hide Lower, FirstBool;
    FirstOf(si, "a_to_b", ["aToB", "atob", "a2b"]);
    FirstOf(si, "aToB", ["atob", "a2b"]);
    FirstOf(si, "atob", ["a2b"]);
    FirstOf(si, "a2b", []);
    assert DIRECTION_NAMES == ["a_to_b"] + ["aToB", "atob", "a2b"];
    assert ["aToB"] + ["atob", "a2b"] == ["aToB", "atob", "a2b"] && ["atob"] + ["a2b"] == ["atob", "a2b"];
    assert ["a2b"] + [] == ["a2b"];
  }

  lemma FirstOf(si: map<string, Json>, name: string, names: seq<string>)
    ensures FirstBool(si, [name] + names)
            == if name in si && si[name].Bool? then AToB(si[name].b) else FirstBool(si, names)
    ensures FirstBool(si, []) == NoDirection
  {
    assert ([name] + names)[1..] == names;
  }

  /** Lower-casing changes capital letters only, to the letter at the same place. */
  lemma LowerMeans(s: string, i: nat)
    requires i < |s|
    ensures |Lower(s)| == |s|
    ensures !('A' <= s[i] <= 'Z') ==> Lower(s)[i] == s[i]
    ensures 'A' <= s[i] <= 'Z' ==> Lower(s)[i] as int - 'a' as int == s[i] as int - 'A' as int
  {
  }

  predicate PartAt(s: string, part: string, i: int) {
    0 <= i && i + |part| <= |s| && s[i..i + |part|] == part
  }

  lemma {:induction false} ContainsMeans(s: string, part: string)
    ensures Contains(s, part) <==> exists i :: PartAt(s, part, i)
  {
    if Contains(s, part) {
      if part <= s {
        assert PartAt(s, part, 0);
      } else {
        ContainsMeans(s[1..], part);
        var i :| PartAt(s[1..], part, i);
        PartInTail(s, part, i + 1);
      }
    }
    if i :| PartAt(s, part, i) && !Contains(s, part) {
      if i > 0 {
        ContainsMeans(s[1..], part);
        PartInTail(s, part, i);
      }
    }
  }

  lemma PartInTail(s: string, part: string, i: int)
    requires i > 0 && s != ""
    ensures PartAt(s, part, i) <==> PartAt(s[1..], part, i - 1)
  {
    if i + |part| <= |s| { assert s[i..i + |part|] == s[1..][i - 1..i - 1 + |part|]; }
  }

  lemma ContainsPart(s: string, part: string, front: string)
    requires Contains(s, front + part)
    ensures Contains(s, part)
  {
    ContainsMeans(s, front + part);
    ContainsMeans(s, part);
    var i :| PartAt(s, front + part, i);
    var j := i + |front|;
    assert s[j..j + |part|] == s[i..i + |front + part|][|front|..] == (front + part)[|front|..] == part;
    assert PartAt(s, part, j);
  }

  lemma PartLetters(s: string, part: string, c: char)
    requires Contains(s, part) && c in part
    ensures c in s
  {
    ContainsMeans(s, part);
    var i :| PartAt(s, part, i);
    var k :| 0 <= k < |part| && part[k] == c;
    assert s[i + k] == s[i..i + |part|][k];
  }

  lemma LacksPart(s: string, part: string, c: char)
    requires c in part && c !in s
    ensures !Contains(s, part)
  {
    if Contains(s, part) { PartLetters(s, part, c); }
  }

  /** The DEX of a label, kind by kind: the family its lower-case text names first,
      and within a family the narrower kind if it names that too. */
  lemma DexMeans(name: string)
    ensures var l := Lower(name);
            var whirlpool, raydium, meteora := Contains(l, "whirlpool"), Contains(l, "raydium"), Contains(l, "meteora");
            var alphaq := Contains(l, "alphaq") || Contains(l, "alpha_q");
            var none := !whirlpool && !raydium && !meteora;
            match DexOf(name)
            case WhirlpoolSwapV2 => whirlpool && Contains(l, "v2")
            case Whirlpool => whirlpool && !Contains(l, "v2")
            case RaydiumClmm => !whirlpool && raydium && Contains(l, "clmm")
            case RaydiumV2 => !whirlpool && raydium && !Contains(l, "clmm")
            case MeteoraDlmm => !whirlpool && !raydium && meteora && Contains(l, "dlmm")
            case MeteoraPools => !whirlpool && !raydium && meteora && !Contains(l, "dlmm")
            case AlphaQ => none && alphaq
            case Aquifer => none && !alphaq && Contains(l, "aquifer")
            case AldrinV2 => none && !alphaq && !Contains(l, "aquifer") && Contains(l, "aldrin")
            case OtherDex => none && !alphaq && !Contains(l, "aquifer") && !Contains(l, "aldrin")
  {
    hide Contains, Lower;
    var l := Lower(name);
    assert "swap_" + "v2" == "swap_v2" && "swap" + "v2" == "swapv2";
    if Contains(l, "swap_v2") { ContainsPart(l, "v2", "swap_"); }
    if Contains(l, "swapv2") { ContainsPart(l, "v2", "swap"); }
  }

  /** The id of a hop is its fields in order, its direction and a zero, with colons. */
  lemma TemplateIdText(si: map<string, Json>)
    requires FromSwapInfo(si).Some?
    ensures var k := FromSwapInfo(si).value;
            var front := si["ammKey"].s + ":" + si["inputMint"].s + ":" + si["outputMint"].s + ":";
            match k.direction
            case NoDirection => TemplateId(k) == front + "none:0"
            case AToB(b) => TemplateId(k) == front + (if b then "a2b:true:0" else "a2b:false:0")
            case SideBid => TemplateId(k) == front + "bid:0"
            case SideAsk => TemplateId(k) == front + "ask:0"
  {
    hide ExtractDirection, DexOf;
    assert Print(0) == "0";
    var k := FromSwapInfo(si).value;
    assert TemplateId(k) == si["ammKey"].s + ":" + si["inputMint"].s + ":" + si["outputMint"].s + ":"
                            + (DirectionText(k.direction) + ":" + "0");
  }

  /** A plan has a pair key exactly when it has two hops and both are identified; the
      key is their ids in order, with a bar. */
  lemma PairKeyText(plan: Json)
    ensures PlanPairKey(plan).Some? <==>
      plan.Array? && |plan.items| == 2 && FromHop(plan.items[0]).Some? && FromHop(plan.items[1]).Some?
    ensures PlanPairKey(plan).Some? ==>
      PlanPairKey(plan).value
      == TemplateId(FromHop(plan.items[0]).value) + "|" + TemplateId(FromHop(plan.items[1]).value)
  {
    hide FromHop, TemplateId;
  }

  // ------------------------------------------------ injectivity

  predicate Without(k: HopKey, c: char) {
    c !in k.pool && c !in k.inputMint && c !in k.outputMint
  }

  /** Everything the template id carries: all of the key but the DEX kind. */
  predicate SameHop(j: HopKey, k: HopKey) {
    k == j.(dex := k.dex)
  }

  lemma LastSeparator(x: string, y: string, sep: char, a: string, b: string)
    requires sep !in a && sep !in b
    requires x + [sep] + a == y + [sep] + b
    ensures x == y && a == b
  {
    var l, r := x + [sep] + a, y + [sep] + b;
    var m, n := |l| - 1 - |a|, |r| - 1 - |b|;
    assert n <= m by { assert l[n] == r[n] == sep; }
    assert m <= n by { assert r[m] == l[m] == sep; }
    assert x == l[..m] && y == r[..n];
    assert a == l[m + 1..] && b == r[n + 1..];
  }

  lemma DirectionTextInjective(d: Direction, e: Direction)
    requires DirectionText(d) == DirectionText(e)
    ensures d == e
  {
    var s, t := DirectionText(d), DirectionText(e);
    assert s[0] == t[0] && |s| == |t|;
  }

  lemma DigitsAvoid(n: nat, c: char)
    requires !IsDigit(c)
    ensures c !in Print(n)
  {
  }

  /** With colon-free pool and mints the template id determines the hop, although
      a direction may itself print a colon. */
  lemma TemplateIdInjective(j: HopKey, k: HopKey)
    requires Without(j, ':') && Without(k, ':')
    ensures TemplateId(j) == TemplateId(k) <==> SameHop(j, k)
  {
    if TemplateId(j) == TemplateId(k) {
      var tailJ := DirectionText(j.direction) + [':'] + Print(j.remainingAccountsHash);
      var tailK := DirectionText(k.direction) + [':'] + Print(k.remainingAccountsHash);
      FirstSeparator(j.pool, k.pool, ':', j.inputMint + [':'] + (j.outputMint + [':'] + tailJ),
                     k.inputMint + [':'] + (k.outputMint + [':'] + tailK));
      FirstSeparator(j.inputMint, k.inputMint, ':', j.outputMint + [':'] + tailJ, k.outputMint + [':'] + tailK);
      FirstSeparator(j.outputMint, k.outputMint, ':', tailJ, tailK);
      DigitsAvoid(j.remainingAccountsHash, ':');
      DigitsAvoid(k.remainingAccountsHash, ':');
      LastSeparator(DirectionText(j.direction), DirectionText(k.direction), ':',
                    Print(j.remainingAccountsHash), Print(k.remainingAccountsHash));
      DirectionTextInjective(j.direction, k.direction);
      PrintInjective(j.remainingAccountsHash, k.remainingAccountsHash);
    }
  }

  /** A colon in a field can move a field boundary. */
  lemma ColonsCollide(out: string, d: Direction)
    ensures TemplateId(HopKey(OtherDex, "a:b", "c", out, d, 0)) == TemplateId(HopKey(OtherDex, "a", "b:c", out, d, 0))
  {
    var rest := out + [':'] + (DirectionText(d) + [':'] + Print(0));
    assert "a:b" + [':'] + ("c" + [':'] + rest) == "a" + [':'] + ("b:c" + [':'] + rest);
  }

  lemma IdAvoidsBar(k: HopKey)
    requires Without(k, '|')
    ensures '|' !in TemplateId(k)
  {
    DigitsAvoid(k.remainingAccountsHash, '|');
    assert '|' !in DirectionText(k.direction);
  }

  /** The joined pair key determines both hops, in order. */
  lemma PairKeyInjective(a: HopKey, b: HopKey, c: HopKey, d: HopKey)
    requires forall k :: k in [a, b, c, d] ==> Without(k, ':') && Without(k, '|')
    ensures PairKey(a, b) == PairKey(c, d) <==> SameHop(a, c) && SameHop(b, d)
  {
    assert a in [a, b, c, d] && b in [a, b, c, d] && c in [a, b, c, d] && d in [a, b, c, d];
    IdAvoidsBar(a);
    IdAvoidsBar(c);
    TemplateIdInjective(a, c);
    TemplateIdInjective(b, d);
    if PairKey(a, b) == PairKey(c, d) {
      FirstSeparator(TemplateId(a), TemplateId(c), '|', TemplateId(b), TemplateId(d));
    }
  }

  /** The signature prints values without their JSON type, so it does not tell a
      boolean direction from the string that prints alike, while the hop key does. */
  lemma SignatureForgetsTypes(si: map<string, Json>)
    ensures HashedFieldsOf(si["a_to_b" := Bool(true)]) == HashedFieldsOf(si["a_to_b" := Str("T")])
    ensures ExtractDirection(Whirlpool, si["a_to_b" := Bool(true)]) == AToB(true)
    ensures "aToB" !in si && "atob" !in si && "a2b" !in si ==>
      ExtractDirection(Whirlpool, si["a_to_b" := Str("T")]) == NoDirection
  {
    var s := si["a_to_b" := Str("T")];
    assert ["a_to_b", "aToB", "atob", "a2b"][1..] == ["aToB", "atob", "a2b"];
    assert ["aToB", "atob", "a2b"][1..] == ["atob", "a2b"];
    assert ["atob", "a2b"][1..] == ["a2b"];
    assert ["a2b"][1..] == [];
    if "aToB" !in si && "atob" !in si && "a2b" !in si {
      assert FirstBool(s, ["a2b"]) == NoDirection;
      assert FirstBool(s, ["atob", "a2b"]) == NoDirection;
      assert FirstBool(s, ["aToB", "atob", "a2b"]) == NoDirection;
    }
  }

  // ------------------------------------------------ what the printed fields determine

  predicate IsText(si: map<string, Json>, name: string) {
    name in si && si[name].Str?
  }

  function PrintedAt(si: map<string, Json>, name: string): string {
    if name in si then Printed(si[name]) else ""
  }

  /** The first of the names whose value is a JSON boolean. */
  function FirstBoolName(si: map<string, Json>, names: seq<string>): Option<string> {
    if names == [] then None
    else if names[0] in si && si[names[0]].Bool? then Some(names[0])
    else FirstBoolName(si, names[1..])
  }

  predicate Identified(si: map<string, Json>) {
    IsText(si, "ammKey") && IsText(si, "inputMint") && IsText(si, "outputMint")
  }

  /** A label that is text here and not there matters only if it names a DEX. */
  predicate LabelAlike(s: map<string, Json>, t: map<string, Json>) {
    (IsText(s, "label") <==> IsText(t, "label")) || DexOf(PrintedAt(s, "label")) == OtherDex
  }

  predicate IsSide(text: string) {
    Lower(text) == "bid" || Lower(text) == "ask"
  }

  predicate BoolsAlike(s: map<string, Json>, t: map<string, Json>, names: seq<string>) {
    match (FirstBoolName(s, names), FirstBoolName(t, names))
    case (Some(j), Some(k)) => PrintedAt(s, j) == PrintedAt(s, k)
    case (None, None) => true
    case _ => false
  }

  predicate DirectionAlike(dex: DexKind, s: map<string, Json>, t: map<string, Json>) {
    match dex
    case Whirlpool | WhirlpoolSwapV2 | AlphaQ => BoolsAlike(s, t, DIRECTION_NAMES)
    case AldrinV2 => (IsText(s, "side") <==> IsText(t, "side")) || !IsSide(PrintedAt(s, "side"))
    case _ => true
  }

  function DexRead(si: map<string, Json>): DexKind {
    DexOf(if IsText(si, "label") then si["label"].s else "")
  }

  /** Two swapInfos that print alike give their JSON types to the fields a hop key
      reads in a way that makes no difference. */
  predicate ReadAlike(s: map<string, Json>, t: map<string, Json>) {
    && (Identified(s) <==> Identified(t))
    && (Identified(s) ==> LabelAlike(s, t) && DirectionAlike(DexRead(s), s, t))
  }

  lemma PrintsAlike(s: map<string, Json>, t: map<string, Json>, name: string)
    requires HashedFieldsOf(s) == HashedFieldsOf(t) && !IsAmount(name)
    ensures name in s <==> name in t
    ensures PrintedAt(s, name) == PrintedAt(t, name)
    ensures IsText(s, name) && IsText(t, name) ==> s[name] == t[name]
  {
    assert name in s <==> name in HashedFieldsOf(s);
    assert name in t <==> name in HashedFieldsOf(t);
    if name in s { assert HashedFieldsOf(s)[name] == Printed(s[name]) && HashedFieldsOf(t)[name] == Printed(t[name]); }
  }

  lemma {:induction false} FirstBoolIsNamed(si: map<string, Json>, names: seq<string>)
    ensures FirstBool(si, names) == match FirstBoolName(si, names)
                                    case None => NoDirection
                                    case Some(k) => AToB(PrintedAt(si, k) == "T")
    ensures FirstBoolName(si, names).Some? ==>
      var k := FirstBoolName(si, names).value;
      k in names && (PrintedAt(si, k) == "T" || PrintedAt(si, k) == "F")
  {
    if names != [] { FirstBoolIsNamed(si, names[1..]); }
  }

  lemma BoolDirectionExactly(s: map<string, Json>, t: map<string, Json>, names: seq<string>)
    requires HashedFieldsOf(s) == HashedFieldsOf(t) && forall k :: k in names ==> !IsAmount(k)
    ensures FirstBool(s, names) == FirstBool(t, names) <==> BoolsAlike(s, t, names)
  {
    FirstBoolIsNamed(s, names);
    FirstBoolIsNamed(t, names);
    if FirstBoolName(t, names).Some? {
      PrintsAlike(s, t, FirstBoolName(t, names).value);
    }
  }

  lemma DirectionExactly(dex: DexKind, s: map<string, Json>, t: map<string, Json>)
    requires HashedFieldsOf(s) == HashedFieldsOf(t)
    ensures ExtractDirection(dex, s) == ExtractDirection(dex, t) <==> DirectionAlike(dex, s, t)
  {
    PrintsAlike(s, t, "side");
    BoolDirectionExactly(s, t, DIRECTION_NAMES);
  }

  lemma DexExactly(s: map<string, Json>, t: map<string, Json>)
    requires HashedFieldsOf(s) == HashedFieldsOf(t)
    ensures DexRead(s) == DexRead(t) <==> LabelAlike(s, t)
  {
    PrintsAlike(s, t, "label");
    NoLabel();
    hide DexOf;
  }

  lemma NoLabel()
    ensures DexOf("") == OtherDex
  {
    assert Lower("") == "";
  }

  /** When equal printed fields give equal hop keys: exactly when the JSON types of
      the fields a hop key reads make no difference. */
  lemma HopKeyExactly(s: map<string, Json>, t: map<string, Json>)
    requires HashedFieldsOf(s) == HashedFieldsOf(t)
    ensures FromSwapInfo(s) == FromSwapInfo(t) <==> ReadAlike(s, t)
  {
    hide DexOf, ExtractDirection, DirectionAlike, LabelAlike, HashedFieldsOf;
    PrintsAlike(s, t, "ammKey");
    PrintsAlike(s, t, "inputMint");
    PrintsAlike(s, t, "outputMint");
    DexExactly(s, t);
    DirectionExactly(DexRead(s), s, t);
  }

  lemma FileStemInjective(d: DexKind, e: DexKind)
    requires FileStem(d) == FileStem(e)
    ensures d == e
  {
    var s, t := FileStem(d), FileStem(e);
    assert |s| == |t|;
    assert s[0] == t[0];
    assert s[|s| - 1] == t[|s| - 1];
  }

  /** A file stem read as a label names its own DEX. */
  lemma StemNamesDex(dex: DexKind)
    ensures DexOf(FileStem(dex)) == dex
  {
    hide DexOf, Contains;
    var s := FileStem(dex);
    assert Lower(s) == s;
    DexMeans(s);
    StemFamilies();
    StemAvoids(dex);
    if dex == AlphaQ || dex == Aquifer || dex == AldrinV2 || dex == OtherDex { OtherStems(dex); }
  }

  lemma StemAvoids(dex: DexKind)
    ensures dex != Whirlpool && dex != WhirlpoolSwapV2 ==> !Contains(FileStem(dex), "whirlpool")
    ensures dex != Whirlpool && dex != WhirlpoolSwapV2 && dex != RaydiumClmm && dex != RaydiumV2 ==>
              !Contains(FileStem(dex), "raydium")
  {
    hide Contains;
    if dex != Whirlpool && dex != WhirlpoolSwapV2 {
      LacksPart(FileStem(dex), "whirlpool", "whirlpool"[0]);
      if dex != RaydiumClmm && dex != RaydiumV2 { LacksPart(FileStem(dex), "raydium", "raydium"[2]); }
    }
  }

  lemma StemFamilies()
    ensures Contains("whirlpool", "whirlpool") && !Contains("whirlpool", "v2")
    ensures Contains("whirlpool_swap_v2", "whirlpool") && Contains("whirlpool_swap_v2", "v2")
    ensures Contains("raydium_clmm", "raydium") && Contains("raydium_clmm", "clmm")
    ensures Contains("raydium_v2", "raydium") && !Contains("raydium_v2", "clmm")
    ensures Contains("meteora_dlmm", "meteora") && Contains("meteora_dlmm", "dlmm")
    ensures Contains("meteora_pools", "meteora") && !Contains("meteora_pools", "dlmm")
  {
    hide Contains;
    LacksPart("whirlpool", "v2", "v2"[0]);
    LacksPart("raydium_v2", "clmm", "clmm"[0]);
    LacksPart("meteora_pools", "dlmm", "dlmm"[0]);
    PartFound("whirlpool", "whirlpool", 0);
    PartFound("whirlpool_swap_v2", "whirlpool", 0);
    PartFound("whirlpool_swap_v2", "v2", 15);
    PartFound("raydium_clmm", "raydium", 0);
    PartFound("raydium_clmm", "clmm", 8);
    PartFound("raydium_v2", "raydium", 0);
    PartFound("meteora_dlmm", "meteora", 0);
    PartFound("meteora_dlmm", "dlmm", 8);
    PartFound("meteora_pools", "meteora", 0);
  }

  lemma PartFound(s: string, part: string, i: nat)
    requires PartAt(s, part, i)
    ensures Contains(s, part)
  {
    ContainsMeans(s, part);
  }

  lemma OtherStems(dex: DexKind)
    requires dex == AlphaQ || dex == Aquifer || dex == AldrinV2 || dex == OtherDex
    ensures var s := FileStem(dex);
            && !Contains(s, "meteora")
            && (dex == AlphaQ ==> Contains(s, "alphaq"))
            && (dex != AlphaQ ==> !Contains(s, "alphaq") && !Contains(s, "alpha_q"))
            && (dex == Aquifer ==> Contains(s, "aquifer"))
            && (dex == AldrinV2 ==> !Contains(s, "aquifer") && Contains(s, "aldrin"))
            && (dex == OtherDex ==> !Contains(s, "aquifer") && !Contains(s, "aldrin"))
  {
    hide Contains;
    var s := FileStem(dex);
    LacksPart(s, "meteora", "meteora"[0]);
    if dex == AlphaQ {
      PartFound(s, "alphaq", 0);
    } else if dex == Aquifer {
      LacksPart(s, "alphaq", "alphaq"[1]);
      LacksPart(s, "alpha_q", "alpha_q"[1]);
      PartFound(s, "aquifer", 0);
    } else {
      LacksPart(s, "alphaq", "alphaq"[5]);
      LacksPart(s, "alpha_q", "alpha_q"[6]);
      LacksPart(s, "aquifer", "aquifer"[1]);
      if dex == AldrinV2 {
        PartFound(s, "aldrin", 0);
      } else {
        LacksPart(s, "aldrin", "aldrin"[1]);
      }
    }
  }

  /** File stem and template id together determine the whole key. */
  lemma StoredIdInjective(j: HopKey, k: HopKey)
    requires Without(j, ':') && Without(k, ':')
    requires FileStem(j.dex) == FileStem(k.dex) && TemplateId(j) == TemplateId(k)
    ensures j == k
  {
    FileStemInjective(j.dex, k.dex);
    TemplateIdInjective(j, k);
  }
}
