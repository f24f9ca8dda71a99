/** The amount-independent route signature (src/template_cache.rs): the byte
    stream it hashes and the two 64-bit passes over it. */
module RouteSignature {
  import opened Text

  /** JSON values. A number is kept as the text it prints to. */
  datatype Json =
    | Null
    | Bool(b: bool)
    | Number(text: string)
    | Str(s: string)
    | Array(items: seq<Json>)
    | Object(fields: map<string, Json>)

  /** The swapInfo object of a hop, if it has one. */
  function SwapInfo(hop: Json): Option<map<string, Json>> {
    if hop.Object? && "swapInfo" in hop.fields && hop.fields["swapInfo"].Object? then
      Some(hop.fields["swapInfo"].fields)
    else None
  }

  predicate IsAmount(key: string) {
    key == "inAmount" || key == "outAmount" || key == "feeAmount"
  }

  function Printed(v: Json): string {
    match v
    case Str(s) => s
    case Bool(b) => if b then "T" else "F"
    case Number(text) => text
    case _ => ""
  }

  // ------------------------------------------------ sorted keys

  ghost predicate Ascending(keys: seq<string>) {
    forall i, j :: 0 <= i < j < |keys| ==> Before(keys[i], keys[j])
  }

  predicate IsLeast(k: string, keys: set<string>) {
    k in keys && forall j :: j in keys ==> j == k || Before(k, j)
  }

  lemma {:induction false} LeastExists(keys: set<string>)
    requires keys != {}
    ensures exists k :: IsLeast(k, keys)
  {
    var k :| k in keys;
    if keys != {k} {
      LeastExists(keys - {k});
      var m :| IsLeast(m, keys - {k});
      BeforeTotal(k, m);
      if Before(k, m) {
        forall j | j in keys && j != k && j != m { BeforeTransitive(k, m, j); }
        assert IsLeast(k, keys);
      } else {
        assert IsLeast(m, keys);
      }
    } else {
      assert IsLeast(k, keys);
    }
  }

  lemma LeastIsUnique(keys: set<string>)
    ensures forall k, m :: IsLeast(k, keys) && IsLeast(m, keys) ==> k == m
  {
    forall k, m | IsLeast(k, keys) && IsLeast(m, keys) ensures k == m {
      if k != m {
        BeforeTransitive(k, m, k);
        BeforeIrreflexive(k);
      }
    }
  }

  /** The keys of an object, collected and sorted. */
  function SortedKeys(keys: set<string>): seq<string> {
    if keys == {} then []
    else
      LeastExists(keys);
      LeastIsUnique(keys);
      var k :| IsLeast(k, keys);
      [k] + SortedKeys(keys - {k})
  }

  lemma {:induction false} SortedKeysMeans(keys: set<string>)
    ensures forall k :: k in SortedKeys(keys) <==> k in keys
    ensures Ascending(SortedKeys(keys))
  {
    if keys != {} {
      LeastExists(keys);
      LeastIsUnique(keys);
      var k :| IsLeast(k, keys);
      var rest := SortedKeys(keys - {k});
      SortedKeysMeans(keys - {k});
      assert SortedKeys(keys) == [k] + rest;
      AscendingPrepend(k, rest);
    }
  }

  lemma AscendingPrepend(k: string, rest: seq<string>)
    requires Ascending(rest) && forall j :: j in rest ==> Before(k, j)
    ensures Ascending([k] + rest)
  {
    assert forall i :: 0 <= i < |rest| ==> rest[i] in rest;
  }

  // ------------------------------------------------ the byte stream

  datatype Entry = Entry(key: string, value: string)

  function EntryText(e: Entry): string {
    e.key + ['='] + (e.value + [';'])
  }

  function EntriesText(entries: seq<Entry>): string {
    if entries == [] then "" else EntryText(entries[0]) + EntriesText(entries[1..])
  }

  /** The hashed fields, as printed: everything but the amounts. */
  function HashedFieldsOf(si: map<string, Json>): map<string, string> {
    map k | k in si && !IsAmount(k) :: Printed(si[k])
  }

  function HashedFields(hop: Json): map<string, string> {
    match SwapInfo(hop)
    case None => map[]
    case Some(si) => HashedFieldsOf(si)
  }

  function EntriesFor(fields: map<string, string>, keys: seq<string>): (s: seq<Entry>)
    ensures |s| == |keys|
  {
    if keys == [] then []
    else [Entry(keys[0], if keys[0] in fields then fields[keys[0]] else "")] + EntriesFor(fields, keys[1..])
  }

  function SortedEntries(fields: map<string, string>): seq<Entry> {
    EntriesFor(fields, SortedKeys(fields.Keys))
  }

  function Hops(plan: Json): (hops: seq<map<string, string>>) {
    if plan.Array? then
      seq(|plan.items|, i requires 0 <= i < |plan.items| => HashedFields(plan.items[i]))
    else []
  }

  function Stream(hops: seq<map<string, string>>): string {
    if hops == [] then "" else EntriesText(SortedEntries(hops[0])) + Stream(hops[1..])
  }

  // ------------------------------------------------ the hash

  const WORD: nat := 0x1_0000_0000_0000_0000
  /** The code's multiplier, 2^32 + 0x1b3, and its inverse modulo 2^64. */
  const MULTIPLIER: nat := 0x0000_0001_0000_01b3
  const INVERSE: nat := 0xb153_003e_aff6_957b

  type Word = x: int | 0 <= x < WORD

  const SEED1: Word := 0xcbf2_9ce4_8422_2325
  const SEED2: Word := 0x517c_c1b7_2722_0a95

  function Power2(w: nat): (p: nat)
    ensures p > 0
  {
    if w == 0 then 1 else 2 * Power2(w - 1)
  }

  /** Bitwise exclusive or of `width`-bit numbers. */
  function Xor(a: nat, b: nat, width: nat): (x: nat)
    ensures x < Power2(width)
  {
    if width == 0 then 0 else (a + b) % 2 + 2 * Xor(a / 2, b / 2, width - 1)
  }

  lemma {:induction false} Power2Sum(v: nat, w: nat)
    ensures Power2(v + w) == Power2(v) * Power2(w)
  {
    if v > 0 { Power2Sum(v - 1, w); }
  }

  lemma SmallPower2()
    ensures Power2(4) == 16
  {
    assert Power2(2) == 4;
  }

  lemma WordIsPower2()
    ensures Power2(64) == WORD
  {
    hide Power2;
    SmallPower2();
    Power2Sum(4, 4);
    Power2Sum(8, 8);
    Power2Sum(16, 16);
    Power2Sum(32, 32);
  }

  function XorByte(h: Word, c: char): Word {
    WordIsPower2();
    Xor(h, c as int, 64)
  }

  /** Xor in a byte, then multiply modulo 2^64. */
  function Mix(h: Word, c: char): Word {
    XorByte(h, c) * MULTIPLIER % WORD
  }

  function Fold(h: Word, s: string): Word
    decreases |s|
  {
    if s == "" then h else Fold(Mix(h, s[0]), s[1..])
  }

  function Halves(h1: nat, h2: nat): nat {
    h1 * WORD + h2
  }

  lemma HalvesInjective(a: nat, b: nat, c: nat, d: nat)
    requires a < WORD && b < WORD && c < WORD && d < WORD
    ensures Halves(a, b) == Halves(c, d) <==> a == c && b == d
    ensures Halves(a, b) < WORD * WORD
  {
  }

  /** The two passes side by side in 128 bits. */
  function Signature(s: string): (sig: nat) {
    Halves(Fold(SEED1, s), Fold(SEED2, s))
  }

  function RouteSig(plan: Json): (sig: nat) {
    Signature(Stream(Hops(plan)))
  }

  lemma {:induction false} FoldConcat(h: Word, s: string, t: string)
    ensures Fold(h, s + t) == Fold(Fold(h, s), t)
    decreases |s|
  {
    if s == "" {
      assert s + t == t;
    } else {
      assert (s + t)[1..] == s[1..] + t;
      FoldConcat(Mix(h, s[0]), s[1..], t);
    }
  }

  // ------------------------------------------------ the loops of the source

  function WithoutAmounts(keys: seq<string>): seq<string> {
    if keys == [] then []
    else if IsAmount(keys[0]) then WithoutAmounts(keys[1..])
    else [keys[0]] + WithoutAmounts(keys[1..])
  }

  method Feed(h0: Word, text: string) returns (h: Word)
    ensures h == Fold(h0, text)
  {
    h := h0;
    for i := 0 to |text|
      invariant Fold(h, text[i..]) == Fold(h0, text)
    {
      assert text[i..][1..] == text[i + 1..];
      h := Mix(h, text[i]);
    }
  }

  method FeedEntry(h0: Word, key: string, value: string) returns (h: Word)
    ensures h == Fold(h0, EntryText(Entry(key, value)))
  {
    h := Feed(h0, key);
    h := Feed(h, "=");
    h := Feed(h, value);
    h := Feed(h, ";");
    FoldConcat(h0, key + "=", value + ";");
    FoldConcat(h0, key, "=");
    FoldConcat(Fold(h0, key + "="), value, ";");
  }

  /** The loop over the sorted keys. */
  method FeedKeys(h0: Word, si: map<string, Json>, keys: seq<string>, ghost fields: map<string, string>)
    returns (h: Word)
    requires forall i :: 0 <= i < |keys| ==> keys[i] in si
    requires forall i :: 0 <= i < |keys| && !IsAmount(keys[i])
               ==> keys[i] in fields && fields[keys[i]] == Printed(si[keys[i]])
    ensures h == Fold(h0, FieldsText(fields, keys))
  {
    h := h0;
    assert keys[0..] == keys;
    for i := 0 to |keys|
      invariant Fold(h, FieldsText(fields, keys[i..])) == Fold(h0, FieldsText(fields, keys))
    {
      var k := keys[i];
      assert keys[i..][0] == k && keys[i..][1..] == keys[i + 1..];
      FirstKey(h, fields, keys[i..]);
      if IsAmount(k) {
        continue;
      }
      h := FeedEntry(h, k, Printed(si[k]));
    }
  }

  method FeedSwapInfo(h0: Word, si: map<string, Json>) returns (h: Word)
    ensures h == Fold(h0, EntriesText(SortedEntries(HashedFieldsOf(si))))
  {
    var keys := SortedKeys(si.Keys);
    SortedKeysMeans(si.Keys);
    assert forall i :: 0 <= i < |keys| ==> keys[i] in keys;
    ghost var fields := HashedFieldsOf(si);
    SkippingIsSorting(si.Keys, fields.Keys);
    h := FeedKeys(h0, si, keys, fields);
  }

  /** The text still to be fed when these keys are left. */
  ghost function FieldsText(fields: map<string, string>, keys: seq<string>): string {
    EntriesText(EntriesFor(fields, WithoutAmounts(keys)))
  }

  lemma FirstKey(h: Word, fields: map<string, string>, keys: seq<string>)
    requires keys != []
    ensures IsAmount(keys[0]) ==> FieldsText(fields, keys) == FieldsText(fields, keys[1..])
    ensures !IsAmount(keys[0]) && keys[0] in fields ==>
      Fold(h, FieldsText(fields, keys))
      == Fold(Fold(h, EntryText(Entry(keys[0], fields[keys[0]]))), FieldsText(fields, keys[1..]))
  {
    if !IsAmount(keys[0]) && keys[0] in fields {
      var left, rest := WithoutAmounts(keys), WithoutAmounts(keys[1..]);
      assert left[1..] == rest;
      var first, others := Entry(keys[0], fields[keys[0]]), EntriesFor(fields, rest);
      assert EntriesFor(fields, left)[1..] == others;
      FoldConcat(h, EntryText(first), EntriesText(others));
    }
  }

  /** One pass of the source, hop by hop and key by key. */
  method Fnv1a64(plan: Json, seed: Word) returns (h: Word)
    ensures h == Fold(seed, Stream(Hops(plan)))
  {
    h := seed;
    if plan.Array? {
      ghost var hops := Hops(plan);
      for i := 0 to |plan.items|
        invariant Fold(h, Stream(hops[i..])) == Fold(seed, Stream(hops))
      {
        assert hops[i..][1..] == hops[i + 1..];
        FoldConcat(h, EntriesText(SortedEntries(hops[i])), Stream(hops[i + 1..]));
        var si := SwapInfo(plan.items[i]);
        if si.Some? {
          h := FeedSwapInfo(h, si.value);
        }
      }
    }
  }

  /** The 128-bit signature: two passes with different seeds. */
  method ComputeRouteSig(plan: Json) returns (sig: nat)
    ensures sig == RouteSig(plan)
  {
    var h1 := Fnv1a64(plan, SEED1);
    var h2 := Fnv1a64(plan, SEED2);
    sig := Halves(h1, h2);
  }

  // ------------------------------------------------ the stream is canonical

  /** Two ascending lists with the same elements are equal. */
  lemma {:induction false} AscendingUnique(s: seq<string>, t: seq<string>)
    requires Ascending(s) && Ascending(t) && forall k :: k in s <==> k in t
    ensures s == t
  {
    assert s != [] ==> s[0] in s;
    assert t != [] ==> t[0] in t;
    if s != [] && t != [] {
      FirstIsLeast(s, t);
      forall k ensures k in s[1..] <==> k in t[1..] {
        InTail(s, k);
        InTail(t, k);
      }
      AscendingUnique(s[1..], t[1..]);
      assert s == [s[0]] + s[1..] && t == [t[0]] + t[1..];
    }
  }

  lemma InTail(s: seq<string>, k: string)
    requires s != [] && Ascending(s)
    ensures k in s[1..] <==> k in s && k != s[0]
  {
    BeforeIrreflexive(s[0]);
    if k in s[1..] {
      var i :| 0 <= i < |s| - 1 && s[1..][i] == k;
      assert Before(s[0], s[i + 1]);
    }
  }

  lemma FirstIsLeast(s: seq<string>, t: seq<string>)
    requires s != [] && t != [] && Ascending(s) && Ascending(t) && forall k :: k in s <==> k in t
    ensures s[0] == t[0]
  {
    assert t[0] in s && s[0] in t;
    if s[0] != t[0] {
      BeforeTransitive(s[0], t[0], s[0]);
      BeforeIrreflexive(s[0]);
    }
  }

  lemma {:induction false} WithoutAmountsKeeps(keys: seq<string>)
    requires Ascending(keys)
    ensures forall k :: k in WithoutAmounts(keys) <==> k in keys && !IsAmount(k)
    ensures Ascending(WithoutAmounts(keys))
  {
    if keys != [] {
      WithoutAmountsKeeps(keys[1..]);
      assert forall k :: k in keys <==> k == keys[0] || k in keys[1..];
      assert forall k :: k in keys[1..] ==> Before(keys[0], k);
    }
  }

  /** Skipping the amounts while walking all sorted keys is sorting the others. */
  lemma SkippingIsSorting(all: set<string>, kept: set<string>)
    requires kept == set k | k in all && !IsAmount(k)
    ensures WithoutAmounts(SortedKeys(all)) == SortedKeys(kept)
  {
    SortedKeysMeans(all);
    SortedKeysMeans(kept);
    WithoutAmountsKeeps(SortedKeys(all));
    AscendingUnique(WithoutAmounts(SortedKeys(all)), SortedKeys(kept));
  }

  // ---- reading the stream back

  ghost predicate Parsable(e: Entry) {
    '=' !in e.key && ';' !in e.value
  }

  lemma {:induction false} EntriesTextInjective(a: seq<Entry>, b: seq<Entry>)
    requires forall e :: e in a || e in b ==> Parsable(e)
    requires EntriesText(a) == EntriesText(b)
    ensures a == b
  {
    if a != [] && b != [] {
      var x, y := a[0], b[0];
      var restA, restB := EntriesText(a[1..]), EntriesText(b[1..]);
      assert x in a && y in b;
      assert EntriesText(a) == x.key + ['='] + (x.value + [';'] + restA);
      assert EntriesText(b) == y.key + ['='] + (y.value + [';'] + restB);
      FirstSeparator(x.key, y.key, '=', x.value + [';'] + restA, y.value + [';'] + restB);
      FirstSeparator(x.value, y.value, ';', restA, restB);
      EntriesTextInjective(a[1..], b[1..]);
      assert a == [x] + a[1..] && b == [y] + b[1..];
    }
  }

  /** The entries of all hops in one list. */
  function Flat(hops: seq<map<string, string>>): seq<Entry> {
    if hops == [] then [] else SortedEntries(hops[0]) + Flat(hops[1..])
  }

  lemma {:induction false} EntriesTextConcat(a: seq<Entry>, b: seq<Entry>)
    ensures EntriesText(a + b) == EntriesText(a) + EntriesText(b)
  {
    if a == [] {
      assert a + b == b;
    } else {
      assert (a + b)[1..] == a[1..] + b;
      EntriesTextConcat(a[1..], b);
    }
  }

  lemma {:induction false} StreamIsFlat(hops: seq<map<string, string>>)
    ensures Stream(hops) == EntriesText(Flat(hops))
  {
    if hops != [] {
      StreamIsFlat(hops[1..]);
      EntriesTextConcat(SortedEntries(hops[0]), Flat(hops[1..]));
    }
  }

  lemma {:induction false} EntriesForMeans(fields: map<string, string>, keys: seq<string>)
    requires forall k :: k in keys ==> k in fields
    ensures forall i :: 0 <= i < |keys| ==> EntriesFor(fields, keys)[i] == Entry(keys[i], fields[keys[i]])
  {
    if keys != [] {
      EntriesForMeans(fields, keys[1..]);
    }
  }

  lemma SortedEntriesMeans(fields: map<string, string>)
    ensures var s := SortedEntries(fields);
            && (forall i, j :: 0 <= i < j < |s| ==> Before(s[i].key, s[j].key))
            && (forall i :: 0 <= i < |s| ==> s[i].key in fields && s[i].value == fields[s[i].key])
            && (forall k :: k in fields ==> exists i :: 0 <= i < |s| && s[i].key == k)
  {
    var keys := SortedKeys(fields.Keys);
    SortedKeysMeans(fields.Keys);
    EntriesForMeans(fields, keys);
    forall k | k in fields ensures exists i :: 0 <= i < |keys| && SortedEntries(fields)[i].key == k {
      assert k in keys;
      var i :| 0 <= i < |keys| && keys[i] == k;
      assert SortedEntries(fields)[i].key == k;
    }
  }

  lemma EntriesDetermineFields(a: map<string, string>, b: map<string, string>)
    requires SortedEntries(a) == SortedEntries(b)
    ensures a == b
  {
    SortedEntriesMeans(a);
    SortedEntriesMeans(b);
  }

  lemma NeighboursAscend(fields: map<string, string>, i: nat)
    requires i + 1 < |SortedEntries(fields)|
    ensures Before(SortedEntries(fields)[i].key, SortedEntries(fields)[i + 1].key)
  {
    SortedEntriesMeans(fields);
  }

  /** Where the keys of a hop that has `key` begin and end. */
  lemma KeyBetween(fields: map<string, string>, key: string)
    requires key in fields
    ensures var s := SortedEntries(fields);
            && s != []
            && !Before(key, s[0].key)
            && !Before(s[|s| - 1].key, key)
  {
    SortedEntriesMeans(fields);
    var i :| 0 <= i < |SortedEntries(fields)| && SortedEntries(fields)[i].key == key;
    BetweenFirstAndLast(SortedEntries(fields), i);
  }

  lemma BetweenFirstAndLast(s: seq<Entry>, i: nat)
    requires i < |s| && forall i, j :: 0 <= i < j < |s| ==> Before(s[i].key, s[j].key)
    ensures !Before(s[i].key, s[0].key) && !Before(s[|s| - 1].key, s[i].key)
  {
    var first, key, last := s[0].key, s[i].key, s[|s| - 1].key;
    BeforeIrreflexive(key);
    if Before(key, first) && i > 0 { BeforeTransitive(key, first, key); }
    if Before(last, key) && i < |s| - 1 { BeforeTransitive(key, last, key); }
  }

  ghost predicate AllHave(hops: seq<map<string, string>>, key: string) {
    hops != [] ==> key in hops[0] && AllHave(hops[1..], key)
  }

  /** The first key of a later hop never continues the ascent of the hop before. */
  lemma BoundaryDescends(first: map<string, string>, rest: seq<map<string, string>>, key: string)
    requires key in first && AllHave(rest, key) && rest != []
    ensures Flat(rest) != []
    ensures var s := SortedEntries(first); s != [] && !Before(s[|s| - 1].key, Flat(rest)[0].key)
  {
    KeyBetween(first, key);
    KeyBetween(rest[0], key);
    var last, next := SortedEntries(first)[|SortedEntries(first)| - 1].key, SortedEntries(rest[0])[0].key;
    assert Flat(rest)[0].key == next;
    NotBeforeTransitive(last, key, next);
  }

  lemma NotBeforeTransitive(s: string, t: string, u: string)
    requires !Before(s, t) && !Before(t, u)
    ensures !Before(s, u)
  {
    BeforeTotal(s, t);
    BeforeTotal(t, u);
    if Before(s, u) {
      if Before(t, s) { BeforeTransitive(t, s, u); }
    }
  }

  lemma LongerPrefix(s: seq<Entry>, x: seq<Entry>, t: seq<Entry>, y: seq<Entry>)
    requires s + x == t + y && s != [] && |s| < |t|
    ensures x != [] && x[0] == t[|s|] && s[|s| - 1] == t[|s| - 1]
  {
    assert (s + x)[|s|] == (t + y)[|s|] && (s + x)[|s| - 1] == (t + y)[|s| - 1];
  }

  /** So the first hop is the same length on both sides. */
  lemma FirstHopNoLonger(a: seq<map<string, string>>, b: seq<map<string, string>>, key: string)
    requires a != [] && b != [] && AllHave(a, key) && AllHave(b, key)
    requires Flat(a) == Flat(b)
    ensures |SortedEntries(a[0])| >= |SortedEntries(b[0])|
  {
    var s, t := SortedEntries(a[0]), SortedEntries(b[0]);
    KeyBetween(a[0], key);
    if |s| < |t| {
      LongerPrefix(s, Flat(a[1..]), t, Flat(b[1..]));
      BoundaryDescends(a[0], a[1..], key);
      NeighboursAscend(b[0], |s| - 1);
    }
  }

  lemma SamePrefix(s: seq<Entry>, x: seq<Entry>, t: seq<Entry>, y: seq<Entry>)
    requires s + x == t + y && |s| == |t|
    ensures s == t && x == y
  {
    assert s == (s + x)[..|s|] && t == (t + y)[..|t|];
    assert x == (s + x)[|s|..] && y == (t + y)[|t|..];
  }

  lemma {:induction false} FlatInjective(a: seq<map<string, string>>, b: seq<map<string, string>>, key: string)
    requires AllHave(a, key) && AllHave(b, key) && Flat(a) == Flat(b)
    ensures a == b
  {
    if a != [] { KeyBetween(a[0], key); }
    if b != [] { KeyBetween(b[0], key); }
    if a != [] && b != [] {
      FirstHopNoLonger(a, b, key);
      FirstHopNoLonger(b, a, key);
      SamePrefix(SortedEntries(a[0]), Flat(a[1..]), SortedEntries(b[0]), Flat(b[1..]));
      EntriesDetermineFields(a[0], b[0]);
      FlatInjective(a[1..], b[1..], key);
      assert a == [a[0]] + a[1..] && b == [b[0]] + b[1..];
    }
  }

  ghost predicate AllParsable(hops: seq<map<string, string>>) {
    forall i, k :: 0 <= i < |hops| && k in hops[i] ==> '=' !in k && ';' !in hops[i][k]
  }

  lemma {:induction false} FlatParsable(hops: seq<map<string, string>>)
    requires AllParsable(hops)
    ensures forall e :: e in Flat(hops) ==> Parsable(e)
  {
    if hops != [] {
      FlatParsable(hops[1..]);
      SortedEntriesMeans(hops[0]);
      forall e | e in SortedEntries(hops[0]) ensures Parsable(e) {
        assert e.key in hops[0];
      }
    }
  }

  /** The hashed stream is a canonical form: two plans feed the same bytes if and
      only if they agree, hop by hop, on every non-amount swapInfo field as
      printed. Key order, amounts and everything outside swapInfo play no part. */
  lemma StreamIsCanonical(p: Json, q: Json)
    requires AllHave(Hops(p), "ammKey") && AllHave(Hops(q), "ammKey")
    requires AllParsable(Hops(p)) && AllParsable(Hops(q))
    ensures Stream(Hops(p)) == Stream(Hops(q)) <==> Hops(p) == Hops(q)
  {
    if Stream(Hops(p)) == Stream(Hops(q)) {
      StreamIsFlat(Hops(p));
      StreamIsFlat(Hops(q));
      FlatParsable(Hops(p));
      FlatParsable(Hops(q));
      EntriesTextInjective(Flat(Hops(p)), Flat(Hops(q)));
      FlatInjective(Hops(p), Hops(q), "ammKey");
    }
  }

  /** Without an `ammKey` in every hop, hop boundaries are lost. */
  lemma BoundariesNeedAmmKey()
    ensures Stream([map["a" := "1"], map["b" := "2"]]) == Stream([map["a" := "1", "b" := "2"]]) == "a=1;b=2;"
  {
    var a, b, ab := map["a" := "1"], map["b" := "2"], map["a" := "1", "b" := "2"];
    SortedOne("a", "1");
    SortedOne("b", "2");
    SortedTwo("a", "1", "b", "2");
    assert ab == map["a" := "1"]["b" := "2"];
    StreamIsFlat([a, b]);
    StreamIsFlat([ab]);
    assert [a, b][1..] == [b] && [b][1..] == [] && [ab][1..] == [];
    assert Flat([b]) == SortedEntries(b) && Flat([ab]) == SortedEntries(ab);
    assert EntriesText([Entry("b", "2")]) == "b=2;" by { assert [Entry("b", "2")][1..] == []; }
    var both := [Entry("a", "1"), Entry("b", "2")];
    assert both[1..] == [Entry("b", "2")] && EntriesText(both) == "a=1;" + "b=2;";
  }

  lemma SortedTwo(k: string, v: string, l: string, w: string)
    requires Before(k, l)
    ensures SortedEntries(map[k := v][l := w]) == [Entry(k, v), Entry(l, w)]
  {
    var m := map[k := v][l := w];
    BeforeIrreflexive(k);
    assert m.Keys == {k, l};
    var keys := SortedKeys(m.Keys);
    SortedKeysMeans(m.Keys);
    AscendingUnique(keys, [k, l]);
    EntriesForMeans(m, keys);
  }

  lemma SortedOne(k: string, v: string)
    ensures SortedEntries(map[k := v]) == [Entry(k, v)]
  {
    var m := map[k := v];
    assert m.Keys == {k};
    var keys := SortedKeys(m.Keys);
    SortedKeysMeans(m.Keys);
    AscendingUnique(keys, [k]);
    EntriesForMeans(m, keys);
  }

  // ------------------------------------------------ one byte of the hash

  /** Binary digit `k` of a number. */
  function Bit(n: nat, k: nat): nat {
    if k == 0 then n % 2 else Bit(n / 2, k - 1)
  }

  /** Exclusive or is that of the binary digits. */
  lemma {:induction false} XorBits(a: nat, b: nat, width: nat, k: nat)
    requires k < width
    ensures Bit(Xor(a, b, width), k) == if Bit(a, k) == Bit(b, k) then 0 else 1
    decreases k
  {
    hide Xor;
    XorParts(a, b, width);
    if k == 0 {
      Parity(a, b);
    } else {
      XorBits(a / 2, b / 2, width - 1, k - 1);
    }
  }

  lemma Parity(a: nat, b: nat)
    ensures (a + b) % 2 == if a % 2 == b % 2 then 0 else 1
  {
  }

  lemma {:induction false} XorZero(b: nat, width: nat)
    requires b < Power2(width)
    ensures Xor(0, b, width) == b
  {
    if width > 0 { XorZero(b / 2, width - 1); }
  }

  /** The byte is mixed in before the multiplication: from state zero one byte gives
      its multiple of the constant. */
  lemma ByteThenTimes(c: char)
    ensures Fold(0, [c]) == c as int * 0x1_0000_01b3
  {
    hide Xor, Power2;
    WordIsPower2();
    XorZero(c as int, 64);
    assert XorByte(0, c) == c as int;
    assert Mix(0, c) == c as int * 0x1_0000_01b3;
    assert [c][1..] == "";
  }

  // ------------------------------------------------ the hash separates

  lemma ParityUndone(x: nat, a: nat, b: nat)
    requires x % 2 == (a + b) % 2
    ensures (x + b) % 2 == a % 2
  {
  }

  lemma XorParts(a: nat, b: nat, width: nat)
    requires width > 0
    ensures Xor(a, b, width) / 2 == Xor(a / 2, b / 2, width - 1)
    ensures Xor(a, b, width) % 2 == (a + b) % 2
  {
  }

  lemma {:induction false} XorUndone(a: nat, b: nat, width: nat)
    requires a < Power2(width)
    ensures Xor(Xor(a, b, width), b, width) == a
  {
    if width > 0 {
      var x := Xor(a, b, width);
      XorUndone(a / 2, b / 2, width - 1);
      XorParts(a, b, width);
      XorParts(x, b, width);
      ParityUndone(x, a, b);
    }
  }

  lemma {:induction false} XorCommutes(a: nat, b: nat, width: nat)
    ensures Xor(a, b, width) == Xor(b, a, width)
  {
    if width > 0 { XorCommutes(a / 2, b / 2, width - 1); }
  }

  /** If `m * i` is one more than a multiple of `w`, reducing `x * m` by multiples of
      `w` and multiplying by `i` leaves `x`, up to multiples of `w`. */
  lemma InverseWorks(x: int, m: int, i: int, w: int, k: int, q: int, r: int)
    requires m * i == 1 + k * w && x * m == q * w + r
    ensures r * i == x + w * (k * x - q * i)
  {
    calc {
      r * i;
      (x * m - q * w) * i;
      x * m * i - q * w * i;
      x * (m * i) - q * w * i;
      x * (1 + k * w) - q * w * i;
      x + w * (k * x - q * i);
    }
  }

  lemma WordRemainder(x: Word, t: int)
    ensures (x + WORD * t) % WORD == x
  {
  }

  /** Multiplying by the odd constant is undone by multiplying by its inverse. */
  lemma TimesUndone(x: Word)
    ensures x * MULTIPLIER % WORD * INVERSE % WORD == x
  {
    var k := 0xb153_016c;
    assert MULTIPLIER * INVERSE == 1 + k * WORD;
    var q, r := x * MULTIPLIER / WORD, x * MULTIPLIER % WORD;
    InverseWorks(x, MULTIPLIER, INVERSE, WORD, k, q, r);
    WordRemainder(x, k * x - q * INVERSE);
  }

  /** One mixing step is injective in the state. */
  lemma MixInjectiveInState(g: Word, h: Word, c: char)
    requires Mix(g, c) == Mix(h, c)
    ensures g == h
  {
    WordIsPower2();
    TimesUndone(XorByte(g, c));
    TimesUndone(XorByte(h, c));
    XorUndone(g, c as int, 64);
    XorUndone(h, c as int, 64);
  }

  /** One mixing step is injective in the byte. */
  lemma MixInjectiveInByte(h: Word, c: char, d: char)
    requires Mix(h, c) == Mix(h, d)
    ensures c == d
  {
    WordIsPower2();
    TimesUndone(XorByte(h, c));
    TimesUndone(XorByte(h, d));
    XorCommutes(h, c as int, 64);
    XorCommutes(h, d as int, 64);
    XorUndone(c as int, h, 64);
    XorUndone(d as int, h, 64);
  }

  /** A whole pass is injective in the seed. */
  lemma {:induction false} FoldInjective(g: Word, h: Word, s: string)
    requires Fold(g, s) == Fold(h, s)
    ensures g == h
    decreases |s|
  {
    if s != "" {
      FoldInjective(Mix(g, s[0]), Mix(h, s[0]), s[1..]);
      MixInjectiveInState(g, h, s[0]);
    }
  }

  /** Streams of equal length that differ in one byte never collide, whatever
      the seed. */
  lemma OneByteSeparates(seed: Word, s: string, c: char, d: char, t: string)
    requires c != d
    ensures Fold(seed, s + [c] + t) != Fold(seed, s + [d] + t)
  {
    var g := Fold(seed, s);
    FoldConcat(seed, s + [c], t);
    FoldConcat(seed, s + [d], t);
    FoldConcat(seed, s, [c]);
    FoldConcat(seed, s, [d]);
    if Fold(Mix(g, c), t) == Fold(Mix(g, d), t) {
      FoldInjective(Mix(g, c), Mix(g, d), t);
      MixInjectiveInByte(g, c, d);
    }
  }

  lemma SignatureFits(s: string)
    ensures Signature(s) < WORD * WORD
  {
    HalvesInjective(Fold(SEED1, s), Fold(SEED2, s), 0, 0);
  }

  /** The two halves of a signature are never equal. */
  lemma HalvesDiffer(plan: Json)
    ensures RouteSig(plan) / WORD != RouteSig(plan) % WORD
  {
    var s := Stream(Hops(plan));
    var h1, h2 := Fold(SEED1, s), Fold(SEED2, s);
    SignatureHalves(s);
    if h1 == h2 {
      FoldInjective(SEED1, SEED2, s);
    }
  }

  // ---- flipping one boolean

  lemma {:induction false} OtherKeysOnly(fields: map<string, string>, keys: seq<string>, k: string, v: string)
    requires k !in keys
    ensures EntriesFor(fields[k := v], keys) == EntriesFor(fields, keys)
  {
    if keys != [] {
      assert keys[0] in keys;
      OtherKeysOnly(fields, keys[1..], k, v);
    }
  }

  /** The value of one key sits in a fixed context of the text. */
  lemma {:induction false} ValueInContext(fields: map<string, string>, keys: seq<string>, k: string)
    returns (s: string, t: string)
    requires k in keys && Ascending(keys)
    ensures forall v :: EntriesText(EntriesFor(fields[k := v], keys)) == s + v + t
  {
    hide EntriesFor, EntriesText;
    if keys[0] == k {
      InTail(keys, k);
      s, t := k + ['='], [';'] + EntriesText(EntriesFor(fields, keys[1..]));
      forall v ensures EntriesText(EntriesFor(fields[k := v], keys)) == s + v + t {
        OtherKeysOnly(fields, keys[1..], k, v);
        FirstEntryText(fields[k := v], keys);
      }
    } else {
      var s', t' := ValueInContext(fields, keys[1..], k);
      var e := EntryText(Entry(keys[0], if keys[0] in fields then fields[keys[0]] else ""));
      s, t := e + s', t';
      forall v ensures EntriesText(EntriesFor(fields[k := v], keys)) == s + v + t {
        FirstEntryText(fields[k := v], keys);
        assert e + (s' + v + t') == s + v + t;
      }
    }
  }

  lemma FirstEntryText(fields: map<string, string>, keys: seq<string>)
    requires keys != []
    ensures EntriesText(EntriesFor(fields, keys))
            == EntryText(Entry(keys[0], if keys[0] in fields then fields[keys[0]] else ""))
               + EntriesText(EntriesFor(fields, keys[1..]))
  {
    assert EntriesFor(fields, keys)[1..] == EntriesFor(fields, keys[1..]);
  }

  lemma {:induction false} ValueInStream(hops: seq<map<string, string>>, i: nat, k: string)
    returns (s: string, t: string)
    requires i < |hops| && k in hops[i]
    ensures forall v :: Stream(hops[i := hops[i][k := v]]) == s + v + t
  {
    if i == 0 {
      var keys := SortedKeys(hops[0].Keys);
      SortedKeysMeans(hops[0].Keys);
      s, t := ValueInContext(hops[0], keys, k);
      var rest := Stream(hops[1..]);
      forall v ensures Stream(hops[0 := hops[0][k := v]]) == s + v + (t + rest) {
        assert hops[0][k := v].Keys == hops[0].Keys;
        assert hops[0 := hops[0][k := v]][1..] == hops[1..];
        assert s + v + t + rest == s + v + (t + rest);
      }
      t := t + rest;
    } else {
      s, t := ValueInStream(hops[1..], i - 1, k);
      var first := EntriesText(SortedEntries(hops[0]));
      forall v ensures Stream(hops[i := hops[i][k := v]]) == (first + s) + v + t {
        assert hops[i := hops[i][k := v]][1..] == hops[1..][i - 1 := hops[1..][i - 1][k := v]];
        assert first + (s + v + t) == (first + s) + v + t;
      }
      s := first + s;
    }
  }

  /** Hops that agree on every swapInfo field but the amounts. */
  ghost predicate SameRoute(a: Json, b: Json) {
    match (SwapInfo(a), SwapInfo(b))
    case (Some(s), Some(t)) =>
      forall k :: k != "inAmount" && k != "outAmount" && k != "feeAmount" ==>
                    (k in s <==> k in t) && (k in s ==> s[k] == t[k])
    case (None, None) => true
    case _ => false
  }

  /** Amounts and everything outside swapInfo never reach the signature. */
  lemma OnlyRouteIsSigned(p: Json, q: Json)
    requires p.Array? && q.Array? && |p.items| == |q.items|
    requires forall i :: 0 <= i < |p.items| ==> SameRoute(p.items[i], q.items[i])
    ensures RouteSig(p) == RouteSig(q)
  {
    forall i | 0 <= i < |p.items| ensures Hops(p)[i] == Hops(q)[i] {
      assert SameRoute(p.items[i], q.items[i]);
    }
    assert Hops(p) == Hops(q);
  }

  /** What of a swapInfo is hashed: every field but the three amounts, strings and
      numbers by their text, booleans by one letter, everything else by nothing. */
  lemma HashedFieldsMean(si: map<string, Json>, k: string)
    ensures k in HashedFieldsOf(si) <==> k in si && k != "inAmount" && k != "outAmount" && k != "feeAmount"
    ensures k in HashedFieldsOf(si) && si[k].Str? ==> HashedFieldsOf(si)[k] == si[k].s
    ensures k in HashedFieldsOf(si) && si[k].Number? ==> HashedFieldsOf(si)[k] == si[k].text
    ensures k in HashedFieldsOf(si) && si[k].Bool? ==> HashedFieldsOf(si)[k] == (if si[k].b then "T" else "F")
    ensures k in HashedFieldsOf(si) && (si[k].Null? || si[k].Array? || si[k].Object?) ==> HashedFieldsOf(si)[k] == ""
  {
  }

  /** The plan with one field of one hop's swapInfo set. */
  function WithField(plan: Json, i: nat, name: string, v: Json): Json
    requires plan.Array? && i < |plan.items| && SwapInfo(plan.items[i]).Some?
  {
    var hop := plan.items[i];
    var si := SwapInfo(hop).value;
    Array(plan.items[i := hop.(fields := hop.fields["swapInfo" := Object(si[name := v])])])
  }

  /** Setting a field changes what is hashed exactly when it is none of the three
      amounts and it was absent or printed otherwise; an amount never reaches the
      signature. */
  lemma SignedFieldsExactly(plan: Json, i: nat, name: string, v: Json)
    requires plan.Array? && i < |plan.items| && SwapInfo(plan.items[i]).Some?
    ensures var si := SwapInfo(plan.items[i]).value;
            Hops(WithField(plan, i, name, v)) == Hops(plan)
            <==> name == "inAmount" || name == "outAmount" || name == "feeAmount"
                 || (name in si && Printed(si[name]) == Printed(v))
    ensures name == "inAmount" || name == "outAmount" || name == "feeAmount" ==>
              RouteSig(WithField(plan, i, name, v)) == RouteSig(plan)
  {
    var si, changed := SwapInfo(plan.items[i]).value, WithField(plan, i, name, v);
    assert SwapInfo(changed.items[i]) == Some(si[name := v]);
    assert forall j :: 0 <= j < |plan.items| && j != i ==> Hops(changed)[j] == Hops(plan)[j];
    HashedFieldsMean(si, name);
    HashedFieldsMean(si[name := v], name);
    var before, after := HashedFieldsOf(si), HashedFieldsOf(si[name := v]);
    assert Hops(plan)[i] == before && Hops(changed)[i] == after;
    if before == after { assert Hops(changed) == Hops(plan); }
    if name in before {
      assert after == before[name := Printed(v)];
      assert before[name] == Printed(si[name]) && after[name] == Printed(v);
    } else if name == "inAmount" || name == "outAmount" || name == "feeAmount" {
      assert after == before;
    } else {
      assert name in after;
    }
  }

  /** A plan without hops is signed with the two seeds themselves. */
  lemma NoHopsSignature(plan: Json)
    requires plan.Array? ==> plan.items == []
    ensures RouteSig(plan) == 0xcbf2_9ce4_8422_2325_517c_c1b7_2722_0a95
  {
    assert Hops(plan) == [];
  }

  /** A plan with one boolean of one hop's swapInfo flipped. */
  ghost predicate FlippedAt(p: Json, q: Json, i: nat, k: string) {
    && p.Array? && q.Array? && |p.items| == |q.items| && i < |p.items|
    && (forall j :: 0 <= j < |p.items| && j != i ==> q.items[j] == p.items[j])
    && SwapInfo(p.items[i]).Some? && SwapInfo(q.items[i]).Some?
    && var si := SwapInfo(p.items[i]).value;
       k in si && si[k].Bool? && SwapInfo(q.items[i]).value == si[k := Bool(!si[k].b)]
  }

  lemma FlippedHops(p: Json, q: Json, i: nat, k: string) returns (v: string, w: string)
    requires FlippedAt(p, q, i, k) && !IsAmount(k)
    ensures i < |Hops(p)| && k in Hops(p)[i]
    ensures Hops(p) == Hops(p)[i := Hops(p)[i][k := v]] && Hops(q) == Hops(p)[i := Hops(p)[i][k := w]]
    ensures (v == "T" && w == "F") || (v == "F" && w == "T")
  {
    var si := SwapInfo(p.items[i]).value;
    v, w := Printed(si[k]), Printed(Bool(!si[k].b));
    var fields := HashedFieldsOf(si);
    assert HashedFieldsOf(si[k := Bool(!si[k].b)]) == fields[k := w];
    assert fields == fields[k := v];
    assert Hops(p)[i] == fields && Hops(q)[i] == fields[k := w];
  }

  /** Flipped booleans never collide: two plans that differ in exactly one hashed
      boolean of one hop have signatures that differ in both halves. */
  lemma FlippedBooleanSeparates(p: Json, q: Json, i: nat, k: string)
    requires FlippedAt(p, q, i, k) && !IsAmount(k)
    ensures RouteSig(p) / WORD != RouteSig(q) / WORD
    ensures RouteSig(p) % WORD != RouteSig(q) % WORD
  {
    var v, w := FlippedHops(p, q, i, k);
    var s, t := ValueInStream(Hops(p), i, k);
    assert Stream(Hops(p)) == s + v + t && Stream(Hops(q)) == s + w + t;
    assert v == [v[0]] && w == [w[0]];
    HalfSeparates(SEED1, s, v, w, t);
    HalfSeparates(SEED2, s, v, w, t);
    SignatureHalves(s + v + t);
    SignatureHalves(s + w + t);
  }

  lemma HalfSeparates(seed: Word, s: string, v: string, w: string, t: string)
    requires |v| == |w| == 1 && v != w
    ensures Fold(seed, s + v + t) != Fold(seed, s + w + t)
  {
    assert v == [v[0]] && w == [w[0]];
    OneByteSeparates(seed, s, v[0], w[0], t);
  }

  lemma SignatureHalves(s: string)
    ensures Signature(s) / WORD == Fold(SEED1, s) && Signature(s) % WORD == Fold(SEED2, s)
  {
    QuotientAndRemainder(Fold(SEED1, s), Fold(SEED2, s));
  }

  lemma QuotientAndRemainder(h1: nat, h2: nat)
    requires h1 < WORD && h2 < WORD
    ensures Halves(h1, h2) / WORD == h1 && Halves(h1, h2) % WORD == h2
  {
  }
}
