/** Finding and rewriting the two amounts inside an instruction
    (src/template_cache.rs): the byte search and the base64 patcher. */
module AmountPatch {
  import opened Text
  import opened Base64
  import opened Decimal

  type u64 = x: int | 0 <= x < U64_MODULUS

  // ------------------------------------------------ little-endian integers

  function LittleEndian(n: nat, width: nat): (s: seq<byte>)
    ensures |s| == width
  {
    if width == 0 then [] else [n % 256] + LittleEndian(n / 256, width - 1)
  }

  function LittleEndianValue(s: seq<byte>): nat {
    if s == [] then 0 else s[0] + 256 * LittleEndianValue(s[1..])
  }

  function Power256(width: nat): nat {
    if width == 0 then 1 else 256 * Power256(width - 1)
  }

  lemma {:induction false} ReadsBack(n: nat, width: nat)
    requires n < Power256(width)
    ensures LittleEndianValue(LittleEndian(n, width)) == n
  {
    if width > 0 {
      ReadsBack(n / 256, width - 1);
    }
  }

  function Le64(n: u64): (s: seq<byte>)
    ensures |s| == 8
  {
    LittleEndian(n, 8)
  }

  /** The low byte comes first. */
  lemma LowByteFirst()
    ensures Le64(0x0807_0605_0403_0201) == [1, 2, 3, 4, 5, 6, 7, 8]
  {
    hide LittleEndian;
    TwoLow(0x0807_0605_0403_0201, 6);
    TwoLow(0x0807_0605_0403, 4);
    TwoLow(0x0807_0605, 2);
    TwoLow(0x0807, 0);
  }

  lemma TwoLow(n: nat, width: nat)
    ensures LittleEndian(n, width + 2) == [n % 256, n / 256 % 256] + LittleEndian(n / 0x1_0000, width)
    ensures LittleEndian(n, 0) == []
  {
    assert n / 256 / 256 == n / 0x1_0000;
    assert LittleEndian(n / 256, width + 1) == [n / 256 % 256] + LittleEndian(n / 256 / 256, width);
  }

  lemma Le64ReadsBack(n: u64)
    ensures LittleEndianValue(Le64(n)) == n
  {
    assert Power256(8) == U64_MODULUS by {
      assert Power256(2) == 0x1_0000;
      assert Power256(4) == 0x1_0000_0000;
      assert Power256(6) == 0x1_0000_0000_0000;
    }
    ReadsBack(n, 8);
  }

  // ------------------------------------------------ the search

  /** Both passes slide over windows of sixteen bytes. */
  predicate MatchAt(data: seq<byte>, needle: seq<byte>, p: int)
    requires |needle| <= 16
  {
    0 <= p && p + 16 <= |data| && data[p..p + |needle|] == needle
  }

  datatype Hits = Nowhere | Once(at: nat) | Many

  /** The matches among the first `n` positions. */
  function Scan(data: seq<byte>, needle: seq<byte>, n: nat): Hits
    requires |needle| <= 16
  {
    if n == 0 then Nowhere
    else
      var before := Scan(data, needle, n - 1);
      if !MatchAt(data, needle, n - 1) then before
      else if before.Nowhere? then Once(n - 1) else Many
  }

  /** What the two passes find: a unique adjacent pair, else a unique amount. */
  function Discovered(data: seq<byte>, inAmount: u64, quotedOut: u64): Option<(nat, nat)> {
    if |data| < 16 then None
    else
      match Scan(data, Le64(inAmount) + Le64(quotedOut), |data| - 15)
      case Once(p) => Some((p, p + 8))
      case Many => None
      case Nowhere =>
        match Scan(data, Le64(inAmount), |data| - 15)
        case Once(p) => Some((p, p + 8))
        case _ => None
  }

  lemma {:induction false} ManyStays(data: seq<byte>, needle: seq<byte>, m: nat, n: nat)
    requires |needle| <= 16 && m <= n && Scan(data, needle, m) == Many
    ensures Scan(data, needle, n) == Many
  {
    if m < n { ManyStays(data, needle, m, n - 1); }
  }

  lemma PairMatch(data: seq<byte>, a: seq<byte>, b: seq<byte>, p: nat)
    requires |a| == |b| == 8 && p + 16 <= |data|
    ensures MatchAt(data, a + b, p) <==> data[p..p + 8] == a && data[p + 8..p + 16] == b
  {
    assert data[p..p + 16] == data[p..p + 8] + data[p + 8..p + 16];
    if MatchAt(data, a + b, p) {
      assert data[p..p + 8] == (a + b)[..8] && data[p + 8..p + 16] == (a + b)[8..];
    }
  }

  method DiscoverOffsets(data: seq<byte>, inAmount: u64, quotedOut: u64) returns (offsets: Option<(nat, nat)>)
    ensures offsets == Discovered(data, inAmount, quotedOut)
  {
    var inLe, outLe := Le64(inAmount), Le64(quotedOut);
    if |data| < 16 {
      return None;
    }
    var found: Option<nat> := None;
    var count := 0;
    for p := 0 to |data| - 15
      invariant count == if found.Some? then 1 else 0
      invariant Scan(data, inLe + outLe, p) == if found.Some? then Once(found.value) else Nowhere
    {
      PairMatch(data, inLe, outLe, p);
      if data[p..p + 8] == inLe && data[p + 8..p + 16] == outLe {
        found := Some(p);
        count := count + 1;
        if count > 1 {
          ManyStays(data, inLe + outLe, p + 1, |data| - 15);
          return None;
        }
      }
    }
    if found.Some? {
      return Some((found.value, found.value + 8));
    }
    var foundIn: Option<nat> := None;
    var inCount := 0;
    for p := 0 to |data| - 15
      invariant inCount == if foundIn.Some? then 1 else 0
      invariant Scan(data, inLe, p) == if foundIn.Some? then Once(foundIn.value) else Nowhere
    {
      if data[p..p + 8] == inLe {
        foundIn := Some(p);
        inCount := inCount + 1;
        if inCount > 1 {
          ManyStays(data, inLe, p + 1, |data| - 15);
          return None;
        }
      }
    }
    if foundIn.None? {
      return None;
    }
    offsets := Some((foundIn.value, foundIn.value + 8));
  }

  ghost predicate NoMatch(data: seq<byte>, needle: seq<byte>)
    requires |needle| <= 16
  {
    forall p :: !MatchAt(data, needle, p)
  }

  ghost predicate OnlyMatch(data: seq<byte>, needle: seq<byte>, at: int)
    requires |needle| <= 16
  {
    forall p :: MatchAt(data, needle, p) <==> p == at
  }

  lemma {:induction false} ScanMeans(data: seq<byte>, needle: seq<byte>, n: nat)
    requires |needle| <= 16
    ensures match Scan(data, needle, n)
            case Nowhere => forall p :: 0 <= p < n ==> !MatchAt(data, needle, p)
            case Once(at) => at < n && forall p :: 0 <= p < n ==> (MatchAt(data, needle, p) <==> p == at)
            case Many => exists p, q :: 0 <= p < q < n && MatchAt(data, needle, p) && MatchAt(data, needle, q)
  {
    if n > 0 {
      ScanMeans(data, needle, n - 1);
      var before := Scan(data, needle, n - 1);
      if MatchAt(data, needle, n - 1) && before.Once? {
        assert MatchAt(data, needle, before.at);
      }
    }
  }

  lemma ScanAllMeans(data: seq<byte>, needle: seq<byte>)
    requires |needle| <= 16 && |data| >= 16
    ensures match Scan(data, needle, |data| - 15)
            case Nowhere => NoMatch(data, needle)
            case Once(at) => OnlyMatch(data, needle, at) && MatchAt(data, needle, at)
            case Many => !NoMatch(data, needle) && forall at :: !OnlyMatch(data, needle, at)
  {
    ScanMeans(data, needle, |data| - 15);
  }

  /** The search answers with offset `p` exactly when `p` is the one adjacent
      pair match, or there is no pair match and `p` is the one amount match. The
      answer is in bounds and its two fields are adjacent and disjoint. */
  lemma DiscoveredExactly(data: seq<byte>, inAmount: u64, quotedOut: u64, p: nat, q: nat)
    ensures var pair, amount := Le64(inAmount) + Le64(quotedOut), Le64(inAmount);
            Discovered(data, inAmount, quotedOut) == Some((p, q))
            <==> q == p + 8 && (OnlyMatch(data, pair, p) || (NoMatch(data, pair) && OnlyMatch(data, amount, p)))
    ensures Discovered(data, inAmount, quotedOut) == Some((p, q)) ==> q + 8 <= |data|
  {
    var pair, amount := Le64(inAmount) + Le64(quotedOut), Le64(inAmount);
    if |data| >= 16 {
      ScanAllMeans(data, pair);
      ScanAllMeans(data, amount);
      assert OnlyMatch(data, pair, p) ==> MatchAt(data, pair, p);
      assert OnlyMatch(data, amount, p) ==> MatchAt(data, amount, p);
    } else {
      assert !MatchAt(data, pair, p) && !MatchAt(data, amount, p);
    }
  }

  // ------------------------------------------------ the true offset

  /** Instruction data with the two amounts between its other bytes. */
  function Framed(pre: seq<byte>, a: u64, b: u64, post: seq<byte>): (data: seq<byte>)
    ensures |data| == |pre| + 16 + |post|
  {
    pre + (Le64(a) + Le64(b)) + post
  }

  /** When the data does hold the pair, whatever the search returns is where the
      pair really is. */
  lemma UniqueMatchIsTrueOffset(pre: seq<byte>, a: u64, b: u64, post: seq<byte>)
    ensures var found := Discovered(Framed(pre, a, b, post), a, b);
            found == None || found == Some((|pre|, |pre| + 8))
    ensures Discovered(Framed(pre, a, b, post), a, b).Some?
            <==> OnlyMatch(Framed(pre, a, b, post), Le64(a) + Le64(b), |pre|)
  {
    var data, pair := Framed(pre, a, b, post), Le64(a) + Le64(b);
    assert data[|pre|..|pre| + 16] == pair;
    assert MatchAt(data, pair, |pre|);
    ScanAllMeans(data, pair);
  }

  // ------------------------------------------------ the patcher

  function Overwrite(data: seq<byte>, off: nat, word: seq<byte>): (d: seq<byte>)
    requires off + |word| <= |data|
    ensures |d| == |data|
  {
    data[..off] + word + data[off + |word|..]
  }

  function Patched(data: seq<byte>, inOff: nat, outOff: nat, newIn: u64, newOut: u64): Option<seq<byte>> {
    if inOff + 8 > |data| || outOff + 8 > |data| then None
    else Some(Overwrite(Overwrite(data, inOff, Le64(newIn)), outOff, Le64(newOut)))
  }

  function PatchedB64(text: string, inOff: nat, outOff: nat, newIn: u64, newOut: u64): Option<string> {
    match Decode(text)
    case None => None
    case Some(data) =>
      match Patched(data, inOff, outOff, newIn, newOut)
      case None => None
      case Some(d) => Some(Encode(d))
  }

  method CopyFromSlice(buf: array<byte>, off: nat, word: seq<byte>)
    requires off + |word| <= buf.Length
    modifies buf
    ensures buf[..] == Overwrite(old(buf[..]), off, word)
  {
    for i := 0 to |word|
      invariant buf[..off] == old(buf[..off]) && buf[off + i..] == old(buf[off + i..])
      invariant buf[off..off + i] == word[..i]
    {
      buf[off + i] := word[i];
    }
    assert buf[..] == buf[..off] + buf[off..off + |word|] + buf[off + |word|..];
  }

  method PatchAmountsB64(text: string, inOff: nat, outOff: nat, newIn: u64, newOut: u64)
    returns (patched: Option<string>)
    ensures patched == PatchedB64(text, inOff, outOff, newIn, newOut)
  {
    var decoded := Decode(text);
    if decoded.None? {
      return None;
    }
    var bytes := decoded.value;
    var data := new byte[|bytes|](i requires 0 <= i < |bytes| => bytes[i]);
    assert data[..] == bytes;
    if inOff + 8 > data.Length || outOff + 8 > data.Length {
      return None;
    }
    CopyFromSlice(data, inOff, Le64(newIn));
    CopyFromSlice(data, outOff, Le64(newOut));
    patched := Some(Encode(data[..]));
  }

  /** Patching reads back: the second word always, the first one when the words
      do not overlap; every byte outside the two words is unchanged; and all of
      it survives the codec. */
  lemma PatchReadsBack(text: string, inOff: nat, outOff: nat, newIn: u64, newOut: u64)
    requires PatchedB64(text, inOff, outOff, newIn, newOut).Some?
    ensures var old', new' := Decode(text), Decode(PatchedB64(text, inOff, outOff, newIn, newOut).value);
            && old'.Some? && new'.Some? && |new'.value| == |old'.value|
            && outOff + 8 <= |new'.value| && inOff + 8 <= |new'.value|
            && LittleEndianValue(new'.value[outOff..outOff + 8]) == newOut
            && (inOff + 8 <= outOff || outOff + 8 <= inOff ==>
                  LittleEndianValue(new'.value[inOff..inOff + 8]) == newIn)
            && (forall i :: 0 <= i < |new'.value| && !(inOff <= i < inOff + 8) && !(outOff <= i < outOff + 8)
                  ==> new'.value[i] == old'.value[i])
  {
    hide Encode, Decode, Le64, LittleEndianValue;
    var data := Decode(text).value;
    var first := Overwrite(data, inOff, Le64(newIn));
    var both := Overwrite(first, outOff, Le64(newOut));
    DecodeOfEncode(both);
    Le64ReadsBack(newIn);
    Le64ReadsBack(newOut);
    OverwriteReads(data, inOff, Le64(newIn));
    OverwriteReads(first, outOff, Le64(newOut));
    if inOff + 8 <= outOff || outOff + 8 <= inOff {
      assert both[inOff..inOff + 8] == first[inOff..inOff + 8];
    }
  }

  lemma OverwriteReads(data: seq<byte>, off: nat, word: seq<byte>)
    requires off + |word| <= |data|
    ensures var d := Overwrite(data, off, word);
            && d[off..off + |word|] == word
            && (forall i :: 0 <= i < |data| && !(off <= i < off + |word|) ==> d[i] == data[i])
  {
  }

  /** At the true offset, patching turns the frame for one pair of amounts into
      the frame for another. */
  lemma PatchMovesFrame(pre: seq<byte>, a: u64, b: u64, post: seq<byte>, a': u64, b': u64)
    ensures PatchedB64(Encode(Framed(pre, a, b, post)), |pre|, |pre| + 8, a', b')
            == Some(Encode(Framed(pre, a', b', post)))
  {
    DecodeOfEncode(Framed(pre, a, b, post));
    OverwritePair(pre, Le64(a), Le64(b), post, Le64(a'), Le64(b'));
  }

  lemma OverwritePair(pre: seq<byte>, x: seq<byte>, y: seq<byte>, post: seq<byte>, x': seq<byte>, y': seq<byte>)
    requires |x| == |y| == |x'| == |y'| == 8
    ensures Overwrite(Overwrite(pre + (x + y) + post, |pre|, x'), |pre| + 8, y') == pre + (x' + y') + post
  {
    var data := pre + (x + y) + post;
    var first := Overwrite(data, |pre|, x');
    assert first == pre + (x' + y) + post;
  }
}
