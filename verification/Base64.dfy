/** The standard base64 alphabet with canonical padding (sections 3.5 and 4 of
    RFC 4648), the codec used on instruction data. */
module Base64 {
  import opened Text

  type byte = b: int | 0 <= b < 256
  type sextet = v: int | 0 <= v < 64

  function Symbol(v: sextet): (c: char)
    ensures SymbolValue(c) == Some(v)
  {
    if v < 26 then ('A' as int + v) as char
    else if v < 52 then ('a' as int + v - 26) as char
    else if v < 62 then ('0' as int + v - 52) as char
    else if v == 62 then '+' else '/'
  }

  function SymbolValue(c: char): (v: Option<sextet>) {
    if 'A' <= c <= 'Z' then Some(c as int - 'A' as int)
    else if 'a' <= c <= 'z' then Some(c as int - 'a' as int + 26)
    else if '0' <= c <= '9' then Some(c as int - '0' as int + 52)
    else if c == '+' then Some(62)
    else if c == '/' then Some(63)
    else None
  }

  /** The alphabet in order (table 1 of RFC 4648). */
  lemma AlphabetInOrder(v: sextet)
    ensures v <= 25 ==> Symbol(v) as int == 'A' as int + v && 'A' <= Symbol(v) <= 'Z'
    ensures 26 <= v <= 51 ==> Symbol(v) as int == 'a' as int + (v - 26) && 'a' <= Symbol(v) <= 'z'
    ensures 52 <= v <= 61 ==> Symbol(v) as int == '0' as int + (v - 52) && '0' <= Symbol(v) <= '9'
    ensures (v == 62 ==> Symbol(v) == '+') && (v == 63 ==> Symbol(v) == '/')
  {
  }

  /** Three bytes and their four sextets are one 24-bit number, high part first. */
  lemma SplitIsGroup(x: byte, y: byte, z: byte)
    ensures var s := Split(x, y, z);
            s.0 * 0x40000 + s.1 * 0x1000 + s.2 * 0x40 + s.3 == x * 0x10000 + y * 0x100 + z
  {
  }

  lemma SymbolOfValue(c: char)
    ensures SymbolValue(c).Some? ==> Symbol(SymbolValue(c).value) == c && c != '='
  {
  }

  /** Four sextets from three bytes. */
  function Split(x: byte, y: byte, z: byte): (sextet, sextet, sextet, sextet) {
    (x / 4, x % 4 * 16 + y / 16, y % 16 * 4 + z / 64, z % 64)
  }

  /** Three bytes from four sextets. */
  function Join(a: sextet, b: sextet, c: sextet, d: sextet): (byte, byte, byte) {
    (a * 4 + b / 16, b % 16 * 16 + c / 4, c % 4 * 64 + d)
  }

  lemma By4(h: nat, l: nat)
    requires l < 4
    ensures (h * 4 + l) / 4 == h && (h * 4 + l) % 4 == l
  {
  }

  lemma By16(h: nat, l: nat)
    requires l < 16
    ensures (h * 16 + l) / 16 == h && (h * 16 + l) % 16 == l
  {
  }

  lemma By64(h: nat, l: nat)
    requires l < 64
    ensures (h * 64 + l) / 64 == h && (h * 64 + l) % 64 == l
  {
  }

  lemma JoinOfSplit(x: byte, y: byte, z: byte)
    ensures var s := Split(x, y, z); Join(s.0, s.1, s.2, s.3) == (x, y, z)
  {
    By16(x % 4, y / 16);
    By4(y % 16, z / 64);
  }

  lemma SplitOfJoin(a: sextet, b: sextet, c: sextet, d: sextet)
    ensures var j := Join(a, b, c, d); Split(j.0, j.1, j.2) == (a, b, c, d)
  {
    By4(a, b / 16);
    By16(b % 16, c / 4);
    By64(c % 4, d);
    assert b / 16 * 16 + b % 16 == b;
    assert c / 4 * 4 + c % 4 == c;
  }

  function Quad(s: (sextet, sextet, sextet, sextet)): (q: string)
    ensures |q| == 4
  {
    [Symbol(s.0), Symbol(s.1), Symbol(s.2), Symbol(s.3)]
  }

  /** The last one or two bytes: zero bits fill up, `=` pads. */
  function EncodeTail(d: seq<byte>): (q: string)
    requires 1 <= |d| <= 2
    ensures |q| == 4 && q[3] == '='
  {
    if |d| == 1 then Quad(Split(d[0], 0, 0))[..2] + "=="
    else Quad(Split(d[0], d[1], 0))[..3] + "="
  }

  function Encode(d: seq<byte>): (t: string)
    ensures t == "" <==> d == []
  {
    if d == [] then ""
    else if |d| <= 2 then EncodeTail(d)
    else Quad(Split(d[0], d[1], d[2])) + Encode(d[3..])
  }

  /** The sextets of four symbols, none of them padding. */
  function Sextets(q: string): Option<(sextet, sextet, sextet, sextet)>
    requires |q| == 4
  {
    match (SymbolValue(q[0]), SymbolValue(q[1]), SymbolValue(q[2]), SymbolValue(q[3]))
    case (Some(a), Some(b), Some(c), Some(d)) => Some((a, b, c, d))
    case _ => None
  }

  /** A final quad with padding; the unused bits must be zero. */
  function DecodeTail(q: string): Option<seq<byte>>
    requires |q| == 4 && q[3] == '='
  {
    var one := q[2] == '=';
    match Sextets([q[0], q[1], if one then 'A' else q[2], 'A'])
    case None => None
    case Some(s) =>
      var bytes := Join(s.0, s.1, s.2, s.3);
      if one then if bytes.1 == 0 then Some([bytes.0]) else None
      else if bytes.2 == 0 then Some([bytes.0, bytes.1]) else None
  }

  function Decode(t: string): Option<seq<byte>> {
    if t == "" then Some([])
    else if |t| < 4 then None
    else if |t| == 4 && t[3] == '=' then DecodeTail(t)
    else
      match (Sextets(t[..4]), Decode(t[4..]))
      case (Some(s), Some(rest)) =>
        var bytes := Join(s.0, s.1, s.2, s.3);
        Some([bytes.0, bytes.1, bytes.2] + rest)
      case _ => None
  }

  lemma SextetsOfQuad(s: (sextet, sextet, sextet, sextet))
    ensures Sextets(Quad(s)) == Some(s) && Quad(s)[3] != '='
  {
    SymbolOfValue(Quad(s)[3]);
  }

  lemma QuadOfSextets(q: string)
    requires |q| == 4 && Sextets(q).Some?
    ensures Quad(Sextets(q).value) == q
  {
    SymbolOfValue(q[0]);
    SymbolOfValue(q[1]);
    SymbolOfValue(q[2]);
    SymbolOfValue(q[3]);
  }

  lemma DecodeOfEncodedTail(d: seq<byte>)
    requires 1 <= |d| <= 2
    ensures DecodeTail(EncodeTail(d)) == Some(d)
  {
    var y: byte := if |d| == 1 then 0 else d[1];
    var s := Split(d[0], y, 0);
    JoinOfSplit(d[0], y, 0);
    SextetsOfQuad(s);
    SymbolOfValue(Symbol(s.2));
    assert Symbol(0) == 'A';
    if |d| == 1 {
      assert Quad(s) == [Symbol(s.0), Symbol(s.1), 'A', 'A'];
      assert d == [d[0]];
    } else {
      assert Quad(s) == [Symbol(s.0), Symbol(s.1), Symbol(s.2), 'A'];
      assert d == [d[0], d[1]];
    }
  }

  lemma DecodeOfQuad(s: (sextet, sextet, sextet, sextet), t: string, rest: seq<byte>)
    requires Decode(t) == Some(rest)
    ensures var j := Join(s.0, s.1, s.2, s.3);
            Decode(Quad(s) + t) == Some([j.0, j.1, j.2] + rest)
  {
    SextetsOfQuad(s);
    assert (Quad(s) + t)[..4] == Quad(s) && (Quad(s) + t)[4..] == t;
  }

  lemma {:induction false} DecodeOfEncode(d: seq<byte>)
    ensures Decode(Encode(d)) == Some(d)
  {
    hide Split, Join, Symbol, SymbolValue, Sextets, Quad, EncodeTail, DecodeTail;
    if 1 <= |d| <= 2 {
      DecodeOfEncodedTail(d);
    } else if d != [] {
      DecodeOfEncode(d[3..]);
      DecodeOfQuad(Split(d[0], d[1], d[2]), Encode(d[3..]), d[3..]);
      JoinOfSplit(d[0], d[1], d[2]);
      assert d == [d[0], d[1], d[2]] + d[3..];
    }
  }

  lemma EncodeOfDecodedTail(q: string)
    requires |q| == 4 && q[3] == '=' && DecodeTail(q).Some?
    ensures Encode(DecodeTail(q).value) == q
  {
    var q' := [q[0], q[1], if q[2] == '=' then 'A' else q[2], 'A'];
    var s := Sextets(q').value;
    QuadOfSextets(q');
    SplitOfJoin(s.0, s.1, s.2, s.3);
    assert s.3 == 0;
    assert q == [q[0], q[1], q[2], '='];
  }

  lemma EncodeOfJoin(s: (sextet, sextet, sextet, sextet), rest: seq<byte>)
    ensures var j := Join(s.0, s.1, s.2, s.3);
            Encode([j.0, j.1, j.2] + rest) == Quad(s) + Encode(rest)
  {
    hide Split, Join, Symbol, SymbolValue, Quad, EncodeTail;
    var j := Join(s.0, s.1, s.2, s.3);
    SplitOfJoin(s.0, s.1, s.2, s.3);
    assert ([j.0, j.1, j.2] + rest)[3..] == rest;
  }

  /** Canonical: the only text that decodes to `d` is its encoding. */
  lemma {:induction false} EncodeOfDecode(t: string)
    requires Decode(t).Some?
    ensures Encode(Decode(t).value) == t
  {
    hide Encode, Split, Join, Symbol, SymbolValue, Quad, EncodeTail, DecodeTail;
    if t != "" {
      if |t| == 4 && t[3] == '=' {
        EncodeOfDecodedTail(t);
      } else {
        var s := Sextets(t[..4]).value;
        EncodeOfDecode(t[4..]);
        QuadOfSextets(t[..4]);
        EncodeOfJoin(s, Decode(t[4..]).value);
        assert t == t[..4] + t[4..];
      }
    }
  }

  /** `t` comes in fours and ends in as many `=` as the last of `n` bytes lack. */
  ghost predicate Shaped(t: string, n: nat) {
    && |t| == (n + 2) / 3 * 4
    && (n % 3 == 0 ==> '=' !in t)
    && (n % 3 == 2 ==> t[|t| - 1] == '=' && '=' !in t[..|t| - 1])
    && (n % 3 == 1 ==> t[|t| - 2..] == "==" && '=' !in t[..|t| - 2])
  }

  lemma ShapedMore(q: string, t: string, n: nat)
    requires |q| == 4 && '=' !in q && Shaped(t, n)
    ensures Shaped(q + t, n + 3)
  {
    if n % 3 == 2 { assert (q + t)[..|q + t| - 1] == q + t[..|t| - 1]; }
    if n % 3 == 1 {
      assert (q + t)[..|q + t| - 2] == q + t[..|t| - 2];
      assert (q + t)[|q + t| - 2..] == t[|t| - 2..];
    }
  }

  lemma TailShaped(d: seq<byte>)
    requires 1 <= |d| <= 2
    ensures Shaped(EncodeTail(d), |d|)
  {
    hide Split, Symbol, Quad;
    var q := Quad(Split(d[0], if |d| == 1 then 0 else d[1], 0));
    QuadUnpadded(Split(d[0], if |d| == 1 then 0 else d[1], 0));
    if |d| == 1 {
      assert (q[..2] + "==")[2..] == "==" && (q[..2] + "==")[..2] == q[..2];
    } else {
      assert (q[..3] + "=")[..3] == q[..3];
    }
  }

  /** Encodings come in fours, one for every three bytes begun, and end in as many `=`
      as bytes are missing in the last group. */
  lemma {:induction false} EncodedShape(d: seq<byte>)
    ensures Shaped(Encode(d), |d|)
  {
    hide Split, Symbol, Quad, EncodeTail, Shaped;
    if d == [] {
      NothingShaped();
    } else if |d| <= 2 {
      TailShaped(d);
    } else {
      EncodedShape(d[3..]);
      QuadUnpadded(Split(d[0], d[1], d[2]));
      ShapedMore(Quad(Split(d[0], d[1], d[2])), Encode(d[3..]), |d[3..]|);
    }
  }

  lemma NothingShaped()
    ensures Shaped("", 0)
  {
  }

  lemma QuadUnpadded(s: (sextet, sextet, sextet, sextet))
    ensures '=' !in Quad(s)
  {
    hide Symbol;
    SymbolOfValue(Symbol(s.0));
    SymbolOfValue(Symbol(s.1));
    SymbolOfValue(Symbol(s.2));
    SymbolOfValue(Symbol(s.3));
  }
}
