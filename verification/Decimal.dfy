/** Printing and parsing unsigned decimals, as `to_string`, `parse` and the
    zero-padded formats of the source do. */
module Decimal {
  import opened Text

  const U64_MODULUS: nat := 0x1_0000_0000_0000_0000
  const U128_MODULUS: nat := U64_MODULUS * U64_MODULUS

  predicate IsDigit(c: char) { '0' <= c <= '9' }

  predicate AllDigits(s: string) {
    forall i :: 0 <= i < |s| ==> IsDigit(s[i])
  }

  function Digit(d: nat): (c: char)
    requires d < 10
    ensures IsDigit(c) && c as int - '0' as int == d
  {
    ('0' as int + d) as char
  }

  function Print(n: nat): (s: string)
    ensures s != "" && AllDigits(s)
  {
    if n < 10 then [Digit(n)] else Print(n / 10) + [Digit(n % 10)]
  }

  function Value(s: string): nat
    requires AllDigits(s)
  {
    if s == "" then 0
    else Value(s[..|s| - 1]) * 10 + (s[|s| - 1] as int - '0' as int)
  }

  /** Rust's unsigned `parse`: an optional plus sign, at least one digit, no overflow. */
  function Parse(s: string, modulus: nat): Option<nat> {
    var digits := if s != "" && s[0] == '+' then s[1..] else s;
    if digits != "" && AllDigits(digits) && Value(digits) < modulus then Some(Value(digits)) else None
  }

  lemma {:induction false} ValueOfPrint(n: nat)
    ensures Value(Print(n)) == n
  {
    if n >= 10 {
      ValueOfPrint(n / 10);
      assert Print(n)[..|Print(n)| - 1] == Print(n / 10);
    }
  }

  lemma ParseOfPrint(n: nat, modulus: nat)
    ensures Parse(Print(n), modulus) == if n < modulus then Some(n) else None
  {
    ValueOfPrint(n);
    assert IsDigit(Print(n)[0]);
  }

  /** Just the digit strings below the modulus parse, with or without a plus sign, to
      the number they are read as. */
  lemma ParseExactly(s: string, modulus: nat, n: nat)
    ensures Parse(s, modulus) == Some(n)
            <==> exists digits {:trigger AllDigits(digits)} ::
                   && AllDigits(digits) && digits != "" && (s == digits || s == "+" + digits)
                   && Value(digits) == n < modulus
  {
    var digits := if s != "" && s[0] == '+' then s[1..] else s;
    assert s != "" && s[0] == '+' ==> s == "+" + digits;
    if exists d :: AllDigits(d) && d != "" && (s == d || s == "+" + d) && Value(d) == n < modulus {
      var d :| AllDigits(d) && d != "" && (s == d || s == "+" + d) && Value(d) == n < modulus;
      assert IsDigit(d[0]);
      assert ("+" + d)[1..] == d;
    }
    if Parse(s, modulus) == Some(n) { assert AllDigits(digits); }
  }

  lemma PrintInjective(m: nat, n: nat)
    requires Print(m) == Print(n)
    ensures m == n
  {
    ValueOfPrint(m);
    ValueOfPrint(n);
  }

  // ---------------------------------------------------------------- padding

  function Power10(w: nat): (p: nat)
    ensures p > 0
  {
    if w == 0 then 1 else 10 * Power10(w - 1)
  }

  function Zeros(k: nat): (z: string)
    ensures |z| == k
  {
    seq(k, _ => '0')
  }

  /** The format `{:0w}`: left-pad with zeros up to `w`, never truncate. */
  function Padded(n: nat, w: nat): string {
    var s := Print(n);
    if |s| < w then Zeros(w - |s|) + s else s
  }

  /** The low `w` digits of `n`. */
  function Fixed(n: nat, w: nat): (s: string)
    ensures |s| == w
  {
    if w == 0 then "" else Fixed(n / 10, w - 1) + [Digit(n % 10)]
  }

  lemma {:induction false} FixedOfZero(w: nat)
    ensures Fixed(0, w) == Zeros(w)
  {
    if w > 0 {
      FixedOfZero(w - 1);
      assert Zeros(w) == Zeros(w - 1) + ['0'];
    }
  }

  lemma {:induction false} PaddedIsFixed(n: nat, w: nat)
    requires w > 0 && n < Power10(w)
    ensures Padded(n, w) == Fixed(n, w)
  {
    if n < 10 {
      FixedOfZero(w - 1);
      assert n / 10 == 0;
    } else {
      PaddedIsFixed(n / 10, w - 1);
      assert Print(n) == Print(n / 10) + [Digit(n % 10)];
      if |Print(n / 10)| < w - 1 {
        assert Zeros(w - |Print(n)|) + Print(n) == Zeros(w - |Print(n)|) + Print(n / 10) + [Digit(n % 10)];
      }
    }
  }

  lemma {:induction false} FixedOrder(a: nat, b: nat, w: nat)
    requires a < b < Power10(w)
    ensures Before(Fixed(a, w), Fixed(b, w))
  {
    if a / 10 < b / 10 {
      FixedOrder(a / 10, b / 10, w - 1);
      BeforeExtended(Fixed(a / 10, w - 1), Fixed(b / 10, w - 1), [Digit(a % 10)], [Digit(b % 10)]);
    } else {
      assert a / 10 == b / 10 && a % 10 < b % 10;
      BeforeSamePrefix(Fixed(a / 10, w - 1), [Digit(a % 10)], [Digit(b % 10)]);
    }
  }

  /** Zero-padding makes numeric order the order of the strings. */
  lemma PaddedOrder(a: nat, b: nat, w: nat)
    requires a < b < Power10(w) && w > 0
    ensures |Padded(a, w)| == |Padded(b, w)| == w
    ensures Before(Padded(a, w), Padded(b, w))
  {
    PaddedIsFixed(a, w);
    PaddedIsFixed(b, w);
    FixedOrder(a, b, w);
  }
}
