/** Byte strings and their order. A Rust `String` is modelled by its UTF-8 bytes:
    each `char` of a Dafny string stands for one byte, so comparing strings here
    is comparing bytes, as Rust does. */
module Text {

  datatype Option<+T> = None | Some(value: T)

  /** Strict lexicographic order, the one `sort` uses on strings. */
  predicate Before(s: string, t: string) {
    t != "" && (s == "" || s[0] < t[0] || (s[0] == t[0] && Before(s[1..], t[1..])))
  }

  lemma {:induction false} BeforeIrreflexive(s: string)
    ensures !Before(s, s)
  {
    if s != "" { BeforeIrreflexive(s[1..]); }
  }

  lemma {:induction false} BeforeTransitive(s: string, t: string, u: string)
    requires Before(s, t) && Before(t, u)
    ensures Before(s, u)
  {
    if s != "" && s[0] == t[0] && t[0] == u[0] { BeforeTransitive(s[1..], t[1..], u[1..]); }
  }

  lemma {:induction false} BeforeTotal(s: string, t: string)
    ensures s == t || Before(s, t) || Before(t, s)
  {
    if s != "" && t != "" && s[0] == t[0] {
      BeforeTotal(s[1..], t[1..]);
      if s[1..] == t[1..] {
        assert s == [s[0]] + s[1..] && t == [t[0]] + t[1..];
      }
    }
  }

  lemma {:induction false} BeforeSamePrefix(p: string, s: string, t: string)
    requires Before(s, t)
    ensures Before(p + s, p + t)
  {
    if p == "" {
      assert p + s == s && p + t == t;
    } else {
      BeforeSamePrefix(p[1..], s, t);
      assert (p + s)[1..] == p[1..] + s && (p + t)[1..] == p[1..] + t;
    }
  }

  lemma {:induction false} BeforeExtended(s: string, t: string, x: string, y: string)
    requires |s| == |t| && Before(s, t)
    ensures Before(s + x, t + y)
  {
    if s[0] == t[0] {
      BeforeExtended(s[1..], t[1..], x, y);
      assert (s + x)[1..] == s[1..] + x && (t + y)[1..] == t[1..] + y;
    }
  }

  /** Equal concatenations whose first parts avoid the separator agree part by part. */
  lemma FirstSeparator(a: string, b: string, sep: char, x: string, y: string)
    requires sep !in a && sep !in b
    requires a + [sep] + x == b + [sep] + y
    ensures a == b && x == y
  {
    var l, r := a + [sep] + x, b + [sep] + y;
    assert |a| <= |b| by { assert l[|b|] == r[|b|] == sep; }
    assert |b| <= |a| by { assert r[|a|] == l[|a|] == sep; }
    assert a == l[..|a|] && b == r[..|a|];
    assert x == l[|a| + 1..] && y == r[|a| + 1..];
  }
}
