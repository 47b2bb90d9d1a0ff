/** Texts inside longer strings: where a decimal numeral ends, and which number it was. */
module Decimals {

  predicate IsDecimal(c: char) {
    '0' <= c <= '9'
  }

  predicate AllDecimal(s: string) {
    forall i :: 0 <= i < |s| ==> IsDecimal(s[i])
  }

  function NatText(n: nat): (s: string)
    ensures s != [] && AllDecimal(s)
  {
    if n < 10 then ['0' + n as char] else NatText(n / 10) + ['0' + (n % 10) as char]
  }

  function IntText(n: int): (s: string)
    ensures s != []
  {
    if n < 0 then "-" + NatText(-n) else NatText(n)
  }

  function TextValue(s: string): nat
    requires AllDecimal(s)
  {
    if s == [] then 0 else 10 * TextValue(s[..|s| - 1]) + (s[|s| - 1] as int - '0' as int)
  }

  /** A numeral reads back as its number. */
  lemma {:induction false} TextReadsBack(n: nat)
    ensures TextValue(NatText(n)) == n
  {
    if n >= 10 {
      TextReadsBack(n / 10);
      assert NatText(n)[..|NatText(n)| - 1] == NatText(n / 10);
    }
  }

  /** A run of digits ends at the first character that is none. */
  lemma RunsAgree(p: string, x: char, s: string, q: string, y: char, t: string)
    requires AllDecimal(p) && AllDecimal(q) && !IsDecimal(x) && !IsDecimal(y)
    requires p + [x] + s == q + [y] + t
    ensures p == q && x == y && s == t
  {
    var u := p + [x] + s;
    assert u == q + [y] + t;
    assert u[|p|] == x && u[|q|] == y;
    assert forall i :: 0 <= i < |p| ==> u[i] == p[i];
    assert forall i :: 0 <= i < |q| ==> u[i] == q[i];
    assert |p| == |q|;
    assert p == u[..|p|] && q == u[..|q|];
    assert s == u[|p| + 1..] && t == u[|q| + 1..];
  }

  lemma SameLengthSplit(p: string, s: string, q: string, t: string)
    requires |p| == |q| && p + s == q + t
    ensures p == q && s == t
  {
    assert (p + s)[..|p|] == p && (q + t)[..|q|] == q;
    assert (p + s)[|p|..] == s && (q + t)[|q|..] == t;
  }

  /** A numeral and what follows it are read off in one way only. */
  lemma NatSplits(a: nat, x: char, s: string, b: nat, y: char, t: string)
    requires !IsDecimal(x) && !IsDecimal(y) && NatText(a) + [x] + s == NatText(b) + [y] + t
    ensures a == b && x == y && s == t
  {
    RunsAgree(NatText(a), x, s, NatText(b), y, t);
    TextReadsBack(a);
    TextReadsBack(b);
  }

  lemma SignShows(n: int)
    ensures IntText(n)[0] == '-' <==> n < 0
  {
  }

  lemma AfterSign(p: string, x: char, s: string)
    ensures ("-" + p + [x] + s)[1..] == p + [x] + s
  {
  }

  lemma IntSplits(a: int, x: char, s: string, b: int, y: char, t: string)
    requires !IsDecimal(x) && !IsDecimal(y) && IntText(a) + [x] + s == IntText(b) + [y] + t
    ensures a == b && x == y && s == t
  {
    hide NatText, AllDecimal;
    SignShows(a);
    SignShows(b);
    assert (IntText(a) + [x] + s)[0] == IntText(a)[0] && (IntText(b) + [y] + t)[0] == IntText(b)[0];
    if a < 0 {
      AfterSign(NatText(-a), x, s);
      AfterSign(NatText(-b), y, t);
      NatSplits(-a, x, s, -b, y, t);
    } else {
      NatSplits(a, x, s, b, y, t);
    }
  }
}
