/**
 Typed, self-delimiting encoding of key segments. A byte string is modelled as a string of
 characters below 256.
 */
module KeyEncoding {
  import opened Segments
  import opened Decimals

  /** UTF-8 of one character. */
  function Utf8Char(c: char): (u: string)
    ensures u != []
  {
    var n := c as int;
    if n < 0x80 then [c]
    else if n < 0x800 then [(0xC0 + n / 64) as char, Tail(n)]
    else if n < 0x10000 then [(0xE0 + n / 64 / 64) as char, Tail(n / 64), Tail(n)]
    else [(0xF0 + n / 64 / 64 / 64) as char, Tail(n / 64 / 64), Tail(n / 64), Tail(n)]
  }

  function Tail(n: nat): char {
    (0x80 + n % 64) as char
  }

  function Utf8(s: string): string {
    if s == [] then [] else Utf8Char(s[0]) + Utf8(s[1..])
  }

  /** `i<n>;` for an int, `s<byte length>:<bytes>` for a string. */
  function EncSeg(v: Segment): (e: string)
    ensures e != []
  {
    match v
    case Int(n) => "i" + IntText(n) + ";"
    case Str(t) => "s" + NatText(|Utf8(t)|) + ":" + Utf8(t)
  }

  function EncKey(key: Key): (segs: seq<string>)
    ensures |segs| == |key| && forall i :: 0 <= i < |key| ==> segs[i] == EncSeg(key[i])
  {
    seq(|key|, i requires 0 <= i < |key| => EncSeg(key[i]))
  }

  function Join(segs: seq<string>): string {
    if segs == [] then [] else segs[0] + Join(segs[1..])
  }

  // ---------------------------------------------------------------------------
  // Unique decoding
  // ---------------------------------------------------------------------------

  /** The first byte of a character tells how many bytes it has, and the bytes tell the character. */
  lemma Utf8CharSplits(c: char, s: string, d: char, t: string)
    requires Utf8Char(c) + s == Utf8Char(d) + t
    ensures c == d && s == t
  {
    var u, v := Utf8Char(c), Utf8Char(d);
    assert u[0] == (u + s)[0] && v[0] == (v + t)[0];
    assert |u| == |v| by {
      LeadByte(c);
      LeadByte(d);
    }
    SameLengthSplit(u, s, v, t);
    BytesTell(c, d);
  }

  lemma LeadByte(c: char)
    ensures var b := Utf8Char(c)[0] as int;
            |Utf8Char(c)| == if b < 0x80 then 1 else if b < 0xE0 then 2 else if b < 0xF0 then 3 else 4
  {
  }

  lemma TailTells(m: nat, n: nat)
    requires Tail(m) == Tail(n) && m / 64 == n / 64
    ensures m == n
  {
    assert 0x80 + m % 64 == 0x80 + n % 64;
  }

  lemma BytesTell(c: char, d: char)
    requires Utf8Char(c) == Utf8Char(d)
    ensures c == d
  {
    hide Tail;
    var m, n := c as int, d as int;
    var u, v := Utf8Char(c), Utf8Char(d);
    assert u[0] == v[0] && u[|u| - 1] == v[|u| - 1];
    if |u| == 2 {
      TailTells(m, n);
    } else if |u| == 3 {
      assert u[1] == v[1];
      TailTells(m / 64, n / 64);
      TailTells(m, n);
    } else if |u| == 4 {
      assert u[1] == v[1] && u[2] == v[2];
      TailTells(m / 64 / 64, n / 64 / 64);
      TailTells(m / 64, n / 64);
      TailTells(m, n);
    }
  }

  lemma {:induction false} Utf8Injective(a: string, b: string)
    requires Utf8(a) == Utf8(b)
    ensures a == b
  {
    if a != [] && b != [] {
      Utf8CharSplits(a[0], Utf8(a[1..]), b[0], Utf8(b[1..]));
      Utf8Injective(a[1..], b[1..]);
      assert a == [a[0]] + a[1..] && b == [b[0]] + b[1..];
    }
  }

  lemma IntSegSplits(m: int, s: string, n: int, t: string)
    requires EncSeg(Int(m)) + s == EncSeg(Int(n)) + t
    ensures m == n && s == t
  {
    hide IntText;
    var u, v := EncSeg(Int(m)) + s, EncSeg(Int(n)) + t;
    assert u[1..] == IntText(m) + [';'] + s && v[1..] == IntText(n) + [';'] + t;
    IntSplits(m, ';', s, n, ';', t);
  }

  lemma StrSegSplits(a: string, s: string, b: string, t: string)
    requires EncSeg(Str(a)) + s == EncSeg(Str(b)) + t
    ensures a == b && s == t
  {
    hide NatText, Utf8;
    var p, q := Utf8(a), Utf8(b);
    var u, v := EncSeg(Str(a)) + s, EncSeg(Str(b)) + t;
    assert u[1..] == NatText(|p|) + [':'] + (p + s) && v[1..] == NatText(|q|) + [':'] + (q + t);
    NatSplits(|p|, ':', p + s, |q|, ':', q + t);
    SameLengthSplit(p, s, q, t);
    Utf8Injective(a, b);
  }

  /** An encoded segment ends where it says: it is read off any byte string in one way only. */
  lemma EncSegSplits(a: Segment, s: string, b: Segment, t: string)
    requires EncSeg(a) + s == EncSeg(b) + t
    ensures a == b && s == t
  {
    assert (EncSeg(a) + s)[0] == EncSeg(a)[0] && (EncSeg(b) + t)[0] == EncSeg(b)[0];
    if a.Int? {
      IntSegSplits(a.number, s, b.number, t);
    } else {
      StrSegSplits(a.text, s, b.text, t);
    }
  }

  lemma EncKeyTail(key: Key)
    requires key != []
    ensures EncKey(key)[0] == EncSeg(key[0]) && EncKey(key)[1..] == EncKey(key[1..])
    ensures Join(EncKey(key)) == EncSeg(key[0]) + Join(EncKey(key[1..]))
  {
    assert EncKey(key)[1..] == EncKey(key[1..]);
  }

  lemma FirstSegments(a: Key, b: Key, s: string)
    requires a != [] && Join(EncKey(a)) + s == Join(EncKey(b))
    ensures b != [] && a[0] == b[0] && Join(EncKey(a[1..])) + s == Join(EncKey(b[1..]))
  {
    hide EncSeg;
    EncKeyTail(a);
    var rest := Join(EncKey(a[1..])) + s;
    assert Join(EncKey(a)) + s == EncSeg(a[0]) + rest;
    if b != [] {
      EncKeyTail(b);
      EncSegSplits(a[0], rest, b[0], Join(EncKey(b[1..])));
    }
  }

  /** Prefix-free: an encoded key that starts with another encoded key starts with its segments. */
  lemma {:induction false} KeysPrefixFree(a: Key, b: Key, s: string)
    requires Join(EncKey(a)) + s == Join(EncKey(b))
    ensures a <= b && s == Join(EncKey(b[|a|..]))
  {
    if a == [] {
      assert b[0..] == b && Join(EncKey(a)) + s == s;
    } else {
      FirstSegments(a, b, s);
      hide *;
      KeysPrefixFree(a[1..], b[1..], s);
      PrefixOfTails(a, b);
    }
  }

  lemma PrefixOfTails(a: Key, b: Key)
    requires a != [] && b != [] && a[0] == b[0] && a[1..] <= b[1..]
    ensures a <= b && b[|a|..] == b[1..][|a[1..]|..]
  {
    assert a == [a[0]] + a[1..] && b == [b[0]] + b[1..];
  }

  /** Unique decoding of a whole key. */
  lemma KeysInjective(a: Key, b: Key)
    requires Join(EncKey(a)) == Join(EncKey(b))
    ensures a == b
  {
    assert Join(EncKey(a)) + [] == Join(EncKey(b));
    KeysPrefixFree(a, b, []);
    if |a| < |b| {
      EncKeyTail(b[|a|..]);
    }
  }
}
