/**
 The sort key of a filter: the compact JSON of its dictionary, keys sorted, non-ASCII escaped.
 Different filters have different sort keys.
 */
module FilterJson {
  import opened Wrappers
  import opened Segments
  import opened Decimals
  import opened Filters

  function HexDigit(n: nat): char
    requires n < 16
  {
    if n < 10 then '0' + n as char else 'a' + (n - 10) as char
  }

  function Hex4(n: nat): (h: string)
    requires n < 65536
    ensures |h| == 4
  {
    [HexDigit(n / 16 / 16 / 16), HexDigit(n / 16 / 16 % 16), HexDigit(n / 16 % 16), HexDigit(n % 16)]
  }

  predicate IsPlain(c: char) {
    ' ' <= c <= '~' && c != '"' && c != '\\'
  }

  function ShortEscape(c: char): Option<char> {
    if c == '"' then Some('"')
    else if c == '\\' then Some('\\')
    else if c == '\n' then Some('n')
    else if c == '\r' then Some('r')
    else if c == '\t' then Some('t')
    else if c as int == 12 then Some('f')
    else if c as int == 8 then Some('b')
    else None
  }

  /** One character inside a JSON string; a character beyond the first plane is a surrogate pair. */
  function Escape(c: char): (e: string)
    ensures e != [] && e[0] != '"'
  {
    var n := c as int;
    if IsPlain(c) then [c]
    else if ShortEscape(c).Some? then ['\\', ShortEscape(c).value]
    else if n < 0x10000 then ['\\', 'u'] + Hex4(n)
    else ['\\', 'u'] + Hex4(0xD800 + (n - 0x10000) / 1024) + ['\\', 'u'] + Hex4(0xDC00 + (n - 0x10000) % 1024)
  }

  /** The rest of a JSON string, closing quote included. */
  function Quoted(t: string): (q: string)
    ensures q != []
  {
    if t == [] then "\"" else Escape(t[0]) + Quoted(t[1..])
  }

  function SegText(v: Segment): string {
    match v
    case Int(n) => IntText(n)
    case Str(t) => "\"" + Quoted(t)
  }

  /** The rest of a JSON list of segments, closing bracket included. */
  function KeyText(key: Key, first: bool): (s: string)
    ensures s != []
  {
    if key == [] then "]"
    else (if first then "" else ",") + (SegText(key[0]) + KeyText(key[1..], false))
  }

  /** The entries before and after the one that varies; entries come in the order of their names. */
  function Opening(f: Filter): string {
    match f
    case Prefix(_) => "{\"prefix\":["
    case Suffix(_) => "{\"suffix\":["
    case Length(_) => "{\"length\":"
    case Wildcard(_) => "{\"pattern\":["
    case And(_) => "{\"filters\":["
    case Or(_) => "{\"filters\":["
    case PassAll => "{\"type\":\"pass_all"
    case PassNone => "{\"type\":\"pass_none"
  }

  function Ending(f: Filter): string {
    match f
    case Prefix(_) => ",\"type\":\"prefix\"}"
    case Suffix(_) => ",\"type\":\"suffix\"}"
    case Length(_) => ",\"type\":\"length\"}"
    case Wildcard(_) => ",\"type\":\"wildcard\"}"
    case And(_) => ",\"type\":\"and\"}"
    case Or(_) => ",\"type\":\"or\"}"
    case _ => "\"}"
  }

  function Body(f: Filter): string
    decreases f, 2, 0
  {
    match f
    case Prefix(prefix) => KeyText(prefix, true)
    case Suffix(suffix) => KeyText(suffix, true)
    case Length(length) => IntText(length)
    case Wildcard(pattern) => KeyText(pattern, true)
    case And(_) => FilterText(f, 0)
    case Or(_) => FilterText(f, 0)
    case _ => ""
  }

  function SortKey(f: Filter): string
    decreases f, 3, 0
  {
    Opening(f) + (Body(f) + Ending(f))
  }

  /** The rest of a JSON list of filters from the `i`-th on, closing bracket included. */
  function FilterText(f: Filter, i: nat): (s: string)
    requires (f.And? || f.Or?) && i <= |f.filters|
    ensures s != []
    decreases f, 1, |f.filters| - i
  {
    if i == |f.filters| then "]"
    else (if i == 0 then "" else ",") + (SortKey(f.filters[i]) + FilterText(f, i + 1))
  }

  // ---------------------------------------------------------------------------
  // Reading a sort key back
  // ---------------------------------------------------------------------------

  lemma Hex4Tells(m: nat, n: nat)
    requires m < 65536 && n < 65536 && Hex4(m) == Hex4(n)
    ensures m == n
  {
    var u, v := Hex4(m), Hex4(n);
    assert u[0] == v[0] && u[1] == v[1] && u[2] == v[2] && u[3] == v[3];
    DigitTells(m / 16 / 16 / 16, n / 16 / 16 / 16);
    DigitTells(m / 16 / 16 % 16, n / 16 / 16 % 16);
    DigitTells(m / 16 % 16, n / 16 % 16);
    DigitTells(m % 16, n % 16);
  }

  lemma DigitTells(m: nat, n: nat)
    requires m < 16 && n < 16 && HexDigit(m) == HexDigit(n)
    ensures m == n
  {
  }

  /** The hexadecimal of a first half of a surrogate pair is told from that of any character. */
  predicate PairLead(h: string) {
    |h| == 4 && h[0] == 'd' && (h[1] == '8' || h[1] == '9' || h[1] == 'a' || h[1] == 'b')
  }

  lemma PairLeadRange(n: nat)
    requires n < 65536
    ensures PairLead(Hex4(n)) <==> 0xD800 <= n < 0xDC00
  {
  }

  /** The first characters of an escape tell how long it is. */
  function EscapeLength(e: string): nat {
    if e == [] || e[0] != '\\' then 1
    else if |e| < 2 || e[1] != 'u' then 2
    else if |e| >= 6 && PairLead(e[2..6]) then 12
    else 6
  }

  lemma EscapeLengthIs(c: char, s: string)
    ensures |Escape(c)| == EscapeLength(Escape(c) + s)
  {
    var n := c as int;
    if !IsPlain(c) && ShortEscape(c).None? {
      var m := if n < 0x10000 then n else 0xD800 + (n - 0x10000) / 1024;
      PairLeadRange(m);
      assert (Escape(c) + s)[2..6] == Hex4(m);
    }
  }

  predicate IsWide(c: char) {
    !IsPlain(c) && ShortEscape(c).None?
  }

  lemma WideTells(c: char, d: char)
    requires IsWide(c) && IsWide(d) && Escape(c) == Escape(d)
    ensures c == d
  {
    hide HexDigit;
    var u, m, n := Escape(c), c as int, d as int;
    if |u| == 6 {
      assert Hex4(m) == u[2..] && Hex4(n) == Escape(d)[2..];
      Hex4Tells(m, n);
    } else {
      var x, y := m - 0x10000, n - 0x10000;
      WidePair(c);
      WidePair(d);
      Hex4Tells(0xD800 + x / 1024, 0xD800 + y / 1024);
      Hex4Tells(0xDC00 + x % 1024, 0xDC00 + y % 1024);
    }
  }

  lemma WidePair(c: char)
    requires IsWide(c) && c as int >= 0x10000
    ensures var n, e := c as int - 0x10000, Escape(c);
            |e| == 12 && e[2..6] == Hex4(0xD800 + n / 1024) && e[8..] == Hex4(0xDC00 + n % 1024)
  {
    hide Hex4;
  }

  lemma EscapeTells(c: char, d: char)
    requires Escape(c) == Escape(d)
    ensures c == d
  {
    var u, v := Escape(c), Escape(d);
    assert u[0] == v[0] && u[|u| - 1] == v[|u| - 1];
    if IsWide(c) {
      hide Hex4;
      assert u[1] == 'u' && v[1] == 'u';
      WideTells(c, d);
    } else if !IsPlain(c) {
      assert u[1] == v[1];
      assert ShortEscape(c).value != 'u';
    }
  }

  lemma EscapeSplits(c: char, s: string, d: char, t: string)
    requires Escape(c) + s == Escape(d) + t
    ensures c == d && s == t
  {
    hide Escape, EscapeLength;
    EscapeLengthIs(c, s);
    EscapeLengthIs(d, t);
    SameLengthSplit(Escape(c), s, Escape(d), t);
    EscapeTells(c, d);
  }

  lemma {:induction false} QuotedSplits(a: string, s: string, b: string, t: string)
    requires Quoted(a) + s == Quoted(b) + t
    ensures a == b && s == t
  {
    hide Escape;
    QuotedStarts(a, s);
    QuotedStarts(b, t);
    if a == [] {
      assert (Quoted(a) + s)[1..] == s && (Quoted(b) + t)[1..] == t;
    } else {
      EscapeSplits(a[0], Quoted(a[1..]) + s, b[0], Quoted(b[1..]) + t);
      QuotedSplits(a[1..], s, b[1..], t);
      assert a == [a[0]] + a[1..] && b == [b[0]] + b[1..];
    }
  }

  lemma QuotedStarts(a: string, s: string)
    ensures (Quoted(a) + s)[0] == '"' <==> a == []
    ensures a != [] ==> Quoted(a) + s == Escape(a[0]) + (Quoted(a[1..]) + s)
  {
  }

  /** A segment is read off where a comma or a bracket follows. */
  lemma SegTextSplits(v: Segment, x: char, s: string, w: Segment, y: char, t: string)
    requires !IsDecimal(x) && !IsDecimal(y) && SegText(v) + [x] + s == SegText(w) + [y] + t
    ensures v == w && [x] + s == [y] + t
  {
    hide Quoted, IntText;
    SegTextStarts(v, [x] + s);
    SegTextStarts(w, [y] + t);
    assert SegText(v) + [x] + s == SegText(v) + ([x] + s) && SegText(w) + [y] + t == SegText(w) + ([y] + t);
    if v.Int? {
      IntSplits(v.number, x, s, w.number, y, t);
    } else {
      QuotedSplits(v.text, [x] + s, w.text, [y] + t);
    }
  }

  lemma SegTextStarts(v: Segment, s: string)
    ensures |SegText(v)| > 0 && (SegText(v) + s)[0] != ']'
    ensures (SegText(v) + s)[0] == '"' <==> v.Str?
    ensures v.Str? ==> (SegText(v) + s)[1..] == Quoted(v.text) + s
  {
    if v.Int? {
      IntStarts(v.number);
    }
  }

  lemma IntStarts(n: int)
    ensures IntText(n)[0] == '-' || IsDecimal(IntText(n)[0])
  {
  }

  lemma KeyTextStarts(key: Key, first: bool, s: string)
    ensures (KeyText(key, first) + s)[0] == ']' <==> key == []
    ensures !first ==> !IsDecimal(KeyText(key, first)[0])
  {
    hide SegText;
    if key != [] && first {
      SegTextStarts(key[0], KeyText(key[1..], false) + s);
      assert KeyText(key, first) + s == SegText(key[0]) + (KeyText(key[1..], false) + s);
    }
  }

  /** The text of a non-empty list past its separator, and what follows its first segment. */
  lemma KeyTextShape(key: Key, first: bool, s: string)
    requires key != []
    ensures var rest := KeyText(key[1..], false) + s;
            && rest != [] && !IsDecimal(rest[0])
            && (KeyText(key, first) + s)[if first then 0 else 1..] == SegText(key[0]) + [rest[0]] + rest[1..]
  {
    hide SegText;
    var rest := KeyText(key[1..], false) + s;
    KeyTextStarts(key[1..], false, s);
    assert rest == [rest[0]] + rest[1..];
    var all := KeyText(key, first) + s;
    assert all == (if first then "" else ",") + (SegText(key[0]) + rest);
    assert all[if first then 0 else 1..] == SegText(key[0]) + rest;
  }

  lemma {:induction false} KeyTextSplits(a: Key, s: string, b: Key, t: string, first: bool)
    requires KeyText(a, first) + s == KeyText(b, first) + t
    ensures a == b && s == t
  {
    KeyTextStarts(a, first, s);
    KeyTextStarts(b, first, t);
    if a == [] {
      assert (KeyText(a, first) + s)[1..] == s && (KeyText(b, first) + t)[1..] == t;
    } else {
      KeyTextShape(a, first, s);
      KeyTextShape(b, first, t);
      hide KeyText, SegText;
      var rest, more := KeyText(a[1..], false) + s, KeyText(b[1..], false) + t;
      SegTextSplits(a[0], rest[0], rest[1..], b[0], more[0], more[1..]);
      assert rest == [rest[0]] + rest[1..] && more == [more[0]] + more[1..];
      KeyTextSplits(a[1..], s, b[1..], t, false);
      assert a == [a[0]] + a[1..] && b == [b[0]] + b[1..];
    }
  }

  // ---------------------------------------------------------------------------
  // Different filters, different sort keys
  // ---------------------------------------------------------------------------

  /** The kinds of filter, `and` and `or` not told apart. */
  function Kind(f: Filter): nat {
    match f
    case Prefix(_) => 0
    case Suffix(_) => 1
    case Length(_) => 2
    case Wildcard(_) => 3
    case And(_) => 4
    case Or(_) => 4
    case PassAll => 5
    case PassNone => 6
  }

  /** The kind shown by the third, fourth and fifteenth character. */
  function KindOf(s: string): nat
    requires |s| > 3
  {
    if s[2] == 'p' then (if s[3] == 'r' then 0 else 3)
    else if s[2] == 's' then 1
    else if s[2] == 'l' then 2
    else if s[2] == 'f' then 4
    else if |s| > 14 && s[14] == 'a' then 5 else 6
  }

  lemma OpeningShowsKind(f: Filter, s: string)
    ensures |Opening(f)| > 3 && KindOf(Opening(f) + s) == Kind(f)
  {
  }

  lemma OpeningsAgree(f: Filter, s: string, g: Filter, t: string)
    requires Opening(f) + s == Opening(g) + t
    ensures Kind(f) == Kind(g) && s == t
  {
    OpeningShowsKind(f, s);
    OpeningShowsKind(g, t);
    assert Opening(f) == Opening(g);
    hide Opening, KindOf;
    SameLengthSplit(Opening(f), s, Opening(g), t);
  }

  lemma EndingsAgree(f: Filter, s: string, g: Filter, t: string)
    requires Kind(f) == Kind(g) && Ending(f) + s == Ending(g) + t
    ensures f.And? == g.And? && s == t
  {
    if Kind(f) == 4 {
      assert (Ending(f) + s)[9] == Ending(f)[9] && (Ending(g) + t)[9] == Ending(g)[9];
    }
    assert Ending(f) == Ending(g);
    hide Ending;
    SameLengthSplit(Ending(f), s, Ending(g), t);
  }

  lemma Reassociate(p: string, q: string, r: string, s: string)
    ensures p + (q + r) + s == p + (q + (r + s))
    ensures q + r + s == q + (r + s)
  {
  }

  lemma EndingStarts(f: Filter, s: string)
    ensures Kind(f) < 5 ==> (Ending(f) + s)[0] == ','
    ensures Ending(f) != [] && Ending(f) + s == [(Ending(f) + s)[0]] + (Ending(f) + s)[1..]
  {
  }

  /** A sort key is read off any text in one way only. */
  lemma {:induction false} SortKeySplits(f: Filter, s: string, g: Filter, t: string)
    requires SortKey(f) + s == SortKey(g) + t
    ensures f == g && s == t
    decreases f, 2, 0
  {
    Reassociate(Opening(f), Body(f), Ending(f), s);
    Reassociate(Opening(g), Body(g), Ending(g), t);
    var x, y := Ending(f) + s, Ending(g) + t;
    OpeningsAgree(f, Body(f) + x, g, Body(g) + y);
    hide Opening, Ending;
    if f.And? || f.Or? {
      FilterTextSplits(f, 0, x, g, y);
      EndingsAgree(f, s, g, t);
      assert f.filters[0..] == f.filters && g.filters[0..] == g.filters;
    } else {
      hide SortKey, FilterText, KeyText, IntText;
      LeafBodySplits(f, x, g, y, s, t);
      EndingsAgree(f, s, g, t);
    }
  }

  lemma LeafBodySplits(f: Filter, x: string, g: Filter, y: string, s: string, t: string)
    requires Kind(f) == Kind(g) != 4 && Body(f) + x == Body(g) + y && x == Ending(f) + s && y == Ending(g) + t
    ensures f == g && x == y
  {
    hide SortKey, FilterText, KeyText, IntText;
    match f
    case Prefix(prefix) => KeyTextSplits(prefix, x, g.prefix, y, true);
    case Suffix(suffix) => KeyTextSplits(suffix, x, g.suffix, y, true);
    case Wildcard(pattern) => KeyTextSplits(pattern, x, g.pattern, y, true);
    case Length(length) =>
      EndingStarts(f, s);
      EndingStarts(g, t);
      Reassociate([], IntText(length), [','], x[1..]);
      Reassociate([], IntText(g.length), [','], y[1..]);
      IntSplits(length, ',', x[1..], g.length, ',', y[1..]);
    case PassAll => assert "" + x == x && "" + y == y;
    case PassNone => assert "" + x == x && "" + y == y;
  }

  lemma SortKeyStarts(f: Filter, s: string)
    ensures |SortKey(f)| > 0 && (SortKey(f) + s)[0] == '{'
  {
    hide Body, Ending;
    assert Opening(f)[0] == '{';
  }

  lemma FilterTextMore(f: Filter, i: nat, x: string)
    requires (f.And? || f.Or?) && i < |f.filters|
    ensures FilterText(f, i) + x == (if i == 0 then "" else ",") + (SortKey(f.filters[i]) + (FilterText(f, i + 1) + x))
  {
    var k, rest := SortKey(f.filters[i]), FilterText(f, i + 1);
    hide SortKey;
    Reassociate(if i == 0 then "" else ",", k, rest, x);
  }

  lemma FilterTextStarts(f: Filter, i: nat, x: string)
    requires (f.And? || f.Or?) && i <= |f.filters|
    ensures (FilterText(f, i) + x)[0] == ']' <==> i == |f.filters|
  {
    if i < |f.filters| {
      FilterTextMore(f, i, x);
      hide FilterText, SortKey;
      SortKeyStarts(f.filters[i], FilterText(f, i + 1) + x);
    }
  }

  lemma FilterTextEnds(f: Filter, x: string)
    requires f.And? || f.Or?
    ensures FilterText(f, |f.filters|) + x == "]" + x
  {
  }

  lemma {:induction false} FilterTextSplits(f: Filter, i: nat, x: string, g: Filter, y: string)
    requires (f.And? || f.Or?) && (g.And? || g.Or?) && i <= |f.filters| && i <= |g.filters|
    requires FilterText(f, i) + x == FilterText(g, i) + y
    ensures f.filters[i..] == g.filters[i..] && x == y
    decreases f, 1, |f.filters| - i
  {
    hide FilterText, SortKey;
    FilterTextStarts(f, i, x);
    FilterTextStarts(g, i, y);
    if i == |f.filters| {
      FilterTextEnds(f, x);
      FilterTextEnds(g, y);
      SameLengthSplit("]", x, "]", y);
    } else {
      FilterTextMore(f, i, x);
      FilterTextMore(g, i, y);
      var sep := if i == 0 then "" else ",";
      var p, q := FilterText(f, i + 1) + x, FilterText(g, i + 1) + y;
      SameLengthSplit(sep, SortKey(f.filters[i]) + p, sep, SortKey(g.filters[i]) + q);
      SortKeySplits(f.filters[i], p, g.filters[i], q);
      FilterTextSplits(f, i + 1, x, g, y);
      assert f.filters[i..] == [f.filters[i]] + f.filters[i + 1..]
          && g.filters[i..] == [g.filters[i]] + g.filters[i + 1..];
    }
  }

  /** Different filters sort apart. */
  lemma SortKeyInjective(f: Filter, g: Filter)
    requires SortKey(f) == SortKey(g)
    ensures f == g
  {
    assert SortKey(f) + [] == SortKey(f) && SortKey(g) + [] == SortKey(g);
    SortKeySplits(f, [], g, []);
  }
}
