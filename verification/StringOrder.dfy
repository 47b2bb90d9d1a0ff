/**
 Byte order on strings, the order in which a storage iterates keys.
 Every character a key may hold is ASCII, so comparing characters compares bytes.
 */
module StringOrder {

  /** Strictly below, in lexicographic order. */
  predicate Less(a: string, b: string) {
    if b == [] then false
    else if a == [] then true
    else a[0] < b[0] || (a[0] == b[0] && Less(a[1..], b[1..]))
  }

  predicate AtMost(a: string, b: string) {
    a == b || Less(a, b)
  }

  predicate Ascending(keys: seq<string>) {
    forall i, j {:trigger Less(keys[i], keys[j])} :: 0 <= i < j < |keys| ==> Less(keys[i], keys[j])
  }

  lemma {:induction false} Irreflexive(a: string)
    ensures !Less(a, a)
  {
    if a != [] {
      Irreflexive(a[1..]);
    }
  }

  lemma {:induction false} Transitive(a: string, b: string, c: string)
    requires Less(a, b) && Less(b, c)
    ensures Less(a, c)
  {
    if a != [] && a[0] == b[0] && b[0] == c[0] {
      Transitive(a[1..], b[1..], c[1..]);
    }
  }

  lemma {:induction false} Total(a: string, b: string)
    ensures Less(a, b) || a == b || Less(b, a)
  {
    if a != [] && b != [] && a[0] == b[0] {
      Total(a[1..], b[1..]);
      assert a == [a[0]] + a[1..] && b == [b[0]] + b[1..];
    }
  }

  lemma Asymmetric(a: string, b: string)
    requires Less(a, b)
    ensures !Less(b, a) && a != b
  {
    Irreflexive(a);
    if Less(b, a) {
      Transitive(a, b, a);
    }
  }

  /** A common prefix does not matter. */
  lemma {:induction false} CommonPrefix(p: string, a: string, b: string)
    ensures Less(p + a, p + b) <==> Less(a, b)
  {
    if p == [] {
      assert p + a == a && p + b == b;
    } else {
      assert (p + a)[1..] == p[1..] + a && (p + b)[1..] == p[1..] + b;
      CommonPrefix(p[1..], a, b);
    }
  }

  /** A string is below each of its proper extensions. */
  lemma PrefixBelow(p: string, s: string)
    requires s != []
    ensures Less(p, p + s)
  {
    CommonPrefix(p, [], s);
    assert p + [] == p;
  }

  /** Appending to the larger string keeps it larger. */
  lemma {:induction false} ExtendUpper(a: string, b: string, s: string)
    requires Less(a, b)
    ensures Less(a, b + s)
  {
    if a != [] && a[0] == b[0] {
      assert (b + s)[1..] == b[1..] + s;
      ExtendUpper(a[1..], b[1..], s);
    }
  }

  lemma PrefixStep(a: string, b: string)
    requires a != []
    ensures a <= b <==> b != [] && a[0] == b[0] && a[1..] <= b[1..]
  {
    if b != [] && a[0] == b[0] && a[1..] <= b[1..] {
      assert a == [a[0]] + a[1..] && b == [b[0]] + b[1..];
    }
  }

  /** Once two strings differ inside both, what is appended to either does not matter. */
  lemma {:induction false} ExtendBoth(a: string, b: string, s: string, t: string)
    requires Less(a, b) && !(a <= b)
    ensures Less(a + s, b + t)
    ensures !(a + s <= b + t)
  {
    if a[0] == b[0] {
      assert a == [a[0]] + a[1..] && b == [b[0]] + b[1..];
      assert (a + s)[1..] == a[1..] + s && (b + t)[1..] == b[1..] + t;
      ExtendBoth(a[1..], b[1..], s, t);
      PrefixStep(a + s, b + t);
    } else {
      assert (a + s)[0] != (b + t)[0];
    }
  }

  /** Strings of one length compare by their fronts, then by their last characters. */
  lemma {:induction false} CompareLast(a: string, b: string, c: char, d: char)
    requires |a| == |b|
    ensures Less(a + [c], b + [d]) <==> Less(a, b) || (a == b && c < d)
  {
    if a != [] {
      assert (a + [c])[1..] == a[1..] + [c] && (b + [d])[1..] == b[1..] + [d];
      assert a == [a[0]] + a[1..] && b == [b[0]] + b[1..];
      CompareLast(a[1..], b[1..], c, d);
    }
  }
}
