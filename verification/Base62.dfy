/** The base62 alphabet of order keys and the value of a digit string. */
module Base62 {
  import opened StringOrder

  // The alphabet is "0".."9", "A".."Z", "a".."z", in ascending byte order.
  predicate IsDigit(c: char) {
    '0' <= c <= '9' || 'A' <= c <= 'Z' || 'a' <= c <= 'z'
  }

  predicate AllDigits(s: string) {
    forall i :: 0 <= i < |s| ==> IsDigit(s[i])
  }

  /** Position of a digit in the alphabet. */
  function Index(c: char): (d: nat)
    requires IsDigit(c)
    ensures d < 62
  {
    if c <= '9' then c as int - '0' as int
    else if c <= 'Z' then c as int - 'A' as int + 10
    else c as int - 'a' as int + 36
  }

  function DigitAt(d: nat): (c: char)
    requires d < 62
    ensures IsDigit(c) && Index(c) == d
  {
    if d < 10 then '0' + d as char
    else if d < 36 then 'A' + (d - 10) as char
    else 'a' + (d - 36) as char
  }

  function Pow62(n: nat): (p: nat)
    ensures p >= 1
  {
    if n == 0 then 1 else 62 * Pow62(n - 1)
  }

  /** The number a digit string denotes. */
  function Value(ds: string): (v: nat)
    requires AllDigits(ds)
    ensures v < Pow62(|ds|)
  {
    if ds == [] then 0
    else 62 * Value(ds[..|ds| - 1]) + Index(ds[|ds| - 1])
  }

  /** On digit strings of one length, string order is numeric order. */
  lemma {:induction false} ValueMonotone(a: string, b: string)
    requires |a| == |b| && AllDigits(a) && AllDigits(b) && Less(a, b)
    ensures Value(a) < Value(b)
  {
    var n := |a| - 1;
    assert a == a[..n] + [a[n]] && b == b[..n] + [b[n]];
    CompareLast(a[..n], b[..n], a[n], b[n]);
    if a[..n] != b[..n] {
      ValueMonotone(a[..n], b[..n]);
    } else {
      Irreflexive(a[..n]);
      assert Index(a[n]) < Index(b[n]);
    }
  }

  predicate AllZero(ds: string) {
    forall i :: 0 <= i < |ds| ==> ds[i] == '0'
  }

  function Zeros(n: nat): (s: string)
    ensures |s| == n && AllZero(s)
  {
    seq(n, _ => '0')
  }

  lemma {:induction false} ZeroValue(ds: string)
    requires AllZero(ds)
    ensures AllDigits(ds) && Value(ds) == 0 && SubOne(ds).0
    ensures ds == Zeros(|ds|)
  {
    if ds != [] {
      ZeroValue(ds[..|ds| - 1]);
    }
  }

  /** Add one, from the last digit up: whether a carry leaves, and the digits left. */
  function AddOne(ds: string): (r: (bool, string))
    requires AllDigits(ds)
    ensures |r.1| == |ds| && AllDigits(r.1)
  {
    if ds == [] then (true, [])
    else
      var n := |ds| - 1;
      if ds[n] == 'z' then
        var (carry, front) := AddOne(ds[..n]);
        (carry, front + ['0'])
      else (false, ds[..n] + [DigitAt(Index(ds[n]) + 1)])
  }

  /** Subtract one, from the last digit up: whether a borrow leaves, and the digits left. */
  function SubOne(ds: string): (r: (bool, string))
    requires AllDigits(ds)
    ensures |r.1| == |ds| && AllDigits(r.1)
  {
    if ds == [] then (true, [])
    else
      var n := |ds| - 1;
      if ds[n] == '0' then
        var (borrow, front) := SubOne(ds[..n]);
        (borrow, front + ['z'])
      else (false, ds[..n] + [DigitAt(Index(ds[n]) - 1)])
  }

  lemma {:induction false} AddOneValue(ds: string)
    requires AllDigits(ds)
    ensures var (carry, r) := AddOne(ds);
            Value(r) + (if carry then Pow62(|ds|) else 0) == Value(ds) + 1
    ensures AddOne(ds).0 ==> AllZero(AddOne(ds).1)
  {
    if ds != [] {
      var n := |ds| - 1;
      AddOneValue(ds[..n]);
      var (_, r) := AddOne(ds);
      assert r[..n] == if ds[n] == 'z' then AddOne(ds[..n]).1 else ds[..n];
    }
  }

  lemma {:induction false} SubOneValue(ds: string)
    requires AllDigits(ds)
    ensures var (borrow, r) := SubOne(ds);
            Value(r) == Value(ds) - 1 + (if borrow then Pow62(|ds|) else 0)
    ensures SubOne(ds).0 ==> Value(ds) == 0
  {
    if ds != [] {
      var n := |ds| - 1;
      SubOneValue(ds[..n]);
      var (_, r) := SubOne(ds);
      assert r[..n] == if ds[n] == '0' then SubOne(ds[..n]).1 else ds[..n];
    }
  }
}
