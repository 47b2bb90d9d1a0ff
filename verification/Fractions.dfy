/** The midpoint of two fraction strings. */
module Fractions {
  import opened Wrappers
  import opened StringOrder
  import opened Base62

  /** A fraction: digits, and no trailing zero. */
  predicate IsFraction(f: string) {
    AllDigits(f) && (f != [] ==> f[|f| - 1] != '0')
  }

  function Tail(a: string): string {
    if a == [] then [] else a[1..]
  }

  /** The first digit of `a`, zero past its end. */
  function FirstDigit(a: string): (d: nat)
    requires AllDigits(a)
    ensures d < 62
  {
    if a == [] then 0 else Index(a[0])
  }

  predicate Open(a: string, b: Option<string>) {
    && IsFraction(a)
    && (b.Some? ==> IsFraction(b.value) && Less(a, b.value))
  }

  /** A fraction strictly between `a` and `b`; None for `b` is no upper bound. */
  function Midpoint(a: string, b: Option<string>): string
    requires Open(a, b)
    decreases |a| + (if b.Some? then |b.value| + 1 else 0)
  {
    var digitA := FirstDigit(a);
    if b.Some? && DigitAt(digitA) == b.value[0] then
      // The common prefix, `a` padded with zeros, is kept one digit at a time.
      StripOne(a, b.value);
      [b.value[0]] + Midpoint(Tail(a), Some(b.value[1..]))
    else
      var digitB := if b.Some? then Index(b.value[0]) else 62;
      if digitB - digitA > 1 then [DigitAt((digitA + digitB + 1) / 2)]
      else if b.Some? && |b.value| > 1 then b.value[..1]
      else
        assert b.None? ==> a != [];
        assert a != [] ==> IsFraction(a[1..]);
        [DigitAt(digitA)] + Midpoint(Tail(a), None)
  }

  lemma StripOne(a: string, b: string)
    requires IsFraction(a) && IsFraction(b) && Less(a, b) && DigitAt(FirstDigit(a)) == b[0]
    ensures Open(Tail(a), Some(b[1..]))
    ensures Less(a, b) <==> a == [] || Less(a[1..], b[1..])
  {
    if a == [] {
      assert b[0] == '0';
    } else {
      assert b[0] == a[0];
    }
  }

  function Max(x: int, y: int): int {
    if x < y then y else x
  }

  predicate Between(a: string, b: Option<string>, m: string) {
    && m != [] && IsFraction(m) && Less(a, m)
    && (b.Some? ==> Less(m, b.value))
    && |m| <= Max(|a|, if b.Some? then |b.value| else 0) + 1
  }

  /** The midpoint is a fraction strictly inside the gap, at most one digit longer than the longer bound. */
  lemma {:induction false} MidpointBetween(a: string, b: Option<string>)
    requires Open(a, b)
    ensures Between(a, b, Midpoint(a, b))
    decreases |a| + (if b.Some? then |b.value| + 1 else 0)
  {
    var digitA := FirstDigit(a);
    if b.Some? && DigitAt(digitA) == b.value[0] {
      StripOne(a, b.value);
      MidpointBetween(Tail(a), Some(b.value[1..]));
      KeepDigit(a, b, b.value[0], Midpoint(Tail(a), Some(b.value[1..])));
    } else {
      var digitB := if b.Some? then Index(b.value[0]) else 62;
      assert digitA < digitB;
      if digitB - digitA <= 1 && !(b.Some? && |b.value| > 1) {
        assert a != [] ==> IsFraction(a[1..]);
        MidpointBetween(Tail(a), None);
        KeepDigit(a, b, DigitAt(digitA), Midpoint(Tail(a), None));
      }
    }
  }

  /** Where the first digits leave room between them the midpoint is the one digit halfway, rounded up. */
  lemma MidpointHalves(a: string, b: Option<string>)
    requires Open(a, b)
    ensures var digitA, digitB := FirstDigit(a), if b.Some? then Index(b.value[0]) else 62;
            digitB - digitA > 1 ==>
              var m := Midpoint(a, b);
              |m| == 1 && IsDigit(m[0]) && 0 <= (Index(m[0]) - digitA) - (digitB - Index(m[0])) <= 1
  {
  }

  /** A digit kept from `a` in front of a midpoint of what follows. */
  lemma KeepDigit(a: string, b: Option<string>, c: char, m: string)
    requires Open(a, b) && c == DigitAt(FirstDigit(a)) && (a != [] || b.Some?)
    requires b.Some? ==> c < b.value[0] || (c == b.value[0] && Less(m, b.value[1..]))
    requires m != [] && IsFraction(m) && Less(Tail(a), m)
    requires |m| <= Max(|Tail(a)|, if b.Some? then |b.value| - 1 else 0) + 1
    ensures Between(a, b, [c] + m)
  {
    assert ([c] + m)[1..] == m;
    assert a != [] ==> a[0] == c;
  }
}
