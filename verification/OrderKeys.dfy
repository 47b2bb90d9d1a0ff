/** Order keys: validation, the key between two keys, and the suffixed key a view stores. */
module OrderKeys {
  import opened Wrappers
  import opened StringOrder
  import opened Base62
  import opened OrderIntegers
  import opened Fractions

  const INTEGER_ZERO := "a0"
  const DEFAULT_SUFFIX_LENGTH := 4

  function IntegerPart(key: string): string
    requires key != [] && IsHead(key[0]) && IntegerLength(key[0]) <= |key|
  {
    key[..IntegerLength(key[0])]
  }

  /** An integer part, then a fraction. */
  predicate WellFormed(key: string) {
    && key != [] && IsHead(key[0]) && IntegerLength(key[0]) <= |key|
    && AllDigits(key[1..])
    && IsFraction(Fraction(key))
  }

  function Fraction(key: string): string
    requires key != [] && IsHead(key[0]) && IntegerLength(key[0]) <= |key|
  {
    key[IntegerLength(key[0])..]
  }

  /** What validation accepts: a well-formed key that is not the bare smallest integer. */
  predicate IsOrderKey(key: string) {
    WellFormed(key) && !IsSmallestInteger(key)
  }

  type Bound = Option<string>

  /** The bounds a caller may pass: valid keys, in order, either side open. */
  predicate ValidBounds(a: Bound, b: Bound) {
    && (a.Some? ==> IsOrderKey(a.value))
    && (b.Some? ==> IsOrderKey(b.value))
    && (a.Some? && b.Some? ==> Less(a.value, b.value))
  }

  predicate Above(a: Bound, k: string) {
    a.Some? ==> Less(a.value, k)
  }

  predicate Below(k: string, b: Bound) {
    b.Some? ==> Less(k, b.value)
  }

  function Length(a: Bound): nat {
    if a.Some? then |a.value| else 0
  }

  /** The plain key strictly between `a` and `b`. */
  function KeyBetween(a: Bound, b: Bound): Result<string> {
    if !ValidBounds(a, b) then Err(ValueError)
    else if a.None? && b.None? then Ok(INTEGER_ZERO)
    else if a.None? then
      var ib, fb := IntegerPart(b.value), Fraction(b.value);
      KeyShape(b.value);
      if IsSmallestInteger(ib) then Ok(ib + Midpoint("", Some(fb)))
      else if Less(ib, b.value) then Ok(ib)
      else match Pred(ib)
        case Some(i) => Ok(i)
        case None => Err(ValueError)
    else
      var ia, fa := IntegerPart(a.value), Fraction(a.value);
      KeyShape(a.value);
      if b.None? then
        match Succ(ia)
        case Some(i) => Ok(i)
        case None => Ok(ia + Midpoint(fa, None))
      else
        var ib, fb := IntegerPart(b.value), Fraction(b.value);
        KeyShape(b.value);
        if ia == ib then
          CommonPrefix(ia, fa, fb);
          Ok(ia + Midpoint(fa, Some(fb)))
        else match Succ(ia)
          case None => Err(ValueError)
          case Some(i) => if Less(i, b.value) then Ok(i) else Ok(ia + Midpoint(fa, None))
  }

  // ---------------------------------------------------------------------------
  // Shape and order of keys
  // ---------------------------------------------------------------------------

  /** A well-formed key splits into an integer part and a fraction. */
  lemma KeyShape(key: string)
    requires WellFormed(key)
    ensures IsInteger(IntegerPart(key)) && IsFraction(Fraction(key))
    ensures key == IntegerPart(key) + Fraction(key)
    ensures IsSmallestInteger(IntegerPart(key)) && IsOrderKey(key) ==> Fraction(key) != []
  {
  }

  /** An integer part followed by a fraction is a well-formed key. */
  lemma Join(i: string, f: string)
    requires IsInteger(i) && IsFraction(f)
    ensures WellFormed(i + f) && IntegerPart(i + f) == i && Fraction(i + f) == f
  {
    assert (i + f)[1..] == i[1..] + f;
  }

  /** Keys with different integer parts compare as those do. */
  lemma IntegerPartsDecide(i: string, f: string, j: string, g: string)
    requires IsInteger(i) && IsInteger(j) && i != j
    ensures Less(i + f, j + g) <==> Less(i, j)
    ensures !(i + f <= j + g)
  {
    Total(i, j);
    if Less(i, j) {
      Apart(i, f, j, g);
    } else {
      Asymmetric(j, i);
      Apart(j, g, i, f);
      Asymmetric(j + g, i + f);
    }
  }

  lemma Apart(i: string, f: string, j: string, g: string)
    requires IsInteger(i) && IsInteger(j) && Less(i, j)
    ensures Less(i + f, j + g) && !(i + f <= j + g) && !(j + g <= i + f)
  {
    if i <= j {
      IntegersPrefixFree(i, j);
      Irreflexive(i);
    }
    ExtendBoth(i, j, f, g);
    if j + g <= i + f {
      PrefixAtMost(j + g, i + f);
      Asymmetric(i + f, j + g);
    }
  }

  lemma PrefixAtMost(p: string, s: string)
    requires p <= s
    ensures AtMost(p, s)
  {
    if p != s {
      assert s == p + s[|p|..];
      PrefixBelow(p, s[|p|..]);
    }
  }

  lemma SmallestIsInteger(x: string)
    requires IsSmallestInteger(x)
    ensures IsInteger(x) && Pred(x).None?
  {
    ZeroValue(x[1..]);
  }

  /** The smallest integer part has no fraction to end in a zero, and ends in one itself. */
  lemma SmallestEnds(x: string)
    requires IsSmallestInteger(x)
    ensures x[|x| - 1] == '0' && (WellFormed(x) ==> IntegerPart(x) == x)
  {
    assert x[1..][25] == '0';
  }

  // ---------------------------------------------------------------------------
  // The plain key
  // ---------------------------------------------------------------------------

  /** What a plain key is: between the bounds, short, and never the bare smallest integer where a bound follows. */
  predicate PlainKey(a: Bound, b: Bound, k: string) {
    && WellFormed(k) && Above(a, k) && Below(k, b)
    && |k| <= Max(Max(Length(a), Length(b)) + 1, 2)
    && (IsSmallestInteger(k) ==> a.None? && b.Some? && !(k <= b.value))
  }

  lemma PlainBelow(b: string)
    requires IsOrderKey(b)
    ensures KeyBetween(None, Some(b)).Ok? && PlainKey(None, Some(b), KeyBetween(None, Some(b)).value)
  {
    var ib, fb := IntegerPart(b), Fraction(b);
    KeyShape(b);
    if IsSmallestInteger(ib) {
      MidpointBetween("", Some(fb));
      Join(ib, Midpoint("", Some(fb)));
      CommonPrefix(ib, Midpoint("", Some(fb)), fb);
    } else if Less(ib, b) {
      Join(ib, []);
      assert ib + [] == ib;
    } else {
      assert fb == [] by {
        if fb != [] { PrefixBelow(ib, fb); }
      }
      assert b == ib;
      BareBelow(ib);
    }
  }

  lemma BareBelow(ib: string)
    requires IsInteger(ib) && !IsSmallestInteger(ib)
    ensures Pred(ib).Some? && PlainKey(None, Some(ib), Pred(ib).value)
  {
    NotSmallestHasPred(ib);
    PredStepsRank(ib);
    var i := Pred(ib).value;
    RankOrder(i, ib);
    Join(i, []);
    Asymmetric(i, ib);
    IntegerPartsDecide(i, [], ib, []);
    assert i + [] == i && ib + [] == ib;
    PredLength(ib);
  }

  lemma NotSmallestHasPred(x: string)
    requires IsInteger(x) && !IsSmallestInteger(x)
    ensures Pred(x).Some?
  {
    if Pred(x).None? {
      SubOneValue(x[1..]);
      ValueZero(x[1..]);
    }
  }

  lemma {:induction false} ValueZero(ds: string)
    requires AllDigits(ds) && Value(ds) == 0
    ensures AllZero(ds)
  {
    if ds != [] {
      var front := ds[..|ds| - 1];
      assert Value(ds) == 62 * Value(front) + Index(ds[|ds| - 1]);
      ValueZero(front);
      assert ds == front + [ds[|ds| - 1]];
    }
  }

  lemma PredLength(x: string)
    requires IsInteger(x) && Pred(x).Some?
    ensures |Pred(x).value| <= |x| + 1
  {
  }

  lemma SuccLength(x: string)
    requires IsInteger(x) && Succ(x).Some?
    ensures |Succ(x).value| <= |x| + 1
  {
  }

  /** The integer part kept, the fraction moved up: the key used when no integer fits. */
  lemma FractionUp(a: string)
    requires IsOrderKey(a)
    ensures var k := IntegerPart(a) + Midpoint(Fraction(a), None);
            WellFormed(k) && Less(a, k) && |k| <= |a| + 1 && |k| > |IntegerPart(a)|
    ensures IntegerPart(IntegerPart(a) + Midpoint(Fraction(a), None)) == IntegerPart(a)
  {
    KeyShape(a);
    var m := Midpoint(Fraction(a), None);
    MidpointBetween(Fraction(a), None);
    Join(IntegerPart(a), m);
    CommonPrefix(IntegerPart(a), Fraction(a), m);
  }

  lemma SuccAbove(a: string)
    requires IsOrderKey(a) && Succ(IntegerPart(a)).Some?
    ensures var k := Succ(IntegerPart(a)).value;
            WellFormed(k) && IsInteger(k) && Less(a, k) && |k| <= |a| + 1 && !IsSmallestInteger(k)
  {
    KeyShape(a);
    var ia := IntegerPart(a);
    var k := Succ(ia).value;
    SuccIsNext(ia, ia);
    Asymmetric(ia, k);
    IntegerPartsDecide(ia, Fraction(a), k, []);
    Join(k, []);
    assert k + [] == k;
    SuccLength(ia);
    SuccPredInverse(ia, k);
    if IsSmallestInteger(k) {
      SmallestIsInteger(k);
    }
  }

  lemma PlainAbove(a: string)
    requires IsOrderKey(a)
    ensures KeyBetween(Some(a), None).Ok? && PlainKey(Some(a), None, KeyBetween(Some(a), None).value)
  {
    KeyShape(a);
    if Succ(IntegerPart(a)).Some? {
      SuccAbove(a);
    } else {
      FractionUp(a);
      SmallestTop(a);
    }
  }

  lemma SmallestTop(a: string)
    requires IsOrderKey(a)
    ensures !IsSmallestInteger(IntegerPart(a) + Midpoint(Fraction(a), None))
  {
    FractionUp(a);
  }

  lemma PlainSameInteger(a: string, b: string)
    requires IsOrderKey(a) && IsOrderKey(b) && Less(a, b) && IntegerPart(a) == IntegerPart(b)
    ensures KeyBetween(Some(a), Some(b)).Ok? && PlainKey(Some(a), Some(b), KeyBetween(Some(a), Some(b)).value)
  {
    KeyShape(a);
    KeyShape(b);
    var i, fa, fb := IntegerPart(a), Fraction(a), Fraction(b);
    CommonPrefix(i, fa, fb);
    MidpointBetween(fa, Some(fb));
    var m := Midpoint(fa, Some(fb));
    Join(i, m);
    CommonPrefix(i, fa, m);
    CommonPrefix(i, m, fb);
    assert IntegerPart(i + m) != i + m;
  }

  /** Between keys of different integer parts there is a next integer part, or room above the fraction. */
  lemma PlainInside(a: string, b: string)
    requires IsOrderKey(a) && IsOrderKey(b) && Less(a, b) && IntegerPart(a) != IntegerPart(b)
    ensures KeyBetween(Some(a), Some(b)).Ok? && PlainKey(Some(a), Some(b), KeyBetween(Some(a), Some(b)).value)
  {
    SuccInside(a, b);
    SuccAbove(a);
    if !Less(Succ(IntegerPart(a)).value, b) {
      FractionInside(a, b);
    }
  }

  lemma SuccInside(a: string, b: string)
    requires IsOrderKey(a) && IsOrderKey(b) && Less(a, b) && IntegerPart(a) != IntegerPart(b)
    ensures IsInteger(IntegerPart(a)) && IsInteger(IntegerPart(b)) && Less(IntegerPart(a), IntegerPart(b))
    ensures Succ(IntegerPart(a)).Some?
  {
    KeyShape(a);
    KeyShape(b);
    var ia, ib := IntegerPart(a), IntegerPart(b);
    IntegerPartsDecide(ia, Fraction(a), ib, Fraction(b));
    SuccStepsRank(ia);
    if Succ(ia).None? {
      Asymmetric(ia, ib);
    }
  }

  lemma FractionInside(a: string, b: string)
    requires IsOrderKey(a) && IsOrderKey(b) && Less(a, b) && IntegerPart(a) != IntegerPart(b)
    ensures IsFraction(Fraction(a))
    ensures PlainKey(Some(a), Some(b), IntegerPart(a) + Midpoint(Fraction(a), None))
  {
    SuccInside(a, b);
    KeyShape(b);
    FractionUp(a);
    SmallestTop(a);
    IntegerPartsDecide(IntegerPart(a), Midpoint(Fraction(a), None), IntegerPart(b), Fraction(b));
  }

  /** The plain step succeeds exactly on valid bounds, and its key lies strictly between them. */
  lemma KeyBetweenCorrect(a: Bound, b: Bound)
    ensures KeyBetween(a, b).Ok? <==> ValidBounds(a, b)
    ensures KeyBetween(a, b).Ok? ==> PlainKey(a, b, KeyBetween(a, b).value)
  {
    if ValidBounds(a, b) {
      match (a, b)
      case (None, None) =>
      case (None, Some(y)) => PlainBelow(y);
      case (Some(x), None) => PlainAbove(x);
      case (Some(x), Some(y)) =>
        if IntegerPart(x) == IntegerPart(y) {
          PlainSameInteger(x, y);
        } else {
          PlainInside(x, y);
        }
    }
  }

  // ---------------------------------------------------------------------------
  // The suffixed key
  // ---------------------------------------------------------------------------

  /** A random tail: `length` digits, the last one not zero. */
  predicate IsSuffix(tail: string, length: int) {
    |tail| == length >= 1 && IsFraction(tail)
  }

  /** While the key is a prefix of the upper bound, it becomes the upper bound of another plain step. */
  function StepDown(a: Bound, b: Bound, k: string): string
    requires PlainKey(a, b, k) && (a.Some? ==> IsOrderKey(a.value))
    decreases if b.Some? && k <= b.value then |k| + 1 else 0
  {
    if b.Some? && k <= b.value then
      KeyBetweenCorrect(a, Some(k));
      var next := KeyBetween(a, Some(k)).value;
      NextStep(a, b, k, next);
      StepDown(a, b, next)
    else k
  }

  lemma NextStep(a: Bound, b: Bound, k: string, next: string)
    requires PlainKey(a, b, k) && b.Some? && k <= b.value && PlainKey(a, Some(k), next)
    ensures PlainKey(a, b, next) && |k| < |b.value|
    ensures next <= b.value ==> |next| < |k|
  {
    if k == b.value {
      Irreflexive(k);
    }
    Transitive(next, k, b.value);
    if next <= b.value && |next| >= |k| {
      assert next[..|k|] == k;
      PrefixAtMost(k, next);
      Asymmetric(next, k);
    }
  }

  /** The key the view stores: the stepped-down plain key and the drawn tail. */
  function SuffixedKey(a: Bound, b: Bound, tail: string): Result<string> {
    KeyBetweenCorrect(a, b);
    match KeyBetween(a, b)
    case Err(e) => Err(e)
    case Ok(k) => Ok(StepDown(a, b, k) + tail)
  }

  lemma {:induction false} StepDownStops(a: Bound, b: Bound, k: string)
    requires PlainKey(a, b, k) && (a.Some? ==> IsOrderKey(a.value))
    ensures PlainKey(a, b, StepDown(a, b, k))
    ensures b.Some? ==> !(StepDown(a, b, k) <= b.value)
    decreases if b.Some? && k <= b.value then |k| + 1 else 0
  {
    if b.Some? && k <= b.value {
      KeyBetweenCorrect(a, Some(k));
      var next := KeyBetween(a, Some(k)).value;
      NextStep(a, b, k, next);
      StepDownStops(a, b, next);
    }
  }

  /**
   For every pair of valid bounds and every tail, the suffixed key exists, is itself a valid
   bound, lies strictly between, and is at most one digit and the tail longer than the longer bound.
   */
  lemma SuffixedKeyBetween(a: Bound, b: Bound, tail: string)
    requires ValidBounds(a, b) && IsSuffix(tail, |tail|)
    ensures var r := SuffixedKey(a, b, tail);
            && r.Ok? && IsOrderKey(r.value) && Above(a, r.value) && Below(r.value, b)
            && |r.value| <= Max(Max(Length(a), Length(b)) + 1, 2) + |tail|
  {
    KeyBetweenCorrect(a, b);
    var k := StepDown(a, b, KeyBetween(a, b).value);
    StepDownStops(a, b, KeyBetween(a, b).value);
    TailKeepsKey(k, tail);
    if a.Some? {
      ExtendUpper(a.value, k, tail);
    }
    if b.Some? {
      ExtendBoth(k, b.value, tail, []);
      assert b.value + [] == b.value;
    }
  }

  lemma TailKeepsKey(k: string, tail: string)
    requires WellFormed(k) && IsSuffix(tail, |tail|)
    ensures IsOrderKey(k + tail)
  {
    KeyShape(k);
    Join(IntegerPart(k), Fraction(k) + tail);
    assert k + tail == IntegerPart(k) + (Fraction(k) + tail);
    if IsSmallestInteger(k + tail) {
      SmallestEnds(k + tail);
    }
  }
}
