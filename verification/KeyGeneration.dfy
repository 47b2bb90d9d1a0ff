/** Generation of suffixed keys, one at a time and in runs, for every draw of the random tails. */
module KeyGeneration {
  import opened Wrappers
  import opened StringOrder
  import opened Base62
  import opened OrderIntegers
  import opened Fractions
  import opened OrderKeys

  /** A fresh key for the gap: a valid bound itself, strictly between the given ones. */
  predicate Fits(a: Bound, b: Bound, k: string) {
    IsOrderKey(k) && Above(a, k) && Below(k, b)
  }

  predicate AllFit(a: Bound, b: Bound, keys: seq<string>) {
    forall i :: 0 <= i < |keys| ==> Fits(a, b, keys[i])
  }

  predicate NoLongerThan(keys: seq<string>, n: int) {
    forall i :: 0 <= i < |keys| ==> |keys[i]| <= n
  }

  /** How many halvings reach zero: the number of bits of `n`. */
  function BitLength(n: nat): nat {
    if n == 0 then 0 else 1 + BitLength(n / 2)
  }

  lemma {:induction false} BitLengthMonotone(m: nat, n: nat)
    requires m <= n
    ensures BitLength(m) <= BitLength(n)
  {
    if m != 0 {
      BitLengthMonotone(m / 2, n / 2);
    }
  }

  /** Every draw: any digits, then any digit but zero. */
  method RandomSuffix(length: int) returns (r: Result<string>)
    ensures length < 1 ==> r == Err(ValueError)
    ensures length >= 1 ==> r.Ok? && IsSuffix(r.value, length)
  {
    if length < 1 {
      return Err(ValueError);
    }
    var body := "";
    for i := 0 to length - 1
      invariant |body| == i && AllDigits(body)
    {
      var d: nat :| d < 62;
      body := body + [DigitAt(d)];
    }
    var d: nat :| 1 <= d < 62;
    assert DigitAt(d) != '0';
    return Ok(body + [DigitAt(d)]);
  }

  /** A key that ends in a whole drawn tail, behind a plain key. */
  predicate Tailed(key: string, length: int) {
    && 1 <= length <= |key| && IsSuffix(key[|key| - length..], length)
    && WellFormed(key[..|key| - length])
  }

  predicate AllTailed(keys: seq<string>, length: int) {
    forall i :: 0 <= i < |keys| ==> Tailed(keys[i], length)
  }

  /** The plain key in front of the tail lies in the gap itself and is no prefix of the upper bound. */
  predicate PlainInGap(a: Bound, b: Bound, plain: string) {
    Above(a, plain) && Below(plain, b) && (b.Some? ==> !(plain <= b.value))
  }

  lemma TailApart(a: Bound, b: Bound, k: string, tail: string, length: int)
    requires PlainKey(a, b, k) && IsSuffix(tail, length) && (b.Some? ==> !(k <= b.value))
    ensures Tailed(k + tail, length) && PlainInGap(a, b, (k + tail)[..|k + tail| - length])
  {
    assert (k + tail)[|k + tail| - length..] == tail && (k + tail)[..|k + tail| - length] == k;
  }

  /** One suffixed key: it is the stepped-down plain key and some tail. */
  method GenerateSuffixedKeyBetween(a: Bound, b: Bound, suffixLength: int) returns (r: Result<string>)
    ensures r.Ok? <==> ValidBounds(a, b) && suffixLength >= 1
    ensures r.Ok? ==> exists tail :: IsSuffix(tail, suffixLength) && r == SuffixedKey(a, b, tail)
    ensures r.Ok? ==> Fits(a, b, r.value)
    ensures r.Ok? ==> Tailed(r.value, suffixLength) && PlainInGap(a, b, r.value[..|r.value| - suffixLength])
    ensures r.Ok? ==> |r.value| <= Max(Max(Length(a), Length(b)) + 1, 2) + suffixLength
  {
    KeyBetweenCorrect(a, b);
    var plain := KeyBetween(a, b);
    if plain.Err? {
      return Err(plain.error);
    }
    var k := plain.value;
    while b.Some? && k <= b.value
      invariant PlainKey(a, b, k) && StepDown(a, b, k) == StepDown(a, b, plain.value)
      decreases if b.Some? && k <= b.value then |k| + 1 else 0
    {
      KeyBetweenCorrect(a, Some(k));
      var step := KeyBetween(a, Some(k));
      NextStep(a, b, k, step.value);
      k := step.value;
    }
    var tail := RandomSuffix(suffixLength);
    if tail.Err? {
      return Err(tail.error);
    }
    SuffixedKeyBetween(a, b, tail.value);
    TailApart(a, b, k, tail.value, suffixLength);
    return Ok(k + tail.value);
  }

  /** A key that fits above all of an ascending run extends it. */
  lemma ExtendRun(keys: seq<string>, k: string)
    requires keys != [] && Ascending(keys) && Less(keys[|keys| - 1], k)
    ensures Ascending(keys + [k])
  {
    forall i | 0 <= i < |keys| ensures Less(keys[i], k) {
      if i < |keys| - 1 {
        Transitive(keys[i], keys[|keys| - 1], k);
      }
    }
  }

  /** Two runs on the two sides of a key make one run. */
  lemma JoinRuns(a: Bound, b: Bound, left: seq<string>, c: string, right: seq<string>)
    requires Fits(a, b, c)
    requires Ascending(left) && AllFit(a, Some(c), left)
    requires Ascending(right) && AllFit(Some(c), b, right)
    ensures Ascending(left + [c] + right) && AllFit(a, b, left + [c] + right)
  {
    var keys := left + [c] + right;
    forall i, j | 0 <= i < j < |keys| ensures Less(keys[i], keys[j]) {
      if i < |left| && j > |left| {
        Transitive(keys[i], c, keys[j]);
      }
    }
    forall i | 0 <= i < |keys| ensures Fits(a, b, keys[i]) {
      if i < |left| && b.Some? {
        Transitive(keys[i], c, b.value);
      } else if i > |left| && a.Some? {
        Transitive(a.value, c, keys[i]);
      }
    }
  }

  function Reversed(s: seq<string>): (r: seq<string>)
    ensures |r| == |s| && forall i :: 0 <= i < |s| ==> r[i] == s[|s| - 1 - i]
  {
    seq(|s|, i requires 0 <= i < |s| => s[|s| - 1 - i])
  }

  /** An append run: each key steps to the next integer part while one is left. */
  predicate StepsUp(keys: seq<string>) {
    forall i :: 0 < i < |keys| ==> NextIntegerOf(keys[i - 1], keys[i])
  }

  predicate NextIntegerOf(k: string, next: string) {
    && WellFormed(k) && WellFormed(next)
    && (Succ(IntegerPart(k)).Some? ==> IntegerPart(next) == Succ(IntegerPart(k)).value)
  }

  /** A prepend run: each key steps to the previous integer part while one is left. */
  predicate StepsDown(keys: seq<string>) {
    forall i :: 0 < i < |keys| ==> PreviousIntegerOf(keys[i], keys[i - 1])
  }

  predicate PreviousIntegerOf(k: string, previous: string) {
    && WellFormed(k) && WellFormed(previous)
    && (Pred(IntegerPart(k)).Some? ==> IntegerPart(previous) == Pred(IntegerPart(k)).value)
  }

  lemma TailIsFraction(key: string, length: int)
    requires IsOrderKey(key) && Tailed(key, length)
    ensures Fraction(key) != []
  {
    assert key[0] == key[..|key| - length][0];
  }

  /** Below a key with a fraction the plain step comes to the previous integer part. */
  lemma PrependStep(b: string, tail: string)
    requires IsOrderKey(b) && Fraction(b) != [] && IsSuffix(tail, |tail|) && SuffixedKey(None, Some(b), tail).Ok?
    ensures PreviousIntegerOf(b, SuffixedKey(None, Some(b), tail).value)
  {
    KeyBetweenCorrect(None, Some(b));
    SuffixedKeyBetween(None, Some(b), tail);
    KeyShape(b);
    var ib := IntegerPart(b);
    if Pred(ib).Some? {
      if IsSmallestInteger(ib) {
        SmallestIsInteger(ib);
      }
      PrefixBelow(ib, Fraction(b));
      var i := Pred(ib).value;
      BareBelow(ib);
      PredStepsRank(ib);
      RankOrder(i, ib);
      assert KeyBetween(None, Some(b)) == Ok(ib) && ib <= b;
      Join(ib, []);
      assert ib + [] == ib;
      Irreflexive(ib);
      assert KeyBetween(None, Some(ib)) == Ok(i);
      Apart(i, [], ib, Fraction(b));
      assert i + [] == i;
      assert StepDown(None, Some(b), ib) == i;
      Join(i, tail);
    }
  }

  lemma AppendStep(k: string, tail: string)
    requires IsOrderKey(k) && IsSuffix(tail, |tail|) && SuffixedKey(Some(k), None, tail).Ok?
    ensures NextIntegerOf(k, SuffixedKey(Some(k), None, tail).value)
  {
    KeyBetweenCorrect(Some(k), None);
    SuffixedKeyBetween(Some(k), None, tail);
    KeyShape(k);
    if Succ(IntegerPart(k)).Some? {
      SuccAbove(k);
      Join(Succ(IntegerPart(k)).value, tail);
    }
  }

  /**
   `n` suffixed keys in one gap: exactly `n`, strictly ascending, valid, strictly inside the
   bounds, each with a whole tail. In a bounded gap their length grows with the bits of `n`; an
   append or prepend run steps through the integer parts.
   */
  predicate IsRun(a: Bound, b: Bound, n: nat, suffixLength: int, keys: seq<string>) {
    && |keys| == n && Ascending(keys) && AllFit(a, b, keys)
    && (a.Some? && b.Some? ==>
          NoLongerThan(keys, Max(Length(a), Length(b)) + (1 + suffixLength) * BitLength(n)))
    && (b.None? ==> StepsUp(keys))
    && (a.None? && b.Some? ==> StepsDown(keys))
    && AllTailed(keys, suffixLength)
  }

  /** A run of keys for every draw of every tail. */
  method GenerateNSuffixedKeysBetween(a: Bound, b: Bound, n: int, suffixLength: int)
    returns (r: Result<seq<string>>)
    ensures n <= 0 ==> r == Ok([])
    ensures n > 0 ==> (r.Ok? <==> ValidBounds(a, b) && suffixLength >= 1)
    ensures r.Ok? && n > 0 ==> IsRun(a, b, n, suffixLength, r.value)
    decreases if n < 0 then 0 else n
  {
    hide *;
    if n <= 0 {
      return Ok([]);
    }
    if n == 1 {
      var one := GenerateSuffixedKeyBetween(a, b, suffixLength);
      if one.Err? {
        return Err(one.error);
      }
      SingleRun(a, b, suffixLength, one.value);
      return Ok([one.value]);
    }
    if b.None? {
      r := AppendChain(a, n, suffixLength);
      OpenRun(a, b, n, suffixLength, if r.Ok? then r.value else []);
      return;
    }
    if a.None? {
      r := PrependChain(b, n, suffixLength);
      OpenRun(a, b, n, suffixLength, if r.Ok? then r.value else []);
      return;
    }
    var mid := n / 2;
    var c := GenerateSuffixedKeyBetween(a, b, suffixLength);
    if c.Err? {
      return Err(c.error);
    }
    FitBounds(a, b, c.value);
    var left := GenerateNSuffixedKeysBetween(a, Some(c.value), mid, suffixLength);
    var right := GenerateNSuffixedKeysBetween(Some(c.value), b, n - mid - 1, suffixLength);
    SplitRun(a, b, n, suffixLength, left.value, c.value, right.value);
    return Ok(left.value + [c.value] + right.value);
  }

  /** A key that fits a gap bounds the gaps on its two sides. */
  lemma FitBounds(a: Bound, b: Bound, c: string)
    requires ValidBounds(a, b) && Fits(a, b, c)
    ensures ValidBounds(a, Some(c)) && ValidBounds(Some(c), b)
    ensures Length(a) >= 1 || a.None?
  {
  }

  lemma SingleRun(a: Bound, b: Bound, suffixLength: int, k: string)
    requires Fits(a, b, k) && |k| <= Max(Max(Length(a), Length(b)) + 1, 2) + suffixLength && suffixLength >= 1
    requires ValidBounds(a, b) && Tailed(k, suffixLength)
    ensures IsRun(a, b, 1, suffixLength, [k])
  {
    assert BitLength(1) == 1;
    assert a.Some? ==> |a.value| >= 1;
    hide WellFormed, Tailed, Less, BitLength;
  }

  lemma OpenRun(a: Bound, b: Bound, n: nat, suffixLength: int, keys: seq<string>)
    ensures b.None? && |keys| == n && UpRun(a, keys) && AllTailed(keys, suffixLength) ==>
              IsRun(a, b, n, suffixLength, keys)
    ensures b.Some? && a.None? && |keys| == n && Ascending(keys) && AllFit(a, b, keys) && StepsDown(keys)
            && AllTailed(keys, suffixLength) ==>
              IsRun(a, b, n, suffixLength, keys)
  {
  }

  /** Runs of half the length on the two sides of a middle key make a run of the whole length. */
  lemma SplitRun(a: Bound, b: Bound, n: int, suffixLength: int, left: seq<string>, c: string, right: seq<string>)
    requires a.Some? && b.Some? && n > 1 && suffixLength >= 1 && Length(a) >= 1
    requires Fits(a, b, c) && |c| <= Max(Max(Length(a), Length(b)) + 1, 2) + suffixLength && Tailed(c, suffixLength)
    requires IsRun(a, Some(c), n / 2, suffixLength, left)
    requires if n == 2 then right == [] else IsRun(Some(c), b, n - n / 2 - 1, suffixLength, right)
    ensures IsRun(a, b, n, suffixLength, left + [c] + right)
  {
    hide WellFormed, Less, NoLongerThan, Tailed;
    JoinRuns(a, b, left, c, right);
    SplitLength(a, b, n, suffixLength, left, c, right);
    JoinedTails(left, c, right, suffixLength);
  }

  lemma SplitLength(a: Bound, b: Bound, n: int, suffixLength: int, left: seq<string>, c: string, right: seq<string>)
    requires a.Some? && b.Some? && n > 1 && suffixLength >= 1 && Length(a) >= 1
    requires |c| <= Max(Max(Length(a), Length(b)) + 1, 2) + suffixLength
    requires IsRun(a, Some(c), n / 2, suffixLength, left)
    requires if n == 2 then right == [] else IsRun(Some(c), b, n - n / 2 - 1, suffixLength, right)
    ensures NoLongerThan(left + [c] + right, Max(Length(a), Length(b)) + (1 + suffixLength) * BitLength(n))
  {
    hide WellFormed, Less, Ascending, AllFit, AllTailed, StepsUp, StepsDown;
    var m, grow := Max(Length(a), Length(b)), 1 + suffixLength;
    BitLengthMonotone(n - n / 2 - 1, n / 2);
    Product(grow, BitLength(n - n / 2 - 1), BitLength(n / 2));
    JoinedLength(left, c, right, m + grow * BitLength(n));
  }

  lemma JoinedTails(left: seq<string>, c: string, right: seq<string>, length: int)
    requires AllTailed(left, length) && Tailed(c, length) && AllTailed(right, length)
    ensures AllTailed(left + [c] + right, length)
  {
    hide Tailed;
  }

  lemma JoinedLength(left: seq<string>, c: string, right: seq<string>, n: int)
    requires NoLongerThan(left, n) && |c| <= n && NoLongerThan(right, n)
    ensures NoLongerThan(left + [c] + right, n)
  {
  }

  lemma Product(grow: int, x: nat, y: nat)
    requires grow >= 1 && x <= y
    ensures 0 <= grow * x <= grow * y && grow * (1 + y) == grow + grow * y
  {
  }

  predicate UpRun(a: Bound, out: seq<string>) {
    Ascending(out) && AllFit(a, None, out) && StepsUp(out)
  }

  lemma ExtendUpRun(a: Bound, out: seq<string>, k: string)
    requires out != [] && UpRun(a, out)
    requires Fits(Some(out[|out| - 1]), None, k) && NextIntegerOf(out[|out| - 1], k)
    ensures UpRun(a, out + [k])
  {
    if a.Some? {
      Transitive(a.value, out[|out| - 1], k);
    }
    ExtendRun(out, k);
  }

  method AppendChain(a: Bound, n: int, suffixLength: int) returns (r: Result<seq<string>>)
    requires n >= 2
    ensures r.Ok? <==> ValidBounds(a, None) && suffixLength >= 1
    ensures r.Ok? ==> |r.value| == n && UpRun(a, r.value) && AllTailed(r.value, suffixLength)
  {
    hide NextIntegerOf, Tailed, SuffixedKey, WellFormed, StepDown;
    var first := GenerateSuffixedKeyBetween(a, None, suffixLength);
    if first.Err? {
      return Err(first.error);
    }
    var out := [first.value];
    for i := 1 to n
      invariant |out| == i && UpRun(a, out) && AllTailed(out, suffixLength)
    {
      var last := out[i - 1];
      assert Fits(a, None, last);
      var k := GenerateSuffixedKeyBetween(Some(last), None, suffixLength);
      ghost var tail :| IsSuffix(tail, suffixLength) && k == SuffixedKey(Some(last), None, tail);
      AppendStep(last, tail);
      ExtendUpRun(a, out, k.value);
      out := out + [k.value];
    }
    return Ok(out);
  }

  /** Keys drawn one below the other, last first in collection order. */
  predicate DownRun(b: Bound, out: seq<string>, length: int) {
    && AllFit(None, b, out) && AllTailed(out, length)
    && (forall i, j :: 0 <= i < j < |out| ==> Less(out[j], out[i]))
    && (forall i :: 0 < i < |out| ==> PreviousIntegerOf(out[i - 1], out[i]))
  }

  lemma ExtendDownRun(b: Bound, out: seq<string>, k: string, length: int)
    requires out != [] && DownRun(b, out, length) && Fits(None, Some(out[|out| - 1]), k) && Tailed(k, length)
    requires PreviousIntegerOf(out[|out| - 1], k)
    ensures DownRun(b, out + [k], length)
  {
    hide Tailed, PreviousIntegerOf, IsOrderKey;
    if b.Some? {
      Transitive(k, out[|out| - 1], b.value);
    }
    forall i | 0 <= i < |out| ensures Less(k, out[i]) {
      if i < |out| - 1 {
        Transitive(k, out[|out| - 1], out[i]);
      }
    }
  }

  lemma DownRunReversed(b: Bound, out: seq<string>, length: int)
    requires DownRun(b, out, length)
    ensures Ascending(Reversed(out)) && AllFit(None, b, Reversed(out)) && StepsDown(Reversed(out))
    ensures AllTailed(Reversed(out), length)
  {
    hide Tailed, PreviousIntegerOf, IsOrderKey, Less;
    var keys := Reversed(out);
    forall i | 0 < i < |keys| ensures PreviousIntegerOf(keys[i], keys[i - 1]) {
      assert PreviousIntegerOf(out[|out| - i - 1], out[|out| - i]);
    }
  }

  method PrependChain(b: Bound, n: int, suffixLength: int) returns (r: Result<seq<string>>)
    requires n >= 2
    ensures r.Ok? <==> ValidBounds(None, b) && suffixLength >= 1
    ensures r.Ok? ==> |r.value| == n && Ascending(r.value) && AllFit(None, b, r.value) && StepsDown(r.value)
    ensures r.Ok? ==> AllTailed(r.value, suffixLength)
  {
    hide PreviousIntegerOf, Tailed, SuffixedKey, WellFormed, StepDown;
    var first := GenerateSuffixedKeyBetween(None, b, suffixLength);
    if first.Err? {
      return Err(first.error);
    }
    var out := [first.value];
    for i := 1 to n
      invariant |out| == i && DownRun(b, out, suffixLength)
    {
      var last := out[i - 1];
      assert Fits(None, b, last) && Tailed(last, suffixLength);
      var k := GenerateSuffixedKeyBetween(None, Some(last), suffixLength);
      ghost var tail :| IsSuffix(tail, suffixLength) && k == SuffixedKey(None, Some(last), tail);
      TailIsFraction(last, suffixLength);
      PrependStep(last, tail);
      ExtendDownRun(b, out, k.value, suffixLength);
      out := out + [k.value];
    }
    DownRunReversed(b, out, suffixLength);
    return Ok(Reversed(out));
  }
}
