/**
 Runs of plain keys, without tails. Unlike the suffixed ones they can run out: below a bound there
 are only so many plain keys before the bare smallest integer, which is no valid bound.
 */
module PlainRuns {
  import opened Wrappers
  import opened StringOrder
  import opened Base62
  import opened OrderIntegers
  import opened Fractions
  import opened OrderKeys
  import opened KeyGeneration

  /** Nearest key first, each above the one before. */
  function PlainUp(a: Bound, n: nat): Result<seq<string>>
    decreases n
  {
    if n == 0 then Ok([])
    else match KeyBetween(a, None)
      case Err(e) => Err(e)
      case Ok(k) => Prefixed([k], PlainUp(Some(k), n - 1))
  }

  /** Nearest key last, each below the one after. */
  function PlainDown(b: Bound, n: nat): Result<seq<string>>
    decreases n
  {
    if n == 0 then Ok([])
    else match KeyBetween(None, b)
      case Err(e) => Err(e)
      case Ok(k) => Suffixed(PlainDown(Some(k), n - 1), [k])
  }

  /** A middle key, and half the run on each side of it. */
  function PlainSplit(a: Bound, b: Bound, n: nat): Result<seq<string>>
    decreases n
  {
    if n == 0 then Ok([])
    else match KeyBetween(a, b)
      case Err(e) => Err(e)
      case Ok(c) =>
        match PlainSplit(a, Some(c), n / 2)
        case Err(e) => Err(e)
        case Ok(left) => Prefixed(left + [c], PlainSplit(Some(c), b, n - n / 2 - 1))
  }

  function Prefixed(out: seq<string>, r: Result<seq<string>>): Result<seq<string>> {
    if r.Ok? then Ok(out + r.value) else r
  }

  function Suffixed(r: Result<seq<string>>, out: seq<string>): Result<seq<string>> {
    if r.Ok? then Ok(r.value + out) else r
  }

  lemma PrefixedMore(out: seq<string>, k: string, r: Result<seq<string>>)
    ensures Prefixed(out, Prefixed([k], r)) == Prefixed(out + [k], r)
  {
    if r.Ok? {
      assert out + ([k] + r.value) == (out + [k]) + r.value;
    }
  }

  lemma SuffixedMore(r: Result<seq<string>>, k: string, out: seq<string>)
    ensures Suffixed(Suffixed(r, [k]), out) == Suffixed(r, [k] + out)
  {
    if r.Ok? {
      assert (r.value + [k]) + out == r.value + ([k] + out);
    }
  }

  function NKeys(a: Bound, b: Bound, n: nat): Result<seq<string>> {
    if n == 0 then Ok([])
    else if b.None? then PlainUp(a, n)
    else if a.None? then PlainDown(b, n)
    else PlainSplit(a, b, n)
  }

  // ---------------------------------------------------------------------------
  // The generator
  // ---------------------------------------------------------------------------

  method GenerateNKeysBetween(a: Bound, b: Bound, n: nat) returns (r: Result<seq<string>>)
    ensures r == NKeys(a, b, n)
    decreases n
  {
    if n == 0 {
      return Ok([]);
    }
    if n == 1 {
      r := One(a, b);
    } else if b.None? {
      r := UpChain(a, n);
    } else if a.None? {
      r := DownChain(b, n);
    } else {
      var c := KeyBetween(a, b);
      if c.Err? {
        return Err(c.error);
      }
      var left := GenerateNKeysBetween(a, Some(c.value), n / 2);
      if left.Err? {
        return left;
      }
      var right := GenerateNKeysBetween(Some(c.value), b, n - n / 2 - 1);
      if right.Err? {
        return right;
      }
      r := Ok(left.value + [c.value] + right.value);
    }
  }

  method One(a: Bound, b: Bound) returns (r: Result<seq<string>>)
    ensures r == NKeys(a, b, 1)
  {
    var k := KeyBetween(a, b);
    if k.Err? {
      return Err(k.error);
    }
    assert PlainUp(Some(k.value), 0) == Ok([]) && PlainDown(Some(k.value), 0) == Ok([]);
    assert PlainSplit(a, Some(k.value), 0) == Ok([]) && PlainSplit(Some(k.value), b, 0) == Ok([]);
    assert [k.value] + [] == [k.value] && [] + [k.value] == [k.value];
    return Ok([k.value]);
  }

  method UpChain(a: Bound, n: nat) returns (r: Result<seq<string>>)
    requires n > 0
    ensures r == PlainUp(a, n)
  {
    hide KeyBetween;
    var first := KeyBetween(a, None);
    if first.Err? {
      return Err(first.error);
    }
    var out := [first.value];
    for i := 1 to n
      invariant |out| == i && PlainUp(a, n) == Prefixed(out, PlainUp(Some(out[i - 1]), n - i))
    {
      var k := KeyBetween(Some(out[i - 1]), None);
      if k.Err? {
        return Err(k.error);
      }
      PrefixedMore(out, k.value, PlainUp(Some(k.value), n - i - 1));
      out := out + [k.value];
    }
    assert out + [] == out;
    return Ok(out);
  }

  method DownChain(b: Bound, n: nat) returns (r: Result<seq<string>>)
    requires n > 0
    ensures r == PlainDown(b, n)
  {
    hide KeyBetween;
    var first := KeyBetween(None, b);
    if first.Err? {
      return Err(first.error);
    }
    var out := [first.value];
    assert Reversed(out) == [first.value];
    for i := 1 to n
      invariant |out| == i && PlainDown(b, n) == Suffixed(PlainDown(Some(out[i - 1]), n - i), Reversed(out))
    {
      var k := KeyBetween(None, Some(out[i - 1]));
      if k.Err? {
        return Err(k.error);
      }
      SuffixedMore(PlainDown(Some(k.value), n - i - 1), k.value, Reversed(out));
      assert Reversed(out + [k.value]) == [k.value] + Reversed(out);
      out := out + [k.value];
    }
    assert [] + Reversed(out) == Reversed(out);
    return Ok(Reversed(out));
  }

  // ---------------------------------------------------------------------------
  // How far down plain keys reach
  // ---------------------------------------------------------------------------

  /** How many plain keys lie below a bound, counted down to the bare smallest integer, which is the last. */
  function Room(b: string): int
    requires WellFormed(b)
  {
    KeyShape(b);
    Rank(IntegerPart(b)) + Offset(26) + (if Fraction(b) == [] then 0 else 1)
  }

  lemma SmallestRank(x: string)
    requires IsInteger(x)
    ensures Rank(x) + Offset(26) >= 0
    ensures IsSmallestInteger(x) <==> Rank(x) + Offset(26) == 0
  {
    var s := "A" + Zeros(26);
    ZeroValue(s[1..]);
    SmallestIsInteger(s);
    PredStepsRank(s);
    assert AtMost(s, x);
    RankOrder(s, x);
    if IsSmallestInteger(x) {
      assert x == s;
    }
  }

  /** One plain key further down: an integer part, with room for one less. */
  lemma OneDown(b: string)
    requires IsOrderKey(b) && !IsSmallestInteger(IntegerPart(b))
    ensures KeyBetween(None, Some(b)).Ok?
    ensures var k := KeyBetween(None, Some(b)).value;
            && WellFormed(k) && Less(k, b) && IntegerPart(k) == k
            && Room(k) == Room(b) - 1 && Room(k) >= 0 && (IsSmallestInteger(k) <==> Room(k) == 0)
  {
    KeyBetweenCorrect(None, Some(b));
    KeyShape(b);
    var ib, k := IntegerPart(b), KeyBetween(None, Some(b)).value;
    PredStepsRank(ib);
    if !Less(ib, b) {
      assert Fraction(b) == [] by {
        if Fraction(b) != [] {
          PrefixBelow(ib, Fraction(b));
        }
      }
    } else if Fraction(b) == [] {
      assert b == ib;
      Irreflexive(b);
    }
    Join(k, []);
    assert k + [] == k;
    SmallestRank(k);
  }

  /** Below a fraction of the smallest integer part there is always one more, of the same kind. */
  lemma SmallestDown(b: string)
    requires IsOrderKey(b) && IsSmallestInteger(IntegerPart(b))
    ensures KeyBetween(None, Some(b)).Ok?
    ensures var k := KeyBetween(None, Some(b)).value;
            IsOrderKey(k) && Less(k, b) && IsSmallestInteger(IntegerPart(k))
  {
    KeyBetweenCorrect(None, Some(b));
    KeyShape(b);
    var ib, fb := IntegerPart(b), Fraction(b);
    MidpointBetween("", Some(fb));
    Join(ib, Midpoint("", Some(fb)));
  }

  /** A run below a bound. Only its first key can be the bare smallest integer. */
  predicate IsDownRun(b: string, n: nat, keys: seq<string>) {
    && |keys| == n && Ascending(keys)
    && (forall i :: 0 <= i < n ==> WellFormed(keys[i]) && Less(keys[i], b))
    && (forall i :: 0 < i < n ==> IsOrderKey(keys[i]))
  }

  /** The run reaches as far as there is room, and the bare smallest integer is in it when it uses all of it. */
  lemma {:induction false} DownExact(b: string, n: nat)
    requires IsOrderKey(b)
    ensures var smallest, r := IsSmallestInteger(IntegerPart(b)), PlainDown(Some(b), n);
            && (r.Ok? <==> smallest || n <= Room(b))
            && (r.Ok? ==> IsDownRun(b, n, r.value))
            && (r.Ok? ==> (AllFit(None, Some(b), r.value) <==> smallest || n < Room(b)))
    decreases n
  {
    hide KeyBetween, IsSmallestInteger, IsInteger, Fits, Less, Room;
    if IsSmallestInteger(IntegerPart(b)) {
      if n > 0 {
        SmallestDown(b);
        var k := KeyBetween(None, Some(b)).value;
        DownExact(k, n - 1);
        DownMore(b, n, PlainDown(Some(k), n - 1).value, k);
      }
    } else {
      OneDown(b);
      var k := KeyBetween(None, Some(b)).value;
      if n > 0 && IsOrderKey(k) {
        DownExact(k, n - 1);
        if n - 1 <= Room(k) {
          DownMore(b, n, PlainDown(Some(k), n - 1).value, k);
        }
      } else if n == 1 {
        assert PlainDown(Some(k), 0) == Ok([]);
        DownMore(b, n, [], k);
      } else if n > 1 {
        KeyBetweenCorrect(None, Some(k));
      }
    }
  }

  lemma DownMore(b: string, n: nat, rest: seq<string>, k: string)
    requires n > 0 && IsDownRun(k, n - 1, rest) && WellFormed(k) && Less(k, b) && (n > 1 ==> IsOrderKey(k))
    ensures IsDownRun(b, n, rest + [k])
    ensures AllFit(None, Some(b), rest + [k]) <==> AllFit(None, Some(k), rest) && IsOrderKey(k)
  {
    var keys := rest + [k];
    forall i | 0 <= i < |rest| ensures Less(rest[i], b) {
      Transitive(rest[i], k, b);
    }
    assert keys[|rest|] == k && forall i :: 0 <= i < |rest| ==> keys[i] == rest[i];
  }

  /** Upwards there is always room. */
  lemma {:induction false} UpExact(a: Bound, n: nat)
    requires a.Some? ==> IsOrderKey(a.value)
    ensures var r := PlainUp(a, n); r.Ok? && |r.value| == n && Ascending(r.value) && AllFit(a, None, r.value)
    decreases n
  {
    if n > 0 {
      KeyBetweenCorrect(a, None);
      var k := KeyBetween(a, None).value;
      UpExact(Some(k), n - 1);
      JoinRuns(a, None, [], k, PlainUp(Some(k), n - 1).value);
      assert [] + [k] == [k];
    }
  }

  /** Between two bounds there is always room. */
  lemma {:induction false} SplitExact(a: string, b: string, n: nat)
    requires ValidBounds(Some(a), Some(b))
    ensures var r := PlainSplit(Some(a), Some(b), n);
            r.Ok? && |r.value| == n && Ascending(r.value) && AllFit(Some(a), Some(b), r.value)
    decreases n
  {
    if n > 0 {
      MiddleFits(a, b);
      hide KeyBetween, Ascending, AllFit, Fits, ValidBounds;
      var c := KeyBetween(Some(a), Some(b)).value;
      SplitExact(a, c, n / 2);
      SplitExact(c, b, n - n / 2 - 1);
      JoinRuns(Some(a), Some(b), PlainSplit(Some(a), Some(c), n / 2).value, c,
               PlainSplit(Some(c), Some(b), n - n / 2 - 1).value);
    }
  }

  lemma MiddleFits(a: string, b: string)
    requires ValidBounds(Some(a), Some(b))
    ensures KeyBetween(Some(a), Some(b)).Ok?
    ensures var c := KeyBetween(Some(a), Some(b)).value;
            Fits(Some(a), Some(b), c) && ValidBounds(Some(a), Some(c)) && ValidBounds(Some(c), Some(b))
  {
    KeyBetweenCorrect(Some(a), Some(b));
    hide KeyBetween, WellFormed, IsSmallestInteger, Less;
  }

  /** Whether a run of `n` keys stays above the bare smallest integer, which `last` lets it reach. */
  predicate HasRoom(a: Bound, b: Bound, n: nat, last: nat)
    requires ValidBounds(a, b)
  {
    a.None? && b.Some? ==> IsSmallestInteger(IntegerPart(b.value)) || n < Room(b.value) + last
  }

  /**
   A plain run exists exactly on valid bounds with room for it, and is then `n` ascending keys inside
   them. They are all valid exactly if there is room for one more.
   */
  lemma NKeysExact(a: Bound, b: Bound, n: nat)
    requires n > 0
    ensures var r := NKeys(a, b, n);
            && (r.Ok? <==> ValidBounds(a, b) && HasRoom(a, b, n, 1))
            && (r.Ok? ==>
                  && |r.value| == n && Ascending(r.value)
                  && (forall k :: k in r.value ==> WellFormed(k) && Above(a, k) && Below(k, b))
                  && (AllFit(a, b, r.value) <==> HasRoom(a, b, n, 0)))
  {
    KeyBetweenCorrect(a, b);
    if ValidBounds(a, b) {
      if b.None? {
        UpExact(a, n);
      } else if a.None? {
        DownExact(b.value, n);
      } else {
        SplitExact(a.value, b.value, n);
      }
    }
  }

  /**
   Three plain keys below the integer part of rank two: the second is the bare smallest integer,
   which the third step refuses as a bound.
   */
  lemma PlainPrependRunRaises()
    ensures var z := Zeros(25);
            && IsOrderKey("A" + z + "2")
            && KeyBetween(None, Some("A" + z + "2")) == Ok("A" + z + "1")
            && KeyBetween(None, Some("A" + z + "1")) == Ok("A" + z + "0")
            && KeyBetween(None, Some("A" + z + "0")).Err?
  {
    var z := Zeros(25);
    ZeroValue(z);
    BareIntegerBelow(z, '2');
    BareIntegerBelow(z, '1');
    assert ("A" + z + "0")[1..] == z + "0";
  }

  lemma BareIntegerBelow(z: string, c: char)
    requires |z| == 25 && AllDigits(z) && IsDigit(c) && c != '0'
    ensures IsOrderKey("A" + z + [c])
    ensures KeyBetween(None, Some("A" + z + [c])) == Ok("A" + z + [DigitAt(Index(c) - 1)])
  {
    var k := "A" + z + [c];
    assert k[1..] == z + [c] && (z + [c])[..25] == z;
    assert k[1..][25] == c;
    assert IntegerPart(k) == k;
    Irreflexive(k);
    var down := [DigitAt(Index(c) - 1)];
    assert Pred(k) == Some("A" + (z + down));
    assert "A" + (z + down) == "A" + z + down;
  }
}
