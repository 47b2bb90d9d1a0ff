/**
 Integer parts of order keys: a head letter that encodes the length, then digits.
 `Rank` numbers them; increment and decrement are checked against it.
 */
module OrderIntegers {
  import opened Wrappers
  import opened StringOrder
  import opened Base62

  /** The least integer part: `A`, then 26 zeros. */
  predicate IsSmallestInteger(x: string) {
    |x| == 27 && x[0] == 'A' && AllZero(x[1..])
  }

  predicate IsHead(c: char) {
    'a' <= c <= 'z' || 'A' <= c <= 'Z'
  }

  function IntegerLength(head: char): nat
    requires IsHead(head)
  {
    if 'a' <= head then head as int - 'a' as int + 2
    else 'Z' as int - head as int + 2
  }

  predicate IsInteger(x: string) {
    && x != []
    && IsHead(x[0])
    && |x| == IntegerLength(x[0])
    && AllDigits(x[1..])
  }

  // ---------------------------------------------------------------------------
  // Rank: the place of an integer part among all of them
  // ---------------------------------------------------------------------------

  /** How many integer parts have at most `n` digits, on one side of zero. */
  function Offset(n: nat): nat {
    if n == 0 then 0 else Offset(n - 1) + Pow62(n)
  }

  lemma {:induction false} OffsetMonotone(m: nat, n: nat)
    requires m <= n
    ensures Offset(m) <= Offset(n)
  {
    if m < n {
      OffsetMonotone(m, n - 1);
    }
  }

  function Rank(x: string): int
    requires IsInteger(x)
  {
    if 'a' <= x[0] then Offset(|x| - 2) + Value(x[1..])
    else Value(x[1..]) - Offset(|x| - 1)
  }

  lemma RankIncreases(x: string, y: string)
    requires IsInteger(x) && IsInteger(y) && Less(x, y)
    ensures Rank(x) < Rank(y)
  {
    if x[0] == y[0] {
      ValueMonotone(x[1..], y[1..]);
    } else if 'a' <= x[0] {
      assert Offset(|x| - 1) == Offset(|x| - 2) + Pow62(|x| - 1);
      OffsetMonotone(|x| - 1, |y| - 2);
    } else if 'a' <= y[0] {
      assert Offset(|x| - 1) == Offset(|x| - 2) + Pow62(|x| - 1);
    } else {
      assert Offset(|x| - 1) == Offset(|x| - 2) + Pow62(|x| - 1);
      OffsetMonotone(|y| - 1, |x| - 2);
    }
  }

  /** String order on integer parts is exactly the order of their ranks. */
  lemma RankOrder(x: string, y: string)
    requires IsInteger(x) && IsInteger(y)
    ensures Less(x, y) <==> Rank(x) < Rank(y)
    ensures x == y <==> Rank(x) == Rank(y)
  {
    Total(x, y);
    if Less(x, y) {
      RankIncreases(x, y);
      Asymmetric(x, y);
    } else if Less(y, x) {
      RankIncreases(y, x);
      Asymmetric(y, x);
    }
  }

  /** No integer part is a proper prefix of another. */
  lemma IntegersPrefixFree(x: string, y: string)
    requires IsInteger(x) && IsInteger(y) && x <= y
    ensures x == y
  {
    assert x[0] == y[0];
  }

  // ---------------------------------------------------------------------------
  // Increment and decrement
  // ---------------------------------------------------------------------------

  /** Next integer part, None at the largest. */
  function Succ(x: string): Option<string>
    requires IsInteger(x)
  {
    var (carry, ds) := AddOne(x[1..]);
    if !carry then Some([x[0]] + ds)
    else if x[0] == 'Z' then Some("a0")
    else if x[0] == 'z' then None
    else
      var h := x[0] + 1 as char;
      if 'a' < h then Some([h] + (ds + ['0']))
      else Some([h] + ds[..|ds| - 1])
  }

  /** Previous integer part, None at the smallest. */
  function Pred(x: string): Option<string>
    requires IsInteger(x)
  {
    var (borrow, ds) := SubOne(x[1..]);
    if !borrow then Some([x[0]] + ds)
    else if x[0] == 'a' then Some("Zz")
    else if x[0] == 'A' then None
    else
      var h := x[0] - 1 as char;
      if h < 'Z' then Some([h] + (ds + ['z']))
      else Some([h] + ds[..|ds| - 1])
  }

  /** Increment steps the rank by exactly one; it stops only at the greatest integer part. */
  lemma SuccStepsRank(x: string)
    requires IsInteger(x)
    ensures Succ(x).Some? ==> IsInteger(Succ(x).value) && Rank(Succ(x).value) == Rank(x) + 1
    ensures Succ(x).None? ==> forall y :: IsInteger(y) ==> AtMost(y, x)
  {
    AddOneValue(x[1..]);
    if Succ(x).None? {
      forall y | IsInteger(y) ensures AtMost(y, x) {
        FullestIsGreatest(x, y);
      }
    } else if !AddOne(x[1..]).0 {
      assert Succ(x).value[1..] == AddOne(x[1..]).1;
    } else {
      CarryStepsRank(x, Succ(x).value);
    }
  }

  lemma FullestIsGreatest(x: string, y: string)
    requires IsInteger(x) && IsInteger(y) && x[0] == 'z' && Value(x[1..]) == Pow62(|x| - 1) - 1
    ensures AtMost(y, x)
  {
    RankOrder(x, y);
    Total(x, y);
    assert y[0] == x[0] ==> Value(y[1..]) < Pow62(|x| - 1);
  }

  /** The step that changes the head: across `Zz`/`a0`, or to a length one off. */
  lemma CarryStepsRank(x: string, y: string)
    requires IsInteger(x) && AddOne(x[1..]).0 && Succ(x) == Some(y)
    ensures IsInteger(y) && Rank(y) == Rank(x) + 1
  {
    var n := |x| - 1;
    var zeros := AddOne(x[1..]).1;
    AddOneValue(x[1..]);
    ZeroValue(zeros);
    assert Value(x[1..]) == Pow62(n) - 1;
    if x[0] == 'Z' {
      assert n == 1 && y[1..] == zeros;
      assert Offset(1) == Offset(0) + Pow62(1);
    } else if 'a' <= x[0] {
      assert y[1..] == zeros + ['0'];
      CarryLonger(x, y, zeros);
    } else {
      assert y[1..] == zeros[..n - 1];
      ZeroValue(y[1..]);
      CarryShorter(x, y);
    }
  }

  lemma CarryLonger(x: string, y: string, zeros: string)
    requires IsInteger(x) && 'a' <= x[0] < 'z' && AllDigits(zeros) && |zeros| == |x| - 1
    requires y == [x[0] + 1 as char] + (zeros + ['0'])
    requires Value(x[1..]) == Pow62(|x| - 1) - 1 && Value(zeros) == 0
    ensures IsInteger(y) && Rank(y) == Rank(x) + 1
  {
    var n := |x| - 1;
    assert y[1..] == zeros + ['0'] && (zeros + ['0'])[..n] == zeros;
    assert Offset(n) == Offset(n - 1) + Pow62(n);
  }

  lemma CarryShorter(x: string, y: string)
    requires IsInteger(x) && IsInteger(y) && x[0] < 'Z' && y[0] <= 'Z' && |y| == |x| - 1
    requires Value(x[1..]) == Pow62(|x| - 1) - 1 && Value(y[1..]) == 0
    ensures Rank(y) == Rank(x) + 1
  {
    var n := |x| - 1;
    assert Offset(n) == Offset(n - 1) + Pow62(n);
  }

  /** Decrement steps the rank back by exactly one; it stops only at the least integer part. */
  lemma PredStepsRank(x: string)
    requires IsInteger(x)
    ensures Pred(x).Some? ==> IsInteger(Pred(x).value) && Rank(Pred(x).value) == Rank(x) - 1
    ensures Pred(x).None? ==> forall y :: IsInteger(y) ==> AtMost(x, y)
  {
    var ds := x[1..];
    SubOneValue(ds);
    if Pred(x).None? {
      forall y | IsInteger(y) ensures AtMost(x, y) {
        RankOrder(x, y);
        Total(x, y);
      }
    } else if !SubOne(ds).0 {
      assert Pred(x).value[1..] == SubOne(ds).1;
    } else {
      BorrowStepsRank(x, Pred(x).value);
    }
  }

  lemma BorrowStepsRank(x: string, y: string)
    requires IsInteger(x) && SubOne(x[1..]).0 && Pred(x) == Some(y)
    ensures IsInteger(y) && Rank(y) == Rank(x) - 1
  {
    var n := |x| - 1;
    var ds := SubOne(x[1..]).1;
    SubOneValue(x[1..]);
    assert Value(ds) == Pow62(n) - 1;
    if x[0] == 'a' {
      assert n == 1 && y[1..] == ds;
      assert Offset(1) == Offset(0) + Pow62(1);
    } else if 'a' < x[0] {
      AllNines(ds);
      BorrowShorter(x, y, ds);
    } else {
      assert y[1..] == ds + ['z'];
      BorrowLonger(x, y, ds);
    }
  }

  lemma BorrowShorter(x: string, y: string, ds: string)
    requires IsInteger(x) && 'a' < x[0] && AllDigits(ds) && |ds| == |x| - 1
    requires y == [x[0] - 1 as char] + ds[..|ds| - 1]
    requires Value(x[1..]) == 0 && Value(ds[..|ds| - 1]) == Pow62(|ds| - 1) - 1
    ensures IsInteger(y) && Rank(y) == Rank(x) - 1
  {
    var n := |ds|;
    assert y[1..] == ds[..n - 1];
    assert Offset(n - 1) == Offset(n - 2) + Pow62(n - 1);
  }

  lemma BorrowLonger(x: string, y: string, ds: string)
    requires IsInteger(x) && 'A' < x[0] <= 'Z' && AllDigits(ds) && |ds| == |x| - 1
    requires y == [x[0] - 1 as char] + (ds + ['z'])
    requires Value(x[1..]) == 0 && Value(ds) == Pow62(|ds|) - 1
    ensures IsInteger(y) && Rank(y) == Rank(x) - 1
  {
    var n := |ds|;
    assert y[1..] == ds + ['z'] && (ds + ['z'])[..n] == ds;
    assert Pow62(n + 1) == 62 * Pow62(n);
    assert Offset(n + 1) == Offset(n) + Pow62(n + 1);
  }

  /** A digit string of full value keeps full value without its last digit. */
  lemma AllNines(ds: string)
    requires ds != [] && AllDigits(ds) && Value(ds) == Pow62(|ds|) - 1
    ensures Value(ds[..|ds| - 1]) == Pow62(|ds| - 1) - 1
  {
    assert Pow62(|ds|) == 62 * Pow62(|ds| - 1);
  }

  /** Increment and decrement undo each other. */
  lemma SuccPredInverse(x: string, y: string)
    requires IsInteger(x) && IsInteger(y)
    ensures Succ(x) == Some(y) <==> Pred(y) == Some(x)
  {
    SuccStepsRank(x);
    PredStepsRank(y);
    if Succ(x) == Some(y) {
      RankOrder(x, y);
      Asymmetric(x, y);
      RankOrder(Pred(y).value, x);
    } else if Pred(y) == Some(x) {
      RankOrder(x, y);
      Asymmetric(x, y);
      RankOrder(Succ(x).value, y);
    }
  }

  /** Increment is the successor in string order: above, with no integer part in between. */
  lemma SuccIsNext(x: string, z: string)
    requires IsInteger(x) && IsInteger(z) && Succ(x).Some?
    ensures IsInteger(Succ(x).value) && Less(x, Succ(x).value)
    ensures Less(x, z) <==> AtMost(Succ(x).value, z)
  {
    SuccStepsRank(x);
    RankOrder(x, Succ(x).value);
    RankOrder(x, z);
    RankOrder(Succ(x).value, z);
  }

  // ---------------------------------------------------------------------------
  // The carry loops
  // ---------------------------------------------------------------------------

  predicate WellShaped(x: string) {
    x != [] && IsHead(x[0]) && |x| == IntegerLength(x[0])
  }

  /** Where a carry stands: the digits `i + 1 ..` are settled, and so is all once it is absorbed. */
  ghost predicate Carrying(start: string, digs: string, i: int, carry: bool)
    requires -1 <= i < |digs| == |start|
  {
    && digs[..i + 1] == start[..i + 1]
    && (AllDigits(start) ==>
          var front := AddOne(start[..i + 1]);
          AddOne(start) == if carry then (front.0, front.1 + digs[i + 1..]) else (false, digs))
  }

  lemma CarryStep(start: string, digs: string, i: nat)
    requires i < |digs| == |start| && Carrying(start, digs, i, true) && IsDigit(digs[i])
    ensures var d := Index(digs[i]) + 1;
            Carrying(start, digs[i := if d == 62 then '0' else DigitAt(d)], i - 1, d == 62)
  {
    var d := Index(digs[i]) + 1;
    var next := digs[i := if d == 62 then '0' else DigitAt(d)];
    var front := start[..i + 1];
    assert front[i] == digs[i] && front[..i] == start[..i] == next[..i];
    assert next[i..] == [next[i]] + digs[i + 1..];
    if AllDigits(start) {
      var rest := AddOne(front[..i]).1;
      assert (rest + ['0']) + digs[i + 1..] == rest + (['0'] + digs[i + 1..]);
      assert next == (front[..i] + [next[i]]) + digs[i + 1..];
    }
  }

  /** A carry starts with no digit settled, and one that ran through has settled them all. */
  lemma CarryEnds(start: string, digs: string)
    requires |digs| == |start|
    ensures Carrying(start, start, |start| - 1, true)
    ensures Carrying(start, digs, -1, true) && AllDigits(start) ==> AddOne(start) == (true, digs)
  {
    assert start[..|start|] == start && start[|start|..] == [];
    assert AllDigits(start) ==> AddOne(start).1 + [] == AddOne(start).1;
    assert start[..0] == [] && digs[0..] == digs && [] + digs == digs;
  }

  lemma BadCarryDigit(start: string, digs: string, i: nat)
    requires i < |digs| == |start| && Carrying(start, digs, i, true) && !IsDigit(digs[i])
    ensures !AllDigits(start)
  {
    assert start[..i + 1][i] == digs[..i + 1][i];
  }

  /** Read from the end over `skipped` characters, the first other one is no digit. */
  ghost predicate MeetsBadDigit(start: string, skipped: char) {
    exists i :: 0 <= i < |start| && !IsDigit(start[i]) && forall j :: i < j < |start| ==> start[j] == skipped
  }

  /** From the end, `skipped` digits only stand behind position `i`; the one at `i`, when `over`, is another digit. */
  ghost predicate Skipping(start: string, skipped: char, i: int, over: bool)
    requires -1 <= i < |start|
  {
    && (!over ==> forall j :: i < j < |start| ==> start[j] == skipped)
    && (over ==> i + 1 < |start| && IsDigit(start[i + 1]) && start[i + 1] != skipped
                 && forall j :: i + 1 < j < |start| ==> start[j] == skipped)
  }

  lemma NoBadDigit(start: string, skipped: char, i: int, over: bool)
    requires -1 <= i < |start| && IsDigit(skipped) && Skipping(start, skipped, i, over) && (over || i == -1)
    ensures !MeetsBadDigit(start, skipped)
  {
  }

  lemma LastDigits(c: char)
    requires IsDigit(c)
    ensures Index(c) == 61 <==> c == 'z'
    ensures Index(c) == 0 <==> c == '0'
    ensures IsDigit('z') && IsDigit('0')
  {
  }

  /** The carry loop over the digits of an integer part; a bad digit it meets is an error. */
  method CarryDigits(start: string) returns (r: Result<(bool, string)>)
    ensures AllDigits(start) ==> r == Ok(AddOne(start))
    ensures r.Ok? ==> |r.value.1| == |start|
    ensures r.Err? <==> MeetsBadDigit(start, 'z')
  {
    var digs := start;
    var carry := true;
    var i := |digs| - 1;
    CarryEnds(start, digs);
    while carry && i >= 0
      invariant -1 <= i < |digs| == |start|
      invariant Carrying(start, digs, i, carry)
      invariant Skipping(start, 'z', i, !carry)
    {
      assert digs[i] == digs[..i + 1][i] == start[..i + 1][i];
      if !IsDigit(digs[i]) {
        assert !AllDigits(start) by { BadCarryDigit(start, digs, i); }
        return Err(ValueError);
      }
      CarryStep(start, digs, i);
      LastDigits(digs[i]);
      var d := Index(digs[i]) + 1;
      if d == 62 {
        digs := digs[i := '0'];
      } else {
        digs := digs[i := DigitAt(d)];
        carry := false;
      }
      i := i - 1;
    }
    LastDigits('0');
    NoBadDigit(start, 'z', i, !carry);
    CarryEnds(start, digs);
    return Ok((carry, digs));
  }

  /** Next integer part; an ill-shaped one, or a bad digit met by the carry, is an error. */
  method IncrementInteger(integer: string) returns (r: Result<Option<string>>)
    ensures IsInteger(integer) ==> r == Ok(Succ(integer))
    ensures r.Err? <==> !WellShaped(integer) || MeetsBadDigit(integer[1..], 'z')
  {
    if integer == [] {
      return Err(IndexError);
    }
    var head := integer[0];
    if !IsHead(head) || |integer| != IntegerLength(head) {
      return Err(ValueError);
    }
    var looped := CarryDigits(integer[1..]);
    if looped.Err? {
      return Err(looped.error);
    }
    var (carry, digs) := looped.value;
    if !carry {
      return Ok(Some([head] + digs));
    }
    if head == 'Z' {
      return Ok(Some("a0"));
    }
    if head == 'z' {
      return Ok(None);
    }
    var h := head + 1 as char;
    if 'a' < h {
      digs := digs + ['0'];
    } else {
      digs := digs[..|digs| - 1];
    }
    return Ok(Some([h] + digs));
  }

  /** Where a borrow stands: the digits `i + 1 ..` are settled, and so is all once it is repaid. */
  ghost predicate Borrowing(start: string, digs: string, i: int, borrow: bool)
    requires -1 <= i < |digs| == |start|
  {
    && digs[..i + 1] == start[..i + 1]
    && (AllDigits(start) ==>
          var front := SubOne(start[..i + 1]);
          SubOne(start) == if borrow then (front.0, front.1 + digs[i + 1..]) else (false, digs))
  }

  lemma BorrowStep(start: string, digs: string, i: nat)
    requires i < |digs| == |start| && Borrowing(start, digs, i, true) && IsDigit(digs[i])
    ensures var d := Index(digs[i]) - 1;
            Borrowing(start, digs[i := if d == -1 then 'z' else DigitAt(d)], i - 1, d == -1)
  {
    var d := Index(digs[i]) - 1;
    var next := digs[i := if d == -1 then 'z' else DigitAt(d)];
    var front := start[..i + 1];
    assert front[i] == digs[i] && front[..i] == start[..i] == next[..i];
    assert next[i..] == [next[i]] + digs[i + 1..];
    if AllDigits(start) {
      var rest := SubOne(front[..i]).1;
      assert (rest + ['z']) + digs[i + 1..] == rest + (['z'] + digs[i + 1..]);
      assert next == (front[..i] + [next[i]]) + digs[i + 1..];
    }
  }

  /** The borrow loop over the digits of an integer part; a bad digit it meets is an error. */
  method BorrowDigits(start: string) returns (r: Result<(bool, string)>)
    ensures AllDigits(start) ==> r == Ok(SubOne(start))
    ensures r.Ok? ==> |r.value.1| == |start|
    ensures r.Err? <==> MeetsBadDigit(start, '0')
  {
    var digs := start;
    var borrow := true;
    var i := |digs| - 1;
    BorrowEnds(start, digs);
    while borrow && i >= 0
      invariant -1 <= i < |digs| == |start|
      invariant Borrowing(start, digs, i, borrow)
      invariant Skipping(start, '0', i, !borrow)
    {
      assert digs[i] == digs[..i + 1][i] == start[..i + 1][i];
      if !IsDigit(digs[i]) {
        assert !AllDigits(start) by { BadDigit(start, digs, i); }
        return Err(ValueError);
      }
      BorrowStep(start, digs, i);
      LastDigits(digs[i]);
      var d := Index(digs[i]) - 1;
      if d == -1 {
        digs := digs[i := 'z'];
      } else {
        digs := digs[i := DigitAt(d)];
        borrow := false;
      }
      i := i - 1;
    }
    LastDigits('0');
    NoBadDigit(start, '0', i, !borrow);
    BorrowEnds(start, digs);
    return Ok((borrow, digs));
  }

  /** A borrow starts with no digit settled, and one that ran through has settled them all. */
  lemma BorrowEnds(start: string, digs: string)
    requires |digs| == |start|
    ensures Borrowing(start, start, |start| - 1, true)
    ensures Borrowing(start, digs, -1, true) && AllDigits(start) ==> SubOne(start) == (true, digs)
  {
    assert start[..|start|] == start && start[|start|..] == [];
    assert AllDigits(start) ==> SubOne(start).1 + [] == SubOne(start).1;
    assert start[..0] == [] && digs[0..] == digs && [] + digs == digs;
  }

  lemma BadDigit(start: string, digs: string, i: nat)
    requires i < |digs| == |start| && Borrowing(start, digs, i, true) && !IsDigit(digs[i])
    ensures !AllDigits(start)
  {
    assert start[..i + 1][i] == digs[..i + 1][i];
  }

  /** Previous integer part; an ill-shaped one, or a bad digit met by the borrow, is an error. */
  method DecrementInteger(integer: string) returns (r: Result<Option<string>>)
    ensures IsInteger(integer) ==> r == Ok(Pred(integer))
    ensures r.Err? <==> !WellShaped(integer) || MeetsBadDigit(integer[1..], '0')
  {
    if integer == [] {
      return Err(IndexError);
    }
    var head := integer[0];
    if !IsHead(head) || |integer| != IntegerLength(head) {
      return Err(ValueError);
    }
    var looped := BorrowDigits(integer[1..]);
    if looped.Err? {
      return Err(looped.error);
    }
    var (borrow, digs) := looped.value;
    if !borrow {
      return Ok(Some([head] + digs));
    }
    if head == 'a' {
      return Ok(Some("Zz"));
    }
    if head == 'A' {
      return Ok(None);
    }
    var h := head - 1 as char;
    if h < 'Z' {
      digs := digs + ['z'];
    } else {
      digs := digs[..|digs| - 1];
    }
    return Ok(Some([h] + digs));
  }
}
