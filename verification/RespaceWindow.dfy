/** Gaps between order rows, and the window of rows a respace rewrites around one. */
module RespaceWindow {
  import opened Wrappers
  import opened StringOrder
  import opened Segments
  import opened Sequences
  import opened SortedRows
  import opened OrderScans
  import opened OrderKeys
  import opened KeyGeneration
  import opened RowMaps

  const SUFFIX_LENGTH := DEFAULT_SUFFIX_LENGTH
  const MAX_KEY_LENGTH := 128
  const RESPACE_WINDOW: nat := 16
  const RESPACE_TARGET: nat := 64

  /** `prev` and `nxt` are the keys of adjacent rows: those around place `i` of the scan. */
  predicate Gap(q: seq<string>, i: nat, prev: Bound, nxt: Bound) {
    i <= |q| && prev == LowSide(q, i) && nxt == HighSide(q, i)
  }

  function LowSide(q: seq<string>, i: nat): Bound
    requires i <= |q|
  {
    if i == 0 then None else Some(q[i - 1])
  }

  function HighSide(q: seq<string>, i: nat): Bound
    requires i <= |q|
  {
    if i == |q| then None else Some(q[i])
  }

  lemma SidesValid(order: Rows, pos: Positions, from: nat, to: nat)
    requires Linked(order, pos) && from <= to <= |order|
    ensures ValidBounds(LowSide(KeySeq(order), from), HighSide(KeySeq(order), to))
  {
    var q := KeySeq(order);
    assert from > 0 ==> q[from - 1] in q;
    assert to < |q| ==> q[to] in q;
  }

  /** Keys for a window `from .. to` around place `i`: one per row, and one for the gap itself. */
  predicate WindowKeys(q: seq<string>, from: nat, i: nat, to: nat, keys: seq<string>) {
    && from <= i <= to <= |q| && |keys| == to - from + 1
    && Ascending(keys) && AllFit(LowSide(q, from), HighSide(q, to), keys)
  }

  /** `k` rows on each side of place `i` as far as there are, or all of them. */
  predicate WindowBounds(n: nat, i: nat, k: Option<nat>, from: nat, to: nat) {
    && from == (if k.None? || k.value >= i then 0 else i - k.value)
    && to == (if k.None? || k.value >= n - i then n else i + k.value)
  }

  /** The rows from `prev` down, `k` of them at most, and the key just outside. */
  method ReadBelow(order: Rows, prev: Bound, k: Option<nat>, ghost i: nat) returns (below: seq<Row>, lo: Bound)
    requires i <= |order| && prev == LowSide(KeySeq(order), i)
    ensures |below| == (if k.None? || k.value >= i then i else k.value)
    ensures lo == LowSide(KeySeq(order), i - |below|)
    ensures Listing(order, below, i - |below|, i)
  {
    if prev.None? {
      return [], None;
    }
    below := ScanFrom(order, prev.value, true, if k.None? then None else Some(k.value + 1), i - 1);
    lo := None;
    if k.Some? && |below| > k.value {
      lo, below := Some(below[k.value].okey), below[..k.value];
    }
    below := Backwards(below);
  }

  /** The rows from `nxt` up, `k` of them at most, and the key just outside. */
  method ReadAbove(order: Rows, nxt: Bound, k: Option<nat>, ghost i: nat) returns (above: seq<Row>, hi: Bound)
    requires i <= |order| && nxt == HighSide(KeySeq(order), i)
    ensures |above| == (if k.None? || k.value >= |order| - i then |order| - i else k.value)
    ensures hi == HighSide(KeySeq(order), i + |above|)
    ensures Listing(order, above, i, i + |above|)
  {
    if nxt.None? {
      return [], None;
    }
    above := ScanFrom(order, nxt.value, false, if k.None? then None else Some(k.value + 1), i);
    hi := None;
    if k.Some? && |above| > k.value {
      hi, above := Some(above[k.value].okey), above[..k.value];
    }
  }

  /** A respace plan: the rows on the two sides of place `i`, and keys for them and for the gap. */
  predicate Planned(order: Rows, k: Option<nat>, below: seq<Row>, above: seq<Row>, i: nat, keys: seq<string>) {
    && |below| <= i && |above| <= |order| - i
    && WindowBounds(|order|, i, k, i - |below|, i + |above|)
    && Listing(order, below, i - |below|, i) && Listing(order, above, i, i + |above|)
    && WindowKeys(KeySeq(order), i - |below|, i, i + |above|, keys)
  }

  /** Read the rows around a gap and draw keys for them between the rows just outside. */
  method PlanWindow(order: Rows, ghost pos: Positions, prev: Bound, nxt: Bound, k: Option<nat>, ghost i: nat)
    returns (below: seq<Row>, above: seq<Row>, keys: seq<string>)
    requires Linked(order, pos) && Gap(KeySeq(order), i, prev, nxt)
    ensures Planned(order, k, below, above, i, keys)
  {
    var lo, hi;
    below, lo := ReadBelow(order, prev, k, i);
    above, hi := ReadAbove(order, nxt, k, i);
    SidesValid(order, pos, i - |below|, i + |above|);
    var drawn := GenerateNSuffixedKeysBetween(lo, hi, |below| + 1 + |above|, SUFFIX_LENGTH);
    keys := drawn.value;
  }

  /** The window's rows take the drawn keys in order, the gap keeps its own. */
  lemma WindowIsFresh(q: seq<string>, from: nat, i: nat, to: nat, keys: seq<string>)
    requires Ascending(q) && WindowKeys(q, from, i, to, keys)
    ensures var news := RemoveAt(keys, i - from);
            && FreshWindow(q, from, to, news) && FallsAt(Rewritten(q, from, to, news), i, keys[i - from])
  {
    var news := RemoveAt(keys, i - from);
    forall j, t | 0 <= j < from && 0 <= t < |news| ensures Less(q[..from][j], news[t]) {
      assert Fits(LowSide(q, from), HighSide(q, to), keys[if t < i - from then t else t + 1]);
      if j < from - 1 {
        Transitive(q[j], q[from - 1], news[t]);
      }
    }
    forall j, t | 0 <= j < |q| - to && 0 <= t < |news| ensures Less(news[t], q[to..][j]) {
      assert Fits(LowSide(q, from), HighSide(q, to), keys[if t < i - from then t else t + 1]);
      if j > 0 {
        Transitive(news[t], q[to], q[to + j]);
      }
    }
    assert Fits(LowSide(q, from), HighSide(q, to), keys[i - from]);
  }

  /**
   What a respace does to the keys: nothing outside the window; inside it, keys strictly between
   the rows just outside; and the gap's own key is free, between the new keys of its two sides.
   */
  predicate Respaced(q: seq<string>, from: nat, i: nat, to: nat, r: seq<string>, gapKey: string) {
    && from <= i <= to <= |q| == |r|
    && r[..from] == q[..from] && r[to..] == q[to..]
    && AllFit(LowSide(q, from), HighSide(q, to), r[from..to])
    && Fits(LowSide(q, from), HighSide(q, to), gapKey)
    && FallsAt(r, i, gapKey) && gapKey !in r
  }

  lemma WindowRespaced(q: seq<string>, from: nat, i: nat, to: nat, keys: seq<string>)
    requires Ascending(q) && WindowKeys(q, from, i, to, keys)
    ensures FreshWindow(q, from, to, RemoveAt(keys, i - from))
    ensures Respaced(q, from, i, to, Rewritten(q, from, to, RemoveAt(keys, i - from)), keys[i - from])
  {
    var news := RemoveAt(keys, i - from);
    WindowIsFresh(q, from, i, to, keys);
    RewriteAscends(q, from, to, news);
    FallsApart(Rewritten(q, from, to, news), i, keys[i - from]);
    assert Rewritten(q, from, to, news)[from..to] == news;
    FitWithout(LowSide(q, from), HighSide(q, to), keys, i - from);
  }

  lemma FitWithout(lo: Bound, hi: Bound, keys: seq<string>, i: nat)
    requires i < |keys| && AllFit(lo, hi, keys)
    ensures AllFit(lo, hi, RemoveAt(keys, i))
  {
    forall t | 0 <= t < |keys| - 1 ensures Fits(lo, hi, RemoveAt(keys, i)[t]) {
      assert Fits(lo, hi, keys[if t < i then t else t + 1]);
    }
  }
}
