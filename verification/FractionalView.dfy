/**
 The fractional view: data rows, order rows and position rows written in place.
 Each operation is checked against the plain list and map of `OrderedCollection`.
 */
module FractionalView {
  import opened Wrappers
  import opened StringOrder
  import opened Segments
  import opened Sequences
  import opened SortedRows
  import opened OrderScans
  import opened OrderedCollection
  import opened OrderedLaws
  import opened OrderKeys
  import opened KeyGeneration
  import opened RowMaps
  import opened RespaceWindow
  import opened IndexSteps
  import opened IndexRepair

  const ALLOT_ATTEMPTS := 8

  function Okey(row: Option<Row>): Bound {
    if row.None? then None else Some(row.value.okey)
  }

  function LongestKey(keys: seq<string>): nat {
    if keys == [] then 0
    else
      var rest := LongestKey(keys[1..]);
      if rest < |keys[0]| then |keys[0]| else rest
  }

  lemma {:induction false} LongestBounds(keys: seq<string>, n: nat)
    ensures LongestKey(keys) <= n <==> NoLongerThan(keys, n)
  {
    if keys != [] {
      LongestBounds(keys[1..], n);
      assert keys == [keys[0]] + keys[1..];
    }
  }

  lemma ShortApart(keys: seq<string>, j: nat, n: nat)
    requires j < |keys|
    ensures NoLongerThan(keys, n) <==> |keys[j]| <= n && NoLongerThan(RemoveAt(keys, j), n)
  {
    assert forall t :: 0 <= t < |keys| - 1 ==> RemoveAt(keys, j)[t] == keys[if t < j then t else t + 1];
    assert forall t :: 0 <= t < |keys| && t != j ==> keys[t] == RemoveAt(keys, j)[if t < j then t else t - 1];
  }

  /** Around place `i` a window was respaced: short keys throughout, or every row of the collection rewritten. */
  ghost predicate RespacedAt(q: seq<string>, i: nat, r: seq<string>, gapKey: string) {
    exists from: nat, to: nat, k :: RespacedWithin(q, from, i, to, k, r, gapKey)
  }

  ghost predicate RespacedWithin(q: seq<string>, from: nat, i: nat, to: nat, k: Option<nat>, r: seq<string>,
                                 gapKey: string)
  {
    && i <= |q| && WindowBounds(|q|, i, k, from, to) && Respaced(q, from, i, to, r, gapKey)
    && k in {Some(RESPACE_WINDOW), Some(4 * RESPACE_WINDOW), None}
    && (k.Some? ==> |gapKey| <= RESPACE_TARGET && NoLongerThan(r[from..to], RESPACE_TARGET))
  }

  /** A key drawn for a gap falls into it. */
  lemma FitsGap(order: Rows, i: nat, prev: Bound, nxt: Bound, k: string)
    requires Gap(KeySeq(order), i, prev, nxt) && Fits(prev, nxt, k)
    ensures FallsAt(KeySeq(order), i, k) && k !in order
  {
    FallsApart(KeySeq(order), i, k);
  }

  /** The three row families agree: an index of exactly the ids that hold data. */
  ghost predicate Sound<V>(data: map<Segment, V>, order: Rows, pos: Positions) {
    Indexed(order, pos) && pos.Keys == data.Keys
  }

  lemma Present<V>(data: map<Segment, V>, order: Rows, pos: Positions, id: Segment)
    requires Sound(data, order, pos)
    ensures id in pos <==> id in IdSeq(order)
    ensures id in pos <==> id in data
    ensures id in pos ==> pos[id] in order
  {
    ListsPositions(order, pos);
  }

  lemma PresentData<V>(data: map<Segment, V>, order: Rows, pos: Positions, id: Segment)
    requires Sound(data, order, pos)
    ensures id in pos <==> id in data
  {
  }

  /** An allot leaves the rows agreeing, and ready for an id they do not hold yet. */
  lemma InsertLands<V>(data: map<Segment, V>, rows: Rows, pos: Positions, r: Rows, p: Positions,
                       id: Segment, i: nat, k: string, value: V)
    requires Sound(data, rows, pos) && id !in pos && SameIndex(rows, pos, r, p)
    requires IsOrderKey(k) && FallsAt(KeySeq(r), i, k)
    ensures Sound(data, r, p) && IdSeq(r) == IdSeq(rows) && p[id := k] - {id} == p
    ensures Sound(data[id := value], r[k := id], p[id := k])
    ensures i <= |IdSeq(rows)| && IdSeq(r[k := id]) == InsertAt(IdSeq(rows), i, id)
  {
    hide Ascending, IsOrderKey, FallsAt, KeySeq, IdSeq, Indexed, SameIndex, InsertAt, IndexedBut;
    SameIds(rows, pos, r, p);
    IndexedHasNone(rows, pos, id);
    SameIndexBut(rows, pos, r, p, id);
    SameIndexIndexed(rows, pos, r, p);
    IndexedAt(r, p, id, i, k);
  }

  /** Taking out a value an insert left behind restores the values there were. */
  lemma Undone<V>(before: map<Segment, V>, after: map<Segment, V>, order: Rows, pos: Positions, id: Segment)
    requires Sound(before, order, pos) && id !in pos && after - {id} == before - {id}
    ensures after - {id} == before
  {
    PresentData(before, order, pos, id);
  }

  lemma PlaceGap(order: Rows, i: nat)
    requires i <= |order|
    ensures Gap(KeySeq(order), i, Okey(RowBelow(order, i)), Okey(RowAbove(order, i)))
  {
  }

  /** The gaps before the first row and after the last. */
  lemma EdgeGaps(order: Rows)
    ensures Gap(KeySeq(order), 0, None, Okey(RowAbove(order, 0)))
    ensures Gap(KeySeq(order), |order|, Okey(RowBelow(order, |order|)), None)
  {
    PlaceGap(order, 0);
    PlaceGap(order, |order|);
  }

  /** Where an id stands: its row, and the gaps on its two sides. */
  lemma SoundIndex<V>(data: map<Segment, V>, order: Rows, pos: Positions, id: Segment)
    requires Sound(data, order, pos) && id in pos
    ensures id in IdSeq(order)
    ensures var i := IndexOf(IdSeq(order), id);
            && i < |order| && KeySeq(order)[i] == pos[id]
            && Gap(KeySeq(order), i, Okey(RowBelow(order, i)), Some(pos[id]))
            && Gap(KeySeq(order), i + 1, Some(pos[id]), Okey(RowAbove(order, i + 1)))
  {
    hide Ascending, Linked, Covered, KeySeq, RowAt;
    PositionIndex(order, pos, id);
    var i := IndexOf(IdSeq(order), id);
    PlaceGap(order, i);
    PlaceGap(order, i + 1);
  }

  /** Taking an id out of all three row families takes it out of the list, and nothing else. */
  lemma SoundWithout<V>(data: map<Segment, V>, order: Rows, pos: Positions, id: Segment)
    requires Sound(data, order, pos) && id in pos
    ensures id in IdSeq(order) && Sound(data - {id}, order - {pos[id]}, pos - {id})
    ensures IdSeq(order - {pos[id]}) == Without(IdSeq(order), id)
  {
    Unindexed(order, pos, id);
  }

  /** The row beside a gap carries an id's key exactly if the id stands there, and then it need not move. */
  lemma RowIsOwn<V>(data: map<Segment, V>, order: Rows, pos: Positions, id: Segment, i: nat, below: bool)
    requires Sound(data, order, pos) && id in pos && id in IdSeq(order) && i <= |order|
    ensures var row, j := if below then RowBelow(order, i) else RowAbove(order, i), IndexOf(IdSeq(order), id);
            && (row.Some? && row.value.okey == pos[id] <==> j == if below then i - 1 else i)
            && (j == i || j == i - 1 ==> Moved(IdSeq(order), id, i) == IdSeq(order))
  {
    PositionIndex(order, pos, id);
    AscendingNoRepeats(KeySeq(order));
  }

  /** After a put, and the hook if the id is new, the rows agree again. */
  lemma PutLands<V>(data: map<Segment, V>, rows: Rows, pos: Positions, r: Rows, p: Positions, id: Segment, value: V)
    requires Sound(data, rows, pos)
    requires if id in data then r == rows && p == pos else Indexed(r, p) && p.Keys == pos.Keys + {id}
    ensures Sound(data[id := value], r, p) && Indexed(r, p) && id in p
  {
    hide Indexed;
  }

  /** The order rows once all of them were dropped and written again at other keys. */
  function Rekeyed(order: Rows, keys: seq<string>): Rows
    requires |keys| == |order|
  {
    PutAll(Dropped(order, KeySeq(order)), keys, IdSeq(order))
  }

  /** Fresh keys for every row: the rows agree and list the same ids. */
  lemma RespaceKeeps<V>(data: map<Segment, V>, order: Rows, pos: Positions, keys: seq<string>)
    requires Sound(data, order, pos) && |keys| == |order| && Ascending(keys) && AllFit(None, None, keys)
    ensures Sound(data, Rekeyed(order, keys), PutAll(pos, IdSeq(order), keys))
    ensures IdSeq(Rekeyed(order, keys)) == IdSeq(order)
  {
    forall j | 0 <= j < |keys| ensures IsOrderKey(keys[j]) {
      assert Fits(None, None, keys[j]);
    }
    RekeyedWindow(order, keys);
    var r, p := Rekeyed(order, keys), PutAll(pos, IdSeq(order), keys);
    hide *;
    SoundParts(data, order, pos);
    IndexedLinked(order, pos);
    RewriteSameIndex(order, pos, 0, |order|, keys);
    SameIndexIndexed(order, pos, r, p);
    SameIds(order, pos, r, p);
    SoundFrom(data, r, p);
  }

  lemma RekeyedWindow(order: Rows, keys: seq<string>)
    requires |keys| == |order| && Ascending(keys)
    ensures FreshWindow(KeySeq(order), 0, |order|, keys)
    ensures RewriteOrder(order, 0, |order|, keys) == Rekeyed(order, keys) && IdSeq(order)[0..|order|] == IdSeq(order)
  {
    assert KeySeq(order)[0..|order|] == KeySeq(order) && IdSeq(order)[0..|order|] == IdSeq(order);
  }

  lemma IndexedLinked(order: Rows, pos: Positions)
    requires Indexed(order, pos)
    ensures Linked(order, pos)
  {
  }

  lemma SoundIff<V>(data: map<Segment, V>, order: Rows, pos: Positions)
    ensures Sound(data, order, pos) <==> Indexed(order, pos) && pos.Keys == data.Keys
  {
  }

  lemma AtTheEnd(ids: seq<Segment>, id: Segment)
    ensures InsertAt(ids, |ids|, id) == ids + [id]
  {
  }

  lemma MovedFar(ids: seq<Segment>, id: Segment, i: nat)
    requires id in ids && i <= |ids| && i != IndexOf(ids, id) && i != IndexOf(ids, id) + 1
    ensures Closed(i, IndexOf(ids, id)) < |ids|
    ensures Moved(ids, id, i) == InsertAt(RemoveAt(ids, IndexOf(ids, id)), Closed(i, IndexOf(ids, id)), id)
  {
  }

  lemma SoundDistinct<V>(data: map<Segment, V>, order: Rows, pos: Positions)
    requires Sound(data, order, pos)
    ensures Distinct(IdSeq(order))
  {
    LinkedDistinct(order, pos);
  }

  lemma SoundParts<V>(data: map<Segment, V>, order: Rows, pos: Positions)
    requires Sound(data, order, pos)
    ensures Indexed(order, pos) && pos.Keys == data.Keys
  {
  }

  lemma SoundFrom<V>(data: map<Segment, V>, order: Rows, pos: Positions)
    requires Indexed(order, pos) && pos.Keys == data.Keys
    ensures Sound(data, order, pos)
  {
  }

  lemma SoundLinked<V>(data: map<Segment, V>, order: Rows, pos: Positions)
    requires Sound(data, order, pos)
    ensures Linked(order, pos)
  {
  }

  lemma IndexedButLinked(order: Rows, pos: Positions, id: Segment)
    requires IndexedBut(order, pos, id)
    ensures Linked(order, pos)
  {
  }

  lemma SameIds(order: Rows, pos: Positions, r: Rows, p: Positions)
    requires SameIndex(order, pos, r, p)
    ensures IdSeq(r) == IdSeq(order) && p.Keys == pos.Keys
  {
  }

  class View<V> {
    var created: bool
    var data: map<Segment, V>
    var order: Rows
    var pos: Positions

    /** Order and position rows mirror each other, over exactly the ids that hold data. */
    ghost predicate Valid()
      reads this
    {
      && Sound(data, order, pos)
      && (!created ==> data == map[])
    }

    ghost function Abstract(): Ordered<V>
      reads this
    {
      Ordered(created, IdSeq(order), data)
    }

    constructor ()
      ensures Valid() && Abstract() == Ordered(false, [], map[])
    {
      created, data, order, pos := false, map[], map[], map[];
    }

    lemma ValidIsWellFormed()
      requires Valid()
      ensures OrderedCollection.WellFormed(Abstract())
      ensures forall id :: id in pos <==> id in IdSeq(order)
      ensures forall id :: id in pos ==> pos[id] in order
    {
      LinkedDistinct(order, pos);
      ListsPositions(order, pos);
    }

    // -------------------------------------------------------------------------
    // Order index primitives
    // -------------------------------------------------------------------------

    /** One position put, one order put. */
    method Index(address: Segment, okey: string)
      modifies `order, `pos
      ensures order == old(order)[okey := address] && pos == old(pos)[address := okey]
    {
      pos := pos[address := okey];
      order := order[okey := address];
    }

    method DropRows(rows: seq<Row>, ghost w: seq<string>)
      requires |rows| == |w| && forall j :: 0 <= j < |rows| ==> rows[j].okey == w[j]
      modifies `order
      ensures order == Dropped(old(order), w)
    {
      for j := 0 to |rows|
        invariant order == Dropped(old(order), w[..j])
      {
        assert w[..j + 1] == w[..j] + [w[j]];
        order := order - {rows[j].okey};
      }
      assert w[..|rows|] == w;
    }

    method IndexRun(rows: seq<Row>, keys: seq<string>, ghost ids: seq<Segment>)
      requires |rows| == |keys| == |ids| && forall j :: 0 <= j < |rows| ==> rows[j].id == ids[j]
      modifies `order, `pos
      ensures order == PutAll(old(order), keys, ids) && pos == PutAll(old(pos), ids, keys)
    {
      for j := 0 to |rows|
        invariant order == PutAll(old(order), keys[..j], ids[..j])
        invariant pos == PutAll(old(pos), ids[..j], keys[..j])
      {
        assert keys[..j + 1][..j] == keys[..j] && ids[..j + 1][..j] == ids[..j];
        Index(rows[j].id, keys[j]);
      }
      assert keys[..|rows|] == keys && ids[..|rows|] == ids;
    }

    /**
     Rewrite a window of rows around a gap and return the gap's key: 16 rows a side, else 64,
     else all of them, until the drawn keys are short enough.
     */
    method RespaceAround(prev: Bound, nxt: Bound, ghost i: nat)
      returns (gapKey: string, ghost from: nat, ghost to: nat)
      requires Linked(order, pos) && Gap(KeySeq(order), i, prev, nxt)
      modifies `order, `pos
      ensures SameIndex(old(order), old(pos), order, pos)
      ensures Respaced(old(KeySeq(order)), from, i, to, KeySeq(order), gapKey)
      ensures exists k :: RespacedWithin(old(KeySeq(order)), from, i, to, k, KeySeq(order), gapKey)
    {
      hide *;
      var widths: seq<Option<nat>> := [Some(RESPACE_WINDOW), Some(4 * RESPACE_WINDOW), None];
      var t := 0;
      var below, above, keys := PlanWindow(order, pos, prev, nxt, widths[t], i);
      while widths[t].Some? && LongestKey(keys) > RESPACE_TARGET
        invariant 0 <= t < 3 && order == old(order) && pos == old(pos)
        invariant Planned(order, widths[t], below, above, i, keys)
        decreases 3 - t
      {
        t := t + 1;
        below, above, keys := PlanWindow(order, pos, prev, nxt, widths[t], i);
      }
      PlannedWindow(order, widths[t], below, above, i, keys);
      from, to := i - |below|, i + |above|;
      ghost var q := KeySeq(order);
      RewriteOutcome(order, pos, from, i, to, keys);
      gapKey := RewriteWindow(below, above, keys, i, from, to);
      LongestBounds(keys, RESPACE_TARGET);
      ShortApart(keys, i - from, RESPACE_TARGET);
      WindowIs(q, from, i, to, widths[t], KeySeq(order), gapKey);
    }

    static lemma WindowIs(q: seq<string>, from: nat, i: nat, to: nat, k: Option<nat>, r: seq<string>, gapKey: string)
      requires i <= |q| && WindowBounds(|q|, i, k, from, to) && Respaced(q, from, i, to, r, gapKey)
      requires k in {Some(RESPACE_WINDOW), Some(4 * RESPACE_WINDOW), None}
      requires k.Some? ==> |gapKey| <= RESPACE_TARGET && NoLongerThan(r[from..to], RESPACE_TARGET)
      ensures RespacedWithin(q, from, i, to, k, r, gapKey)
    {
    }

    /** Delete the window's order rows, then index its ids at the drawn keys, around the gap's own key. */
    method RewriteWindow(below: seq<Row>, above: seq<Row>, keys: seq<string>, ghost i: nat, ghost from: nat,
                         ghost to: nat)
      returns (gapKey: string)
      requires from + |below| == i && i + |above| == to <= |order| && |keys| == to - from + 1
      requires forall j :: 0 <= j < to - from ==> (below + above)[j].okey == KeySeq(order)[from..to][j]
      requires forall j :: 0 <= j < |below| ==> below[j].id == IdSeq(order)[from..i][j]
      requires forall j :: 0 <= j < |above| ==> above[j].id == IdSeq(order)[i..to][j]
      modifies `order, `pos
      ensures order == RewriteOrder(old(order), from, to, RemoveAt(keys, i - from))
      ensures pos == PutAll(old(pos), IdSeq(old(order))[from..to], RemoveAt(keys, i - from))
      ensures gapKey == keys[i - from]
    {
      ghost var rows0, pos0 := order, pos;
      var nb := |below|;
      DropRows(below + above, KeySeq(order)[from..to]);
      IndexRun(below, keys[..nb], IdSeq(rows0)[from..i]);
      gapKey := keys[nb];
      IndexRun(above, keys[nb + 1..], IdSeq(rows0)[i..to]);
      RewrittenInTwoRuns(rows0, pos0, from, i, to, keys);
    }

    /** What a plan hands to the rewrite: each row's key and id, and one key more than rows. */
    static lemma PlannedWindow(rows: Rows, k: Option<nat>, below: seq<Row>, above: seq<Row>, i: nat, keys: seq<string>)
      requires Planned(rows, k, below, above, i, keys)
      ensures |below| <= i && |above| <= |rows| - i
      ensures WindowBounds(|rows|, i, k, i - |below|, i + |above|)
      ensures WindowKeys(KeySeq(rows), i - |below|, i, i + |above|, keys)
      ensures |keys| == |below| + |above| + 1
      ensures forall j :: 0 <= j < |below| + |above| ==>
            (below + above)[j].okey == KeySeq(rows)[i - |below|..i + |above|][j]
      ensures forall j :: 0 <= j < |below| ==> below[j].id == IdSeq(rows)[i - |below|..i][j]
      ensures forall j :: 0 <= j < |above| ==> above[j].id == IdSeq(rows)[i..i + |above|][j]
    {
      hide IsOrderKey, Less, IdSeq, KeySeq;
    }

    static lemma RewrittenInTwoRuns(rows: Rows, pos: Positions, from: nat, i: nat, to: nat, keys: seq<string>)
      requires from <= i <= to <= |rows| && |keys| == to - from + 1
      ensures var ids, nb := IdSeq(rows), i - from;
              var base := Dropped(rows, KeySeq(rows)[from..to]);
              && PutAll(PutAll(base, keys[..nb], ids[from..i]), keys[nb + 1..], ids[i..to])
                 == RewriteOrder(rows, from, to, RemoveAt(keys, nb))
              && PutAll(PutAll(pos, ids[from..i], keys[..nb]), ids[i..to], keys[nb + 1..])
                 == PutAll(pos, ids[from..to], RemoveAt(keys, nb))
    {
      var ids, nb := IdSeq(rows), i - from;
      assert ids[from..to] == ids[from..i] + ids[i..to];
      PutAllConcat(Dropped(rows, KeySeq(rows)[from..to]), keys[..nb], ids[from..i], keys[nb + 1..], ids[i..to]);
      PutAllConcat(pos, ids[from..i], keys[..nb], ids[i..to], keys[nb + 1..]);
    }

    /** A rewrite at keys drawn for the window keeps the index and leaves the gap's key free. */
    static lemma RewriteOutcome(rows: Rows, pos: Positions, from: nat, i: nat, to: nat, keys: seq<string>)
      requires Linked(rows, pos) && WindowKeys(KeySeq(rows), from, i, to, keys)
      ensures var news := RemoveAt(keys, i - from);
              var r := RewriteOrder(rows, from, to, news);
              && SameIndex(rows, pos, r, PutAll(pos, IdSeq(rows)[from..to], news))
              && Respaced(KeySeq(rows), from, i, to, KeySeq(r), keys[i - from])
              && KeySeq(r)[from..to] == news
    {
      var news := RemoveAt(keys, i - from);
      RewrittenWindow(KeySeq(rows), from, to, news);
      hide *;
      WindowRespaced(KeySeq(rows), from, i, to, keys);
      NewKeysValid(KeySeq(rows), from, i, to, keys);
      RewriteKeepsIds(rows, from, to, news);
      RewriteSameIndex(rows, pos, from, to, news);
    }

    static lemma RewrittenWindow(q: seq<string>, from: nat, to: nat, news: seq<string>)
      requires from <= to <= |q| && |news| == to - from
      ensures |Rewritten(q, from, to, news)| == |q| && Rewritten(q, from, to, news)[from..to] == news
    {
    }

    static lemma NewKeysValid(q: seq<string>, from: nat, i: nat, to: nat, keys: seq<string>)
      requires WindowKeys(q, from, i, to, keys)
      ensures var news := RemoveAt(keys, i - from);
              forall j :: 0 <= j < |news| ==> IsOrderKey(news[j])
    {
      var news := RemoveAt(keys, i - from);
      FitWithout(LowSide(q, from), HighSide(q, to), keys, i - from);
      assert forall j :: 0 <= j < |news| ==> Fits(LowSide(q, from), HighSide(q, to), news[j]);
    }

    /** A free key for the gap, respacing the rows around it first when the drawn key is too long. */
    method Allot(prev: Bound, nxt: Bound, ghost i: nat) returns (r: Result<string>, ghost drawn: string)
      requires Linked(order, pos) && Gap(KeySeq(order), i, prev, nxt)
      modifies `order, `pos
      ensures SameIndex(old(order), old(pos), order, pos)
      ensures r.Ok? && IsOrderKey(r.value) && FallsAt(KeySeq(order), i, r.value) && r.value !in order
      ensures |drawn| <= MAX_KEY_LENGTH ==> r.value == drawn && order == old(order) && pos == old(pos)
      ensures |drawn| > MAX_KEY_LENGTH ==> RespacedAt(old(KeySeq(order)), i, KeySeq(order), r.value)
    {
      SidesValid(order, pos, i, i);
      for attempt := 0 to ALLOT_ATTEMPTS
        invariant attempt == 0 && order == old(order) && pos == old(pos)
      {
        var one := GenerateSuffixedKeyBetween(prev, nxt, SUFFIX_LENGTH);
        if one.Err? {
          return one, "";
        }
        var okey := one.value;
        if |okey| > MAX_KEY_LENGTH {
          var gapKey, _, _ := RespaceAround(prev, nxt, i);
          return Ok(gapKey), okey;
        }
        FitsGap(order, i, prev, nxt, okey);
        if okey !in order {
          return Ok(okey), okey;
        }
      }
      return Err(RuntimeError), "";
    }

    /** Give an id a fresh key in a gap. */
    method Place(id: Segment, prev: Bound, nxt: Bound, ghost i: nat)
      requires IndexedBut(order, pos, id) && Gap(KeySeq(order), i, prev, nxt)
      modifies `order, `pos
      ensures Indexed(order, pos) && IdSeq(order) == InsertAt(old(IdSeq(order)), i, id)
      ensures pos.Keys == old(pos.Keys) + {id}
    {
      hide *;
      IndexedButLinked(order, pos, id);
      var okey, _ := Allot(prev, nxt, i);
      SameIndexBut(old(order), old(pos), order, pos, id);
      IndexedAt(order, pos, id, i, okey.value);
      SameIds(old(order), old(pos), order, pos);
      Index(id, okey.value);
    }

    /** Move an id into a gap of other rows. */
    method Relocate(id: Segment, okey: string, prev: Bound, nxt: Bound, ghost i: nat)
      requires Sound(data, order, pos) && id in pos && okey == pos[id] && Gap(KeySeq(order), i, prev, nxt)
      requires id in IdSeq(order) && i <= |order|
      requires IndexOf(IdSeq(order), id) != i && IndexOf(IdSeq(order), id) != i - 1
      modifies `order, `pos
      ensures Sound(data, order, pos) && IdSeq(order) == Moved(old(IdSeq(order)), id, i)
    {
      hide *;
      ghost var j := IndexOf(IdSeq(order), id);
      SoundParts(data, order, pos);
      Unindexed(order, pos, id);
      GapAfterRemove(KeySeq(order), j, i, prev, nxt);
      MovedFar(IdSeq(order), id, i);
      order := order - {okey};
      Place(id, prev, nxt, Closed(i, j));
      SoundFrom(data, order, pos);
    }

    /** Move an id into a gap, unless the row on that side of the gap is the id's own. */
    method MoveIntoGap(id: Segment, row: Option<Row>, prev: Bound, nxt: Bound, ghost i: nat, ghost below: bool)
      requires Sound(data, order, pos) && id in pos && id in IdSeq(order)
      requires i <= |order| && Gap(KeySeq(order), i, prev, nxt)
      requires row == if below then RowBelow(order, i) else RowAbove(order, i)
      requires IndexOf(IdSeq(order), id) != if below then i else i - 1
      modifies `order, `pos
      ensures Sound(data, order, pos) && IdSeq(order) == Moved(old(IdSeq(order)), id, i)
    {
      hide *;
      RowIsOwn(data, order, pos, id, i, below);
      if row.Some? && row.value.okey == pos[id] {
        return;
      }
      Relocate(id, pos[id], prev, nxt, i);
    }

    /** The creation hook: a new child with no position yet is appended. */
    method OnChildCreated(id: Segment)
      requires Indexed(order, pos) || id in pos
      modifies `order, `pos
      ensures id in old(pos) ==> order == old(order) && pos == old(pos)
      ensures id !in old(pos) ==> Indexed(order, pos) && IdSeq(order) == old(IdSeq(order)) + [id]
      ensures pos.Keys == old(pos.Keys) + {id}
    {
      hide Indexed, IndexedBut, IdSeq, KeySeq, Gap, InsertAt;
      if id in pos {
        return;
      }
      IndexedHasNone(order, pos, id);
      var last := Edge(order, true);
      EdgeGaps(order);
      AtTheEnd(IdSeq(order), id);
      Place(id, Okey(last), None, |order|);
    }

    /** Write a value; the hook fires for an id whose data is new. */
    method PutValue(id: Segment, value: V)
      requires Indexed(order, pos) || id in pos
      modifies this
      ensures created == old(created) && data == old(data)[id := value]
      ensures id in old(data) || id in old(pos) ==> order == old(order) && pos == old(pos)
      ensures id !in old(data) && id !in old(pos) ==>
                Indexed(order, pos) && IdSeq(order) == old(IdSeq(order)) + [id] && pos.Keys == old(pos.Keys) + {id}
    {
      hide *;
      var exists_ := id in data;
      data := data[id := value];
      if !exists_ {
        OnChildCreated(id);
      }
    }

    /** Write a value that may fail half way, with some of it left behind. */
    method WriteValue(id: Segment, value: V, fault: Fault<V>) returns (ok: bool)
      requires id in pos
      modifies this
      ensures created == old(created) && order == old(order) && pos == old(pos)
      ensures ok == fault.NoFault?
      ensures ok ==> data == old(data)[id := value]
      ensures data - {id} == old(data) - {id}
    {
      match fault
      case NoFault =>
        PutValue(id, value);
        return true;
      case Fails(partial) =>
        if partial.Some? {
          PutValue(id, partial.value);
        }
        return false;
    }

    /** Refuse an id that is listed; a position no order row backs is stale and does not count. */
    method InsertInGap(id: Segment, value: V, fault: Fault<V>, prev: Bound, nxt: Bound, ghost i: nat)
      returns (out: Outcome)
      requires Valid() && created && i <= |order| && Gap(KeySeq(order), i, prev, nxt)
      modifies this
      ensures Valid()
      ensures (Abstract(), out) == OrderedCollection.Insert(old(Abstract()), i, id, value, fault)
    {
      hide Ascending, Sound, IdSeq, KeySeq, Gap, InsertAt;
      Present(data, order, pos, id);
      if id in pos && pos[id] in order {
        return Raised(ValueError);
      }
      var ok := InsertNew(id, value, fault, prev, nxt, i);
      return if ok then Done else Raised(WriteFailure);
    }

    /** Undo a failed insert: the position, and whatever the value write left behind. */
    method TakeBack(id: Segment)
      modifies `pos, `data
      ensures pos == old(pos) - {id} && data == old(data) - {id}
    {
      pos := pos - {id};
      data := data - {id};
    }

    /** Value, then order row; a failed value write undoes the position. */
    method Complete(id: Segment, value: V, fault: Fault<V>, okey: string) returns (ok: bool)
      requires id in pos
      modifies this
      ensures ok == fault.NoFault? && created == old(created)
      ensures ok ==> data == old(data)[id := value] && order == old(order)[okey := id] && pos == old(pos)
      ensures !ok ==> data == old(data) - {id} && order == old(order) && pos == old(pos) - {id}
    {
      ok := WriteValue(id, value, fault);
      if ok {
        order := order[okey := id];
      } else {
        TakeBack(id);
      }
    }

    /** Position, then value and order row. */
    method InsertNew(id: Segment, value: V, fault: Fault<V>, prev: Bound, nxt: Bound, ghost i: nat) returns (ok: bool)
      requires Sound(data, order, pos) && id !in pos && i <= |order| && Gap(KeySeq(order), i, prev, nxt)
      modifies this
      ensures ok == fault.NoFault? && Sound(data, order, pos) && created == old(created)
      ensures ok ==> IdSeq(order) == InsertAt(old(IdSeq(order)), i, id) && data == old(data)[id := value]
      ensures !ok ==> IdSeq(order) == old(IdSeq(order)) && data == old(data)
    {
      hide *;
      SoundLinked(data, order, pos);
      var okey, _ := Allot(prev, nxt, i);
      InsertLands(data, old(order), old(pos), order, pos, id, i, okey.value, value);
      Undone(old(data), old(data), old(order), old(pos), id);
      pos := pos[id := okey.value];
      ok := Complete(id, value, fault, okey.value);
    }

    // -------------------------------------------------------------------------
    // Operations
    // -------------------------------------------------------------------------

    /** Set a value: a new id is appended, a known one keeps its place. */
    method SetItem(id: Segment, value: V)
      requires Valid()
      modifies this
      ensures Valid() && (Abstract(), Done) == SetTo(old(Abstract()), id, value)
      ensures id in data && data[id] == value && OthersKept(old(data), data, id) && created
      ensures IdSeq(order) == if id in old(IdSeq(order)) then old(IdSeq(order)) else old(IdSeq(order)) + [id]
    {
      hide Ascending, Sound, IdSeq, KeySeq, Indexed;
      Present(data, order, pos, id);
      SoundParts(data, order, pos);
      created := true;
      PutValue(id, value);
      PutLands(old(data), old(order), old(pos), order, pos, id, value);
      EnsurePositioned(id);
    }

    /** Append an id whose data has no position. */
    method EnsurePositioned(id: Segment)
      requires Indexed(order, pos)
      modifies `order, `pos
      ensures id in old(pos) ==> order == old(order) && pos == old(pos)
      ensures id !in old(pos) ==> Indexed(order, pos) && IdSeq(order) == old(IdSeq(order)) + [id]
      ensures pos.Keys == old(pos.Keys) + {id}
    {
      hide *;
      OnChildCreated(id);
    }

    method Append(id: Segment, value: V, fault: Fault<V>) returns (out: Outcome)
      requires Valid()
      modifies this
      ensures Valid() && (Abstract(), out) == OrderedCollection.Insert(old(Abstract()), |old(order)|, id, value, fault)
    {
      hide Ascending, Sound, IdSeq, KeySeq, Gap, RowBelow, RowAbove, InsertAt;
      created := true;
      var last := Edge(order, true);
      EdgeGaps(order);
      out := InsertInGap(id, value, fault, Okey(last), None, |order|);
    }

    method Prepend(id: Segment, value: V, fault: Fault<V>) returns (out: Outcome)
      requires Valid()
      modifies this
      ensures Valid() && (Abstract(), out) == OrderedCollection.Insert(old(Abstract()), 0, id, value, fault)
    {
      hide Ascending, Sound, IdSeq, KeySeq, Gap, RowBelow, RowAbove, InsertAt;
      created := true;
      var first := Edge(order, false);
      EdgeGaps(order);
      out := InsertInGap(id, value, fault, None, Okey(first), 0);
    }

    method InsertBefore(ref: Segment, id: Segment, value: V, fault: Fault<V>) returns (out: Outcome)
      requires Valid()
      modifies this
      ensures Valid() && (Abstract(), out) == InsertBeside(old(Abstract()), ref, 0, id, value, fault)
    {
      hide Ascending, Sound, IdSeq, KeySeq, Gap, RowBelow, RowAbove, InsertAt;
      Present(data, order, pos, ref);
      if ref !in pos {
        return Raised(KeyError);
      }
      SoundIndex(data, order, pos, ref);
      created := true;
      var prev := Neighbour(order, pos[ref], true, IndexOf(IdSeq(order), ref));
      out := InsertInGap(id, value, fault, Okey(prev), Some(pos[ref]), IndexOf(IdSeq(order), ref));
    }

    method InsertAfter(ref: Segment, id: Segment, value: V, fault: Fault<V>) returns (out: Outcome)
      requires Valid()
      modifies this
      ensures Valid() && (Abstract(), out) == InsertBeside(old(Abstract()), ref, 1, id, value, fault)
    {
      hide Ascending, Sound, IdSeq, KeySeq, Gap, RowBelow, RowAbove, InsertAt;
      Present(data, order, pos, ref);
      if ref !in pos {
        return Raised(KeyError);
      }
      SoundIndex(data, order, pos, ref);
      created := true;
      var nxt := Neighbour(order, pos[ref], false, IndexOf(IdSeq(order), ref));
      out := InsertInGap(id, value, fault, Some(pos[ref]), Okey(nxt), IndexOf(IdSeq(order), ref) + 1);
    }

    method Delete(id: Segment) returns (out: Outcome)
      requires Valid()
      modifies this
      ensures Valid() && (Abstract(), out) == Remove(old(Abstract()), id)
    {
      hide Ascending, Sound, IdSeq, KeySeq, RemoveAt;
      Present(data, order, pos, id);
      if id !in pos {
        if id !in data {
          return Raised(KeyError);
        }
      } else {
        SoundWithout(data, order, pos, id);
        order := order - {pos[id]};
        pos := pos - {id};
      }
      data := data - {id};
      return Done;
    }

    method Clear() returns (out: Outcome)
      requires Valid()
      modifies this
      ensures Valid() && (Abstract(), out) == Apply(old(Abstract()), Op<V>.Clear)
    {
      if created {
        data, order, pos := map[], map[], map[];
      }
      return Done;
    }

    // -------------------------------------------------------------------------
    // Moves: the value stays, the order row is rewritten
    // -------------------------------------------------------------------------

    /** Take the gap on one side of `ref`, unless the id stands there. */
    method MoveNextTo(id: Segment, ref: Segment, after: nat)
      requires Sound(data, order, pos) && id in pos && ref in pos && id != ref && after <= 1
      modifies `order, `pos
      ensures Sound(data, order, pos)
      ensures id in old(IdSeq(order)) && ref in Without(old(IdSeq(order)), id)
      ensures IdSeq(order) == Beside(old(IdSeq(order)), id, ref, after)
    {
      hide *;
      Present(data, order, pos, id);
      Present(data, order, pos, ref);
      SoundIndex(data, order, pos, ref);
      SoundDistinct(data, order, pos);
      MovedBeside(IdSeq(order), id, ref, after);
      ghost var r := IndexOf(IdSeq(order), ref);
      var refKey := pos[ref];
      var row := Neighbour(order, refKey, after == 0, r);
      if after == 0 {
        MoveIntoGap(id, row, Okey(row), Some(refKey), r, true);
      } else {
        MoveIntoGap(id, row, Some(refKey), Okey(row), r + 1, false);
      }
    }

    method MoveBefore(id: Segment, ref: Segment) returns (out: Outcome)
      requires Valid()
      modifies this
      ensures Valid() && (Abstract(), out) == MoveBeside(old(Abstract()), id, ref, 0)
    {
      hide Sound, Ascending, IdSeq, KeySeq, Beside, Without, IndexOf;
      Present(data, order, pos, id);
      if id !in pos {
        return Raised(KeyError);
      }
      if id == ref {
        return Done;
      }
      Present(data, order, pos, ref);
      if ref !in pos {
        return Raised(KeyError);
      }
      MoveNextTo(id, ref, 0);
      return Done;
    }

    method MoveAfter(id: Segment, ref: Segment) returns (out: Outcome)
      requires Valid()
      modifies this
      ensures Valid() && (Abstract(), out) == MoveBeside(old(Abstract()), id, ref, 1)
    {
      hide Sound, Ascending, IdSeq, KeySeq, Beside, Without, IndexOf;
      Present(data, order, pos, id);
      if id !in pos {
        return Raised(KeyError);
      }
      if id == ref {
        return Done;
      }
      Present(data, order, pos, ref);
      if ref !in pos {
        return Raised(KeyError);
      }
      MoveNextTo(id, ref, 1);
      return Done;
    }

    method MoveFirst(id: Segment) returns (out: Outcome)
      requires Valid()
      modifies this
      ensures Valid() && (Abstract(), out) == MoveToEnd(old(Abstract()), id, false)
    {
      hide Sound, Ascending, IdSeq, KeySeq, Gap, RowAt, RowBelow, RowAbove, Okey, InsertAt, Beside, Without, Moved,
          IndexOf, Distinct;
      Present(data, order, pos, id);
      if id !in pos {
        return Raised(KeyError);
      }
      var first := Edge(order, false);
      SoundIndex(data, order, pos, id);
      MovedEnds(IdSeq(order), id);
      EdgeGaps(order);
      MoveIntoGap(id, first, None, Okey(first), 0, false);
      return Done;
    }

    method MoveLast(id: Segment) returns (out: Outcome)
      requires Valid()
      modifies this
      ensures Valid() && (Abstract(), out) == MoveToEnd(old(Abstract()), id, true)
    {
      hide Sound, Ascending, IdSeq, KeySeq, Gap, RowAt, RowBelow, RowAbove, Okey, InsertAt, Beside, Without, Moved,
          IndexOf, Distinct;
      Present(data, order, pos, id);
      if id !in pos {
        return Raised(KeyError);
      }
      var last := Edge(order, true);
      SoundIndex(data, order, pos, id);
      MovedEnds(IdSeq(order), id);
      EdgeGaps(order);
      MoveIntoGap(id, last, Okey(last), None, |order|, true);
      return Done;
    }

    /** Rewrite every order key. The order is kept. */
    method Respace() returns (out: Outcome)
      requires Valid()
      modifies this
      ensures Valid() && (Abstract(), out) == (old(Abstract()), Done)
    {
      hide Ascending, Sound, IdSeq, KeySeq, PutAll, Rekeyed, StorageScan, Kept, AllFit;
      var rows := ScanOrder(order, None, false, None, []);
      ScansAll(order, rows);
      if rows == [] {
        return Done;
      }
      var keys := GenerateNSuffixedKeysBetween(None, None, |rows|, SUFFIX_LENGTH);
      RespaceKeeps(data, order, pos, keys.value);
      RekeyAll(rows, keys.value);
      return Done;
    }

    method RekeyAll(rows: seq<Row>, keys: seq<string>)
      requires |rows| == |keys| == |order|
      requires forall j :: 0 <= j < |rows| ==> rows[j].okey == KeySeq(order)[j]
      requires forall j :: 0 <= j < |rows| ==> rows[j].id == IdSeq(order)[j]
      modifies `order, `pos
      ensures order == Rekeyed(old(order), keys) && pos == PutAll(old(pos), old(IdSeq(order)), keys)
    {
      hide Ascending, IdSeq, KeySeq, PutAll, Dropped;
      ghost var ids := IdSeq(order);
      DropRows(rows, KeySeq(order));
      IndexRun(rows, keys, ids);
    }

    /** Any operation acts as its plain counterpart, and keeps the rows agreeing. */
    method Perform(op: Op<V>) returns (out: Outcome)
      requires Valid()
      modifies this
      ensures Valid() && (Abstract(), out) == Apply(old(Abstract()), op)
    {
      hide Sound, Ascending, SetTo, OrderedCollection.Insert, InsertBeside, MoveBeside, MoveToEnd, Remove, IdSeq;
      match op
      case Set(id, value) =>
        SetItem(id, value);
        out := Done;
      case Append(id, value, fault) => out := Append(id, value, fault);
      case Prepend(id, value, fault) => out := Prepend(id, value, fault);
      case InsertBefore(ref, id, value, fault) => out := InsertBefore(ref, id, value, fault);
      case InsertAfter(ref, id, value, fault) => out := InsertAfter(ref, id, value, fault);
      case MoveBefore(id, ref) => out := MoveBefore(id, ref);
      case MoveAfter(id, ref) => out := MoveAfter(id, ref);
      case MoveFirst(id) => out := MoveFirst(id);
      case MoveLast(id) => out := MoveLast(id);
      case Delete(id) => out := Delete(id);
      case Clear => out := Clear();
      case Respace => out := Respace();
    }

    /** Over any run the view is the list and the map, outcome for outcome. */
    method Run(ops: seq<Op<V>>) returns (outs: seq<Outcome>)
      requires Valid()
      modifies this
      ensures Valid() && (Abstract(), outs) == ApplyAll(old(Abstract()), ops)
      ensures Remembers(old(data), ops, outs, data)
    {
      hide Remembers, OrderedCollection.WellFormed, Apply;
      ghost var start := Abstract();
      ValidIsWellFormed();
      outs := [];
      for n := 0 to |ops|
        invariant Valid() && (Abstract(), outs) == ApplyAll(start, ops[..n])
      {
        assert ops[..n + 1][..n] == ops[..n];
        var out := Perform(ops[n]);
        outs := outs + [out];
      }
      assert ops[..|ops|] == ops;
      RunRemembers(start, ops);
    }

    // -------------------------------------------------------------------------
    // Repair
    // -------------------------------------------------------------------------

    /** First pass: keep the first order row of every id that holds data, drop the others. */
    method KeepFirstRows(present: set<Segment>) returns (seen: map<Segment, string>)
      requires forall k :: k in order ==> IsOrderKey(k)
      modifies `order
      ensures Indexed(order, seen) && IdSeq(order) == FirstEntries(old(IdSeq(order)), present)
      ensures AllCurrent(old(order), present) ==> order == old(order)
    {
      hide *;
      var rows := ScanOrder(order, None, false, None, []);
      ScansRows(order, rows);
      seen := map[];
      RecordsNothing(order, rows, present);
      for i := 0 to |rows|
        invariant Records(seen, FirstRows(rows[..i], present))
        invariant order == Dropped(old(order), Lost(rows[..i], present))
      {
        PassStep(rows, i, present, seen);
        DropOneMore(old(order), Lost(rows[..i], present), rows[i].okey);
        if rows[i].id in present && rows[i].id !in seen {
          seen := seen[rows[i].id := rows[i].okey];
        } else {
          order := order - {rows[i].okey};
        }
      }
      assert rows[..|rows|] == rows;
      FirstPass(old(order), rows, present, seen);
      NothingDropped(old(order), rows, present);
    }

    /** Second pass: drop the positions of ids not kept, realign the others. */
    method Realign(seen: map<Segment, string>)
      modifies `pos
      ensures pos == Realigned(old(pos), seen)
    {
      var todo := pos.Keys;
      while todo != {}
        invariant Realigning(old(pos), pos, seen, todo)
        decreases todo
      {
        var id :| id in todo;
        if id !in seen {
          pos := pos - {id};
        } else if pos[id] != seen[id] {
          pos := pos[id := seen[id]];
        }
        todo := todo - {id};
      }
    }

    /** Third pass: append the ids the index never recorded, in listing order. */
    method AppendUnrecorded(keys: seq<Segment>, seen: map<Segment, string>)
      requires Appendable(order, pos, keys, seen.Keys)
      modifies `order, `pos
      ensures Appending(old(order), old(pos), order, pos, keys, |keys|, seen.Keys)
    {
      hide *;
      AppendingStart(order, pos, keys, seen.Keys);
      for i := 0 to |keys|
        invariant Appending(old(order), old(pos), order, pos, keys, i, seen.Keys)
      {
        ghost var order1, pos1 := order, pos;
        if keys[i] !in seen {
          AppendingReady(old(order), old(pos), order, pos, keys, i, seen.Keys);
          OnChildCreated(keys[i]);
        }
        AppendingMore(old(order), old(pos), order1, pos1, order, pos, keys, i, seen.Keys);
      }
    }

    /**
     Rebuild the index from the data, whatever the order and position rows hold. First entries keep
     their order, ids never recorded follow in listing order. The rows agree afterwards exactly if
     every kept id had some position row; with ids to append that is assumed, because an append may
     respace the rows it lands beside.
     */
    method RebuildBookkeeping(keys: seq<Segment>)
      requires NoRepeats(keys) && (forall id :: id in keys <==> id in data)
      requires forall k :: k in order ==> IsOrderKey(k)
      requires PositionsKept(data.Keys, order, pos)
            || Unrecorded(keys, Elements(FirstEntries(IdSeq(order), data.Keys))) == []
      modifies `order, `pos
      ensures var kept := FirstEntries(old(IdSeq(order)), data.Keys);
              IdSeq(order) == kept + Unrecorded(keys, Elements(kept))
      ensures Relisted(old(IdSeq(order)), keys, data.Keys, IdSeq(order))
      ensures Sound(data, order, pos) <==> PositionsKept(data.Keys, old(order), old(pos))
      ensures Sound(data, old(order), old(pos)) ==> order == old(order) && pos == old(pos)
    {
      hide *;
      var present := data.Keys;
      assert present == Elements(keys);
      RebuildRelists(IdSeq(order), keys, present);
      var seen := KeepFirstRows(present);
      ghost var order1 := order;
      Realign(seen);
      ReadyToAppend(old(order), old(pos), order1, seen, keys, present);
      AppendUnrecorded(keys, seen);
      RebuildOutcome(old(order), old(pos), order1, seen, order, pos, keys, present);
      SoundIff(data, order, pos);
      SoundIff(data, old(order), old(pos));
      if Sound(data, old(order), old(pos)) {
        RebuildIdempotent(old(order), old(pos), order1, seen, order, pos, keys, present);
      }
    }
  }
}
