/** Bulk row rewrites: what the order and position maps hold after a run of puts and deletes. */
module RowMaps {
  import opened Wrappers
  import opened StringOrder
  import opened Segments
  import opened SortedRows
  import opened OrderScans
  import opened OrderedCollection
  import opened OrderKeys
  import opened KeyGeneration

  type Positions = map<Segment, string>

  /** Every order row has a valid key and is the recorded position of its id. */
  predicate Linked(order: Rows, pos: Positions) {
    forall k :: k in order ==> IsOrderKey(k) && order[k] in pos && pos[order[k]] == k
  }

  /** Every position names an order row of its id. */
  predicate Covered(order: Rows, pos: Positions) {
    forall id :: id in pos ==> pos[id] in order && order[pos[id]] == id
  }

  lemma LinkedDistinct(order: Rows, pos: Positions)
    requires Linked(order, pos)
    ensures Distinct(IdSeq(order))
  {
    var q, ids := KeySeq(order), IdSeq(order);
    forall i, j | 0 <= i < j < |ids| ensures ids[i] != ids[j] {
      Irreflexive(q[i]);
      assert pos[ids[i]] == q[i] && pos[ids[j]] == q[j];
    }
  }

  /** The listed ids are exactly the ids with a position. */
  lemma ListsPositions(order: Rows, pos: Positions)
    requires Linked(order, pos) && Covered(order, pos)
    ensures forall id :: id in pos <==> id in IdSeq(order)
  {
    forall id | id in pos ensures id in IdSeq(order) {
      assert pos[id] in KeySeq(order);
      var i :| 0 <= i < |order| && KeySeq(order)[i] == pos[id];
      assert IdSeq(order)[i] == id;
    }
  }

  /** The row of a position, counted from the first. */
  lemma PositionIndex(order: Rows, pos: Positions, id: Segment)
    requires Linked(order, pos) && Covered(order, pos) && id in pos
    ensures id in IdSeq(order)
    ensures KeySeq(order)[IndexOf(IdSeq(order), id)] == pos[id]
  {
    ListsPositions(order, pos);
    var i := IndexOf(IdSeq(order), id);
    assert KeySeq(order)[i] in order;
  }

  /** Puts in sequence. */
  function PutAll<K, V>(m: map<K, V>, ks: seq<K>, vs: seq<V>): map<K, V>
    requires |ks| == |vs|
  {
    if ks == [] then m
    else
      var n := |ks| - 1;
      PutAll(m, ks[..n], vs[..n])[ks[n] := vs[n]]
  }

  /** Deletes in sequence. */
  function Dropped(order: Rows, w: seq<string>): Rows {
    order - (set k | k in w)
  }

  predicate NoRepeats<K(==)>(ks: seq<K>) {
    forall i, j :: 0 <= i < j < |ks| ==> ks[i] != ks[j]
  }

  lemma {:induction false} PutAllHolds<K, V>(m: map<K, V>, ks: seq<K>, vs: seq<V>)
    requires |ks| == |vs| && NoRepeats(ks)
    ensures forall k :: k in PutAll(m, ks, vs) <==> k in m || k in ks
    ensures forall i :: 0 <= i < |ks| ==> PutAll(m, ks, vs)[ks[i]] == vs[i]
    ensures forall k :: k in m && k !in ks ==> PutAll(m, ks, vs)[k] == m[k]
  {
    if ks != [] {
      var n := |ks| - 1;
      PutAllHolds(m, ks[..n], vs[..n]);
      assert ks == ks[..n] + [ks[n]];
      assert forall i :: 0 <= i < n ==> ks[i] == ks[..n][i] && vs[i] == vs[..n][i];
    }
  }

  lemma AscendingNoRepeats(q: seq<string>)
    requires Ascending(q)
    ensures NoRepeats(q)
  {
    forall i, j | 0 <= i < j < |q| ensures q[i] != q[j] {
      Irreflexive(q[i]);
    }
  }

  /** Every key of the first run lies below every key of the second. */
  predicate RunBelow(p: seq<string>, q: seq<string>) {
    forall i, j :: 0 <= i < |p| && 0 <= j < |q| ==> Less(p[i], q[j])
  }

  lemma AscendingConcat(p: seq<string>, q: seq<string>)
    requires Ascending(p) && Ascending(q) && RunBelow(p, q)
    ensures Ascending(p + q)
  {
  }

  lemma Apart(p: seq<string>, q: seq<string>)
    requires RunBelow(p, q)
    ensures forall k :: !(k in p && k in q)
  {
    forall k ensures !(k in p && k in q) {
      Irreflexive(k);
    }
  }

  /** The rows `from .. to` of a scan are replaced by fresh keys for the same ids. */
  function Rewritten(q: seq<string>, from: nat, to: nat, news: seq<string>): (r: seq<string>)
    requires from <= to <= |q| && |news| == to - from
    ensures |r| == |q|
  {
    q[..from] + news + q[to..]
  }

  predicate FreshWindow(q: seq<string>, from: nat, to: nat, news: seq<string>) {
    && from <= to <= |q| && |news| == to - from
    && Ascending(news) && RunBelow(q[..from], news) && RunBelow(news, q[to..])
  }

  /** The order rows after the window was deleted and its ids put at the fresh keys. */
  function RewriteOrder(order: Rows, from: nat, to: nat, news: seq<string>): Rows
    requires from <= to <= |order| && |news| == to - from
  {
    var w := KeySeq(order)[from..to];
    PutAll(Dropped(order, w), news, IdSeq(order)[from..to])
  }

  lemma WindowSplits(q: seq<string>, from: nat, to: nat)
    requires Ascending(q) && from <= to <= |q|
    ensures forall k :: k in q <==> k in q[..from] || k in q[from..to] || k in q[to..]
    ensures RunBelow(q[..from], q[from..to]) && RunBelow(q[from..to], q[to..]) && RunBelow(q[..from], q[to..])
  {
    assert q == q[..from] + q[from..to] + q[to..];
  }

  /** Rewriting a window moves no id. */
  lemma RewriteKeepsIds(order: Rows, from: nat, to: nat, news: seq<string>)
    requires FreshWindow(KeySeq(order), from, to, news)
    ensures KeySeq(RewriteOrder(order, from, to, news)) == Rewritten(KeySeq(order), from, to, news)
    ensures IdSeq(RewriteOrder(order, from, to, news)) == IdSeq(order)
  {
    var q := KeySeq(order);
    var r := RewriteOrder(order, from, to, news);
    RewriteAscends(q, from, to, news);
    RewriteMembers(order, from, to, news);
    SortedUnique(Rewritten(q, from, to, news), KeySeq(r));
    RewriteNames(order, from, to, news);
    NamesScan(r, IdSeq(order));
  }

  lemma RewriteAscends(q: seq<string>, from: nat, to: nat, news: seq<string>)
    requires Ascending(q) && FreshWindow(q, from, to, news)
    ensures Ascending(Rewritten(q, from, to, news))
  {
    AscendingConcat(q[..from], news);
    AscendingConcat(q[..from] + news, q[to..]);
  }

  /** What a rewrite leaves: the rows outside the window as they were, the fresh keys inside. */
  ghost predicate LeavesOutside(order: Rows, r: Rows, head: seq<string>, tail: seq<string>, news: seq<string>,
                                ids: seq<Segment>) {
    && |news| == |ids|
    && (forall k :: k in r <==> k in head || k in news || k in tail)
    && (forall k :: k in head || k in tail ==> k in order && r[k] == order[k])
    && (forall i :: 0 <= i < |news| ==> r[news[i]] == ids[i])
  }

  lemma RewriteRows(order: Rows, from: nat, to: nat, news: seq<string>)
    requires FreshWindow(KeySeq(order), from, to, news)
    ensures LeavesOutside(order, RewriteOrder(order, from, to, news), KeySeq(order)[..from], KeySeq(order)[to..],
                          news, IdSeq(order)[from..to])
  {
    var q := KeySeq(order);
    AscendingNoRepeats(news);
    WindowSplits(q, from, to);
    Apart(q[..from], q[from..to]);
    Apart(q[from..to], q[to..]);
    Apart(q[..from], news);
    Apart(news, q[to..]);
    PutOver(order, q[..from], q[from..to], q[to..], news, IdSeq(order)[from..to]);
  }

  lemma PutOver(order: Rows, head: seq<string>, w: seq<string>, tail: seq<string>, news: seq<string>, ids: seq<Segment>)
    requires |news| == |ids| && NoRepeats(news)
    requires forall k :: k in order <==> k in head || k in w || k in tail
    requires forall k :: k in head || k in tail ==> k !in w && k !in news
    ensures LeavesOutside(order, PutAll(Dropped(order, w), news, ids), head, tail, news, ids)
  {
    PutAllHolds(Dropped(order, w), news, ids);
  }

  lemma RewriteMembers(order: Rows, from: nat, to: nat, news: seq<string>)
    requires FreshWindow(KeySeq(order), from, to, news)
    ensures forall k :: k in Rewritten(KeySeq(order), from, to, news) <==> k in RewriteOrder(order, from, to, news)
  {
    RewriteRows(order, from, to, news);
  }

  lemma RewriteNames(order: Rows, from: nat, to: nat, news: seq<string>)
    requires FreshWindow(KeySeq(order), from, to, news)
    ensures Names(RewriteOrder(order, from, to, news), Rewritten(KeySeq(order), from, to, news), IdSeq(order))
  {
    RewriteRows(order, from, to, news);
    ScanNames(order);
    OutsideNames(order, RewriteOrder(order, from, to, news), KeySeq(order), IdSeq(order), from, to, news);
  }

  lemma OutsideNames(order: Rows, r: Rows, q: seq<string>, ids: seq<Segment>, from: nat, to: nat, news: seq<string>)
    requires from <= to <= |q| == |ids| && |news| == to - from
    requires Names(order, q, ids) && LeavesOutside(order, r, q[..from], q[to..], news, ids[from..to])
    ensures Names(r, Rewritten(q, from, to, news), ids)
  {
    var p := Rewritten(q, from, to, news);
    forall j | 0 <= j < |p| ensures p[j] in r && r[p[j]] == ids[j] {
      if j < from {
        assert q[..from][j] == p[j];
      } else if j < to {
        assert p[j] == news[j - from];
      } else {
        assert q[to..][j - to] == p[j];
      }
    }
  }

  lemma {:induction false} PutAllConcat<K, V>(m: map<K, V>, ks: seq<K>, vs: seq<V>, ls: seq<K>, ws: seq<V>)
    requires |ks| == |vs| && |ls| == |ws|
    ensures PutAll(m, ks + ls, vs + ws) == PutAll(PutAll(m, ks, vs), ls, ws)
  {
    if ls == [] {
      assert ks + ls == ks && vs + ws == vs;
    } else {
      var n := |ls| - 1;
      PutAllConcat(m, ks, vs, ls[..n], ws[..n]);
      assert (ks + ls)[..|ks| + n] == ks + ls[..n] && (vs + ws)[..|ks| + n] == vs + ws[..n];
    }
  }

  lemma SliceDistinct(ids: seq<Segment>, from: nat, to: nat)
    requires Distinct(ids) && from <= to <= |ids|
    ensures NoRepeats(ids[from..to])
    ensures forall i :: 0 <= i < |ids| && !(from <= i < to) ==> ids[i] !in ids[from..to]
  {
  }

  /** The positions follow a rewrite: the index stays linked, and no other id is touched. */
  lemma RewriteLinked(order: Rows, pos: Positions, from: nat, to: nat, news: seq<string>)
    requires Linked(order, pos) && FreshWindow(KeySeq(order), from, to, news)
    requires forall i :: 0 <= i < |news| ==> IsOrderKey(news[i])
    ensures var p := PutAll(pos, IdSeq(order)[from..to], news);
            && Linked(RewriteOrder(order, from, to, news), p)
            && (forall id :: id in p <==> id in pos)
            && (forall id :: id in pos && id !in IdSeq(order) ==> p[id] == pos[id])
  {
    var q, ids := KeySeq(order), IdSeq(order);
    LinkedDistinct(order, pos);
    ScanNames(order);
    assert forall i :: 0 <= i < |ids| ==> ids[i] in pos;
    PutPositions(pos, ids, from, to, news);
    RewriteRows(order, from, to, news);
    OutsideLinked(order, pos, RewriteOrder(order, from, to, news), PutAll(pos, ids[from..to], news), q, ids, from, to,
        news);
  }

  /** The index stays linked, lists the same ids, and records any other id as it did. */
  ghost predicate SameIndex(order: Rows, pos: Positions, r: Rows, p: Positions) {
    && Linked(r, p) && IdSeq(r) == IdSeq(order) && p.Keys == pos.Keys
    && forall id :: id in pos && id !in IdSeq(order) ==> p[id] == pos[id]
  }

  lemma RewriteSameIndex(order: Rows, pos: Positions, from: nat, to: nat, news: seq<string>)
    requires Linked(order, pos) && FreshWindow(KeySeq(order), from, to, news)
    requires forall i :: 0 <= i < |news| ==> IsOrderKey(news[i])
    ensures SameIndex(order, pos, RewriteOrder(order, from, to, news), PutAll(pos, IdSeq(order)[from..to], news))
  {
    hide Linked, FreshWindow, RewriteOrder, PutAll, IdSeq, IsOrderKey;
    RewriteKeepsIds(order, from, to, news);
    RewriteLinked(order, pos, from, to, news);
  }

  lemma PutPositions(pos: Positions, ids: seq<Segment>, from: nat, to: nat, news: seq<string>)
    requires Distinct(ids) && from <= to <= |ids| && |news| == to - from
    requires forall i :: 0 <= i < |ids| ==> ids[i] in pos
    ensures var p := PutAll(pos, ids[from..to], news);
            && (forall id :: id in p <==> id in pos)
            && (forall i :: 0 <= i < |news| ==> p[ids[from..to][i]] == news[i])
            && (forall id :: id in pos && id !in ids[from..to] ==> p[id] == pos[id])
    ensures forall i :: 0 <= i < |ids| && !(from <= i < to) ==> ids[i] !in ids[from..to]
    ensures forall id :: id !in ids ==> id !in ids[from..to]
  {
    SliceDistinct(ids, from, to);
    PutAllHolds(pos, ids[from..to], news);
  }

  lemma OutsideLinked(order: Rows, pos: Positions, r: Rows, p: Positions, q: seq<string>, ids: seq<Segment>,
                      from: nat, to: nat, news: seq<string>)
    requires Linked(order, pos) && from <= to <= |q| == |ids| && |news| == to - from
    requires Names(order, q, ids) && LeavesOutside(order, r, q[..from], q[to..], news, ids[from..to])
    requires forall i :: 0 <= i < |news| ==> IsOrderKey(news[i])
    requires forall i :: 0 <= i < |news| ==> ids[from..to][i] in p && p[ids[from..to][i]] == news[i]
    requires forall id :: id in pos && id !in ids[from..to] ==> id in p && p[id] == pos[id]
    requires forall i :: 0 <= i < |ids| && !(from <= i < to) ==> ids[i] !in ids[from..to]
    ensures Linked(r, p)
  {
    forall k | k in r ensures IsOrderKey(k) && r[k] in p && p[r[k]] == k {
      if k in news {
        var i :| 0 <= i < |news| && news[i] == k;
        assert r[k] == ids[from..to][i];
      } else if k in q[..from] {
        var i :| 0 <= i < from && q[i] == k;
        assert r[k] == ids[i];
      } else {
        var i :| 0 <= i < |q| - to && q[to..][i] == k;
        assert q[to + i] == k && r[k] == ids[to + i];
      }
    }
  }
}
