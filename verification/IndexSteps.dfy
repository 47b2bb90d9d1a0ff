/** One step of the order index: a row put at a free key, or a row taken out. */
module IndexSteps {
  import opened Wrappers
  import opened StringOrder
  import opened Segments
  import opened Sequences
  import opened SortedRows
  import opened OrderedCollection
  import opened OrderKeys
  import opened RowMaps
  import opened RespaceWindow

  /** Order rows and positions mirror each other. */
  ghost predicate Indexed(order: Rows, pos: Positions) {
    Linked(order, pos) && Covered(order, pos)
  }

  /** As `Indexed`, but `id` may hold a position that no order row backs. */
  ghost predicate IndexedBut(order: Rows, pos: Positions, id: Segment) {
    && Linked(order, pos) && id !in IdSeq(order)
    && forall x :: x in pos && x != id ==> x in IdSeq(order)
  }

  lemma Listed(order: Rows, id: Segment)
    ensures id in IdSeq(order) <==> exists k :: k in order && order[k] == id
  {
    if id in IdSeq(order) {
      var i :| 0 <= i < |order| && IdSeq(order)[i] == id;
      assert KeySeq(order)[i] in order;
    }
    forall k | k in order && order[k] == id ensures id in IdSeq(order) {
      assert k in KeySeq(order);
      var i :| 0 <= i < |order| && KeySeq(order)[i] == k;
      assert IdSeq(order)[i] == id;
    }
  }

  /** An index mirrors its rows when every position's id is listed, and the other way round. */
  lemma CoveredListed(order: Rows, pos: Positions)
    requires Linked(order, pos)
    ensures Covered(order, pos) <==> forall x :: x in pos ==> x in IdSeq(order)
  {
    forall x ensures x in IdSeq(order) <==> exists k :: k in order && order[k] == x {
      Listed(order, x);
    }
  }

  lemma IndexedHasNone(order: Rows, pos: Positions, id: Segment)
    requires Indexed(order, pos) && id !in pos
    ensures IndexedBut(order, pos, id)
  {
    CoveredListed(order, pos);
    ListsPositions(order, pos);
  }

  /** A respace beside an unbacked id changes nothing about it. */
  lemma SameIndexBut(order: Rows, pos: Positions, r: Rows, p: Positions, id: Segment)
    requires IndexedBut(order, pos, id) && SameIndex(order, pos, r, p)
    ensures IndexedBut(r, p, id)
  {
    hide Linked, IdSeq;
  }

  lemma SameIndexIndexed(order: Rows, pos: Positions, r: Rows, p: Positions)
    requires Indexed(order, pos) && SameIndex(order, pos, r, p)
    ensures Indexed(r, p)
  {
    CoveredListed(order, pos);
    CoveredListed(r, p);
  }

  /** Indexing an id at a free key lists it where the key falls. */
  lemma IndexedAt(order: Rows, pos: Positions, id: Segment, i: nat, k: string)
    requires IndexedBut(order, pos, id) && IsOrderKey(k) && FallsAt(KeySeq(order), i, k)
    ensures Indexed(order[k := id], pos[id := k])
    ensures i <= |order| && IdSeq(order[k := id]) == InsertAt(IdSeq(order), i, id)
  {
    InsertRow(order, i, k, id);
    InsertMembers(IdSeq(order), i, id);
    LinkedAt(order, pos, id, k);
    CoveredListed(order[k := id], pos[id := k]);
  }

  lemma LinkedAt(order: Rows, pos: Positions, id: Segment, k: string)
    requires Linked(order, pos) && id !in IdSeq(order) && IsOrderKey(k)
    ensures Linked(order[k := id], pos[id := k])
  {
    hide IdSeq, IsOrderKey;
    Listed(order, id);
  }

  /** Dropping an id's order row, with its position or without, takes it out of the list. */
  lemma Unindexed(order: Rows, pos: Positions, id: Segment)
    requires Indexed(order, pos) && id in pos
    ensures id in IdSeq(order)
    ensures var r, j := order - {pos[id]}, IndexOf(IdSeq(order), id);
            && KeySeq(r) == RemoveAt(KeySeq(order), j) && IdSeq(r) == RemoveAt(IdSeq(order), j)
            && IndexedBut(r, pos, id) && Indexed(r, pos - {id})
  {
    PositionIndex(order, pos, id);
    var ids := IdSeq(order);
    var r, j := order - {pos[id]}, IndexOf(ids, id);
    DeleteRow(order, j);
    LinkedDistinct(order, pos);
    RemoveDistinct(ids, j);
    CoveredListed(order, pos);
    UnindexedLinks(order, pos, id);
    CoveredListed(r, pos - {id});
  }

  lemma UnindexedLinks(order: Rows, pos: Positions, id: Segment)
    requires Linked(order, pos) && id in pos
    ensures Linked(order - {pos[id]}, pos) && Linked(order - {pos[id]}, pos - {id})
  {
  }

  /** Where place `i` is once row `j` is gone. */
  function Closed(i: nat, j: nat): nat {
    if j < i then i - 1 else i
  }

  /** A gap that a removed row does not bound is still a gap. */
  lemma GapAfterRemove(q: seq<string>, j: nat, i: nat, prev: Bound, nxt: Bound)
    requires Gap(q, i, prev, nxt) && j < |q| && j != i && j != i - 1
    ensures Closed(i, j) < |q| && Gap(RemoveAt(q, j), Closed(i, j), prev, nxt)
  {
  }

  /** The list with an id moved into gap `i`; the gaps on its two sides are where it stands. */
  function Moved(ids: seq<Segment>, id: Segment, i: nat): seq<Segment>
    requires id in ids && i <= |ids|
  {
    var j := IndexOf(ids, id);
    if i == j || i == j + 1 then ids else InsertAt(RemoveAt(ids, j), Closed(i, j), id)
  }

  lemma MovedBeside(ids: seq<Segment>, id: Segment, ref: Segment, after: nat)
    requires Distinct(ids) && id in ids && ref in ids && id != ref && after <= 1
    ensures ref in Without(ids, id) && IndexOf(ids, id) != IndexOf(ids, ref)
    ensures Moved(ids, id, IndexOf(ids, ref) + after) == Beside(ids, id, ref, after)
  {
    hide InsertAt, RemoveAt, Distinct, IndexOf;
    OtherStays(ids, id, ref);
    RestIndex(ids, id, ref);
    var j, r := IndexOf(ids, id), IndexOf(ids, ref);
    MovedShape(ids, j, r + after, r, after);
  }

  lemma RestIndex(ids: seq<Segment>, id: Segment, ref: Segment)
    requires Distinct(ids) && id in ids && ref in ids && id != ref && ref in Without(ids, id)
    ensures IndexOf(Without(ids, id), ref) == Closed(IndexOf(ids, ref), IndexOf(ids, id))
  {
    var j, r := IndexOf(ids, id), IndexOf(ids, ref);
    RemoveDistinct(ids, j);
    assert Without(ids, id)[Closed(r, j)] == ref;
    IndexUnique(Without(ids, id), Closed(r, j));
  }

  lemma MovedShape(ids: seq<Segment>, j: nat, i: nat, r: nat, after: nat)
    requires j < |ids| && r < |ids| && j != r && after <= 1 && i == r + after
    ensures Closed(r, j) + after <= |ids| - 1
    ensures var there := InsertAt(RemoveAt(ids, j), Closed(r, j) + after, ids[j]);
            if i == j || i == j + 1 then there == ids else Closed(r, j) + after == Closed(i, j)
  {
  }

  lemma MovedEnds(ids: seq<Segment>, id: Segment)
    requires id in ids
    ensures Moved(ids, id, 0) == [id] + Without(ids, id)
    ensures Moved(ids, id, |ids|) == Without(ids, id) + [id]
  {
    assert Without(ids, id) == RemoveAt(ids, IndexOf(ids, id));
  }
}
