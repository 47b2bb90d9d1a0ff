/**
 The rows of a list: one subtree per index. A slot may be empty, or hold a row that is about to be
 written over, while the shift loops of an insert or a delete are under way.
 */
module ListSlots {
  import opened Wrappers
  import opened Segments
  import opened ContainerTree
  import opened ViewChain

  /** An element: its rows, keyed from its own site on. A primitive is a single row. */
  type Element<!V> = map<Key, Node<Cell<V>>>

  predicate Whole<V>(e: Element<V>) {
    [] in e && (e[[]].Primitive? ==> forall t :: t in e ==> t == [])
  }

  predicate IsLeaf<V>(e: Element<V>) {
    [] in e && e[[]].Primitive?
  }

  function SlotSite(site: Key, i: int): Key {
    site + [Int(i)]
  }

  function At(site: Key, i: int, t: Key): Key {
    SlotSite(site, i) + t
  }

  /** The slot's rows are exactly the element's. */
  ghost predicate HoldsElement<V>(rows: Rows<Cell<V>>, site: Key, i: int, e: Element<V>) {
    && (forall t :: t in e ==> At(site, i, t) in rows && rows[At(site, i, t)] == e[t])
    && (forall t: Key :: At(site, i, t) in rows ==> t in e)
  }

  predicate InSlots<V>(site: Key, k: Key, slots: map<int, Element<V>>)
    requires |site| < |k|
  {
    k[|site|].Int? && k[|site|].number in slots
  }

  /** The rows under a site are exactly the elements in its slots. */
  ghost predicate HoldsSlots<V>(rows: Rows<Cell<V>>, site: Key, slots: map<int, Element<V>>) {
    && (forall i :: i in slots ==> Whole(slots[i]) && HoldsElement(rows, site, i, slots[i]))
    && (forall k :: k in rows && site < k ==> InSlots(site, k, slots))
  }

  function SlotsOf<T>(elems: seq<T>): map<int, T> {
    map i | 0 <= i < |elems| :: elems[i]
  }

  lemma AtApart(site: Key, i: int, j: int, t: Key)
    ensures SlotSite(site, i) <= At(site, j, t) <==> i == j
    ensures site < At(site, j, t) && At(site, j, t)[|site|] == Int(j)
  {
    assert At(site, j, t)[|site|] == Int(j);
    assert SlotSite(site, i)[|site|] == Int(i);
    assert At(site, j, t)[..|site|] == site;
    if i == j {
      assert At(site, j, t)[..|site| + 1] == SlotSite(site, i);
    }
  }

  lemma AtInjective(site: Key, i: int, t: Key, u: Key)
    ensures At(site, i, t) == At(site, i, u) <==> t == u
  {
    assert At(site, i, t)[|site| + 1..] == t && At(site, i, u)[|site| + 1..] == u;
  }

  lemma AtBelow(site: Key, i: int, t: Key)
    ensures t != [] ==> SlotSite(site, i) < At(site, i, t)
  {
  }

  lemma AtOf(site: Key, i: int, k: Key)
    requires site < k && k[|site|] == Int(i)
    ensures k == At(site, i, k[|site| + 1..])
  {
  }

  /** Rows that agree under a site hold the same slots. */
  ghost predicate SameUnder<V>(rows: Rows<Cell<V>>, after: Rows<Cell<V>>, site: Key) {
    forall k :: site < k ==> (k in after <==> k in rows) && (k in rows ==> after[k] == rows[k])
  }

  lemma SameSlots<V>(rows: Rows<Cell<V>>, after: Rows<Cell<V>>, site: Key, slots: map<int, Element<V>>)
    requires HoldsSlots(rows, site, slots) && SameUnder(rows, after, site)
    ensures HoldsSlots(after, site, slots)
  {
    forall i | i in slots ensures HoldsElement(after, site, i, slots[i]) {
      forall t ensures site < At(site, i, t) {
        AtApart(site, i, i, t);
      }
    }
  }

  /** Rows that differ only in one slot hold the same elsewhere. */
  ghost predicate SameBut<V>(rows: Rows<Cell<V>>, after: Rows<Cell<V>>, site: Key, i: int) {
    forall k :: site < k && !(SlotSite(site, i) <= k) ==>
      (k in after <==> k in rows) && (k in rows ==> after[k] == rows[k])
  }

  lemma OtherSlot<V>(rows: Rows<Cell<V>>, after: Rows<Cell<V>>, site: Key, i: int, j: int, e: Element<V>)
    requires SameBut(rows, after, site, i) && i != j && HoldsElement(rows, site, j, e)
    ensures HoldsElement(after, site, j, e)
  {
    forall t ensures site < At(site, j, t) && !(SlotSite(site, i) <= At(site, j, t)) {
      AtApart(site, i, j, t);
    }
  }

  /** One slot filled. */
  lemma SlotFilled<V>(rows: Rows<Cell<V>>, after: Rows<Cell<V>>, site: Key, slots: map<int, Element<V>>, i: int,
                      e: Element<V>)
    requires HoldsSlots(rows, site, slots) && SameBut(rows, after, site, i)
    requires Whole(e) && HoldsElement(after, site, i, e)
    ensures HoldsSlots(after, site, slots[i := e])
  {
    var more := slots[i := e];
    forall j | j in more ensures Whole(more[j]) && HoldsElement(after, site, j, more[j]) {
      if j != i {
        OtherSlot(rows, after, site, i, j, slots[j]);
      }
    }
    forall k | k in after && site < k ensures InSlots(site, k, more) {
      if SlotSite(site, i) <= k {
        assert k[|site|] == SlotSite(site, i)[|site|];
      } else {
        assert k in rows;
      }
    }
  }

  /** One slot emptied. */
  lemma SlotEmptied<V>(rows: Rows<Cell<V>>, after: Rows<Cell<V>>, site: Key, slots: map<int, Element<V>>, i: int)
    requires HoldsSlots(rows, site, slots) && SameBut(rows, after, site, i)
    requires forall k :: k in after ==> !(SlotSite(site, i) <= k)
    ensures HoldsSlots(after, site, slots - {i})
  {
    forall j | j in slots - {i} ensures HoldsElement(after, site, j, slots[j]) {
      OtherSlot(rows, after, site, i, j, slots[j]);
    }
    forall k | k in after && site < k ensures InSlots(site, k, slots - {i}) {
      assert k in rows;
      if k[|site|] == Int(i) {
        AtOf(site, i, k);
        AtApart(site, i, i, k[|site| + 1..]);
      }
    }
  }

  lemma SlotRow<V>(rows: Rows<Cell<V>>, site: Key, slots: map<int, Element<V>>, i: int)
    requires HoldsSlots(rows, site, slots)
    ensures SlotSite(site, i) in rows <==> i in slots
    ensures i in slots ==> rows[SlotSite(site, i)] == slots[i][[]]
  {
    var k := SlotSite(site, i);
    assert At(site, i, []) == k;
    AtApart(site, i, i, []);
  }

  /** Nothing lies under a slot that is empty or holds a primitive. */
  lemma SlotBare<V>(rows: Rows<Cell<V>>, site: Key, slots: map<int, Element<V>>, i: int)
    requires HoldsSlots(rows, site, slots) && (i in slots ==> IsLeaf(slots[i]))
    ensures forall k :: k in rows ==> !(SlotSite(site, i) < k)
  {
    forall k | k in rows ensures !(SlotSite(site, i) < k) {
      if SlotSite(site, i) < k {
        assert k[|site|] == SlotSite(site, i)[|site|] && k[..|site|] == SlotSite(site, i)[..|site|] == site;
        AtOf(site, i, k);
      }
    }
  }

  // ---------------------------------------------------------------------------
  // The three storage steps of a shift
  // ---------------------------------------------------------------------------

  /** A primitive written to a slot that is empty or holds a primitive. */
  lemma SlotPut<V>(rows: Rows<Cell<V>>, site: Key, slots: map<int, Element<V>>, i: int, c: Cell<V>)
    requires HoldsSlots(rows, site, slots) && (i in slots ==> IsLeaf(slots[i]))
    ensures HoldsSlots(rows[SlotSite(site, i) := Primitive(c)], site, slots[i := map[[] := Primitive(c)]])
  {
    var k := SlotSite(site, i);
    var after := rows[k := Primitive(c)];
    var e: Element<V> := map[[] := Primitive(c)];
    SlotBare(rows, site, slots, i);
    assert At(site, i, []) == k;
    forall t: Key ensures At(site, i, t) in after ==> t in e {
      AtInjective(site, i, t, []);
      AtBelow(site, i, t);
    }
    assert SameBut(rows, after, site, i);
    SlotFilled(rows, after, site, slots, i, e);
  }

  lemma SlotDeleted<V>(rows: Rows<Cell<V>>, site: Key, slots: map<int, Element<V>>, i: int)
    requires HoldsSlots(rows, site, slots) && NoOrphans(rows) && site != [] && site[0] == DATA_ROOT
    requires IsContainer(rows, site)
    ensures var (after, out) := ChildDeleted(rows, site, Int(i));
            out == Done && NoOrphans(after) && HoldsSlots(after, site, slots - {i}) && site in after
                && after[site] == rows[site]
  {
    var (after, out) := ChildDeleted(rows, site, Int(i));
    DeleteKeeps(rows, site, Int(i));
    var child := SlotSite(site, i);
    SlotRow(rows, site, slots, i);
    if i in slots {
      DeletedRows(rows, site, Int(i));
      assert Mirror(child)[0] == METADATA_ROOT;
      hide ChildDeleted;
      assert !GoneWith(rows, child, site);
      forall k | site < k && !(child <= k) ensures !GoneWith(rows, child, k) {
        assert k[0] == site[0];
      }
      SlotEmptied(rows, after, site, slots, i);
    } else {
      assert slots - {i} == slots;
    }
  }

  lemma SlotMoved<V>(rows: Rows<Cell<V>>, after: Rows<Cell<V>>, site: Key, slots: map<int, Element<V>>, i: int, j: int)
    requires HoldsSlots(rows, site, slots) && i in slots && i != j
    requires j in slots ==> IsLeaf(slots[j])
    requires SubtreeMoved(rows - {SlotSite(site, j)}, after, SlotSite(site, i), SlotSite(site, j))
    ensures HoldsSlots(after, site, slots[j := slots[i]] - {i})
  {
    MovedElement(rows, after, site, slots, i, j);
    AllWhole(rows, site, slots);
    var moved := slots[j := slots[i]] - {i};
    hide Whole, HoldsElement, SubtreeMoved, InSlots, IsLeaf, SlotSite;
    forall x | x in moved ensures Whole(moved[x]) && HoldsElement(after, site, x, moved[x]) {
      if x != j {
        MovedOther(rows, after, site, slots, i, j, x);
      }
    }
    forall k | k in after && site < k ensures InSlots(site, k, moved) {
      MovedInSlots(rows, after, site, slots, i, j, k);
    }
  }

  lemma AllWhole<V>(rows: Rows<Cell<V>>, site: Key, slots: map<int, Element<V>>)
    requires HoldsSlots(rows, site, slots)
    ensures forall x :: x in slots ==> Whole(slots[x])
  {
  }

  lemma MovedElement<V>(rows: Rows<Cell<V>>, after: Rows<Cell<V>>, site: Key, slots: map<int, Element<V>>, i: int,
                        j: int)
    requires HoldsSlots(rows, site, slots) && i in slots && i != j
    requires SubtreeMoved(rows - {SlotSite(site, j)}, after, SlotSite(site, i), SlotSite(site, j))
    ensures HoldsElement(after, site, j, slots[i])
  {
    var from, to := SlotSite(site, i), SlotSite(site, j);
    assert HoldsElement(rows, site, i, slots[i]);
    forall t | t in slots[i] ensures At(site, j, t) in after && after[At(site, j, t)] == slots[i][t] {
      AtApart(site, j, i, t);
      assert from + t == At(site, i, t) && to + t == At(site, j, t);
    }
    forall t: Key | At(site, j, t) in after ensures t in slots[i] {
      assert from + t == At(site, i, t) && to + t == At(site, j, t);
    }
  }

  lemma MovedOther<V>(rows: Rows<Cell<V>>, after: Rows<Cell<V>>, site: Key, slots: map<int, Element<V>>, i: int,
                      j: int, x: int)
    requires HoldsSlots(rows, site, slots) && x in slots && x != i && x != j
    requires SubtreeMoved(rows - {SlotSite(site, j)}, after, SlotSite(site, i), SlotSite(site, j))
    ensures HoldsElement(after, site, x, slots[x])
  {
    assert HoldsElement(rows, site, x, slots[x]);
    forall t: Key ensures !(SlotSite(site, i) <= At(site, x, t)) && !(SlotSite(site, j) <= At(site, x, t)) {
      AtApart(site, i, x, t);
      AtApart(site, j, x, t);
    }
  }

  lemma MovedInSlots<V>(rows: Rows<Cell<V>>, after: Rows<Cell<V>>, site: Key, slots: map<int, Element<V>>, i: int,
                        j: int, k: Key)
    requires HoldsSlots(rows, site, slots) && i in slots && i != j && k in after && site < k
    requires SubtreeMoved(rows - {SlotSite(site, j)}, after, SlotSite(site, i), SlotSite(site, j))
    ensures InSlots(site, k, slots[j := slots[i]] - {i})
  {
    var from, to := SlotSite(site, i), SlotSite(site, j);
    assert !(from <= k);
    if to <= k {
      assert k[|site|] == to[|site|];
    } else {
      assert k in rows;
      if k[|site|] == Int(i) {
        AtOf(site, i, k);
        AtApart(site, i, i, k[|site| + 1..]);
      }
    }
  }
}
