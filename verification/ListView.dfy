/**
 The list view: elements under consecutive indices and a stored length. The shift loops of insert and
 delete, over primitives and whole subtrees alike, are insert and remove on a sequence.
 */
module ListView {
  import opened Wrappers
  import opened Segments
  import opened Sequences
  import opened ContainerTree
  import opened ViewChain
  import opened ViewStore
  import opened ListSlots

  /** Where an index points: negative ones count from the end. */
  function Index(i: int, n: nat): Result<nat> {
    var j := if i < 0 then n + i else i;
    if 0 <= j < n then Ok(j) else Err(IndexError)
  }

  /** Where an insert lands: clamped to the list. */
  function Clamped(i: int, n: nat): (j: nat)
    ensures j <= n
  {
    if i < 0 then (if n + i < 0 then 0 else n + i) else if i < n then i else n
  }

  /** What an index means: one from 0 up counts from the front, a negative one from the end. */
  lemma IndexLaw(i: int, n: nat)
    ensures Index(i, n).Ok? <==> -(n as int) <= i < n
    ensures Index(i, n).Err? ==> Index(i, n).error == IndexError
    ensures 0 <= i < n ==> Index(i, n).value == i
    ensures -(n as int) <= i < 0 ==> Index(i, n).value == n + i
  {
  }

  /** `after` is `before` without the item that index `i` names. */
  ghost predicate ItemGone<T>(before: seq<T>, after: seq<T>, i: int)
    requires -|before| <= i < |before|
  {
    if i >= 0 then after == before[..i] + before[i + 1..]
    else after == before[..|before| + i] + before[|before| + i + 1..]
  }

  /** `after` is `before` with `e` for the item that index `i` names. */
  ghost predicate ItemSet<T>(before: seq<T>, after: seq<T>, i: int, e: T)
    requires -|before| <= i < |before|
  {
    if i >= 0 then after == before[..i] + [e] + before[i + 1..]
    else after == before[..|before| + i] + [e] + before[|before| + i + 1..]
  }

  /** `after` is `before` with `e` put in before the item that index `i` names, at an end when it names none. */
  ghost predicate ItemInserted<T>(before: seq<T>, after: seq<T>, i: int, e: T) {
    if i >= |before| then after == before + [e]
    else if i < -|before| then after == [e] + before
    else if i >= 0 then after == before[..i] + [e] + before[i..]
    else after == before[..|before| + i] + [e] + before[|before| + i..]
  }

  lemma RemovesItem<T>(s: seq<T>, i: int)
    ensures Index(i, |s|).Ok? ==> ItemGone(s, RemoveAt(s, Index(i, |s|).value), i)
  {
  }

  lemma SetsItem<T>(s: seq<T>, i: int, e: T)
    ensures Index(i, |s|).Ok? ==> ItemSet(s, s[Index(i, |s|).value := e], i, e)
  {
  }

  lemma InsertsItem<T>(s: seq<T>, i: int, e: T)
    ensures ItemInserted(s, InsertAt(s, Clamped(i, |s|), e), i, e)
  {
    assert i >= |s| ==> s[..|s|] == s && s[|s|..] == [];
  }

  // ---------------------------------------------------------------------------
  // The slots while a tail shifts
  // ---------------------------------------------------------------------------

  /** A delete at `d` has moved the elements before `i` down; slot `i - 1` is empty. */
  function Down<T>(elems: seq<T>, d: nat, i: nat): map<int, T>
    requires d < i <= |elems|
  {
    map j | 0 <= j < |elems| && j != i - 1 :: elems[Below(d, i, j)]
  }

  function Below(d: nat, i: nat, j: nat): nat {
    if d <= j < i - 1 then j + 1 else j
  }

  /** An insert has moved the elements after `i` up; slot `i + 1` is empty, or its row is stale. */
  function Up<T>(elems: seq<T>, i: int, stale: bool): map<int, T>
    requires -1 <= i < |elems| && (stale ==> i + 1 < |elems|)
  {
    map j | 0 <= j <= |elems| && (j != i + 1 || stale) :: elems[Above(i, j)]
  }

  function Above(i: int, j: nat): nat
    requires -1 <= i
  {
    if j <= i + 1 then j else j - 1
  }

  lemma DownStart<T>(elems: seq<T>, d: nat)
    requires d < |elems|
    ensures d in SlotsOf(elems) && SlotsOf(elems) - {d} == Down(elems, d, d + 1)
  {
  }

  lemma DownStep<T>(elems: seq<T>, d: nat, i: nat)
    requires d < i < |elems|
    ensures i in Down(elems, d, i) && Down(elems, d, i)[i] == elems[i] && i - 1 !in Down(elems, d, i)
    ensures Down(elems, d, i)[i - 1 := elems[i]] - {i} == Down(elems, d, i + 1)
  {
  }

  lemma DownEnd<T>(elems: seq<T>, d: nat)
    requires d < |elems|
    ensures Down(elems, d, |elems|) == SlotsOf(RemoveAt(elems, d))
  {
  }

  lemma UpStart<T>(elems: seq<T>)
    ensures SlotsOf(elems) == Up(elems, |elems| - 1, false)
  {
  }

  lemma UpStep<T>(elems: seq<T>, i: nat, stale: bool)
    requires i < |elems| && (stale ==> i + 1 < |elems|)
    ensures var up := Up(elems, i, stale);
            && i in up && up[i] == elems[i] && (i + 1 in up <==> stale) && (stale ==> up[i + 1] == elems[i + 1])
            && up[i + 1 := elems[i]] == Up(elems, i - 1, true)
            && up[i + 1 := elems[i]] - {i} == Up(elems, i - 1, false)
  {
  }

  lemma UpEnd<T>(elems: seq<T>, a: nat, stale: bool, e: T)
    requires a <= |elems| && (stale ==> a < |elems|)
    ensures Up(elems, a - 1, stale)[a := e] == SlotsOf(InsertAt(elems, a, e))
    ensures a in Up(elems, a - 1, stale) <==> stale
    ensures stale ==> Up(elems, a - 1, stale)[a] == elems[a]
  {
  }

  // ---------------------------------------------------------------------------
  // The list's rows under a storage step
  // ---------------------------------------------------------------------------

  /** The slots of a standing list whose stored length is `n`. */
  ghost predicate Shifting<V>(rows: Rows<Cell<V>>, self: ViewRef, slots: map<int, Element<V>>, n: nat) {
    && Opened(self) && !self.keyed && self.protocol != {}
    && NoOrphans(rows) && Stands(rows, self)
    && HoldsSlots(rows, self.site, slots) && LenOf(rows, self.site) == n
  }

  lemma SameMarker<V>(rows: Rows<Cell<V>>, after: Rows<Cell<V>>, self: ViewRef)
    requires self.site != [] && Stands(rows, self) && self.site in after && after[self.site] == rows[self.site]
    ensures Stands(after, self)
  {
  }

  lemma PutShifts<V>(rows: Rows<Cell<V>>, self: ViewRef, slots: map<int, Element<V>>, n: nat, i: int, c: Cell<V>)
    requires Shifting(rows, self, slots, n) && (i in slots ==> IsLeaf(slots[i]))
    ensures var (after, out) := PutChild(rows, self.site, Int(i), c, true, true);
            out == Done && Shifting(after, self, slots[i := map[[] := Primitive(c)]], n)
  {
    var k := SlotSite(self.site, i);
    SlotRow(rows, self.site, slots, i);
    SlotPut(rows, self.site, slots, i, c);
    PutKeeps(rows, self.site, Int(i), c);
    assert LenKey(self.site)[0] == METADATA_ROOT && k[0] == DATA_ROOT;
    assert k != self.site;
    var after := PutChild(rows, self.site, Int(i), c, true, true).0;
    assert after == rows[k := Primitive(c)];
    hide NoOrphans, HoldsSlots, Opened;
    SameMarker(rows, after, self);
  }

  lemma DeleteShifts<V>(rows: Rows<Cell<V>>, self: ViewRef, slots: map<int, Element<V>>, n: nat, i: int)
    requires Shifting(rows, self, slots, n) && i in slots
    ensures var (after, out) := ChildDeleted(rows, self.site, Int(i));
            out == Done && Shifting(after, self, slots - {i}, n)
  {
    SlotDeleted(rows, self.site, slots, i);
    SlotRow(rows, self.site, slots, i);
    var after := ChildDeleted(rows, self.site, Int(i)).0;
    DeletedRows(rows, self.site, Int(i));
    hide ChildDeleted, NoOrphans, HoldsSlots, Opened;
    CountAfterDelete(rows, after, self.site, Int(i), self.site);
    SameMarker(rows, after, self);
  }

  lemma MoveShifts<V>(rows: Rows<Cell<V>>, after: Rows<Cell<V>>, self: ViewRef, slots: map<int, Element<V>>, n: nat,
                      i: int, j: int)
    requires Shifting(rows, self, slots, n) && i in slots && i != j && (j in slots ==> IsLeaf(slots[j]))
    requires NoOrphans(after)
    requires SubtreeMoved(rows - {SlotSite(self.site, j)}, after, SlotSite(self.site, i), SlotSite(self.site, j))
    ensures Shifting(after, self, slots[j := slots[i]] - {i}, n)
  {
    SlotMoved(rows, after, self.site, slots, i, j);
    var from, to := SlotSite(self.site, i), SlotSite(self.site, j);
    Aside(rows, after, self.site, i, j, self.site);
    Aside(rows, after, self.site, i, j, LenKey(self.site));
    hide HoldsSlots, NoOrphans, Opened, SubtreeMoved;
    SameMarker(rows, after, self);
  }

  /** A move touches neither the list's marker nor its stored length. */
  lemma Aside<V>(rows: Rows<Cell<V>>, after: Rows<Cell<V>>, site: Key, i: int, j: int, k: Key)
    requires SubtreeMoved(rows - {SlotSite(site, j)}, after, SlotSite(site, i), SlotSite(site, j))
    requires site != [] && site[0] == DATA_ROOT && (k == site || k == LenKey(site))
    ensures k in after <==> k in rows
    ensures k in rows ==> after[k] == rows[k]
  {
    var from, to := SlotSite(site, i), SlotSite(site, j);
    assert from[0] == DATA_ROOT && to[0] == DATA_ROOT && LenKey(site)[0] == METADATA_ROOT;
    assert !(from <= k) && !(to <= k) && k != to;
  }

  /**
     A shift moves data rows only. The length stored for a nested view stays with the slot it left, so
     it is right after the move exactly if the two slots happened to store the same one.
   */
  lemma NestedLengthStays<V>(rows: Rows<Cell<V>>, after: Rows<Cell<V>>, site: Key, i: int, j: int)
    requires SubtreeMoved(rows - {SlotSite(site, j)}, after, SlotSite(site, i), SlotSite(site, j))
    requires site != [] && site[0] == DATA_ROOT
    ensures LenOf(after, SlotSite(site, j)) == LenOf(rows, SlotSite(site, i))
       <==> LenOf(rows, SlotSite(site, j)) == LenOf(rows, SlotSite(site, i))
  {
    var from, to := SlotSite(site, i), SlotSite(site, j);
    var k := LenKey(to);
    assert from[0] == DATA_ROOT && to[0] == DATA_ROOT && k[0] == METADATA_ROOT;
    assert !(from <= k) && !(to <= k) && k != to;
  }

  const LIST: Key := [DATA_ROOT, Str("l")]

  /** Deleting element 0 of two shifts a nested view of one child into its slot, where no length is stored. */
  lemma NestedLengthLost()
    ensures var rows: Rows<Cell<int>> :=
              map[SlotSite(LIST, 1) := Marker(1, {0}), SlotSite(LIST, 1) + [Str("a")] := Primitive(Item(7)),
                  LenKey(SlotSite(LIST, 1)) := Primitive(Count(1))];
            var after := map[SlotSite(LIST, 0) := Marker(1, {0}), SlotSite(LIST, 0) + [Str("a")] := Primitive(Item(7)),
                             LenKey(SlotSite(LIST, 1)) := Primitive(Count(1))];
            && SubtreeMoved(rows - {SlotSite(LIST, 0)}, after, SlotSite(LIST, 1), SlotSite(LIST, 0))
            && LenOf(rows, SlotSite(LIST, 1)) == 1 && LenOf(after, SlotSite(LIST, 0)) == 0
  {
    var from, to, a := SlotSite(LIST, 1), SlotSite(LIST, 0), [Str("a")];
    var l := LenKey(from);
    assert LIST[0] == DATA_ROOT && l[0] == METADATA_ROOT && LenKey(to)[0] == METADATA_ROOT;
    assert l[2] == Int(1) && LenKey(to)[2] == Int(0) && from[2] == Int(1) && to[2] == Int(0);
    assert !(from <= l) && !(to <= l);
    forall t: Key ensures (from + t == from <==> t == []) && (from + t == from + a <==> t == a) && from + t != l {
      assert (from + t)[|from|..] == t && (from + a)[|from|..] == a;
    }
    forall t: Key ensures (to + t == to <==> t == []) && (to + t == to + a <==> t == a) && to + t != l {
      assert (to + t)[|to|..] == t && (to + a)[|to|..] == a;
    }
    forall t: Key ensures from + t != to && from + t != to + a && to + t != from && to + t != from + a {
      assert (from + t)[2] == Int(1) && (to + t)[2] == Int(0) && (to + a)[2] == Int(0) && (from + a)[2] == Int(1);
    }
    assert from + [] == from && to + [] == to && from <= from + a && to <= to + a;
  }

  lemma LengthShifts<V>(rows: Rows<Cell<V>>, self: ViewRef, slots: map<int, Element<V>>, n: nat, m: nat)
    requires Shifting(rows, self, slots, n)
    ensures Shifting(WithLength(rows, self.site, m), self, slots, m)
  {
    var after := WithLength(rows, self.site, m);
    LengthKeepsTree(rows, self.site, m);
    LengthIsOwn(rows, self.site, m, self.site);
    LengthKeepsData(rows, self.site, m, self.site);
    forall k | self.site < k ensures (k in after <==> k in rows) && (k in rows ==> after[k] == rows[k]) {
      assert k[0] == DATA_ROOT;
      LengthKeepsData(rows, self.site, m, k);
    }
    hide WithLength, LenOf, NoOrphans;
    SameSlots(rows, after, self.site, slots);
    SameMarker(rows, after, self);
  }

  lemma SlotParts<V>(rows: Rows<Cell<V>>, self: ViewRef, slots: map<int, Element<V>>, n: nat, i: int)
    requires Shifting(rows, self, slots, n) && i in slots
    ensures self.site != [] && NoOrphans(rows) && Whole(slots[i])
    ensures SlotSite(self.site, i) in rows && rows[SlotSite(self.site, i)] == slots[i][[]]
    ensures IsLeaf(slots[i]) <==> rows[SlotSite(self.site, i)].Primitive?
  {
    SlotRow(rows, self.site, slots, i);
  }

  lemma LeafElement<V>(e: Element<V>, row: Node<Cell<V>>)
    requires Whole(e) && row.Primitive? && e[[]] == row
    ensures e == map[[] := row] && IsLeaf(e)
  {
  }

  lemma SlotIsFree<V>(rows: Rows<Cell<V>>, self: ViewRef, slots: map<int, Element<V>>, n: nat, i: int, j: int)
    requires Shifting(rows, self, slots, n) && i in slots && (j in slots ==> IsLeaf(slots[j]))
    ensures SlotFree(rows, SlotSite(self.site, i), SlotSite(self.site, j))
  {
    SlotBare(rows, self.site, slots, j);
    SlotRow(rows, self.site, slots, i);
  }

  // ---------------------------------------------------------------------------
  // Writing a whole element
  // ---------------------------------------------------------------------------

  /** What a value is stored as: one item, or a container with every row of it under its marker. */
  predicate Storable<V>(e: Element<V>) {
    && Whole(e)
    && (e[[]].Primitive? ==> e[[]].value.Item?)
    && (forall t :: t in e && t != [] ==> t[..|t| - 1] in e && e[t[..|t| - 1]].Marker?)
  }

  /** The rows outside a slot are as they were. */
  ghost predicate SameOutside<V>(rows: Rows<Cell<V>>, after: Rows<Cell<V>>, slot: Key) {
    forall k :: !(slot <= k) ==> (k in after <==> k in rows) && (k in rows ==> after[k] == rows[k])
  }

  lemma WriteKeepsTree<V>(rows: Rows<Cell<V>>, after: Rows<Cell<V>>, site: Key, i: int, e: Element<V>)
    requires NoOrphans(rows) && site != [] && site[0] == DATA_ROOT && IsContainer(rows, site)
    requires SameOutside(rows, after, SlotSite(site, i)) && HoldsElement(after, site, i, e) && Storable(e)
    ensures NoOrphans(after)
  {
    hide Storable, SameOutside, HoldsElement;
    forall k | k in after && |k| > 1 && k[0] == DATA_ROOT ensures IsContainer(after, k[..|k| - 1]) {
      if SlotSite(site, i) <= k {
        WrittenParent(rows, after, site, i, e, k);
      } else {
        OutsideParent(rows, after, SlotSite(site, i), k);
      }
    }
  }

  lemma WrittenParent<V>(rows: Rows<Cell<V>>, after: Rows<Cell<V>>, site: Key, i: int, e: Element<V>, k: Key)
    requires IsContainer(rows, site) && SameOutside(rows, after, SlotSite(site, i))
    requires HoldsElement(after, site, i, e) && Storable(e) && k in after && SlotSite(site, i) <= k
    ensures IsContainer(after, k[..|k| - 1])
  {
    var slot := SlotSite(site, i);
    var t := k[|slot|..];
    assert k == At(site, i, t) && t in e;
    if t == [] {
      assert k[..|k| - 1] == site && !(slot <= site);
    } else {
      assert k[..|k| - 1] == At(site, i, t[..|t| - 1]);
    }
  }

  lemma OutsideParent<V>(rows: Rows<Cell<V>>, after: Rows<Cell<V>>, slot: Key, k: Key)
    requires NoOrphans(rows) && SameOutside(rows, after, slot)
    requires k in after && !(slot <= k) && |k| > 1 && k[0] == DATA_ROOT
    ensures IsContainer(after, k[..|k| - 1])
  {
    assert IsContainer(rows, k[..|k| - 1]);
    assert !(slot <= k[..|k| - 1]);
  }

  lemma WriteShifts<V>(rows: Rows<Cell<V>>, after: Rows<Cell<V>>, self: ViewRef, slots: map<int, Element<V>>, n: nat,
                       i: int, e: Element<V>)
    requires Shifting(rows, self, slots, n) && i !in slots && Storable(e)
    requires SameOutside(rows, after, SlotSite(self.site, i)) && HoldsElement(after, self.site, i, e)
    ensures Shifting(after, self, slots[i := e], n)
  {
    var slot := SlotSite(self.site, i);
    WriteKeepsTree(rows, after, self.site, i, e);
    assert slot[0] == DATA_ROOT && LenKey(self.site)[0] == METADATA_ROOT;
    assert !(slot <= self.site) && !(slot <= LenKey(self.site));
    hide NoOrphans, Opened, HoldsElement;
    assert SameBut(rows, after, self.site, i);
    SlotFilled(rows, after, self.site, slots, i, e);
    hide HoldsSlots;
    SameMarker(rows, after, self);
  }

  lemma EmptySlot<V>(rows: Rows<Cell<V>>, self: ViewRef, slots: map<int, Element<V>>, n: nat, i: int)
    requires Shifting(rows, self, slots, n) && i !in slots
    ensures forall t: Key :: At(self.site, i, t) !in rows
  {
    forall t: Key ensures At(self.site, i, t) !in rows {
      AtApart(self.site, i, i, t);
    }
  }

  lemma StorableParts<V>(e: Element<V>)
    requires Storable(e)
    ensures [] in e && Whole(e) && (e[[]].Primitive? ==> e[[]].value.Item? && e == map[[] := e[[]]])
  {
  }

  lemma SiteGiven<V>(rows: Rows<Cell<V>>, self: ViewRef, slots: map<int, Element<V>>, n: nat)
    requires Shifting(rows, self, slots, n)
    ensures self.site != [] && Opened(self) && NoOrphans(rows) && IsContainer(rows, self.site)
  {
  }

  /** A positional view's hook does nothing: putting through the view is putting. */
  lemma PutIsPut<V>(rows: Rows<Cell<V>>, self: ViewRef, slots: map<int, Element<V>>, n: nat, i: int, value: V)
    requires Shifting(rows, self, slots, n) && i !in slots
    ensures Opened(self) && IsContainer(rows, self.site)
    ensures Shifting(PutMade(rows, self, Int(i), value).rows, self, slots[i := map[[] := Primitive(Item(value))]], n)
  {
    PutShifts(rows, self, slots, n, i, Item(value));
    SlotRow(rows, self.site, slots, i);
  }

  /** Filling a slot: the rows still to be written are absent, the others are the element's. */
  ghost predicate Filling<V>(rows: Rows<Cell<V>>, after: Rows<Cell<V>>, site: Key, i: int, e: Element<V>,
                             todo: set<Key>) {
    && SameOutside(rows, after, SlotSite(site, i))
    && (forall t :: t in e && t !in todo ==> At(site, i, t) in after && after[At(site, i, t)] == e[t])
    && (forall t: Key :: At(site, i, t) in after ==> t in e && t !in todo)
  }

  lemma FillStart<V>(rows: Rows<Cell<V>>, self: ViewRef, slots: map<int, Element<V>>, n: nat, i: int, e: Element<V>)
    requires Shifting(rows, self, slots, n) && i !in slots
    ensures Filling(rows, rows, self.site, i, e, e.Keys)
  {
    EmptySlot(rows, self, slots, n, i);
  }

  lemma FillStep<V>(rows: Rows<Cell<V>>, after: Rows<Cell<V>>, site: Key, i: int, e: Element<V>, todo: set<Key>, t: Key)
    requires Filling(rows, after, site, i, e, todo) && t in todo && t in e
    ensures Filling(rows, after[At(site, i, t) := e[t]], site, i, e, todo - {t})
  {
    AtApart(site, i, i, t);
    forall u ensures At(site, i, u) == At(site, i, t) <==> u == t {
      AtInjective(site, i, u, t);
    }
  }

  lemma FillEnd<V>(rows: Rows<Cell<V>>, after: Rows<Cell<V>>, self: ViewRef, slots: map<int, Element<V>>, n: nat,
                   i: int, e: Element<V>)
    requires Shifting(rows, self, slots, n) && i !in slots && Storable(e) && Filling(rows, after, self.site, i, e, {})
    ensures Shifting(after, self, slots[i := e], n)
  {
    hide *;
    FilledHolds(rows, after, self.site, i, e);
    WriteShifts(rows, after, self, slots, n, i, e);
  }

  lemma FilledHolds<V>(rows: Rows<Cell<V>>, after: Rows<Cell<V>>, site: Key, i: int, e: Element<V>)
    requires Filling(rows, after, site, i, e, {})
    ensures SameOutside(rows, after, SlotSite(site, i)) && HoldsElement(after, site, i, e)
  {
  }

  // ---------------------------------------------------------------------------
  // Absent lists, and lists that come into being
  // ---------------------------------------------------------------------------

  /** A list, standing or absent: its elements in consecutive slots, and their number. */
  ghost predicate Listed<V>(rows: Rows<Cell<V>>, self: ViewRef, elems: seq<Element<V>>) {
    && Opened(self) && !self.keyed && self.protocol != {}
    && NoOrphans(rows)
    && HoldsSlots(rows, self.site, SlotsOf(elems)) && LenOf(rows, self.site) == |elems|
  }

  lemma ListedParts<V>(rows: Rows<Cell<V>>, self: ViewRef, elems: seq<Element<V>>)
    requires Listed(rows, self, elems)
    ensures Opened(self) && NoOrphans(rows) && self.site != [] && self.site[0] == DATA_ROOT
    ensures LenOf(rows, self.site) == |elems|
    ensures Stands(rows, self) ==> Shifting(rows, self, SlotsOf(elems), |elems|)
  {
  }

  lemma ShiftedIsListed<V>(rows: Rows<Cell<V>>, self: ViewRef, elems: seq<Element<V>>)
    requires Shifting(rows, self, SlotsOf(elems), |elems|)
    ensures Listed(rows, self, elems) && Stands(rows, self)
  {
  }

  /** Creating a view stores no length of its own. */
  lemma {:induction false} EnsuredLength<V>(rows: Rows<Cell<V>>, v: ViewRef, s: Key)
    requires Opened(v) && s != [] && s[0] == DATA_ROOT && |v.site| <= |s|
    ensures LenOf(Ensured(rows, v).rows, s) == LenOf(rows, s)
    decreases v
  {
    assert LenKey(s)[0] == METADATA_ROOT;
    if v.parent.Some? && v.site !in rows {
      var p, up := v.parent.value, Ensured(rows, v.parent.value);
      EnsuredLength(rows, p, s);
      var (after, out) := Created(up.rows, v.site, v.structure, v.protocol, true);
      assert LenOf(after, s) == LenOf(up.rows, s);
      LengthIsOwn(after, p.site, LenOf(after, p.site) + 1, s);
    }
  }

  lemma EnsureKeepsList<V>(rows: Rows<Cell<V>>, self: ViewRef, elems: seq<Element<V>>)
    requires Listed(rows, self, elems)
    ensures var made := Ensured(rows, self);
            && Listed(made.rows, self, elems)
            && (made.out.Raised? ==> made.rows == rows)
            && (made.out == Done ==> Stands(made.rows, self))
  {
    var made := Ensured(rows, self);
    ChainMade(rows, self);
    if made.out == Done {
      StampedCompatible(rows, self);
      if self.site in rows {
        StandingOpens(rows, self);
      } else {
        EnsuredLength(rows, self, self.site);
        NoneBelow(rows, self);
        hide Ensured, HoldsSlots, NoOrphans, Opened;
        EmptyHolds(rows, made.rows, self, elems);
      }
    }
  }

  lemma NoneBelow<V>(rows: Rows<Cell<V>>, self: ViewRef)
    requires Opened(self) && NoOrphans(rows) && self.site !in rows && Ensured(rows, self).out == Done
    ensures forall k :: k in rows ==> !(self.site < k)
    ensures forall k :: k in Ensured(rows, self).rows ==> !(self.site < k)
  {
    ChainMade(rows, self);
    AnchorAbove(rows, self);
    hide Ensured, Missing, Anchor;
    forall k | self.site < k ensures k !in rows && k !in Ensured(rows, self).rows {
      if k in rows {
        UnderContainer(rows, self.site, k);
      }
      assert k !in Missing(rows, self) && k != Anchor(rows, self).site && k[0] == DATA_ROOT;
    }
  }

  lemma EmptyHolds<V>(rows: Rows<Cell<V>>, after: Rows<Cell<V>>, self: ViewRef, elems: seq<Element<V>>)
    requires HoldsSlots(rows, self.site, SlotsOf(elems))
    requires forall k :: k in rows ==> !(self.site < k)
    requires forall k :: k in after ==> !(self.site < k)
    ensures HoldsSlots(after, self.site, SlotsOf(elems))
  {
    SameSlots(rows, after, self.site, SlotsOf(elems));
  }

  lemma ClearedList<V>(rows: Rows<Cell<V>>, after: Rows<Cell<V>>, self: ViewRef, elems: seq<Element<V>>)
    requires Shifting(rows, self, SlotsOf(elems), |elems|)
    requires Cleared(rows, after, self.site, ChildKeys(rows, self.site))
    ensures Shifting(WithLength(after, self.site, 0), self, map[], 0)
  {
    ClearEmpties(rows, after, self.site);
    ClearedWithin(rows, after, self.site);
    assert self.site in after;
    hide Listed, Stands, Ensured, SlotsOf;
    SameMarker(rows, after, self);
    LengthShifts(after, self, map[], LenOf(after, self.site), 0);
  }

  lemma AppendSlot<T>(elems: seq<T>, e: T)
    ensures SlotsOf(elems)[|elems| := e] == SlotsOf(elems + [e]) && |elems| !in SlotsOf(elems)
  {
  }

  lemma SlotsUpdate<T>(elems: seq<T>, i: nat, e: T)
    requires i < |elems|
    ensures i in SlotsOf(elems) && SlotsOf(elems)[i] == elems[i]
    ensures SlotsOf(elems)[i := e] == SlotsOf(elems[i := e])
  {
  }

  lemma NoSlots<T>()
    ensures SlotsOf<T>([]) == map[]
  {
  }

  lemma StoreStep<T>(kept: seq<T>, values: seq<T>, i: nat)
    requires i < |values|
    ensures |kept| + i !in SlotsOf(kept + values[..i])
    ensures SlotsOf(kept + values[..i])[|kept| + i := values[i]] == SlotsOf(kept + values[..i + 1])
  {
    AppendSlot(kept + values[..i], values[i]);
    assert kept + values[..i] + [values[i]] == kept + values[..i + 1];
  }

  /** Putting over an item: a primitive gives way, a container does not. */
  lemma PutOver<V>(rows: Rows<Cell<V>>, self: ViewRef, slots: map<int, Element<V>>, n: nat, i: int, value: V)
    requires Shifting(rows, self, slots, n) && i in slots
    ensures Opened(self) && IsContainer(rows, self.site)
    ensures var made := PutMade(rows, self, Int(i), value);
            if IsLeaf(slots[i]) then
              made.out == Done && Shifting(made.rows, self, slots[i := map[[] := Primitive(Item(value))]], n)
            else made.out == Raised(ContainerTypeError) && made.rows == rows
  {
    SlotRow(rows, self.site, slots, i);
    if IsLeaf(slots[i]) {
      PutShifts(rows, self, slots, n, i, Item(value));
    } else {
      AllWhole(rows, self.site, slots);
    }
  }

  lemma AbsentEmpty<V>(rows: Rows<Cell<V>>, self: ViewRef, elems: seq<Element<V>>)
    requires Listed(rows, self, elems) && self.site !in rows
    ensures elems == []
  {
    if elems != [] {
      SlotParent(rows, self.site, SlotsOf(elems), 0);
    }
  }

  lemma SlotParent<V>(rows: Rows<Cell<V>>, site: Key, slots: map<int, Element<V>>, i: int)
    requires NoOrphans(rows) && HoldsSlots(rows, site, slots) && i in slots && site != [] && site[0] == DATA_ROOT
    ensures IsContainer(rows, site)
  {
    SlotRow(rows, site, slots, i);
    var k := SlotSite(site, i);
    assert k[..|k| - 1] == site && k[0] == DATA_ROOT;
  }

  /** A list with an item exists, so opening it writes nothing. */
  lemma ItemsStand<V>(rows: Rows<Cell<V>>, self: ViewRef, elems: seq<Element<V>>)
    requires Listed(rows, self, elems) && elems != []
    ensures self.site in rows && Ensured(rows, self).rows == rows
  {
    if self.site !in rows {
      AbsentEmpty(rows, self, elems);
    }
  }

  lemma StandingClears<V>(rows: Rows<Cell<V>>, self: ViewRef, slots: map<int, Element<V>>, n: nat)
    requires Shifting(rows, self, slots, n)
    ensures self.site in rows && Ensured(rows, self).out == Done
  {
    StandingOpens(rows, self);
  }

  // ---------------------------------------------------------------------------
  // The view
  // ---------------------------------------------------------------------------

  class View<V> {
    const views: Views<V>
    const self: ViewRef
    ghost var elems: seq<Element<V>>

    constructor (views: Views<V>, self: ViewRef, ghost elems: seq<Element<V>>)
      requires Listed(views.tree.rows, self, elems)
      ensures Valid() && this.views == views && this.self == self && this.elems == elems
    {
      this.views, this.self, this.elems := views, self, elems;
    }

    ghost function Rows(): Rows<Cell<V>>
      reads views.tree
    {
      views.tree.rows
    }

    ghost predicate Valid()
      reads this, views.tree
    {
      Listed(Rows(), self, elems)
    }

    ghost predicate Holds(slots: map<int, Element<V>>, n: nat)
      reads views.tree
    {
      Shifting(Rows(), self, slots, n)
    }

    method EnsureCreated() returns (out: Outcome)
      requires Valid()
      modifies this, views, views.tree
      ensures Valid() && elems == old(elems)
      ensures out == Ensured(old(Rows()), self).out && Rows() == Ensured(old(Rows()), self).rows
      ensures if out == Done then Holds(SlotsOf(elems), |elems|) else Rows() == old(Rows())
    {
      hide Shifting, Listed, Stands, Ensured, SlotsOf;
      EnsureKeepsList(Rows(), self, elems);
      ListedParts(Rows(), self, elems);
      out := views.EnsureCreated(self);
      ListedParts(Rows(), self, elems);
    }

    method NormalizeAddress(i: int) returns (r: Result<nat>)
      requires Valid()
      ensures r == Index(i, |elems|)
      ensures r.Ok? <==> -|elems| <= i < |elems|
      ensures r.Err? ==> r.error == IndexError
      ensures r.Ok? ==> r.value == if i >= 0 then i else |elems| + i
    {
      var n := views.StoredLength(self.site);
      var j := if i < 0 then n + i else i;
      if j < 0 || j >= n {
        return Err(IndexError);
      }
      return Ok(j);
    }

    /** Move the element in slot `i` to slot `j`: a row rewritten and deleted, or a subtree moved. */
    method MoveSlot(i: nat, j: nat, vacate: bool, ghost slots: map<int, Element<V>>, ghost n: nat)
      requires Holds(slots, n) && i != j && i in slots && (j in slots ==> IsLeaf(slots[j]))
      modifies views.tree
      ensures Holds(if vacate || !IsLeaf(slots[i]) then slots[j := slots[i]] - {i} else slots[j := slots[i]], n)
    {
      hide Shifting, Listed, Stands, Ensured, SlotsOf;
      ghost var before := Rows();
      SlotParts(before, self, slots, n, i);
      SlotIsFree(before, self, slots, n, i, j);
      var row := views.tree.rows[SlotSite(self.site, i)];
      if row.Primitive? {
        PutShifts(before, self, slots, n, j, row.value);
        var put := views.tree.PutChildPrimitive(self.site, Int(j), row.value, true, true);
        LeafElement(slots[i], row);
        if vacate {
          DeleteShifts(Rows(), self, slots[j := slots[i]], n, i);
          var deleted := views.tree.DeleteChild(self.site, Int(i));
        }
      } else {
        views.tree.MoveChildSubtree(self.site, Int(i), Int(j));
        MoveShifts(before, Rows(), self, slots, n, i, j);
      }
    }

    /** Write a new element: a row put through the view, or a container stamped and filled. */
    method SetChildValue(i: nat, e: Element<V>, ghost slots: map<int, Element<V>>, ghost n: nat)
      requires Holds(slots, n) && i !in slots && Storable(e)
      modifies this, views, views.tree
      ensures Holds(slots[i := e], n) && elems == old(elems)
    {
      hide Shifting, Listed, Stands, Ensured, SlotsOf;
      ghost var before := Rows();
      StorableParts(e);
      if e[[]].Primitive? {
        PutIsPut(before, self, slots, n, i, e[[]].value.value);
        var put := views.PutChildPrimitive(self, Int(i), e[[]].value.value);
      } else {
        PopulateChild(i, e, slots, n);
      }
    }

    /** Write the rows of a container where nothing stands. */
    method PopulateChild(i: nat, e: Element<V>, ghost slots: map<int, Element<V>>, ghost n: nat)
      requires Holds(slots, n) && i !in slots && Storable(e)
      modifies views.tree
      ensures Holds(slots[i := e], n)
    {
      hide Shifting, Listed, Stands, Ensured, SlotsOf;
      ghost var before := Rows();
      var todo := e.Keys;
      FillStart(before, self, slots, n, i, e);
      while todo != {}
        invariant todo <= e.Keys && Filling(before, Rows(), self.site, i, e, todo)
        decreases todo
      {
        var t :| t in todo;
        FillStep(before, Rows(), self.site, i, e, todo, t);
        views.tree.rows := views.tree.rows[At(self.site, i, t) := e[t]];
        todo := todo - {t};
      }
      FillEnd(before, Rows(), self, slots, n, i, e);
    }

    method SetLength(m: nat, ghost slots: map<int, Element<V>>, ghost n: nat)
      requires Holds(slots, n)
      modifies views.tree
      ensures Holds(slots, m)
    {
      hide Shifting, Listed, Stands, Ensured, SlotsOf;
      SiteGiven(Rows(), self, slots, n);
      LengthShifts(Rows(), self, slots, n, m);
      views.SetLength(self.site, m);
    }

    /** Delete the item an index points at and shift the rest down. */
    method Delete(i: int) returns (out: Outcome)
      requires Valid()
      modifies this, views, views.tree
      ensures Valid() && (out.Raised? ==> Rows() == old(Rows()) && elems == old(elems))
      ensures Index(i, |old(elems)|).Err? ==> out == Raised(IndexError)
      ensures Index(i, |old(elems)|).Ok? ==> out == Ensured(old(Rows()), self).out
      ensures out == Done ==> Index(i, |old(elems)|).Ok? && elems == RemoveAt(old(elems), Index(i, |old(elems)|).value)
      ensures !(-|old(elems)| <= i < |old(elems)|) ==> out == Raised(IndexError)
      ensures out == Done ==> -|old(elems)| <= i < |old(elems)| && ItemGone(old(elems), elems, i)
    {
      hide *;
      IndexLaw(i, |elems|);
      RemovesItem(elems, i);
      var r := NormalizeAddress(i);
      if r.Err? {
        return Raised(IndexError);
      }
      out := EnsureCreated();
      if out == Done {
        ShiftDown(r.value);
      }
    }

    /** Delete an item and move each later one down by one. */
    method ShiftDown(d: nat)
      requires Valid() && Holds(SlotsOf(elems), |elems|) && d < |elems|
      modifies this, views.tree
      ensures Valid() && elems == RemoveAt(old(elems), d)
    {
      hide Shifting, Listed, Stands, Ensured, SlotsOf, Down, RemoveAt;
      ghost var n := |elems|;
      var length := Length(SlotsOf(elems), n);
      DownStart(elems, d);
      DeleteSlot(d, SlotsOf(elems), n);
      for k := d + 1 to length
        invariant elems == old(elems) && Holds(Down(elems, d, k), n)
      {
        DownStep(elems, d, k);
        MoveSlot(k, k - 1, true, Down(elems, d, k), n);
      }
      DownEnd(elems, d);
      SetLength(length - 1, Down(elems, d, n), n);
      elems := RemoveAt(elems, d);
      Settled(n - 1);
    }

    method Length(ghost slots: map<int, Element<V>>, ghost n: nat) returns (length: nat)
      requires Holds(slots, n)
      ensures length == n
    {
      length := views.StoredLength(self.site);
    }

    method DeleteSlot(i: nat, ghost slots: map<int, Element<V>>, ghost n: nat)
      requires Holds(slots, n) && i in slots
      modifies views.tree
      ensures Holds(slots - {i}, n)
    {
      hide Shifting, Listed, Stands, Ensured, SlotsOf;
      SiteGiven(Rows(), self, slots, n);
      DeleteShifts(Rows(), self, slots, n, i);
      var deleted := views.tree.DeleteChild(self.site, Int(i));
    }

    /** Once every slot is in place the rows are the list's again. */
    ghost method Settled(n: nat)
      requires Holds(SlotsOf(elems), n) && n == |elems|
      ensures Valid()
    {
      ShiftedIsListed(Rows(), self, elems);
    }

    /** Insert at an index, clamped to the list, and shift the later items up. */
    method Insert(i: int, e: Element<V>) returns (out: Outcome)
      requires Valid() && Storable(e)
      modifies this, views, views.tree
      ensures Valid() && (out.Raised? ==> Rows() == old(Rows()) && elems == old(elems))
      ensures out == Ensured(old(Rows()), self).out
      ensures out == Done ==> elems == InsertAt(old(elems), Clamped(i, |old(elems)|), e)
      ensures out == Done ==> ItemInserted(old(elems), elems, i, e)
    {
      InsertsItem(elems, i, e);
      hide Shifting, Listed, Stands, Ensured, SlotsOf, Up, InsertAt, Storable, ItemInserted;
      out := EnsureCreated();
      if out.Raised? {
        return;
      }
      ghost var n := |elems|;
      var length := Length(SlotsOf(elems), n);
      var a := if i < 0 then (if length + i < 0 then 0 else length + i) else if i < length then i else length;
      ghost var stale := false;
      UpStart(elems);
      for k := length downto a
        invariant elems == old(elems) && (stale ==> k < n && k > a && IsLeaf(elems[k]))
        invariant Holds(Up(elems, k - 1, stale), n)
      {
        UpStep(elems, k, stale);
        MoveSlot(k, k + 1, k == a, Up(elems, k, stale), n);
        stale := k != a && IsLeaf(elems[k]);
      }
      UpEnd(elems, a, false, e);
      SetChildValue(a, e, Up(elems, a - 1, false), n);
      SetLength(length + 1, SlotsOf(InsertAt(elems, a, e)), n);
      elems := InsertAt(elems, a, e);
      Settled(n + 1);
    }

    method Append(e: Element<V>) returns (out: Outcome)
      requires Valid() && Storable(e)
      modifies this, views, views.tree
      ensures Valid() && (out.Raised? ==> Rows() == old(Rows()) && elems == old(elems))
      ensures out == Ensured(old(Rows()), self).out
      ensures out == Done ==> elems == old(elems) + [e]
    {
      hide *;
      out := EnsureCreated();
      if out.Raised? {
        return;
      }
      ghost var n := |elems|;
      var index := Length(SlotsOf(elems), n);
      AppendSlot(elems, e);
      SetChildValue(index, e, SlotsOf(elems), n);
      SetLength(index + 1, SlotsOf(elems + [e]), n);
      elems := elems + [e];
      Settled(n + 1);
    }

    /** Overwrite an item with a primitive. Over a container that is refused, and nothing is written. */
    method SetPrimitive(i: int, value: V) returns (out: Outcome)
      requires Valid()
      modifies this, views, views.tree
      ensures Valid() && (out.Raised? ==> Rows() == old(Rows()) && elems == old(elems))
      ensures var r := Index(i, |old(elems)|);
              if r.Err? then out == Raised(IndexError)
              else if Ensured(old(Rows()), self).out.Raised? then out == Ensured(old(Rows()), self).out
              else if !IsLeaf(old(elems)[r.value]) then out == Raised(ContainerTypeError)
              else out == Done && elems == old(elems)[r.value := map[[] := Primitive(Item(value))]]
      ensures !(-|old(elems)| <= i < |old(elems)|) ==> out == Raised(IndexError)
      ensures out == Done ==>
                -|old(elems)| <= i < |old(elems)| && ItemSet(old(elems), elems, i, map[[] := Primitive(Item(value))])
    {
      hide Shifting, Listed, Stands, Ensured, SlotsOf, ItemSet, Index;
      IndexLaw(i, |elems|);
      SetsItem(elems, i, map[[] := Primitive(Item(value))]);
      var r := NormalizeAddress(i);
      if r.Err? {
        return Raised(IndexError);
      }
      ItemsStand(Rows(), self, elems);
      out := EnsureCreated();
      if out == Done {
        out := OverwriteItem(r.value, value);
      }
    }

    method OverwriteItem(j: nat, value: V) returns (out: Outcome)
      requires Valid() && Holds(SlotsOf(elems), |elems|) && j < |elems|
      modifies this, views, views.tree
      ensures Valid() && (out.Raised? ==> Rows() == old(Rows()) && elems == old(elems))
      ensures if IsLeaf(old(elems)[j]) then out == Done && elems == old(elems)[j := map[[] := Primitive(Item(value))]]
              else out == Raised(ContainerTypeError)
    {
      hide Shifting, Listed, Stands, Ensured, SlotsOf;
      ghost var n := |elems|;
      SlotsUpdate(elems, j, map[[] := Primitive(Item(value))]);
      out := Overwrite(j, value, SlotsOf(elems), n);
      if out == Done {
        elems := elems[j := map[[] := Primitive(Item(value))]];
      }
      Settled(n);
    }

    method Overwrite(i: nat, value: V, ghost slots: map<int, Element<V>>, ghost n: nat) returns (out: Outcome)
      requires Holds(slots, n) && i in slots
      modifies this, views, views.tree
      ensures elems == old(elems)
      ensures if IsLeaf(slots[i]) then out == Done && Holds(slots[i := map[[] := Primitive(Item(value))]], n)
              else out == Raised(ContainerTypeError) && Rows() == old(Rows()) && Holds(slots, n)
    {
      hide Shifting, Listed, Stands, Ensured, SlotsOf;
      PutOver(Rows(), self, slots, n, i, value);
      out := views.PutChildPrimitive(self, Int(i), value);
    }

    /** Clearing an absent list leaves it absent. */
    method Clear() returns (out: Outcome)
      requires Valid()
      modifies this, views, views.tree
      ensures Valid() && (out.Raised? ==> Rows() == old(Rows()) && elems == old(elems))
      ensures out == if self.site in old(Rows()) then Ensured(old(Rows()), self).out else Done
      ensures out == Done ==> elems == []
      ensures out == Done && self.site in old(Rows()) ==> Holds(map[], 0)
      ensures self.site !in old(Rows()) ==> Rows() == old(Rows())
    {
      hide Shifting, Listed, Stands, Ensured, SlotsOf;
      if self.site !in views.tree.rows {
        AbsentEmpty(Rows(), self, elems);
        return Done;
      }
      out := EnsureCreated();
      if out == Done {
        ClearRows();
        NoSlots<Element<V>>();
        elems := [];
        Settled(0);
      }
    }

    method ClearRows()
      requires Holds(SlotsOf(elems), |elems|)
      modifies views.tree
      ensures Holds(map[], 0)
    {
      hide Shifting, Listed, Stands, Ensured, SlotsOf;
      ghost var before := Rows();
      SiteGiven(before, self, SlotsOf(elems), |elems|);
      var cleared := views.tree.ClearChildren(self.site);
      ClearedList(before, Rows(), self, elems);
      views.SetLength(self.site, 0);
    }

    /** Store a whole list, in place of the items or behind them. */
    method Store(values: seq<Element<V>>, replace: bool) returns (out: Outcome)
      requires Valid() && forall i :: 0 <= i < |values| ==> Storable(values[i])
      modifies this, views, views.tree
      ensures Valid() && (out.Raised? ==> Rows() == old(Rows()) && elems == old(elems))
      ensures out == Ensured(old(Rows()), self).out
      ensures out == Done ==> elems == (if replace then [] else old(elems)) + values
    {
      hide *;
      out := EnsureCreated();
      if out.Raised? {
        return;
      }
      if replace {
        ClearStanding();
      }
      ghost var n := |elems|;
      var count := Length(SlotsOf(elems), n);
      ghost var kept := elems;
      assert kept + values[..0] == kept;
      for i := 0 to |values|
        invariant elems == kept && count == n + i && Holds(SlotsOf(kept + values[..i]), n)
      {
        StoreStep(kept, values, i);
        SetChildValue(count, values[i], SlotsOf(kept + values[..i]), n);
        count := count + 1;
      }
      assert values[..|values|] == values;
      SetLength(count, SlotsOf(kept + values), n);
      elems := kept + values;
      Settled(count);
    }

    method ClearStanding()
      requires Valid() && Holds(SlotsOf(elems), |elems|)
      modifies this, views, views.tree
      ensures Valid() && elems == [] && Holds(SlotsOf(elems), |elems|)
    {
      hide Shifting, Listed, Stands, Ensured, SlotsOf;
      StandingClears(Rows(), self, SlotsOf(elems), |elems|);
      var cleared := Clear();
      NoSlots<Element<V>>();
    }
  }
}
