/**
 The bytearray view: one primitive row per byte and a stored length. The shift up leaves the rows it
 moved in place until they are written over.
 */
module ByteView {
  import opened Wrappers
  import opened Segments
  import opened Sequences
  import opened ContainerTree
  import opened ViewChain
  import opened ViewStore
  import opened ListSlots
  import opened ListView

  predicate IsByte(b: int) {
    0 <= b <= 255
  }

  predicate AllBytes(bytes: seq<int>) {
    forall i :: 0 <= i < |bytes| ==> IsByte(bytes[i])
  }

  /** Only a store lets a value out of range in: what it leaves are bytes exactly if all it was given are. */
  lemma StoreUnchecked(kept: seq<int>, values: seq<int>)
    ensures AllBytes([])
    ensures AllBytes(kept + values) <==> AllBytes(kept) && AllBytes(values)
  {
    if AllBytes(kept + values) {
      assert forall i :: 0 <= i < |kept| ==> kept[i] == (kept + values)[i];
      assert forall i :: 0 <= i < |values| ==> values[i] == (kept + values)[|kept| + i];
    }
  }

  function Leaf(b: int): Element<int> {
    map[[] := Primitive(Item(b))]
  }

  /** The elements a sequence of bytes is stored as. */
  function Leaves(bytes: seq<int>): (elems: seq<Element<int>>)
    ensures |elems| == |bytes| && forall i :: 0 <= i < |bytes| ==> elems[i] == Leaf(bytes[i])
  {
    seq(|bytes|, i requires 0 <= i < |bytes| => Leaf(bytes[i]))
  }

  lemma LeavesMove(bytes: seq<int>)
    ensures forall i :: 0 <= i < |bytes| ==> Leaves(RemoveAt(bytes, i)) == RemoveAt(Leaves(bytes), i)
    ensures forall i, b :: 0 <= i <= |bytes| ==> Leaves(InsertAt(bytes, i, b)) == InsertAt(Leaves(bytes), i, Leaf(b))
    ensures forall b :: Leaves(bytes + [b]) == Leaves(bytes) + [Leaf(b)]
  {
  }

  lemma LeavesUpdate(bytes: seq<int>, i: nat, b: int)
    requires i < |bytes|
    ensures Leaves(bytes[i := b]) == Leaves(bytes)[i := Leaf(b)]
  {
  }

  lemma LeafSlot(bytes: seq<int>, i: nat)
    requires i < |bytes|
    ensures IsLeaf(Leaves(bytes)[i]) && Leaves(bytes)[i][[]] == Primitive(Item(bytes[i]))
  {
  }

  lemma StoreLeaves(kept: seq<int>, values: seq<int>, i: nat)
    requires i < |values|
    ensures |kept| + i !in SlotsOf(Leaves(kept + values[..i]))
    ensures SlotsOf(Leaves(kept + values[..i]))[|kept| + i := Leaf(values[i])]
         == SlotsOf(Leaves(kept + values[..i + 1]))
  {
    assert kept + values[..i + 1] == kept + values[..i] + [values[i]];
    LeavesMove(kept + values[..i]);
    AppendSlot(Leaves(kept + values[..i]), Leaf(values[i]));
  }

  class View {
    const views: Views<int>
    const self: ViewRef
    ghost var bytes: seq<int>

    constructor (views: Views<int>, self: ViewRef, ghost bytes: seq<int>)
      requires Listed(views.tree.rows, self, Leaves(bytes))
      ensures Valid() && this.views == views && this.self == self && this.bytes == bytes
    {
      this.views, this.self, this.bytes := views, self, bytes;
    }

    ghost function Rows(): Rows<Cell<int>>
      reads views.tree
    {
      views.tree.rows
    }

    ghost predicate Valid()
      reads this, views.tree
    {
      Listed(Rows(), self, Leaves(bytes))
    }

    ghost predicate Holds(slots: map<int, Element<int>>, n: nat)
      reads views.tree
    {
      Shifting(Rows(), self, slots, n)
    }

    method EnsureCreated() returns (out: Outcome)
      requires Valid()
      modifies this, views, views.tree
      ensures Valid() && bytes == old(bytes)
      ensures out == Ensured(old(Rows()), self).out && Rows() == Ensured(old(Rows()), self).rows
      ensures if out == Done then Holds(SlotsOf(Leaves(bytes)), |bytes|) else Rows() == old(Rows())
    {
      hide Shifting, Listed, Stands, Ensured, SlotsOf, Leaves;
      EnsureKeepsList(Rows(), self, Leaves(bytes));
      ListedParts(Rows(), self, Leaves(bytes));
      out := views.EnsureCreated(self);
      ListedParts(Rows(), self, Leaves(bytes));
    }

    method NormalizeAddress(i: int) returns (r: Result<nat>)
      requires Valid()
      ensures r == Index(i, |bytes|)
      ensures r.Ok? <==> -|bytes| <= i < |bytes|
      ensures r.Err? ==> r.error == IndexError
      ensures r.Ok? ==> r.value == if i >= 0 then i else |bytes| + i
    {
      var n := views.StoredLength(self.site);
      var j := if i < 0 then n + i else i;
      if j < 0 || j >= n {
        return Err(IndexError);
      }
      return Ok(j);
    }

    method Length(ghost slots: map<int, Element<int>>, ghost n: nat) returns (length: nat)
      requires Holds(slots, n)
      ensures length == n
    {
      length := views.StoredLength(self.site);
    }

    /** The byte in a slot. */
    method Byte(i: nat, ghost slots: map<int, Element<int>>, ghost n: nat, ghost b: int) returns (r: Result<int>)
      requires Holds(slots, n) && i in slots && slots[i] == Leaf(b)
      ensures r == Ok(b)
    {
      SlotRow(Rows(), self.site, slots, i);
      var k := SlotSite(self.site, i);
      if k in views.tree.rows && views.tree.rows[k].Primitive? && views.tree.rows[k].value.Item? {
        return Ok(views.tree.rows[k].value.value);
      }
      return Err(IndexError);
    }

    method PutSlot(i: nat, b: int, ghost slots: map<int, Element<int>>, ghost n: nat)
      requires Holds(slots, n) && (i in slots ==> IsLeaf(slots[i]))
      modifies views.tree
      ensures Holds(slots[i := Leaf(b)], n)
    {
      hide Shifting, Listed, Stands, Ensured, SlotsOf, Leaves;
      SiteGiven(Rows(), self, slots, n);
      PutShifts(Rows(), self, slots, n, i, Item(b));
      var put := views.tree.PutChildPrimitive(self.site, Int(i), Item(b), true, true);
    }

    method DeleteSlot(i: nat, ghost slots: map<int, Element<int>>, ghost n: nat)
      requires Holds(slots, n) && i in slots
      modifies views.tree
      ensures Holds(slots - {i}, n)
    {
      hide Shifting, Listed, Stands, Ensured, SlotsOf, Leaves;
      SiteGiven(Rows(), self, slots, n);
      DeleteShifts(Rows(), self, slots, n, i);
      var deleted := views.tree.DeleteChild(self.site, Int(i));
    }

    /** Store the length the slots now have. */
    method SetLength(m: nat, ghost now: seq<int>, ghost n: nat)
      requires Holds(SlotsOf(Leaves(now)), n) && m == |now|
      modifies this, views.tree
      ensures Valid() && bytes == now && Stands(Rows(), self)
    {
      hide Shifting, Listed, Stands, Ensured, SlotsOf, Leaves;
      SiteGiven(Rows(), self, SlotsOf(Leaves(now)), n);
      LengthShifts(Rows(), self, SlotsOf(Leaves(now)), n, m);
      views.SetLength(self.site, m);
      bytes := now;
      ShiftedIsListed(Rows(), self, Leaves(now));
    }

    /** The value is checked before the index, and both before any write. */
    method SetItem(i: int, b: int) returns (out: Outcome)
      requires Valid()
      modifies this, views, views.tree
      ensures Valid() && (out.Raised? ==> Rows() == old(Rows()) && bytes == old(bytes))
      ensures out == if !IsByte(b) then Raised(ValueError)
                     else if Index(i, |old(bytes)|).Err? then Raised(IndexError) else Ensured(old(Rows()), self).out
      ensures out == Done ==> bytes == old(bytes)[Index(i, |old(bytes)|).value := b]
      ensures !(0 <= b <= 255) ==> out == Raised(ValueError)
      ensures 0 <= b <= 255 && !(-|old(bytes)| <= i < |old(bytes)|) ==> out == Raised(IndexError)
      ensures out == Done ==> -|old(bytes)| <= i < |old(bytes)| && ItemSet(old(bytes), bytes, i, b)
    {
      IndexLaw(i, |bytes|);
      SetsItem(bytes, i, b);
      hide Shifting, Listed, Stands, Ensured, SlotsOf, Leaves, ItemSet, Index;
      if !(0 <= b <= 255) {
        return Raised(ValueError);
      }
      var r := NormalizeAddress(i);
      if r.Err? {
        return Raised(IndexError);
      }
      out := EnsureCreated();
      if out.Raised? {
        return;
      }
      ghost var n := |bytes|;
      SlotsUpdate(Leaves(bytes), r.value, Leaf(b));
      LeafSlot(bytes, r.value);
      LeavesUpdate(bytes, r.value, b);
      PutSlot(r.value, b, SlotsOf(Leaves(bytes)), n);
      var length := Length(SlotsOf(Leaves(bytes[r.value := b])), n);
      bytes := bytes[r.value := b];
      ShiftedIsListed(Rows(), self, Leaves(bytes));
    }

    method Delete(i: int) returns (out: Outcome)
      requires Valid()
      modifies this, views, views.tree
      ensures Valid() && (out.Raised? ==> Rows() == old(Rows()) && bytes == old(bytes))
      ensures out == if Index(i, |old(bytes)|).Err? then Raised(IndexError) else Ensured(old(Rows()), self).out
      ensures out == Done ==> bytes == RemoveAt(old(bytes), Index(i, |old(bytes)|).value)
      ensures !(-|old(bytes)| <= i < |old(bytes)|) ==> out == Raised(IndexError)
      ensures out == Done ==> -|old(bytes)| <= i < |old(bytes)| && ItemGone(old(bytes), bytes, i)
    {
      hide *;
      IndexLaw(i, |bytes|);
      RemovesItem(bytes, i);
      var r := NormalizeAddress(i);
      if r.Err? {
        return Raised(IndexError);
      }
      out := EnsureCreated();
      if out == Done {
        ShiftDown(r.value);
      }
    }

    /** Delete a byte and move each later one down by one. */
    method ShiftDown(d: nat)
      requires Valid() && Holds(SlotsOf(Leaves(bytes)), |bytes|) && d < |bytes|
      modifies this, views.tree
      ensures Valid() && bytes == RemoveAt(old(bytes), d)
    {
      hide Shifting, Listed, Stands, Ensured, SlotsOf, Leaves, Down, RemoveAt;
      ghost var elems, n := Leaves(bytes), |bytes|;
      var length := Length(SlotsOf(elems), n);
      DownStart(elems, d);
      DeleteSlot(d, SlotsOf(elems), n);
      for k := d + 1 to length
        invariant bytes == old(bytes) && Holds(Down(elems, d, k), n)
      {
        DownStep(elems, d, k);
        LeafSlot(bytes, k);
        var b := Byte(k, Down(elems, d, k), n, bytes[k]);
        PutSlot(k - 1, b.value, Down(elems, d, k), n);
        DeleteSlot(k, Down(elems, d, k)[k - 1 := elems[k]], n);
      }
      DownEnd(elems, d);
      LeavesMove(bytes);
      SetLength(length - 1, RemoveAt(bytes, d), n);
    }

    method Append(b: int) returns (out: Outcome)
      requires Valid()
      modifies this, views, views.tree
      ensures Valid() && (out.Raised? ==> Rows() == old(Rows()) && bytes == old(bytes))
      ensures out == if !IsByte(b) then Raised(ValueError) else Ensured(old(Rows()), self).out
      ensures out == Done ==> bytes == old(bytes) + [b]
      ensures !(0 <= b <= 255) ==> out == Raised(ValueError)
    {
      hide Shifting, Listed, Stands, Ensured, SlotsOf, Leaves;
      if !(0 <= b <= 255) {
        return Raised(ValueError);
      }
      out := EnsureCreated();
      if out.Raised? {
        return;
      }
      ghost var n := |bytes|;
      var index := Length(SlotsOf(Leaves(bytes)), n);
      AppendSlot(Leaves(bytes), Leaf(b));
      LeavesMove(bytes);
      PutSlot(index, b, SlotsOf(Leaves(bytes)), n);
      SetLength(index + 1, bytes + [b], n);
    }

    /** The shift up deletes nothing: each row is written over by the one below it. */
    method Insert(i: int, b: int) returns (out: Outcome)
      requires Valid()
      modifies this, views, views.tree
      ensures Valid() && (out.Raised? ==> Rows() == old(Rows()) && bytes == old(bytes))
      ensures out == if !IsByte(b) then Raised(ValueError) else Ensured(old(Rows()), self).out
      ensures out == Done ==> bytes == InsertAt(old(bytes), Clamped(i, |old(bytes)|), b)
      ensures !(0 <= b <= 255) ==> out == Raised(ValueError)
      ensures out == Done ==> ItemInserted(old(bytes), bytes, i, b)
    {
      InsertsItem(bytes, i, b);
      hide Shifting, Listed, Stands, Ensured, SlotsOf, Leaves, Up, InsertAt, ItemInserted;
      if !(0 <= b <= 255) {
        return Raised(ValueError);
      }
      out := EnsureCreated();
      if out.Raised? {
        return;
      }
      ghost var elems, n := Leaves(bytes), |bytes|;
      var length := Length(SlotsOf(elems), n);
      var a := if i < 0 then (if length + i < 0 then 0 else length + i) else if i < length then i else length;
      UpStart(elems);
      for k := length downto a
        invariant bytes == old(bytes) && Holds(Up(elems, k - 1, k < n), n)
      {
        UpStep(elems, k, k + 1 < n);
        LeafSlot(bytes, k);
        if k + 1 < n {
          LeafSlot(bytes, k + 1);
        }
        var byte := Byte(k, Up(elems, k, k + 1 < n), n, bytes[k]);
        PutSlot(k + 1, byte.value, Up(elems, k, k + 1 < n), n);
      }
      UpEnd(elems, a, a < n, Leaf(b));
      if a < n {
        LeafSlot(bytes, a);
      }
      PutSlot(a, b, Up(elems, a - 1, a < n), n);
      LeavesMove(bytes);
      SetLength(length + 1, InsertAt(bytes, a, b), n);
    }

    method Clear() returns (out: Outcome)
      requires Valid()
      modifies this, views, views.tree
      ensures Valid() && (out.Raised? ==> Rows() == old(Rows()) && bytes == old(bytes))
      ensures out == if self.site in old(Rows()) then Ensured(old(Rows()), self).out else Done
      ensures out == Done ==> bytes == []
      ensures out == Done && self.site in old(Rows()) ==> Stands(Rows(), self)
    {
      hide Shifting, Listed, Stands, Ensured, SlotsOf, Leaves;
      if self.site !in views.tree.rows {
        AbsentEmpty(Rows(), self, Leaves(bytes));
        return Done;
      }
      out := EnsureCreated();
      if out == Done {
        ClearRows();
      }
    }

    method ClearRows()
      requires Holds(SlotsOf(Leaves(bytes)), |bytes|)
      modifies this, views.tree
      ensures Valid() && bytes == [] && Stands(Rows(), self)
    {
      hide Shifting, Listed, Stands, Ensured, SlotsOf, Leaves;
      ghost var before := Rows();
      SiteGiven(before, self, SlotsOf(Leaves(bytes)), |bytes|);
      var cleared := views.tree.ClearChildren(self.site);
      ClearedList(before, Rows(), self, Leaves(bytes));
      views.SetLength(self.site, 0);
      bytes := [];
      NoSlots<Element<int>>();
      ShiftedIsListed(Rows(), self, Leaves(bytes));
    }

    /**
     Store many values, in place of the bytes or behind them. Their range is not checked here: what is left
     are bytes exactly if all values given are, and all bytes kept.
     */
    method Store(values: seq<int>, replace: bool) returns (out: Outcome)
      requires Valid()
      modifies this, views, views.tree
      ensures Valid() && (out.Raised? ==> Rows() == old(Rows()) && bytes == old(bytes))
      ensures out == Ensured(old(Rows()), self).out
      ensures out == Done ==> bytes == (if replace then [] else old(bytes)) + values
      ensures out == Done ==> (AllBytes(bytes) <==> AllBytes(values) && (replace || AllBytes(old(bytes))))
    {
      hide *;
      out := EnsureCreated();
      if out.Raised? {
        return;
      }
      if replace {
        ClearRows();
        Restand();
      }
      ghost var kept, n := bytes, |bytes|;
      var count := Length(SlotsOf(Leaves(kept)), n);
      assert kept + values[..0] == kept;
      for i := 0 to |values|
        invariant bytes == kept && count == n + i && Holds(SlotsOf(Leaves(kept + values[..i])), n)
      {
        StoreLeaves(kept, values, i);
        PutSlot(count, values[i], SlotsOf(Leaves(kept + values[..i])), n);
        count := count + 1;
      }
      assert values[..|values|] == values;
      SetLength(count, kept + values, n);
      StoreUnchecked(kept, values);
    }

    ghost method Restand()
      requires Valid() && Stands(Rows(), self)
      ensures Holds(SlotsOf(Leaves(bytes)), |bytes|)
    {
      ListedParts(Rows(), self, Leaves(bytes));
    }
  }
}
