/** The views' own writes: creating themselves through their parents, and keeping their lengths. */
module ViewStore {
  import opened Wrappers
  import opened Segments
  import opened ContainerTree
  import opened ViewChain

  /** No row but the stored length of one view has changed. */
  ghost predicate OnlyLength<V>(before: Rows<Cell<V>>, after: Rows<Cell<V>>, site: Key)
    requires site != []
  {
    forall k :: k != Mirror(site) + [Str("__len__")] ==>
      (k in after <==> k in before) && (k in before ==> after[k] == before[k])
  }

  class Views<V> {
    const tree: Tree<Cell<V>>
    /** Every child announced to a hook so far. */
    ghost var fired: seq<Key>

    constructor (tree: Tree<Cell<V>>)
      ensures this.tree == tree && fired == []
    {
      this.tree, fired := tree, [];
    }

    method StoredLength(site: Key) returns (n: nat)
      requires site != []
      ensures n == LenOf(tree.rows, site)
      ensures var k := Mirror(site) + [Str("__len__")];
              n == if k in tree.rows && tree.rows[k].Primitive? && tree.rows[k].value.Count? then tree.rows[k].value.n
                   else 0
    {
      var k := LenKey(site);
      n := 0;
      if k in tree.rows && tree.rows[k].Primitive? && tree.rows[k].value.Count? {
        n := tree.rows[k].value.n;
      }
    }

    method SetLength(site: Key, n: nat)
      requires site != []
      modifies tree
      ensures tree.rows == WithLength(old(tree.rows), site, n)
      ensures tree.rows == old(tree.rows)[Mirror(site) + [Str("__len__")] := Primitive(Count(n))]
    {
      tree.rows := tree.rows[LenKey(site) := Primitive(Count(n))];
    }

    method IncrementLength(site: Key)
      requires site != []
      modifies tree
      ensures tree.rows == WithLength(old(tree.rows), site, LenOf(old(tree.rows), site) + 1)
      ensures LenOf(tree.rows, site) == LenOf(old(tree.rows), site) + 1 && OnlyLength(old(tree.rows), tree.rows, site)
    {
      var n := StoredLength(site);
      SetLength(site, n + 1);
    }

    method DecrementLength(site: Key)
      requires site != []
      modifies tree
      ensures tree.rows == Decremented(old(tree.rows), site)
      ensures LenOf(tree.rows, site) == (if LenOf(old(tree.rows), site) > 0 then LenOf(old(tree.rows), site) - 1 else 0)
      ensures OnlyLength(old(tree.rows), tree.rows, site)
    {
      var n := StoredLength(site);
      if n > 0 {
        SetLength(site, n - 1);
      }
    }

    method OnChildCreated(v: ViewRef, key: Segment)
      requires v.site != []
      modifies this, tree
      ensures tree.rows == Hooked(old(tree.rows), v) && fired == old(fired) + [v.site + [key]]
      ensures LenOf(tree.rows, v.site) == LenOf(old(tree.rows), v.site) + (if v.keyed then 1 else 0)
      ensures OnlyLength(old(tree.rows), tree.rows, v.site)
    {
      if v.keyed {
        IncrementLength(v.site);
      }
      fired := fired + [v.site + [key]];
    }

    /** Idempotent; a missing chain of views is stamped from the top down. */
    method EnsureCreated(v: ViewRef) returns (out: Outcome)
      requires Opened(v) && NoOrphans(tree.rows)
      modifies this, tree
      ensures (tree.rows, out, fired) == (Ensured(old(tree.rows), v).rows, Ensured(old(tree.rows), v).out,
                                          old(fired) + Ensured(old(tree.rows), v).fired)
      decreases v, 1
    {
      hide NoOrphans, EnsuredChild, Created;
      if v.parent.Some? {
        out := EnsureChildView(v);
      } else {
        out := tree.CreateContainer(v.site, v.structure, v.protocol, true);
        assert fired == old(fired) + [];
      }
    }

    /** The single door for a child container. */
    method EnsureChildView(v: ViewRef) returns (out: Outcome)
      requires Opened(v) && v.parent.Some? && NoOrphans(tree.rows)
      modifies this, tree
      ensures (tree.rows, out, fired) == (EnsuredChild(old(tree.rows), v).rows, EnsuredChild(old(tree.rows), v).out,
                                          old(fired) + EnsuredChild(old(tree.rows), v).fired)
      decreases v, 0
    {
      hide NoOrphans, Ensured, Created, Hooked;
      var existed := v.site in tree.rows;
      assert forall f: seq<Key> :: f + [] == f;
      if !existed {
        out := EnsureCreated(v.parent.value);
        if out.Raised? {
          return;
        }
      }
      out := tree.CreateContainer(v.site, v.structure, v.protocol, true);
      if out == Done && !existed {
        OnChildCreated(v.parent.value, v.site[|v.site| - 1]);
        assert v.parent.value.site + [v.site[|v.site| - 1]] == v.site;
        assert forall f: seq<Key>, g: seq<Key> :: (f + g) + [v.site] == f + (g + [v.site]);
      }
    }

    /** The caller has created the view. */
    method PutChildPrimitive(v: ViewRef, key: Segment, value: V) returns (out: Outcome)
      requires Opened(v) && IsContainer(tree.rows, v.site)
      modifies this, tree
      ensures (tree.rows, out, fired) == (PutMade(old(tree.rows), v, key, value).rows,
            PutMade(old(tree.rows), v, key, value).out,
                                          old(fired) + PutMade(old(tree.rows), v, key, value).fired)
      ensures var child, before := v.site + [key], old(tree.rows);
              if child in before && before[child].Marker? then
                out == Raised(ContainerTypeError) && tree.rows == before && fired == old(fired)
              else
                && out == Done && child in tree.rows && tree.rows[child] == Primitive(Item(value))
                && fired == (if child in before then old(fired) else old(fired) + [child])
                && OnlyLength(before[child := tree.rows[child]], tree.rows, v.site)
                && LenOf(tree.rows, v.site) == LenOf(before, v.site) + (if v.keyed && child !in before then 1 else 0)
    {
      var child := v.site + [key];
      var existed := child in tree.rows;
      assert LenKey(v.site)[0] == METADATA_ROOT && child[0] == DATA_ROOT;
      assert forall f: seq<Key> :: f + [] == f;
      if existed && tree.rows[child].Marker? {
        return Raised(ContainerTypeError);
      }
      out := tree.PutChildPrimitive(v.site, key, Item(value), false, false);
      if !existed {
        OnChildCreated(v, key);
      }
    }
  }
}
