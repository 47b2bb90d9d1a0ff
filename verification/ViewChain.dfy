/**
 Views over the tree. A view is created through the view it was opened from, every missing ancestor
 first; the parent hears of each new child once, and a keyed view counts what it hears of.
 */
module ViewChain {
  import opened Wrappers
  import opened Segments
  import opened ContainerTree

  const LENGTH: Segment := Str("__len__")

  /** What a row can hold: an item, or the count a view keeps of its children. */
  datatype Cell<+V> = Item(value: V) | Count(n: nat)

  /** A view opened at a site. A root view has no parent; a keyed view counts its children. */
  datatype ViewRef = ViewRef(site: Key, structure: int, protocol: set<nat>, keyed: bool, parent: Option<ViewRef>)

  /** A child view stands directly under the view it was opened from. */
  predicate Opened(v: ViewRef) {
    && v.site != [] && v.site[0] == DATA_ROOT
    && (v.parent.Some? ==>
          && |v.site| > 1 && v.parent.value.site == v.site[..|v.site| - 1]
          && Opened(v.parent.value))
  }

  function LenKey(site: Key): Key
    requires site != []
  {
    Mirror(site) + [LENGTH]
  }

  /** The stored length, 0 when there is none. */
  function LenOf<V>(rows: Rows<Cell<V>>, site: Key): nat
    requires site != []
  {
    var k := LenKey(site);
    if k in rows && rows[k].Primitive? && rows[k].value.Count? then rows[k].value.n else 0
  }

  function WithLength<V>(rows: Rows<Cell<V>>, site: Key, n: nat): Rows<Cell<V>>
    requires site != []
  {
    rows[LenKey(site) := Primitive(Count(n))]
  }

  function Decremented<V>(rows: Rows<Cell<V>>, site: Key): Rows<Cell<V>>
    requires site != []
  {
    if LenOf(rows, site) > 0 then WithLength(rows, site, LenOf(rows, site) - 1) else rows
  }

  /** What the hook of a view does when a child is new. */
  function Hooked<V>(rows: Rows<Cell<V>>, v: ViewRef): Rows<Cell<V>>
    requires v.site != []
  {
    if v.keyed then WithLength(rows, v.site, LenOf(rows, v.site) + 1) else rows
  }

  /** The rows after a write, how it ended, and the children whose hook it fired, in order. */
  datatype Made<V> = Made(rows: Rows<Cell<V>>, out: Outcome, fired: seq<Key>)

  /** Creating a view: a root creates itself, a child is created through its parent. */
  function Ensured<V>(rows: Rows<Cell<V>>, v: ViewRef): Made<V>
    requires Opened(v)
    decreases v, 1
  {
    if v.parent.Some? then EnsuredChild(rows, v)
    else
      var (after, out) := Created(rows, v.site, v.structure, v.protocol, true);
      Made(after, out, [])
  }

  /** A missing child is stamped once its parent exists, and then its parent's hook fires. */
  function EnsuredChild<V>(rows: Rows<Cell<V>>, v: ViewRef): Made<V>
    requires Opened(v) && v.parent.Some?
    decreases v, 0
  {
    var up := if v.site in rows then Made(rows, Done, []) else Ensured(rows, v.parent.value);
    if up.out.Raised? then up
    else
      var (after, out) := Created(up.rows, v.site, v.structure, v.protocol, true);
      if out.Raised? || v.site in rows then Made(after, out, up.fired)
      else Made(Hooked(after, v.parent.value), Done, up.fired + [v.site])
  }

  /** Writing one primitive child of an existing view; a new key fires the hook. */
  function PutMade<V>(rows: Rows<Cell<V>>, v: ViewRef, key: Segment, value: V): Made<V>
    requires v.site != []
  {
    var child := v.site + [key];
    if IsContainer(rows, child) then Made(rows, Raised(ContainerTypeError), [])
    else
      var after := rows[child := Primitive(Item(value))];
      if child in rows then Made(after, Done, []) else Made(Hooked(after, v), Done, [child])
  }

  // ---------------------------------------------------------------------------
  // Exactly the missing views are created, top down, each announced once
  // ---------------------------------------------------------------------------

  /** The nearest view up the chain that exists, or the root. */
  function Anchor<V>(rows: Rows<Cell<V>>, v: ViewRef): (a: ViewRef)
    requires Opened(v)
    ensures Opened(a) && (a.site in rows || a.parent.None?)
  {
    if v.site in rows || v.parent.None? then v else Anchor(rows, v.parent.value)
  }

  /** The missing views below the anchor, topmost first. */
  function Missing<V>(rows: Rows<Cell<V>>, v: ViewRef): (sites: seq<Key>)
    requires Opened(v)
    ensures forall s :: s in sites ==> s !in rows && s != [] && |s| <= |v.site|
  {
    if v.site in rows || v.parent.None? then [] else Missing(rows, v.parent.value) + [v.site]
  }

  /** The data rows that were there are untouched. */
  ghost predicate DataKept<V>(rows: Rows<Cell<V>>, after: Rows<Cell<V>>) {
    forall k :: k in rows && k != [] && k[0] == DATA_ROOT ==> k in after && after[k] == rows[k]
  }

  lemma HookedKeeps<V>(rows: Rows<Cell<V>>, v: ViewRef)
    requires v.site != [] && NoOrphans(rows)
    ensures NoOrphans(Hooked(rows, v)) && DataKept(rows, Hooked(rows, v))
    ensures forall k :: k != [] && k[0] == DATA_ROOT ==> (k in Hooked(rows, v) <==> k in rows)
  {
    var k := LenKey(v.site);
    assert k[0] == METADATA_ROOT;
  }

  lemma CreatedOne<V>(rows: Rows<Cell<V>>, site: Key, structure: int, protocol: set<nat>)
    requires NoOrphans(rows) && site != [] && site[0] == DATA_ROOT
    ensures var (after, out) := Created(rows, site, structure, protocol, true);
            && NoOrphans(after) && DataKept(rows, after)
            && (out == Done ==> IsContainer(after, site) && forall k :: k in after <==> k in rows || k == site)
            && (out != Done || site in rows ==> after == rows)
            && (site !in rows && |site| > 1 && IsContainer(rows, site[..|site| - 1]) ==> out == Done)
  {
    CreateKeeps(rows, site, structure, protocol, true);
  }

  /**
     Creating a view ends as the anchor's own check does. It creates nothing if that fails; otherwise
     exactly the missing views are new, and the hook fired once for each, topmost first.
   */
  lemma {:induction false} ChainMade<V>(rows: Rows<Cell<V>>, v: ViewRef)
    requires Opened(v) && NoOrphans(rows)
    ensures var made, a := Ensured(rows, v), Anchor(rows, v);
            && made.out == Created(rows, a.site, a.structure, a.protocol, true).1
            && (made.out.Raised? ==> made.rows == rows && made.fired == [])
            && (made.out == Done ==>
                  && made.fired == Missing(rows, v)
                  && IsContainer(made.rows, v.site)
                  && forall k :: k != [] && k[0] == DATA_ROOT ==>
                       (k in made.rows <==> k in rows || k in Missing(rows, v) || k == a.site))
            && NoOrphans(made.rows) && DataKept(rows, made.rows)
    decreases v
  {
    CreatedOne(rows, v.site, v.structure, v.protocol);
    if v.parent.Some? && v.site !in rows {
      ChainMade(rows, v.parent.value);
      var up := Ensured(rows, v.parent.value);
      if up.out == Done {
        ChainStep(rows, up, v);
      }
    }
  }

  lemma ChainStep<V>(rows: Rows<Cell<V>>, up: Made<V>, v: ViewRef)
    requires Opened(v) && v.parent.Some? && v.site !in rows
    requires NoOrphans(up.rows) && DataKept(rows, up.rows) && IsContainer(up.rows, v.parent.value.site)
    requires up.fired == Missing(rows, v.parent.value)
    requires var a := Anchor(rows, v.parent.value);
             forall k :: k != [] && k[0] == DATA_ROOT ==>
               (k in up.rows <==> k in rows || k in Missing(rows, v.parent.value) || k == a.site)
    ensures var (after, out) := Created(up.rows, v.site, v.structure, v.protocol, true);
            var last := Hooked(after, v.parent.value);
            && out == Done && NoOrphans(last) && DataKept(rows, last) && IsContainer(last, v.site)
            && forall k :: k != [] && k[0] == DATA_ROOT ==>
                 (k in last <==>
                    || k in rows || k in Missing(rows, v.parent.value) + [v.site]
                    || k == Anchor(rows, v.parent.value).site)
  {
    AnchorAbove(rows, v.parent.value);
    assert v.site !in up.rows;
    CreatedOne(up.rows, v.site, v.structure, v.protocol);
    var after := Created(up.rows, v.site, v.structure, v.protocol, true).0;
    HookedKeeps(after, v.parent.value);
  }

  lemma AnchorAbove<V>(rows: Rows<Cell<V>>, v: ViewRef)
    requires Opened(v)
    ensures |Anchor(rows, v).site| <= |v.site|
  {
  }

  /** Creating a view that exists already changes nothing and announces nothing. */
  lemma CreatedTwice<V>(rows: Rows<Cell<V>>, v: ViewRef)
    requires Opened(v) && NoOrphans(rows) && v.protocol != {}
    requires Ensured(rows, v).out == Done
    ensures Ensured(Ensured(rows, v).rows, v) == Made(Ensured(rows, v).rows, Done, [])
  {
    ChainMade(rows, v);
    StampedCompatible(rows, v);
  }

  lemma StampedCompatible<V>(rows: Rows<Cell<V>>, v: ViewRef)
    requires Opened(v) && NoOrphans(rows) && v.protocol != {} && Ensured(rows, v).out == Done
    ensures var after := Ensured(rows, v).rows;
            IsContainer(after, v.site) && Compatible(v.structure, v.protocol, after[v.site])
  {
    hide NoOrphans, Hooked, Missing, Anchor;
    assert v.protocol * v.protocol == v.protocol;
    if v.parent.Some? && v.site !in rows {
      StillMissing(rows, v);
      var up := Ensured(rows, v.parent.value);
      var after := Created(up.rows, v.site, v.structure, v.protocol, true).0;
      HookedOutside(after, v.parent.value, v.site);
    }
  }

  lemma HookedOutside<V>(rows: Rows<Cell<V>>, v: ViewRef, k: Key)
    requires v.site != [] && k in rows && k != [] && k[0] == DATA_ROOT
    ensures k in Hooked(rows, v) && Hooked(rows, v)[k] == rows[k]
  {
    assert LenKey(v.site)[0] == METADATA_ROOT;
  }

  /** Creating the parent does not create the child: what was read of it before still holds. */
  lemma StillMissing<V>(rows: Rows<Cell<V>>, v: ViewRef)
    requires Opened(v) && NoOrphans(rows) && v.parent.Some? && v.site !in rows
    ensures v.site !in Ensured(rows, v.parent.value).rows
  {
    hide Ensured, Missing, Anchor;
    ChainMade(rows, v.parent.value);
    AnchorAbove(rows, v.parent.value);
  }

  /** The view's own marker stands. */
  ghost predicate Stands<V>(rows: Rows<Cell<V>>, self: ViewRef)
    requires self.site != []
  {
    IsContainer(rows, self.site) && Compatible(self.structure, self.protocol, rows[self.site])
  }

  lemma StandingOpens<V>(rows: Rows<Cell<V>>, self: ViewRef)
    requires Opened(self)
    ensures self.site in rows && Ensured(rows, self).out == Done ==> Stands(rows, self)
    ensures Stands(rows, self) ==> Ensured(rows, self) == Made(rows, Done, [])
  {
    if self.site in rows {
      var (after, out) := Created(rows, self.site, self.structure, self.protocol, true);
      assert Ensured(rows, self) == Made(after, out, []);
    }
  }

  lemma LengthKeepsData<V>(rows: Rows<Cell<V>>, site: Key, n: nat, k: Key)
    requires site != [] && k != [] && k[0] == DATA_ROOT
    ensures k in WithLength(rows, site, n) <==> k in rows
    ensures k in rows ==> WithLength(rows, site, n)[k] == rows[k]
  {
    assert LenKey(site)[0] == METADATA_ROOT;
  }

  lemma LengthKeepsTree<V>(rows: Rows<Cell<V>>, site: Key, n: nat)
    requires site != []
    ensures NoOrphans(rows) ==> NoOrphans(WithLength(rows, site, n))
  {
    assert LenKey(site)[0] == METADATA_ROOT;
  }

  // ---------------------------------------------------------------------------
  // Counts
  // ---------------------------------------------------------------------------

  ghost predicate Counted<V>(rows: Rows<Cell<V>>, site: Key)
    requires site != []
  {
    LenOf(rows, site) == |ChildKeys(rows, site)|
  }

  /** Every keyed view's stored length is the number of its children. */
  ghost predicate AllCounted<V>(rows: Rows<Cell<V>>, keyed: set<Key>) {
    forall s :: s in keyed ==> s != [] && s[0] == DATA_ROOT && Counted(rows, s)
  }

  /** The views of a chain are keyed where `keyed` says so, and the root is not itself counted. */
  predicate Agrees(v: ViewRef, keyed: set<Key>) {
    && v.site != [] && (v.keyed <==> v.site in keyed)
    && if v.parent.Some? then Agrees(v.parent.value, keyed) else v.site[..|v.site| - 1] !in keyed
  }

  lemma ChildOf<V>(rows: Rows<V>, site: Key, key: Segment)
    ensures key in ChildKeys(rows, site) <==> site + [key] in rows
  {
    if key in ChildKeys(rows, site) {
      var k :| k in rows && |k| == |site| + 1 && site <= k && k[|site|] == key;
      assert k == site + [key];
    }
    if site + [key] in rows {
      assert (site + [key])[|site|] == key && site <= site + [key];
    }
  }

  lemma SameChildSite(s: Key, x: Segment, parent: Key, key: Segment)
    ensures s + [x] == parent + [key] <==> s == parent && x == key
  {
    if s + [x] == parent + [key] {
      assert (s + [x])[..|s|] == s && (s + [x])[|s|] == x;
      assert (parent + [key])[..|parent|] == parent && (parent + [key])[|parent|] == key;
    }
  }

  /** A new data row is one more child of the row it lies under, and of no other. */
  lemma OneMoreChild<V>(rows: Rows<Cell<V>>, parent: Key, key: Segment, node: Node<Cell<V>>, s: Key)
    requires parent != [] && parent[0] == DATA_ROOT && s != [] && parent + [key] !in rows
    ensures var after := rows[parent + [key] := node];
            && LenOf(after, s) == LenOf(rows, s)
            && |ChildKeys(after, s)| == |ChildKeys(rows, s)| + (if s == parent then 1 else 0)
  {
    var child := parent + [key];
    var after := rows[child := node];
    assert LenKey(s)[0] == METADATA_ROOT && child[0] == DATA_ROOT;
    assert LenOf(after, s) == LenOf(rows, s);
    hide *;
    forall x ensures x in ChildKeys(after, s) <==> x in ChildKeys(rows, s) || (s == parent && x == key) {
      ChildOf(after, s, x);
      ChildOf(rows, s, x);
      SameChildSite(s, x, parent, key);
    }
    ChildOf(rows, parent, key);
    if s == parent {
      assert ChildKeys(after, s) == ChildKeys(rows, s) + {key};
    } else {
      assert ChildKeys(after, s) == ChildKeys(rows, s);
    }
  }

  /** Storing a length says nothing about any other view. */
  lemma LengthIsOwn<V>(rows: Rows<Cell<V>>, site: Key, n: nat, s: Key)
    requires site != [] && site[0] == DATA_ROOT && s != [] && s[0] == DATA_ROOT
    ensures LenOf(WithLength(rows, site, n), s) == if s == site then n else LenOf(rows, s)
    ensures ChildKeys(WithLength(rows, site, n), s) == ChildKeys(rows, s)
  {
    var after := WithLength(rows, site, n);
    var a, b := LenKey(s), LenKey(site);
    assert a == b ==> s == site by {
      if a == b {
        assert s[1..] == a[1..|a| - 1] && site[1..] == b[1..|b| - 1];
        assert s == [s[0]] + s[1..] && site == [site[0]] + site[1..];
      }
    }
    forall x ensures x in ChildKeys(after, s) <==> x in ChildKeys(rows, s) {
      ChildOf(after, s, x);
      ChildOf(rows, s, x);
    }
  }

  /** A new child is counted once, if its parent is keyed and hears of it. */
  lemma NewChildCounted<V>(rows: Rows<Cell<V>>, v: ViewRef, key: Segment, node: Node<Cell<V>>, keyed: set<Key>)
    requires v.site != [] && v.site[0] == DATA_ROOT && v.site + [key] !in rows
    requires AllCounted(rows, keyed) && (v.keyed <==> v.site in keyed)
    ensures AllCounted(Hooked(rows[v.site + [key] := node], v), keyed)
  {
    var after := rows[v.site + [key] := node];
    hide LenOf, ChildKeys, WithLength;
    forall s | s in keyed ensures s != [] && s[0] == DATA_ROOT && Counted(Hooked(after, v), s) {
      OneMoreChild(rows, v.site, key, node, s);
      LengthIsOwn(after, v.site, LenOf(after, v.site) + 1, s);
    }
  }

  /** A root view that is missing is created without anybody counting it. */
  lemma RootUncounted<V>(rows: Rows<Cell<V>>, v: ViewRef)
    requires v.site != [] && v.parent.None? && v.site !in rows && |v.site| > 1 && v.site[0] == DATA_ROOT && Opened(v)
    requires Ensured(rows, v).out == Done && Counted(rows, v.site[..|v.site| - 1])
    ensures !Counted(Ensured(rows, v).rows, v.site[..|v.site| - 1])
  {
    var p := v.site[..|v.site| - 1];
    assert v.site == p + [v.site[|p|]];
    OneMoreChild(rows, p, v.site[|p|], Marker(v.structure, v.protocol), p);
  }

  lemma RootCounts<V>(rows: Rows<Cell<V>>, site: Key, node: Node<Cell<V>>, keyed: set<Key>)
    requires site != [] && site[0] == DATA_ROOT && site !in rows && site[..|site| - 1] !in keyed
    requires AllCounted(rows, keyed)
    ensures AllCounted(rows[site := node], keyed)
  {
    hide LenOf, ChildKeys;
    var p := site[..|site| - 1];
    assert site == p + [site[|p|]];
    forall s | s in keyed ensures s != [] && s[0] == DATA_ROOT && Counted(rows[site := node], s) {
      if p != [] {
        OneMoreChild(rows, p, site[|p|], node, s);
      } else {
        TopRow(rows, site, node, s);
      }
    }
  }

  lemma TopRow<V>(rows: Rows<Cell<V>>, site: Key, node: Node<Cell<V>>, s: Key)
    requires |site| == 1 && site[0] == DATA_ROOT && s != []
    ensures LenOf(rows[site := node], s) == LenOf(rows, s) && ChildKeys(rows[site := node], s) == ChildKeys(rows, s)
  {
    forall x ensures x in ChildKeys(rows[site := node], s) <==> x in ChildKeys(rows, s) {
      ChildOf(rows[site := node], s, x);
      ChildOf(rows, s, x);
    }
  }

  /** However many views a creation has to make, every count is right afterwards. */
  lemma {:induction false} EnsuredCounts<V>(rows: Rows<Cell<V>>, v: ViewRef, keyed: set<Key>)
    requires Opened(v) && NoOrphans(rows) && AllCounted(rows, keyed) && Agrees(v, keyed)
    ensures AllCounted(Ensured(rows, v).rows, keyed)
    decreases v
  {
    hide NoOrphans, Hooked, AllCounted, Compatible;
    if v.site !in rows {
      if v.parent.None? {
        RootCounts(rows, v.site, Marker(v.structure, v.protocol), keyed);
      } else {
        EnsuredCounts(rows, v.parent.value, keyed);
        StillMissing(rows, v);
        var p, up := v.parent.value, Ensured(rows, v.parent.value);
        assert v.site == p.site + [v.site[|p.site|]];
        NewChildCounted(up.rows, p, v.site[|p.site|], Marker(v.structure, v.protocol), keyed);
      }
    }
  }

  /** Writing a primitive child keeps every count right, new or not. */
  lemma PutCounts<V>(rows: Rows<Cell<V>>, v: ViewRef, key: Segment, value: V, keyed: set<Key>)
    requires Opened(v) && NoOrphans(rows) && IsContainer(rows, v.site) && (v.keyed <==> v.site in keyed)
    ensures var made := PutMade(rows, v, key, value);
            && NoOrphans(made.rows)
            && (AllCounted(rows, keyed) ==> AllCounted(made.rows, keyed))
            && (made.out == Done <==> !IsContainer(rows, v.site + [key]))
            && (made.fired == [v.site + [key]] <==> v.site + [key] !in rows)
  {
    var child, node := v.site + [key], Primitive(Item(value));
    PutKeeps(rows, v.site, key, Item(value));
    if child !in rows {
      HookedKeeps(rows[child := node], v);
      if AllCounted(rows, keyed) {
        NewChildCounted(rows, v, key, node, keyed);
      }
    } else if AllCounted(rows, keyed) {
      forall s | s in keyed ensures s != [] && s[0] == DATA_ROOT && Counted(rows[child := node], s) {
        SameChild(rows, child, node, s);
      }
    }
  }

  lemma SameChild<V>(rows: Rows<Cell<V>>, child: Key, node: Node<Cell<V>>, s: Key)
    requires child in rows && child != [] && child[0] == DATA_ROOT && s != []
    ensures LenOf(rows[child := node], s) == LenOf(rows, s) && ChildKeys(rows[child := node], s) == ChildKeys(rows, s)
  {
    assert LenKey(s)[0] == METADATA_ROOT;
  }

  // ---------------------------------------------------------------------------
  // Deleting and clearing
  // ---------------------------------------------------------------------------

  /** The metadata deleted with a subtree holds the lengths of the views in it, and of no other. */
  lemma MirrorReaches(child: Key, s: Key)
    requires |child| > 1 && child[0] == DATA_ROOT && s != [] && s[0] == DATA_ROOT
    ensures Mirror(child) <= LenKey(s) <==> child <= s || child == s + [LENGTH]
  {
    var m, l := Mirror(child), LenKey(s);
    assert forall i :: 0 < i < |s| ==> l[i] == s[i];
    assert l[|s|] == LENGTH;
    assert forall i :: 0 < i < |child| ==> m[i] == child[i];
    if m <= l {
      assert forall i :: 0 < i < |m| ==> m[i] == l[i];
    }
    if child <= s {
      assert forall i :: 0 < i < |child| ==> child[i] == s[i];
    }
  }

  lemma NoneUnder<V>(rows: Rows<V>, s: Key)
    requires forall k :: k in rows ==> !(s < k)
    ensures ChildKeys(rows, s) == {}
  {
    forall x ensures x !in ChildKeys(rows, s) {
      ChildOf(rows, s, x);
      assert s < s + [x];
    }
  }

  /** Nothing lies under a site that is no container. */
  lemma LeafHasNone<V>(rows: Rows<V>, s: Key)
    requires NoOrphans(rows) && s != [] && s[0] == DATA_ROOT && !IsContainer(rows, s)
    ensures ChildKeys(rows, s) == {}
  {
    forall k | k in rows ensures !(s < k) {
      if s < k {
        UnderContainer(rows, s, k);
      }
    }
    NoneUnder(rows, s);
  }

  ghost predicate CountedBut<V>(rows: Rows<Cell<V>>, keyed: set<Key>, site: Key) {
    forall s :: s in keyed && s != site ==> s != [] && s[0] == DATA_ROOT && Counted(rows, s)
  }

  /** A child whose mirrored metadata is the row of its parent's own length. */
  predicate ShadowsLength<V>(rows: Rows<V>, site: Key, key: Segment) {
    key == LENGTH && IsContainer(rows, site + [key])
  }

  /**
   A deleted child leaves one child less; all other counts are right, those below it by being gone. The
   parent's stored length stays, unless the child is a container named like the row of that length.
   */
  lemma ChildGone<V>(rows: Rows<Cell<V>>, site: Key, key: Segment, keyed: set<Key>)
    requires NoOrphans(rows) && site != [] && site[0] == DATA_ROOT && IsContainer(rows, site) && site + [key] in rows
    requires AllCounted(rows, keyed)
    ensures var after := ChildDeleted(rows, site, key).0;
            && CountedBut(after, keyed, site)
            && LenOf(after, site) == (if ShadowsLength(rows, site, key) then 0 else LenOf(rows, site))
            && ChildKeys(after, site) == ChildKeys(rows, site) - {key}
  {
    var child := site + [key];
    var after := ChildDeleted(rows, site, key).0;
    DeletedRows(rows, site, key);
    hide ChildDeleted, NoOrphans, ChildKeys, Mirror, GoneWith, ShadowsLength;
    forall s | s in keyed + {site} && s != [] && s[0] == DATA_ROOT
      ensures s != site ==> Counted(after, s)
      ensures s == site ==>
                && LenOf(after, s) == (if ShadowsLength(rows, site, key) then 0 else LenOf(rows, s))
                && ChildKeys(after, s) == ChildKeys(rows, s) - {key}
    {
      CountAfterDelete(rows, after, site, key, s);
    }
    assert site in keyed + {site};
  }

  /**
   Delete a child of a keyed view and let the view's hook count it out: its length is right, exactly unless
   the child took the length with it and others remain.
   */
  lemma DeleteCounts<V>(rows: Rows<Cell<V>>, site: Key, key: Segment, keyed: set<Key>)
    requires NoOrphans(rows) && site != [] && site[0] == DATA_ROOT && IsContainer(rows, site) && site + [key] in rows
    requires AllCounted(rows, keyed) && site in keyed
    ensures var after := Decremented(ChildDeleted(rows, site, key).0, site);
            && CountedBut(after, keyed, site)
            && (Counted(after, site) <==> !ShadowsLength(rows, site, key) || ChildKeys(rows, site) == {key})
  {
    ChildGone(rows, site, key, keyed);
    ChildOf(rows, site, key);
    var gone := ChildDeleted(rows, site, key).0;
    hide ChildDeleted, ChildKeys, NoOrphans, ShadowsLength, WithLength, LenOf;
    if LenOf(gone, site) > 0 {
      forall s | s in keyed + {site} && s != [] && s[0] == DATA_ROOT
        ensures LenOf(Decremented(gone, site), s) == (if s == site then LenOf(gone, site) - 1 else LenOf(gone, s))
        ensures ChildKeys(Decremented(gone, site), s) == ChildKeys(gone, s)
      {
        LengthIsOwn(gone, site, LenOf(gone, site) - 1, s);
      }
      assert site in keyed + {site};
    }
    assert ChildKeys(rows, site) == {key} <==> ChildKeys(rows, site) - {key} == {};
  }

  const DICT: Key := [DATA_ROOT, Str("d")]
  const OTHER: Segment := Str("a")

  /** A keyed view with a container named like the row of its length, and one more child. */
  function Crowded(): Rows<Cell<int>> {
    map[[DATA_ROOT] := Marker(0, {0}), DICT := Marker(1, {0}), DICT + [LENGTH] := Marker(1, {0}),
        DICT + [OTHER] := Primitive(Item(7)), LenKey(DICT) := Primitive(Count(2))]
  }

  /** Deleting that container: a child is left, and the view says it is empty. */
  lemma LengthLost()
    ensures NoOrphans(Crowded()) && AllCounted(Crowded(), {DICT})
    ensures var after := Decremented(ChildDeleted(Crowded(), DICT, LENGTH).0, DICT);
            ChildKeys(after, DICT) == {OTHER} && LenOf(after, DICT) == 0
  {
    var rows := Crowded();
    CrowdedRows();
    ChildGone(rows, DICT, LENGTH, {DICT});
    assert {LENGTH, OTHER} - {LENGTH} == {OTHER};
    hide ChildDeleted, ChildKeys, NoOrphans, AllCounted, CountedBut;
  }

  lemma CrowdedRows()
    ensures var rows := Crowded();
            && NoOrphans(rows) && AllCounted(rows, {DICT}) && ShadowsLength(rows, DICT, LENGTH)
            && ChildKeys(rows, DICT) == {LENGTH, OTHER} && IsContainer(rows, DICT)
  {
    var rows := Crowded();
    assert LenKey(DICT) == [METADATA_ROOT, Str("d"), LENGTH];
    CrowdedKeys();
    hide ChildKeys;
    forall k | k in rows && |k| > 1 && k[0] == DATA_ROOT ensures IsContainer(rows, k[..|k| - 1]) {
      if k == DICT {
        assert k[..1] == [DATA_ROOT];
      } else {
        assert k[..|k| - 1] == DICT;
      }
    }
  }

  lemma CrowdedKeys()
    ensures ChildKeys(Crowded(), DICT) == {LENGTH, OTHER}
  {
    var rows := Crowded();
    hide ChildKeys;
    forall x ensures x in ChildKeys(rows, DICT) <==> x == LENGTH || x == OTHER {
      ChildOf(rows, DICT, x);
      SameChildSite(DICT, x, DICT, LENGTH);
      SameChildSite(DICT, x, DICT, OTHER);
    }
  }

  /** Which rows go with a child. */
  ghost predicate GoneWith<V>(rows: Rows<V>, child: Key, k: Key)
    requires child != []
  {
    child <= k || (IsContainer(rows, child) && Mirror(child) <= k)
  }

  lemma DeletedRows<V>(rows: Rows<V>, site: Key, key: Segment)
    requires NoOrphans(rows) && site != [] && site[0] == DATA_ROOT && IsContainer(rows, site) && site + [key] in rows
    ensures var after := ChildDeleted(rows, site, key).0;
            && (forall k :: k in after <==> k in rows && !GoneWith(rows, site + [key], k))
            && (forall k :: k in after ==> after[k] == rows[k])
  {
    var child := site + [key];
    if !IsContainer(rows, child) {
      forall k | k in rows ensures child <= k <==> k == child {
        if child < k {
          UnderContainer(rows, child, k);
        }
      }
    } else {
      WithoutTreeKeeps(rows, child);
    }
  }

  lemma CountAfterDelete<V>(rows: Rows<Cell<V>>, after: Rows<Cell<V>>, site: Key, key: Segment, s: Key)
    requires NoOrphans(rows) && site != [] && site[0] == DATA_ROOT && IsContainer(rows, site) && site + [key] in rows
    requires s != [] && s[0] == DATA_ROOT
    requires forall k :: k in after <==> k in rows && !GoneWith(rows, site + [key], k)
    requires forall k :: k in after ==> after[k] == rows[k]
    ensures s != site && Counted(rows, s) ==> Counted(after, s)
    ensures s == site ==>
              && LenOf(after, s) == (if ShadowsLength(rows, site, key) then 0 else LenOf(rows, s))
              && ChildKeys(after, s) == ChildKeys(rows, s) - {key}
  {
    var child := site + [key];
    MirrorReaches(child, s);
    SameChildSite(site, key, s, LENGTH);
    assert child[0] == DATA_ROOT && LenKey(s)[0] == METADATA_ROOT;
    assert !(child <= LenKey(s));
    if child <= s {
      if !IsContainer(rows, child) {
        LeafHasNone(rows, child);
        BelowLeaf(rows, child, s);
      }
      forall k | k in after ensures !(s < k) {
        assert child <= s && s < k ==> child <= k;
      }
      NoneUnder(after, s);
    } else {
      KeysAfterDelete(rows, after, site, key, s);
    }
  }

  lemma BelowLeaf<V>(rows: Rows<V>, child: Key, s: Key)
    requires NoOrphans(rows) && child != [] && child[0] == DATA_ROOT && !IsContainer(rows, child) && child <= s
    ensures ChildKeys(rows, s) == {}
  {
    forall k | k in rows ensures !(s < k) {
      if s < k {
        assert child < k;
        UnderContainer(rows, child, k);
      }
    }
    NoneUnder(rows, s);
  }

  lemma PrefixOfChild(a: Key, s: Key, x: Segment)
    ensures a <= s + [x] <==> a <= s || a == s + [x]
  {
    assert (s + [x])[..|s|] == s;
  }

  lemma KeysAfterDelete<V>(rows: Rows<V>, after: Rows<V>, site: Key, key: Segment, s: Key)
    requires site != [] && site[0] == DATA_ROOT && s != [] && s[0] == DATA_ROOT && !(site + [key] <= s)
    requires forall k :: k in after <==> k in rows && !GoneWith(rows, site + [key], k)
    ensures ChildKeys(after, s) == if s == site then ChildKeys(rows, s) - {key} else ChildKeys(rows, s)
  {
    var child := site + [key];
    hide ChildKeys;
    forall x ensures x in ChildKeys(after, s) <==> x in ChildKeys(rows, s) && !(s == site && x == key) {
      ChildOf(after, s, x);
      ChildOf(rows, s, x);
      SameChildSite(s, x, site, key);
      assert Mirror(child)[0] == METADATA_ROOT && (s + [x])[0] == DATA_ROOT;
      PrefixOfChild(child, s, x);
    }
  }

  /** Clearing a view leaves it no child; every other count is right. */
  lemma ClearCounts<V>(rows: Rows<Cell<V>>, after: Rows<Cell<V>>, site: Key, keyed: set<Key>)
    requires NoOrphans(rows) && site != [] && site[0] == DATA_ROOT && IsContainer(rows, site)
    requires AllCounted(rows, keyed)
    requires Cleared(rows, after, site, ChildKeys(rows, site))
    ensures CountedBut(after, keyed, site) && ChildKeys(after, site) == {}
  {
    ClearEmpties(rows, after, site);
    NoneUnder(after, site);
    ClearedWithin(rows, after, site);
    hide Cleared, ChildKeys, NoOrphans, GoesWith;
    forall s | s in keyed && s != site ensures s != [] && s[0] == DATA_ROOT && Counted(after, s) {
      CountAfterClear(rows, after, site, s);
    }
  }

  lemma ClearedWithin<V>(rows: Rows<V>, after: Rows<V>, site: Key)
    requires Cleared(rows, after, site, ChildKeys(rows, site))
    ensures forall k :: k in after ==> k in rows && after[k] == rows[k]
  {
    hide GoesWith, ChildKeys;
  }

  lemma CountAfterClear<V>(rows: Rows<Cell<V>>, after: Rows<Cell<V>>, site: Key, s: Key)
    requires NoOrphans(rows) && site != [] && site[0] == DATA_ROOT && s != [] && s[0] == DATA_ROOT && s != site
    requires Counted(rows, s)
    requires Cleared(rows, after, site, ChildKeys(rows, site))
    requires forall k :: k in after ==> k in rows && after[k] == rows[k] && !(site < k)
    requires forall k :: k in rows && k != [] && k[0] == DATA_ROOT && !(site < k) ==> k in after
    ensures Counted(after, s)
  {
    if site < s {
      forall k | k in after ensures !(s < k) {
        assert site < s && s < k ==> site < k;
      }
      NoneUnder(after, s);
      LengthGone(rows, after, site, s);
    } else {
      SameChildKeys(rows, after, site, s);
      LengthStays(rows, after, site, s);
    }
  }

  lemma SameChildKeys<V>(rows: Rows<V>, after: Rows<V>, site: Key, s: Key)
    requires s != [] && s[0] == DATA_ROOT && !(site < s) && s != site
    requires forall k :: k in after ==> k in rows
    requires forall k :: k in rows && k != [] && k[0] == DATA_ROOT && !(site < k) ==> k in after
    ensures ChildKeys(after, s) == ChildKeys(rows, s)
  {
    forall x ensures x in ChildKeys(after, s) <==> x in ChildKeys(rows, s) {
      ChildOf(after, s, x);
      ChildOf(rows, s, x);
      PrefixOfChild(site, s, x);
    }
  }

  /** A view below a cleared one keeps no length, unless it had no child to begin with. */
  lemma LengthGone<V>(rows: Rows<Cell<V>>, after: Rows<Cell<V>>, site: Key, s: Key)
    requires NoOrphans(rows) && site != [] && site[0] == DATA_ROOT && s != [] && s[0] == DATA_ROOT && site < s
          && Counted(rows, s)
    requires Cleared(rows, after, site, ChildKeys(rows, site))
    requires forall k :: k in after ==> k in rows && after[k] == rows[k]
    ensures LenOf(after, s) == 0
  {
    var key := s[|site|];
    var child := site + [key];
    assert child == s[..|site| + 1];
    if IsContainer(rows, child) {
      ChildOf(rows, site, key);
      MirrorReaches(child, s);
      assert GoesWith(rows, site, key, LenKey(s));
      hide GoesWith, ChildKeys;
      assert LenKey(s) !in after;
    } else {
      BelowLeaf(rows, child, s);
    }
  }

  lemma LengthStays<V>(rows: Rows<Cell<V>>, after: Rows<Cell<V>>, site: Key, s: Key)
    requires site != [] && site[0] == DATA_ROOT && s != [] && s[0] == DATA_ROOT && !(site < s) && s != site
    requires Cleared(rows, after, site, ChildKeys(rows, site))
    ensures LenOf(after, s) == LenOf(rows, s)
  {
    forall key ensures !GoesWith(rows, site, key, LenKey(s)) {
      var child := site + [key];
      MirrorReaches(child, s);
      assert child[0] == DATA_ROOT && LenKey(s)[0] == METADATA_ROOT;
      SameChildSite(site, key, s, LENGTH);
      assert child <= s ==> site < s;
    }
    hide GoesWith, ChildKeys;
    assert LenKey(s) in rows <==> LenKey(s) in after;
  }
}
