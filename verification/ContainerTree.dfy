/**
 Containers and primitives as flat rows: a container is a marker row, and everything in it is a row
 whose key extends its own.
 */
module ContainerTree {
  import opened Wrappers
  import opened Segments

  const DATA_ROOT := Str("/")
  const METADATA_ROOT := Str("/m")

  datatype Node<V> = Marker(structure: int, protocol: set<nat>) | Primitive(value: V)

  type Rows<V> = map<Key, Node<V>>

  datatype Outcome = Done | Raised(error: Error)

  predicate IsContainer<V>(rows: Rows<V>, site: Key) {
    site in rows && rows[site].Marker?
  }

  /** Every data row but the root's lies directly in a container. */
  ghost predicate NoOrphans<V>(rows: Rows<V>) {
    forall k :: k in rows && |k| > 1 && k[0] == DATA_ROOT ==> IsContainer(rows, k[..|k| - 1])
  }

  /** An existing row proves that all the containers above it exist. */
  lemma {:induction false} AncestorsExist<V>(rows: Rows<V>, k: Key, n: nat)
    requires NoOrphans(rows) && k in rows && 0 < n < |k| && k[0] == DATA_ROOT
    ensures IsContainer(rows, k[..n])
    decreases |k| - n
  {
    if n < |k| - 1 {
      AncestorsExist(rows, k, n + 1);
      assert k[..n + 1][..n] == k[..n];
    }
  }

  // ---------------------------------------------------------------------------
  // What the operations leave
  // ---------------------------------------------------------------------------

  /** The rows without a site and everything under it. */
  function WithoutUnder<V>(rows: Rows<V>, site: Key): Rows<V> {
    map k | k in rows && !(site <= k) :: rows[k]
  }

  function Mirror(site: Key): Key
    requires site != []
  {
    [METADATA_ROOT] + site[1..]
  }

  /** A deleted site takes its metadata with it, so a later view starts from a clean slate. */
  function WithoutTree<V>(rows: Rows<V>, site: Key): Rows<V> {
    var data := WithoutUnder(rows, site);
    if site != [] && site[0] == DATA_ROOT then WithoutUnder(data, Mirror(site)) else data
  }

  /** What exists keeps its kind, and a container its marker. */
  ghost predicate KeepsKinds<V>(rows: Rows<V>, after: Rows<V>) {
    forall k :: k in rows && k in after ==> if rows[k].Marker? then after[k] == rows[k] else after[k].Primitive?
  }

  function Compatible(structure: int, protocol: set<nat>, marker: Node): bool
    requires marker.Marker?
  {
    marker.structure == structure && marker.protocol * protocol != {}
  }

  /** Creating a container: one marker, in an existing container; silent on a compatible one. */
  function Created<V>(rows: Rows<V>, site: Key, structure: int, protocol: set<nat>, checkParent: bool)
    : (Rows<V>, Outcome)
  {
    if site in rows then
      if !rows[site].Marker? then (rows, Raised(ContainerTypeError))
      else if Compatible(structure, protocol, rows[site]) then (rows, Done)
      else (rows, Raised(ExistsError))
    else if checkParent && |site| > 1 && site[..|site| - 1] !in rows then (rows, Raised(NotFoundError))
    else if checkParent && |site| > 1 && !rows[site[..|site| - 1]].Marker? then (rows, Raised(ContainerTypeError))
    else (rows[site := Marker(structure, protocol)], Done)
  }

  function PutChild<V>(rows: Rows<V>, parent: Key, key: Segment, value: V, checkChild: bool, checkParent: bool)
    : (Rows<V>, Outcome)
  {
    var child := parent + [key];
    if checkParent && parent !in rows then (rows, Raised(NotFoundError))
    else if checkParent && !rows[parent].Marker? then (rows, Raised(ContainerTypeError))
    else if checkChild && child in rows && rows[child].Marker? then (rows, Raised(ContainerTypeError))
    else (rows[child := Primitive(value)], Done)
  }

  function ChildDeleted<V>(rows: Rows<V>, parent: Key, key: Segment): (Rows<V>, Outcome) {
    var child := parent + [key];
    if parent !in rows then (rows, Raised(NotFoundError))
    else if !rows[parent].Marker? then (rows, Raised(ContainerTypeError))
    else if child !in rows then (rows, Done)
    else if rows[child].Marker? then (WithoutTree(rows, child), Done)
    else (rows - {child}, Done)
  }

  /** The subtree at `src` stands at `dst`, row for row; all other rows are as they were. */
  ghost predicate SubtreeMoved<V>(rows: Rows<V>, after: Rows<V>, src: Key, dst: Key) {
    && (forall t: Key :: src + t in rows ==> dst + t in after && after[dst + t] == rows[src + t])
    && (forall t: Key :: dst + t in after ==> src + t in rows)
    && (forall k :: !(src <= k) && !(dst <= k) ==> (k in after <==> k in rows) && (k in rows ==> after[k] == rows[k]))
    && (forall k :: k in after ==> !(src <= k))
  }

  // ---------------------------------------------------------------------------
  // No orphans, ever
  // ---------------------------------------------------------------------------

  /** With its checks on, a create keeps the tree whole and every kind as it is. */
  lemma CreateKeeps<V>(rows: Rows<V>, site: Key, structure: int, protocol: set<nat>, checkParent: bool)
    requires NoOrphans(rows) && site != []
    ensures var (after, out) := Created(rows, site, structure, protocol, checkParent);
            && KeepsKinds(rows, after)
            && (checkParent ==> NoOrphans(after))
            && (out == Done ==> IsContainer(after, site))
            && (out != Done ==> after == rows)
  {
  }

  /** Without the parent check a create keeps the tree whole exactly if the parent is a container. */
  lemma UncheckedCreateKeeps<V>(rows: Rows<V>, site: Key, structure: int, protocol: set<nat>)
    requires NoOrphans(rows) && |site| > 1 && site[0] == DATA_ROOT && site !in rows
    ensures NoOrphans(Created(rows, site, structure, protocol, false).0) <==> IsContainer(rows, site[..|site| - 1])
  {
    var after := Created(rows, site, structure, protocol, false).0;
    assert site in after;
  }

  lemma PutKeeps<V>(rows: Rows<V>, parent: Key, key: Segment, value: V)
    requires NoOrphans(rows) && parent != []
    ensures var (after, out) := PutChild(rows, parent, key, value, true, true);
            && NoOrphans(after) && KeepsKinds(rows, after)
            && (out == Done ==> parent + [key] in after && after[parent + [key]] == Primitive(value))
            && (out != Done ==> after == rows)
  {
    var child := parent + [key];
    assert child[..|child| - 1] == parent;
    var after := PutChild(rows, parent, key, value, true, true).0;
    forall k | k in after && |k| > 1 && k[0] == DATA_ROOT ensures IsContainer(after, k[..|k| - 1]) {
      if k != child {
        assert IsContainer(rows, k[..|k| - 1]);
      }
    }
  }

  lemma PrefixOfParent(site: Key, k: Key)
    requires |k| > 0 && site <= k[..|k| - 1]
    ensures site <= k
  {
  }

  /** Taking out a whole subtree leaves no orphan. */
  lemma WithoutUnderKeeps<V>(rows: Rows<V>, site: Key)
    requires NoOrphans(rows)
    ensures NoOrphans(WithoutUnder(rows, site)) && KeepsKinds(rows, WithoutUnder(rows, site))
  {
    var after := WithoutUnder(rows, site);
    forall k | k in after && |k| > 1 && k[0] == DATA_ROOT ensures IsContainer(after, k[..|k| - 1]) {
      assert IsContainer(rows, k[..|k| - 1]);
      if site <= k[..|k| - 1] {
        PrefixOfParent(site, k);
      }
    }
  }

  lemma WithoutTreeKeeps<V>(rows: Rows<V>, site: Key)
    requires NoOrphans(rows)
    ensures NoOrphans(WithoutTree(rows, site)) && KeepsKinds(rows, WithoutTree(rows, site))
    ensures forall k :: k in WithoutTree(rows, site) <==>
              k in rows && !(site <= k) && !(site != [] && site[0] == DATA_ROOT && Mirror(site) <= k)
  {
    WithoutUnderKeeps(rows, site);
    if site != [] {
      WithoutUnderKeeps(WithoutUnder(rows, site), Mirror(site));
    }
  }

  /** What has rows under it is a container. */
  lemma UnderContainer<V>(rows: Rows<V>, site: Key, k: Key)
    requires NoOrphans(rows) && k in rows && site < k && site != [] && site[0] == DATA_ROOT
    ensures IsContainer(rows, site)
  {
    AncestorsExist(rows, k, |site|);
    assert k[..|site|] == site;
  }

  lemma DeleteKeeps<V>(rows: Rows<V>, parent: Key, key: Segment)
    requires NoOrphans(rows) && parent != []
    ensures var (after, out) := ChildDeleted(rows, parent, key);
            && NoOrphans(after) && KeepsKinds(rows, after)
            && (out == Done && parent[0] == DATA_ROOT ==> forall k :: k in after ==> !(parent + [key] <= k))
            && (out != Done ==> after == rows)
  {
    var child := parent + [key];
    var after := ChildDeleted(rows, parent, key).0;
    if IsContainer(rows, parent) {
      if child in rows && rows[child].Marker? {
        WithoutTreeKeeps(rows, child);
      } else if parent[0] == DATA_ROOT {
        forall k | k in rows && child <= k ensures k == child {
          if k != child {
            UnderContainer(rows, child, k);
          }
        }
        assert forall k :: k in after && |k| > 1 && k[0] == DATA_ROOT && k[..|k| - 1] == child ==> child <= k;
      } else if child in rows {
        assert child[0] != DATA_ROOT;
      }
    }
  }

  /** A move to an empty sibling slot keeps the tree whole. */
  lemma MoveKeeps<V>(rows: Rows<V>, after: Rows<V>, parent: Key, src: Segment, dst: Segment)
    requires NoOrphans(rows) && parent != [] && src != dst
    requires SubtreeMoved(rows, after, parent + [src], parent + [dst])
    requires forall k :: k in rows ==> !(parent + [dst] <= k)
    ensures NoOrphans(after)
  {
    var from, to := parent + [src], parent + [dst];
    hide SubtreeMoved;
    forall k | k in after && |k| > 1 && k[0] == DATA_ROOT ensures IsContainer(after, k[..|k| - 1]) {
      if to <= k {
        var t := k[|to|..];
        assert k == to + t;
        CameFrom(rows, after, from, to, t);
        MovedRowHasParent(rows, after, parent, src, dst, t);
      } else {
        OthersStay(rows, after, from, to, k);
      }
    }
  }

  lemma CameFrom<V>(rows: Rows<V>, after: Rows<V>, from: Key, to: Key, t: Key)
    requires SubtreeMoved(rows, after, from, to) && to + t in after
    ensures from + t in rows
  {
  }

  lemma OthersStay<V>(rows: Rows<V>, after: Rows<V>, from: Key, to: Key, k: Key)
    requires NoOrphans(rows) && SubtreeMoved(rows, after, from, to)
    requires k in after && !(to <= k) && |k| > 1 && k[0] == DATA_ROOT
    ensures IsContainer(after, k[..|k| - 1])
  {
    assert !(from <= k) && k in rows;
    var p := k[..|k| - 1];
    assert IsContainer(rows, p);
    if from <= p {
      PrefixOfParent(from, k);
    }
    if to <= p {
      PrefixOfParent(to, k);
    }
    OutsideMove(rows, after, from, to, p);
  }

  lemma MovedRowHasParent<V>(rows: Rows<V>, after: Rows<V>, parent: Key, src: Segment, dst: Segment, t: Key)
    requires NoOrphans(rows) && parent != [] && parent[0] == DATA_ROOT && src != dst && parent + [src] + t in rows
    requires SubtreeMoved(rows, after, parent + [src], parent + [dst])
    ensures var k := parent + [dst] + t; IsContainer(after, k[..|k| - 1])
  {
    hide SubtreeMoved;
    var from, to := parent + [src], parent + [dst];
    var old_, k := from + t, to + t;
    assert IsContainer(rows, old_[..|old_| - 1]);
    if t == [] {
      assert old_[..|old_| - 1] == parent == k[..|k| - 1];
      OutsideMove(rows, after, from, to, parent);
    } else {
      var u := t[..|t| - 1];
      assert old_[..|old_| - 1] == from + u && k[..|k| - 1] == to + u;
      InsideMove(rows, after, from, to, u);
    }
  }

  lemma OutsideMove<V>(rows: Rows<V>, after: Rows<V>, from: Key, to: Key, k: Key)
    requires SubtreeMoved(rows, after, from, to) && !(from <= k) && !(to <= k) && k in rows
    ensures k in after && after[k] == rows[k]
  {
  }

  lemma InsideMove<V>(rows: Rows<V>, after: Rows<V>, from: Key, to: Key, u: Key)
    requires SubtreeMoved(rows, after, from, to) && from + u in rows
    ensures to + u in after && after[to + u] == rows[from + u]
  {
  }

  // ---------------------------------------------------------------------------
  // Clearing
  // ---------------------------------------------------------------------------

  /** A row and what a delete of it as a child of `site` takes along. */
  predicate GoesWith<V>(rows: Rows<V>, site: Key, key: Segment, k: Key) {
    var child := site + [key];
    if IsContainer(rows, child) then child <= k || (site != [] && site[0] == DATA_ROOT && Mirror(child) <= k)
    else k == child
  }

  ghost predicate Cleared<V>(rows: Rows<V>, after: Rows<V>, site: Key, keys: set<Segment>) {
    && (forall k :: k in after <==> k in rows && !exists key :: key in keys && GoesWith(rows, site, key, k))
    && (forall k :: k in after ==> after[k] == rows[k])
  }

  function ChildKeys<V>(rows: Rows<V>, site: Key): set<Segment> {
    set k | k in rows && |k| == |site| + 1 && site <= k :: k[|site|]
  }

  /** Deleting one more child clears what goes with it, and nothing more. */
  lemma ClearsOneMore<V>(rows: Rows<V>, after: Rows<V>, site: Key, keys: set<Segment>, key: Segment)
    requires site != [] && site[0] == DATA_ROOT && IsContainer(rows, site) && Cleared(rows, after, site, keys)
          && key !in keys
    ensures IsContainer(after, site) && ChildDeleted(after, site, key).1 == Done
    ensures Cleared(rows, ChildDeleted(after, site, key).0, site, keys + {key})
  {
    var child := site + [key];
    assert !(exists x :: x in keys && GoesWith(rows, site, x, site));
    assert !(exists x :: x in keys && GoesWith(rows, site, x, child)) by {
      forall x | x in keys ensures !GoesWith(rows, site, x, child) {
        assert (site + [x])[|site|] == x && child[|site|] == key;
      }
    }
    assert child in after <==> child in rows;
    var more := ChildDeleted(after, site, key).0;
    forall k ensures k in more <==> k in after && !GoesWith(rows, site, key, k) {
    }
    forall k ensures (exists x :: x in keys + {key} && GoesWith(rows, site, x, k))
                <==> (exists x :: x in keys && GoesWith(rows, site, x, k)) || GoesWith(rows, site, key, k) {
      if GoesWith(rows, site, key, k) {
        assert key in keys + {key};
      }
      if x :| x in keys && GoesWith(rows, site, x, k) {
        assert x in keys + {key};
      }
    }
  }

  /** Nothing outside a container in the data tree goes with its children. */
  lemma StaysOutside<V>(rows: Rows<V>, site: Key, key: Segment, k: Key)
    requires k != [] && k[0] == DATA_ROOT && !(site < k)
    ensures !GoesWith(rows, site, key, k)
  {
    assert site < site + [key];
    assert Mirror(site + [key])[0] == METADATA_ROOT;
  }

  /** A cleared container has nothing under it, and the tree stays whole. */
  lemma ClearEmpties<V>(rows: Rows<V>, after: Rows<V>, site: Key)
    requires NoOrphans(rows) && site != [] && site[0] == DATA_ROOT && Cleared(rows, after, site, ChildKeys(rows, site))
    ensures forall k :: k in after ==> !(site < k)
    ensures NoOrphans(after) && KeepsKinds(rows, after)
    ensures forall k :: k in rows && k != [] && k[0] == DATA_ROOT && !(site < k) ==> k in after
  {
    hide GoesWith;
    ClearedOutside(rows, after, site);
    forall k | k in rows && site < k ensures k !in after {
      GoesWithChild(rows, site, k);
    }
    hide Cleared;
    forall k | k in after && |k| > 1 && k[0] == DATA_ROOT ensures IsContainer(after, k[..|k| - 1]) {
      assert IsContainer(rows, k[..|k| - 1]);
      assert site < k[..|k| - 1] ==> site < k;
    }
  }

  lemma ClearedOutside<V>(rows: Rows<V>, after: Rows<V>, site: Key)
    requires Cleared(rows, after, site, ChildKeys(rows, site))
    ensures forall k :: k in rows && k != [] && k[0] == DATA_ROOT && !(site < k) ==> k in after
    ensures forall k :: k in after ==> k in rows && after[k] == rows[k]
  {
    hide GoesWith;
    forall k | k in rows && k != [] && k[0] == DATA_ROOT && !(site < k) ensures k in after {
      forall key ensures !GoesWith(rows, site, key, k) {
        StaysOutside(rows, site, key, k);
      }
    }
  }

  lemma GoesWithChild<V>(rows: Rows<V>, site: Key, k: Key)
    requires NoOrphans(rows) && site != [] && site[0] == DATA_ROOT && k in rows && site < k
    ensures exists key :: key in ChildKeys(rows, site) && GoesWith(rows, site, key, k)
  {
    var child := k[..|site| + 1];
    if child != k {
      UnderContainer(rows, child, k);
    }
    assert child == site + [k[|site|]] && child in rows;
    assert child[|site|] in ChildKeys(rows, site);
    assert GoesWith(rows, site, k[|site|], k);
  }

  // ---------------------------------------------------------------------------
  // The operations on storage
  // ---------------------------------------------------------------------------

  lemma SharedFlag(a: set<nat>, b: set<nat>)
    ensures b * a != {} <==> exists flag :: flag in a && flag in b
  {
    if b * a != {} {
      var flag :| flag in b * a;
    }
    forall flag | flag in a && flag in b ensures b * a != {} {
      assert flag in b * a;
    }
  }

  /** The rows a deleted child takes with it. */
  predicate TakenAlong<V>(rows: Rows<V>, child: Key, k: Key)
    requires child != []
  {
    if child in rows && rows[child].Marker? then
      child <= k || (child[0] == DATA_ROOT && [METADATA_ROOT] + child[1..] <= k)
    else k == child
  }

  class Tree<V> {
    var rows: Rows<V>

    constructor ()
      ensures rows == map[] && NoOrphans(rows)
    {
      rows := map[];
    }

    method ValidateIsContainer(site: Key) returns (out: Outcome)
      ensures out == (if site !in rows then Raised(NotFoundError)
                      else if !rows[site].Marker? then Raised(ContainerTypeError) else Done)
    {
      if site !in rows {
        return Raised(NotFoundError);
      }
      return if rows[site].Marker? then Done else Raised(ContainerTypeError);
    }

    /**
     An existing site is accepted exactly if it is a container of the same structure that shares a
     protocol flag. A new one is the requested marker, and needs its parent to be a container.
     */
    method CreateContainer(site: Key, structure: int, protocol: set<nat>, checkParent: bool) returns (out: Outcome)
      requires site != []
      modifies this
      ensures (rows, out) == Created(old(rows), site, structure, protocol, checkParent)
      ensures site in old(rows) ==>
                && rows == old(rows)
                && (out == Done <==> old(rows)[site].Marker? && old(rows)[site].structure == structure
                                     && exists flag :: flag in protocol && flag in old(rows)[site].protocol)
                && (out == Raised(ContainerTypeError) <==> old(rows)[site].Primitive?)
                && (out == Done || out == Raised(ContainerTypeError) || out == Raised(ExistsError))
      ensures site !in old(rows) ==>
                var parent := site[..|site| - 1];
                && (out == Done ==> rows == old(rows)[site := Marker(structure, protocol)])
                && (out != Done ==> rows == old(rows))
                && (out == Raised(NotFoundError) <==> checkParent && |site| > 1 && parent !in old(rows))
                && (out == Raised(ContainerTypeError) <==>
                      checkParent && |site| > 1 && parent in old(rows) && old(rows)[parent].Primitive?)
                && (out == Done || out == Raised(NotFoundError) || out == Raised(ContainerTypeError))
      ensures old(NoOrphans(rows)) && checkParent ==> NoOrphans(rows)
      ensures old(NoOrphans(rows)) ==> KeepsKinds(old(rows), rows)
    {
      ghost var before := rows;
      if NoOrphans(before) {
        CreateKeeps(rows, site, structure, protocol, checkParent);
      }
      if site in rows {
        if !rows[site].Marker? {
          return Raised(ContainerTypeError);
        }
        SharedFlag(protocol, rows[site].protocol);
        return if Compatible(structure, protocol, rows[site]) then Done else Raised(ExistsError);
      }
      if checkParent && |site| > 1 {
        out := ValidateIsContainer(site[..|site| - 1]);
        if out != Done {
          return;
        }
      }
      rows := rows[site := Marker(structure, protocol)];
      return Done;
    }

    method PutChildPrimitive(parent: Key, key: Segment, value: V, checkChild: bool, checkParent: bool)
      returns (out: Outcome)
      requires parent != []
      modifies this
      ensures (rows, out) == PutChild(old(rows), parent, key, value, checkChild, checkParent)
      ensures out == Done ==> rows == old(rows)[parent + [key] := Primitive(value)]
      ensures out != Done ==> rows == old(rows)
      ensures out == Raised(NotFoundError) <==> checkParent && parent !in old(rows)
      ensures out == Raised(ContainerTypeError) <==>
                || (checkParent && parent in old(rows) && old(rows)[parent].Primitive?)
                || (checkChild && parent + [key] in old(rows) && old(rows)[parent + [key]].Marker?
                    && (checkParent ==> parent in old(rows) && old(rows)[parent].Marker?))
      ensures out == Done || out == Raised(NotFoundError) || out == Raised(ContainerTypeError)
      ensures old(NoOrphans(rows)) && checkChild && checkParent ==> NoOrphans(rows) && KeepsKinds(old(rows), rows)
    {
      ghost var before := rows;
      if NoOrphans(before) {
        PutKeeps(before, parent, key, value);
      }
      if checkParent {
        out := ValidateIsContainer(parent);
        if out != Done {
          return;
        }
      }
      if checkChild && parent + [key] in rows && rows[parent + [key]].Marker? {
        return Raised(ContainerTypeError);
      }
      rows := rows[parent + [key] := Primitive(value)];
      return Done;
    }

    /** Scan a subtree and delete each row. */
    method DeleteSubtree(site: Key)
      modifies this
      ensures rows == WithoutUnder(old(rows), site)
    {
      var todo := set k | k in rows && site <= k;
      while todo != {}
        invariant forall k :: k in todo ==> k in rows && site <= k
        invariant forall k :: k in rows <==> k in old(rows) && (site <= k ==> k in todo)
        invariant forall k :: k in rows ==> rows[k] == old(rows)[k]
        decreases todo
      {
        var k :| k in todo;
        rows := rows - {k};
        todo := todo - {k};
      }
    }

    method DeleteDescendants(site: Key)
      modifies this
      ensures rows == WithoutTree(old(rows), site)
    {
      DeleteSubtree(site);
      if site != [] && site[0] == DATA_ROOT {
        DeleteSubtree(Mirror(site));
      }
    }

    method DeleteContainer(site: Key) returns (out: Outcome)
      modifies this
      ensures site !in old(rows) ==> rows == old(rows) && out == Done
      ensures site in old(rows) && !old(rows)[site].Marker? ==> rows == old(rows) && out == Raised(ContainerTypeError)
      ensures IsContainer(old(rows), site) ==> rows == WithoutTree(old(rows), site) && out == Done
      ensures old(NoOrphans(rows)) ==> NoOrphans(rows) && KeepsKinds(old(rows), rows)
    {
      ghost var before := rows;
      if NoOrphans(before) {
        WithoutTreeKeeps(before, site);
      }
      if site !in rows {
        return Done;
      }
      if !rows[site].Marker? {
        return Raised(ContainerTypeError);
      }
      DeleteDescendants(site);
      return Done;
    }

    /** A primitive child goes alone, a container with its subtree and, in the data tree, the metadata of it. */
    method DeleteChild(parent: Key, key: Segment) returns (out: Outcome)
      requires parent != []
      modifies this
      ensures (rows, out) == ChildDeleted(old(rows), parent, key)
      ensures out == if parent !in old(rows) then Raised(NotFoundError)
                     else if old(rows)[parent].Primitive? then Raised(ContainerTypeError) else Done
      ensures out != Done ==> rows == old(rows)
      ensures out == Done ==>
                var child := parent + [key];
                forall k :: (k in rows <==> k in old(rows) && !TakenAlong(old(rows), child, k))
                            && (k in rows ==> rows[k] == old(rows)[k])
      ensures old(NoOrphans(rows)) ==> NoOrphans(rows) && KeepsKinds(old(rows), rows)
    {
      ghost var before := rows;
      if NoOrphans(before) {
        DeleteKeeps(before, parent, key);
      }
      out := ValidateIsContainer(parent);
      if out != Done {
        return;
      }
      var child := parent + [key];
      if child !in rows {
        return Done;
      }
      if rows[child].Marker? {
        DeleteDescendants(child);
      } else {
        rows := rows - {child};
      }
      return Done;
    }

    /** Delete every direct child, one after the other. */
    method ClearChildren(site: Key) returns (out: Outcome)
      requires site != [] && site[0] == DATA_ROOT
      modifies this
      ensures !IsContainer(old(rows), site) ==>
                rows == old(rows) && out == Raised(if site in old(rows) then ContainerTypeError else NotFoundError)
      ensures IsContainer(old(rows), site) ==> out == Done && Cleared(old(rows), rows, site, ChildKeys(old(rows), site))
      ensures old(NoOrphans(rows)) && out == Done ==>
                NoOrphans(rows) && KeepsKinds(old(rows), rows) && forall k :: k in rows ==> !(site < k)
    {
      ghost var before := rows;
      out := ValidateIsContainer(site);
      if out != Done {
        return;
      }
      var keys := ChildKeys(rows, site);
      var todo := keys;
      while todo != {}
        invariant todo <= keys && IsContainer(rows, site) && Cleared(before, rows, site, keys - todo)
        decreases todo
      {
        var key :| key in todo;
        ClearsOneMore(before, rows, site, keys - todo, key);
        assert keys - (todo - {key}) == (keys - todo) + {key};
        var deleted := DeleteChild(site, key);
        todo := todo - {key};
      }
      assert keys - todo == keys;
      if NoOrphans(before) {
        ClearEmpties(before, rows, site);
      }
      return Done;
    }

    /**
     Rewrite a child's subtree row by row at a sibling's key. The slot may hold a row of its own, as
     long as nothing lies under it: the subtree's first row is written over it.
     */
    method MoveChildSubtree(parent: Key, src: Segment, dst: Segment)
      requires parent != [] && (src != dst ==> SlotFree(rows, parent + [src], parent + [dst]))
      modifies this
      ensures src == dst ==> rows == old(rows)
      ensures src != dst ==> SubtreeMoved(old(rows) - {parent + [dst]}, rows, parent + [src], parent + [dst])
      ensures old(NoOrphans(rows)) ==> NoOrphans(rows)
    {
      if src == dst {
        return;
      }
      ghost var before := rows;
      var from, to := parent + [src], parent + [dst];
      ghost var free := before - {to};
      var todo := set k | k in rows && from <= k;
      assert from[|parent|] == src && to[|parent|] == dst;
      FreeSlot(before, from, to);
      while todo != {}
        invariant forall k :: k in todo ==> k in free && from <= k
        invariant MovedSoFar(free, Unstale(rows, from, to, todo), from, to, todo)
        decreases todo
      {
        var k :| k in todo;
        ghost var t := k[|from|..];
        assert k == from + t;
        MovesOne(free, Unstale(rows, from, to, todo), from, to, todo, t);
        UnstaleMoves(rows, from, to, todo, t);
        rows := rows[to + k[|from|..] := rows[k]] - {k};
        todo := todo - {k};
      }
      MovedAll(free, rows, from, to);
      if NoOrphans(before) {
        FreeKeeps(before, from, to);
        MoveKeeps(free, rows, parent, src, dst);
      }
    }
  }

  /** Nothing lies under the slot, and only a subtree with a first row moves onto a row in it. */
  ghost predicate SlotFree<V>(rows: Rows<V>, from: Key, to: Key) {
    && (forall k :: k in rows ==> !(to < k))
    && (to in rows ==> from in rows)
  }

  /** The rows without the slot's own row, for as long as the subtree's first row is not over it. */
  ghost function Unstale<V>(rows: Rows<V>, from: Key, to: Key, todo: set<Key>): Rows<V> {
    if from in todo then rows - {to} else rows
  }

  lemma FreeSlot<V>(rows: Rows<V>, from: Key, to: Key)
    requires SlotFree(rows, from, to) && |from| == |to| && from != to
    ensures !(from <= to) && forall k :: k in rows - {to} ==> !(to <= k)
    ensures Unstale(rows, from, to, set k | k in rows && from <= k) == rows - {to}
  {
    forall k | k in rows && k != to ensures !(to <= k) {
      assert to <= k ==> to < k;
    }
  }

  lemma UnstaleMoves<V>(rows: Rows<V>, from: Key, to: Key, todo: set<Key>, t: Key)
    requires |from| == |to| && from != to && from + t in todo && from + t in rows
    ensures from + t in Unstale(rows, from, to, todo)
    ensures Unstale(rows[to + t := rows[from + t]] - {from + t}, from, to, todo - {from + t})
         == Unstale(rows, from, to, todo)[to + t := Unstale(rows, from, to, todo)[from + t]] - {from + t}
  {
    assert (from + t)[..|from|] == from && (to + t)[..|to|] == to;
    assert from + t == from <==> t == [];
    assert to + t == to <==> t == [];
  }

  lemma FreeKeeps<V>(rows: Rows<V>, from: Key, to: Key)
    requires NoOrphans(rows) && SlotFree(rows, from, to)
    ensures NoOrphans(rows - {to})
  {
    forall k | k in rows && |k| > 1 && k[0] == DATA_ROOT && k != to ensures k[..|k| - 1] != to {
    }
  }

  /** The row that a row under `to` came from. */
  function Origin(from: Key, to: Key, k: Key): Key
    requires to <= k
  {
    from + k[|to|..]
  }

  /** Rows under `from` not in `todo` stand under `to`; the others are where they were. */
  ghost predicate MovedSoFar<V>(rows: Rows<V>, after: Rows<V>, from: Key, to: Key, todo: set<Key>) {
    && (forall k :: from <= k ==> (k in after <==> k in todo))
    && (forall k :: k in after && from <= k ==> k in rows && after[k] == rows[k])
    && (forall k :: to <= k ==> (k in after <==> Origin(from, to, k) in rows && Origin(from, to, k) !in todo))
    && (forall k :: k in after && to <= k ==> after[k] == rows[Origin(from, to, k)])
    && (forall k :: !(from <= k) && !(to <= k) ==> (k in after <==> k in rows) && (k in rows ==> after[k] == rows[k]))
  }

  lemma OriginTells(from: Key, to: Key, k: Key, t: Key)
    requires |from| == |to| && to <= k
    ensures Origin(from, to, k) == from + t <==> k == to + t
  {
    assert k == to + k[|to|..];
    assert Origin(from, to, k)[|from|..] == k[|to|..] && (from + t)[|from|..] == t;
  }

  lemma MovesOne<V>(rows: Rows<V>, after: Rows<V>, from: Key, to: Key, todo: set<Key>, t: Key)
    requires |from| == |to| && from != to && from + t in todo && from + t in rows
          && MovedSoFar(rows, after, from, to, todo)
    ensures from <= from + t && from + t in after && to <= to + t
    ensures MovedSoFar(rows, after[to + t := after[from + t]] - {from + t}, from, to, todo - {from + t})
  {
    var k0, k1 := from + t, to + t;
    assert k1[..|to|] == to && k0[..|from|] == from;
    forall k | to <= k ensures Origin(from, to, k) == k0 <==> k == k1 {
      OriginTells(from, to, k, t);
    }
  }

  lemma MovedAll<V>(rows: Rows<V>, after: Rows<V>, from: Key, to: Key)
    requires |from| == |to| && MovedSoFar(rows, after, from, to, {})
    ensures SubtreeMoved(rows, after, from, to)
  {
    forall t: Key ensures from + t in rows <==> to + t in after {
      assert Origin(from, to, to + t) == from + t;
    }
    forall t: Key | from + t in rows ensures after[to + t] == rows[from + t] {
      assert Origin(from, to, to + t) == from + t;
    }
  }
}
