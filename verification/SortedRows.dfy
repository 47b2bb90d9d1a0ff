/** Rows under a container, scanned in key order. */
module SortedRows {
  import opened StringOrder
  import opened Segments
  import opened Sequences

  /** The elements are compared from above by `m`. */
  predicate IsLeast(m: string, s: set<string>) {
    m in s && forall x :: x in s ==> AtMost(m, x)
  }

  lemma {:induction false} LeastExists(s: set<string>) returns (m: string)
    requires s != {}
    ensures IsLeast(m, s)
  {
    var y :| y in s;
    if s == {y} {
      m := y;
    } else {
      var z := LeastExists(s - {y});
      Total(z, y);
      m := if Less(y, z) then y else z;
      forall x | x in s ensures AtMost(m, x) {
        if x != y {
          assert AtMost(z, x);
          if Less(y, z) && z != x {
            Transitive(y, z, x);
          }
        }
      }
    }
  }

  lemma FirstIsLeast(q: seq<string>, k: string)
    requires q != [] && Ascending(q) && k in q
    ensures AtMost(q[0], k)
  {
  }

  lemma TailOf(q: seq<string>)
    requires q != [] && Ascending(q)
    ensures Ascending(q[1..])
    ensures forall k :: k in q[1..] <==> k in q && k != q[0]
  {
    forall k ensures k in q[1..] <==> k in q && k != q[0] {
      Irreflexive(q[0]);
      if k in q && k != q[0] {
        var i :| 0 <= i < |q| && q[i] == k;
        assert q[1..][i - 1] == k;
      }
    }
  }

  lemma HasFirst(q: seq<string>)
    ensures q != [] ==> exists k :: k in q
  {
    if q != [] {
      assert q[0] in q;
    }
  }

  /** An ascending sequence is determined by its elements. */
  lemma {:induction false} SortedUnique(p: seq<string>, q: seq<string>)
    requires Ascending(p) && Ascending(q)
    requires forall k :: k in p <==> k in q
    ensures p == q
  {
    if q == [] || p == [] {
      HasFirst(p);
      HasFirst(q);
    } else {
      assert p[0] in p && q[0] in q;
      FirstIsLeast(q, p[0]);
      FirstIsLeast(p, q[0]);
      if p[0] != q[0] {
        Asymmetric(p[0], q[0]);
      }
      TailOf(p);
      TailOf(q);
      SortedUnique(p[1..], q[1..]);
      assert p == [p[0]] + p[1..] && q == [q[0]] + q[1..];
    }
  }

  /** `q` lists the keys of `s` in ascending order. */
  predicate Enumerates(q: seq<string>, s: set<string>) {
    Ascending(q) && (forall k | k in q :: k in s) && (forall k | k in s :: k in q)
  }

  lemma {:induction false} EnumerationExists(s: set<string>) returns (q: seq<string>)
    ensures Enumerates(q, s)
  {
    q := [];
    if s != {} {
      var m := LeastExists(s);
      var rest := EnumerationExists(s - {m});
      q := [m] + rest;
      forall i, j | 0 <= i < j < |q| ensures Less(q[i], q[j]) {
        assert q[j] == rest[j - 1] && rest[j - 1] in rest;
        assert i > 0 ==> q[i] == rest[i - 1];
      }
    }
  }

  /** The keys of a set in scan order. */
  function SortedKeys(s: set<string>): (q: seq<string>)
    ensures Enumerates(q, s)
  {
    assert exists q :: Enumerates(q, s) by {
      var q := EnumerationExists(s);
    }
    assert forall p, q :: Enumerates(p, s) && Enumerates(q, s) ==> p == q by {
      forall p, q | Enumerates(p, s) && Enumerates(q, s) ensures p == q {
        SortedUnique(p, q);
      }
    }
    var q :| Enumerates(q, s);
    q
  }

  lemma EnumerationSize(q: seq<string>, s: set<string>)
    requires Enumerates(q, s)
    ensures |q| == |s|
  {
    if q == [] {
      assert s == {};
    } else {
      TailOf(q);
      assert q[0] in q;
      EnumerationSize(q[1..], s - {q[0]});
    }
  }

  // ---------------------------------------------------------------------------
  // Order rows: order key -> id
  // ---------------------------------------------------------------------------

  type Rows = map<string, Segment>

  function KeySeq(order: Rows): (q: seq<string>)
    ensures Ascending(q) && |q| == |order|
    ensures forall k :: k in q <==> k in order
  {
    var q := SortedKeys(order.Keys);
    EnumerationSize(q, order.Keys);
    q
  }

  /** The collection order: ids in the order of their keys. */
  function IdSeq(order: Rows): (ids: seq<Segment>)
    ensures |ids| == |order|
    ensures forall i :: 0 <= i < |ids| ==> KeySeq(order)[i] in order && ids[i] == order[KeySeq(order)[i]]
  {
    var q := KeySeq(order);
    assert forall i :: 0 <= i < |q| ==> q[i] in q;
    seq(|q|, i requires 0 <= i < |q| => order[q[i]])
  }

  /** `k` falls between the rows `i - 1` and `i` of a scan. */
  predicate FallsAt(q: seq<string>, i: int, k: string) {
    && 0 <= i <= |q|
    && (i > 0 ==> Less(q[i - 1], k))
    && (i < |q| ==> Less(k, q[i]))
  }

  lemma InsertMembers<T>(s: seq<T>, i: nat, x: T)
    requires i <= |s|
    ensures forall y :: y in InsertAt(s, i, x) <==> y == x || y in s
  {
    assert s == s[..i] + s[i..];
  }

  lemma RemoveMembers(s: seq<string>, i: nat)
    requires i < |s| && Ascending(s)
    ensures forall y :: y in RemoveAt(s, i) <==> y != s[i] && y in s
    ensures Ascending(RemoveAt(s, i))
  {
    var k := s[i];
    Irreflexive(k);
    assert s == s[..i] + [k] + s[i + 1..];
    assert forall j :: 0 <= j < i ==> s[j] != k;
    assert k !in s[..i];
    assert forall j :: i < j < |s| ==> s[j] != k;
    assert k !in s[i + 1..];
  }

  lemma FallsApart(q: seq<string>, i: int, k: string)
    requires Ascending(q) && FallsAt(q, i, k)
    ensures forall j :: 0 <= j < i ==> Less(q[j], k)
    ensures forall j :: i <= j < |q| ==> Less(k, q[j])
    ensures k !in q
    ensures Ascending(InsertAt(q, i, k))
  {
    forall j | 0 <= j < i ensures Less(q[j], k) {
      if j < i - 1 {
        Transitive(q[j], q[i - 1], k);
      }
    }
    forall j | i <= j < |q| ensures Less(k, q[j]) {
      if j > i {
        Transitive(k, q[i], q[j]);
      }
    }
    Irreflexive(k);
  }

  /** `ids` lists the rows `keys` of a collection, in that order. */
  predicate Names(order: Rows, keys: seq<string>, ids: seq<Segment>) {
    && |keys| == |ids|
    && forall i :: 0 <= i < |keys| ==> keys[i] in order && order[keys[i]] == ids[i]
  }

  lemma NamesScan(order: Rows, ids: seq<Segment>)
    requires Names(order, KeySeq(order), ids)
    ensures IdSeq(order) == ids
  {
  }

  lemma ScanNames(order: Rows)
    ensures Names(order, KeySeq(order), IdSeq(order))
  {
    assert forall i :: 0 <= i < |order| ==> KeySeq(order)[i] in KeySeq(order);
  }

  lemma NamesInsert(order: Rows, keys: seq<string>, ids: seq<Segment>, i: nat, k: string, id: Segment)
    requires Names(order, keys, ids) && i <= |keys| && k !in keys
    ensures Names(order[k := id], InsertAt(keys, i, k), InsertAt(ids, i, id))
  {
  }

  lemma NamesRemove(order: Rows, keys: seq<string>, ids: seq<Segment>, i: nat, k: string)
    requires Names(order, keys, ids) && i < |keys| && k !in RemoveAt(keys, i)
    ensures Names(order - {k}, RemoveAt(keys, i), RemoveAt(ids, i))
  {
    assert forall j :: 0 <= j < |keys| - 1 ==> RemoveAt(keys, i)[j] in RemoveAt(keys, i);
  }

  /** A new row lands at the place its key falls. */
  lemma InsertRow(order: Rows, i: int, k: string, id: Segment)
    requires FallsAt(KeySeq(order), i, k)
    ensures k !in order
    ensures KeySeq(order[k := id]) == InsertAt(KeySeq(order), i, k)
    ensures IdSeq(order[k := id]) == InsertAt(IdSeq(order), i, id)
  {
    var q := KeySeq(order);
    FallsApart(q, i, k);
    InsertMembers(q, i, k);
    SortedUnique(InsertAt(q, i, k), KeySeq(order[k := id]));
    ScanNames(order);
    NamesInsert(order, q, IdSeq(order), i, k, id);
    NamesScan(order[k := id], InsertAt(IdSeq(order), i, id));
  }

  /** Deleting a row removes its id at that place and moves no other. */
  lemma DeleteRow(order: Rows, i: nat)
    requires i < |order|
    ensures var k := KeySeq(order)[i];
            && KeySeq(order - {k}) == RemoveAt(KeySeq(order), i)
            && IdSeq(order - {k}) == RemoveAt(IdSeq(order), i)
  {
    var q := KeySeq(order);
    var k := q[i];
    RemoveMembers(q, i);
    SortedUnique(RemoveAt(q, i), KeySeq(order - {k}));
    ScanNames(order);
    NamesRemove(order, q, IdSeq(order), i, k);
    NamesScan(order - {k}, RemoveAt(IdSeq(order), i));
  }
}
