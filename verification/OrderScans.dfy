/** Bounded scans over order rows: a start key, a direction, rows to skip, and a cap. */
module OrderScans {
  import opened Wrappers
  import opened StringOrder
  import opened Segments
  import opened Sequences
  import opened SortedRows

  datatype Row = Row(okey: string, id: Segment)

  /** How many leading keys lie strictly below `k`. */
  function CountBelow(q: seq<string>, k: string): (n: nat)
    ensures n <= |q| && (forall i :: 0 <= i < n ==> Less(q[i], k)) && (n < |q| ==> !Less(q[n], k))
  {
    if q == [] || !Less(q[0], k) then 0 else 1 + CountBelow(q[1..], k)
  }

  /** How many leading keys lie at or below `k`. */
  function CountUpTo(q: seq<string>, k: string): (n: nat)
    ensures n <= |q| && (forall i :: 0 <= i < n ==> AtMost(q[i], k)) && (n < |q| ==> !AtMost(q[n], k))
  {
    if q == [] || !AtMost(q[0], k) then 0 else 1 + CountUpTo(q[1..], k)
  }

  predicate HasRows(order: Rows, q: seq<string>) {
    forall i :: 0 <= i < |q| ==> q[i] in order
  }

  function RowsAt(order: Rows, q: seq<string>): (rows: seq<Row>)
    requires HasRows(order, q)
    ensures |rows| == |q| && forall i :: 0 <= i < |q| ==> rows[i] == Row(q[i], order[q[i]])
  {
    seq(|q|, i requires 0 <= i < |q| => Row(q[i], order[q[i]]))
  }

  function Backwards<T>(s: seq<T>): (r: seq<T>)
    ensures |r| == |s| && forall i :: 0 <= i < |s| ==> r[i] == s[|s| - 1 - i]
  {
    seq(|s|, i requires 0 <= i < |s| => s[|s| - 1 - i])
  }

  /** The keys a scan from `start` reaches, in ascending order. */
  function ScanKeys(order: Rows, start: Option<string>, reverse: bool): (q: seq<string>)
    ensures Ascending(q) && HasRows(order, q)
  {
    var q := KeySeq(order);
    assert forall i :: 0 <= i < |q| ==> q[i] in q;
    if start.None? then q
    else if reverse then q[..CountUpTo(q, start.value)]
    else q[CountBelow(q, start.value)..]
  }

  /** The storage scan: from `start` (inclusive) to the end of the rows, in either direction. */
  function StorageScan(order: Rows, start: Option<string>, reverse: bool): seq<Row> {
    var rows := RowsAt(order, ScanKeys(order, start, reverse));
    if reverse then Backwards(rows) else rows
  }

  /** The rows whose key is not skipped. */
  function Kept(rows: seq<Row>, skip: seq<string>): (kept: seq<Row>)
    ensures |kept| <= |rows|
  {
    if rows == [] then []
    else (if rows[0].okey in skip then [] else [rows[0]]) + Kept(rows[1..], skip)
  }

  function Taken<T>(s: seq<T>, limit: Option<nat>): seq<T> {
    if limit.Some? && limit.value < |s| then s[..limit.value] else s
  }

  lemma {:induction false} KeptConcat(a: seq<Row>, b: seq<Row>, skip: seq<string>)
    ensures Kept(a + b, skip) == Kept(a, skip) + Kept(b, skip)
  {
    if a == [] {
      assert a + b == b;
    } else {
      assert (a + b)[1..] == a[1..] + b;
      KeptConcat(a[1..], b, skip);
    }
  }

  predicate DistinctKeys(rows: seq<Row>) {
    forall i, j :: 0 <= i < j < |rows| ==> rows[i].okey != rows[j].okey
  }

  lemma {:induction false} KeptIgnores(rows: seq<Row>, skip: seq<string>, i: nat)
    requires i < |skip| && forall j :: 0 <= j < |rows| ==> rows[j].okey != skip[i]
    ensures Kept(rows, skip) == Kept(rows, RemoveAt(skip, i))
  {
    if rows != [] {
      KeptIgnores(rows[1..], skip, i);
      var k := rows[0].okey;
      if k in skip {
        var j :| 0 <= j < |skip| && skip[j] == k;
        assert RemoveAt(skip, i)[if j < i then j else j - 1] == k;
      }
    }
  }

  /** Skipping drops at most one row per skipped key. */
  lemma {:induction false} SkipDropsFew(rows: seq<Row>, skip: seq<string>)
    requires DistinctKeys(rows)
    ensures |Kept(rows, skip)| >= |rows| - |skip|
  {
    if rows != [] {
      if rows[0].okey in skip {
        var i :| 0 <= i < |skip| && skip[i] == rows[0].okey;
        KeptIgnores(rows[1..], skip, i);
        SkipDropsFew(rows[1..], RemoveAt(skip, i));
      } else {
        SkipDropsFew(rows[1..], skip);
      }
    }
  }

  /** Asking the storage for one more row per skipped key is enough to reach the cap. */
  lemma FetchSuffices(rows: seq<Row>, skip: seq<string>, limit: nat)
    requires DistinctKeys(rows)
    ensures Taken(Kept(Taken(rows, Some(limit + |skip|)), skip), Some(limit)) == Taken(Kept(rows, skip), Some(limit))
  {
    var n := limit + |skip|;
    if n < |rows| {
      assert rows == rows[..n] + rows[n..];
      KeptConcat(rows[..n], rows[n..], skip);
      SkipDropsFew(rows[..n], skip);
    }
  }

  lemma AscendingDistinct(order: Rows, q: seq<string>)
    requires Ascending(q) && HasRows(order, q)
    ensures DistinctKeys(RowsAt(order, q)) && DistinctKeys(Backwards(RowsAt(order, q)))
  {
    forall i, j | 0 <= i < j < |q| ensures q[i] != q[j] {
      Irreflexive(q[i]);
    }
  }

  lemma ScanDistinct(order: Rows, start: Option<string>, reverse: bool)
    ensures DistinctKeys(StorageScan(order, start, reverse))
  {
    AscendingDistinct(order, ScanKeys(order, start, reverse));
  }

  // ---------------------------------------------------------------------------
  // What a scan finds
  // ---------------------------------------------------------------------------

  /** The key lies at the start of a scan or past it. */
  predicate Reached(k: string, start: Option<string>, reverse: bool) {
    start.None? || (if reverse then AtMost(k, start.value) else AtMost(start.value, k))
  }

  /** The rows stand in the direction of the scan. */
  ghost predicate InDirection(rows: seq<Row>, reverse: bool) {
    forall i, j :: 0 <= i < j < |rows| ==>
      if reverse then Less(rows[j].okey, rows[i].okey) else Less(rows[i].okey, rows[j].okey)
  }

  /** The rows are those of the order whose keys are reached and not skipped. */
  ghost predicate FoundRows(order: Rows, start: Option<string>, reverse: bool, skip: seq<string>, rows: seq<Row>) {
    forall row :: row in rows <==>
      row.okey in order && order[row.okey] == row.id && Reached(row.okey, start, reverse) && row.okey !in skip
  }

  lemma ReachedKeys(order: Rows, start: Option<string>, reverse: bool, k: string)
    ensures k in ScanKeys(order, start, reverse) <==> k in order && Reached(k, start, reverse)
  {
    hide Less;
    var q := KeySeq(order);
    assert k in q <==> k in order;
    if start.Some? {
      AscendingApart(q);
      if k in q {
        var i :| 0 <= i < |q| && q[i] == k;
        SidesOf(q, start.value, i, reverse);
        assert forall n :: 0 <= n <= |q| ==> (q[i] in q[..n] <==> i < n) && (q[i] in q[n..] <==> n <= i);
      }
    }
  }

  lemma AscendingApart(q: seq<string>)
    requires Ascending(q)
    ensures forall i, j :: 0 <= i < j < |q| ==> q[i] != q[j]
  {
    forall i, j | 0 <= i < j < |q| ensures q[i] != q[j] {
      Irreflexive(q[i]);
    }
  }

  /** Ascending keys are cut by the start into those reached and those not. */
  lemma SidesOf(q: seq<string>, start: string, i: nat, reverse: bool)
    requires Ascending(q) && i < |q|
    ensures Reached(q[i], Some(start), reverse)
       <==> if reverse then i < CountUpTo(q, start) else CountBelow(q, start) <= i
  {
    hide Less;
    if reverse {
      var n := CountUpTo(q, start);
      if n <= i {
        Beyond(q, n, i, start);
      }
    } else {
      var n := CountBelow(q, start);
      if i < n {
        Asymmetric(q[i], start);
        Irreflexive(start);
      } else {
        Beyond(q, n, i, start);
      }
    }
  }

  lemma Beyond(q: seq<string>, n: nat, i: nat, start: string)
    requires Ascending(q) && n <= i < |q|
    ensures !AtMost(q[n], start) ==> !AtMost(q[i], start)
    ensures !Less(q[n], start) ==> AtMost(start, q[i])
  {
    hide Less;
    Total(q[n], start);
    Total(q[i], start);
    if n < i {
      assert Less(q[n], q[i]);
      if AtMost(start, q[n]) {
        if start != q[n] {
          Transitive(start, q[n], q[i]);
        }
        Asymmetric(start, q[i]);
      }
      Irreflexive(start);
    }
  }

  /** A scan finds exactly the rows from its start on that are not skipped, in its direction. */
  lemma ScanFinds(order: Rows, start: Option<string>, reverse: bool, skip: seq<string>)
    ensures var rows := Kept(StorageScan(order, start, reverse), skip);
            FoundRows(order, start, reverse, skip, rows) && InDirection(rows, reverse)
  {
    var all := StorageScan(order, start, reverse);
    var q := ScanKeys(order, start, reverse);
    KeptHolds(all, skip);
    KeptDirection(all, skip, reverse);
    forall row: Row ensures row in all <==>
        row.okey in order && order[row.okey] == row.id && Reached(row.okey, start, reverse)
    {
      ReachedKeys(order, start, reverse, row.okey);
      RowsListed(order, q, row);
      BackwardsHolds(RowsAt(order, q), row);
    }
  }

  lemma RowsListed(order: Rows, q: seq<string>, row: Row)
    requires HasRows(order, q)
    ensures row in RowsAt(order, q) <==> row.okey in q && row.okey in order && order[row.okey] == row.id
  {
    if row.okey in q && row.okey in order && order[row.okey] == row.id {
      var i :| 0 <= i < |q| && q[i] == row.okey;
      assert RowsAt(order, q)[i] == row;
    }
  }

  lemma BackwardsHolds<T>(s: seq<T>, x: T)
    ensures x in Backwards(s) <==> x in s
  {
    if x in s {
      var i :| 0 <= i < |s| && s[i] == x;
      assert Backwards(s)[|s| - 1 - i] == x;
    }
  }

  lemma {:induction false} KeptHolds(rows: seq<Row>, skip: seq<string>)
    ensures forall row :: row in Kept(rows, skip) <==> row in rows && row.okey !in skip
  {
    if rows != [] {
      KeptHolds(rows[1..], skip);
      assert rows == [rows[0]] + rows[1..];
    }
  }

  lemma {:induction false} KeptDirection(rows: seq<Row>, skip: seq<string>, reverse: bool)
    requires InDirection(rows, reverse)
    ensures InDirection(Kept(rows, skip), reverse)
  {
    if rows != [] {
      KeptDirection(rows[1..], skip, reverse);
      KeptHolds(rows[1..], skip);
      var rest := Kept(rows[1..], skip);
      hide Less, Kept;
      forall j | 0 <= j < |rest|
        ensures if reverse then Less(rest[j].okey, rows[0].okey) else Less(rows[0].okey, rest[j].okey)
      {
        assert rest[j] in rows[1..];
      }
    }
  }

  /** A scan, skipping and capping as it goes; the storage is asked for one more row per skipped key. */
  method ScanOrder(order: Rows, start: Option<string>, reverse: bool, limit: Option<nat>, skip: seq<string>)
    returns (rows: seq<Row>)
    ensures limit != Some(0) ==> rows == Taken(Kept(StorageScan(order, start, reverse), skip), limit)
    ensures limit == Some(0) && skip == [] ==> rows == []
  {
    ScanDistinct(order, start, reverse);
    rows := Fetch(StorageScan(order, start, reverse), limit, skip);
  }

  method Fetch(all: seq<Row>, limit: Option<nat>, skip: seq<string>) returns (rows: seq<Row>)
    requires DistinctKeys(all)
    ensures limit != Some(0) ==> rows == Taken(Kept(all, skip), limit)
    ensures limit == Some(0) && skip == [] ==> rows == []
  {
    if limit.None? {
      rows := Yield(all, limit, skip);
    } else {
      FetchSuffices(all, skip, limit.value);
      rows := Yield(Taken(all, Some(limit.value + |skip|)), limit, skip);
    }
  }

  /** The generator loop of a scan. */
  method Yield(fetched: seq<Row>, limit: Option<nat>, skip: seq<string>) returns (rows: seq<Row>)
    ensures limit != Some(0) ==> rows == Taken(Kept(fetched, skip), limit)
    ensures |rows| <= |fetched|
  {
    rows := [];
    for i := 0 to |fetched|
      invariant rows == Kept(fetched[..i], skip)
      invariant limit.Some? && limit.value > 0 ==> |rows| < limit.value
    {
      KeptNext(fetched, i, skip);
      if fetched[i].okey !in skip {
        rows := rows + [fetched[i]];
        if limit.Some? && |rows| >= limit.value {
          return;
        }
      }
    }
    assert fetched[..|fetched|] == fetched;
  }

  lemma KeptNext(rows: seq<Row>, i: nat, skip: seq<string>)
    requires i < |rows|
    ensures Kept(rows[..i + 1], skip) == Kept(rows[..i], skip) + (if rows[i].okey in skip then [] else [rows[i]])
    ensures Kept(rows, skip) == Kept(rows[..i + 1], skip) + Kept(rows[i + 1..], skip)
  {
    assert rows[..i + 1] == rows[..i] + [rows[i]];
    KeptConcat(rows[..i], [rows[i]], skip);
    assert rows == rows[..i + 1] + rows[i + 1..];
    KeptConcat(rows[..i + 1], rows[i + 1..], skip);
  }

  // ---------------------------------------------------------------------------
  // Scans from an existing row
  // ---------------------------------------------------------------------------

  lemma CountsAt(q: seq<string>, i: nat)
    requires Ascending(q) && i < |q|
    ensures CountBelow(q, q[i]) == i && CountUpTo(q, q[i]) == i + 1
  {
    Irreflexive(q[i]);
    if i + 1 < |q| {
      Asymmetric(q[i], q[i + 1]);
    }
  }

  lemma KeptAll(rows: seq<Row>)
    ensures Kept(rows, []) == rows
  {
  }

  lemma {:induction false} KeptUntouched(rows: seq<Row>, k: string)
    requires forall i :: 0 <= i < |rows| ==> rows[i].okey != k
    ensures Kept(rows, [k]) == rows
  {
    if rows != [] {
      KeptUntouched(rows[1..], k);
    }
  }

  /** Row `i` of the collection order. */
  function RowAt(order: Rows, i: nat): Row
    requires i < |order|
  {
    Row(KeySeq(order)[i], IdSeq(order)[i])
  }

  /** `rows` are the rows `from .. to` of the scan. */
  predicate Listing(order: Rows, rows: seq<Row>, from: nat, to: nat) {
    && from <= to <= |order| && |rows| == to - from
    && forall j :: 0 <= j < |rows| ==> rows[j] == RowAt(order, from + j)
  }

  /** The rows on the two sides of a place. */
  function RowBelow(order: Rows, i: nat): Option<Row>
    requires i <= |order|
  {
    if i == 0 then None else Some(RowAt(order, i - 1))
  }

  function RowAbove(order: Rows, i: nat): Option<Row>
    requires i <= |order|
  {
    if i == |order| then None else Some(RowAt(order, i))
  }

  /** The first row in collection order, or the last. One seek. */
  method Edge(order: Rows, last: bool) returns (row: Option<Row>)
    ensures row == if last then RowBelow(order, |order|) else RowAbove(order, 0)
  {
    var rows := ScanOrder(order, None, last, Some(1), []);
    KeptAll(StorageScan(order, None, last));
    if rows == [] {
      return None;
    }
    return Some(rows[0]);
  }

  /** The row directly before or after a row. One seek that skips the row itself. */
  method Neighbour(order: Rows, okey: string, before: bool, ghost i: nat) returns (row: Option<Row>)
    requires i < |order| && KeySeq(order)[i] == okey
    ensures row == if before then RowBelow(order, i) else RowAbove(order, i + 1)
  {
    var rows := ScanOrder(order, Some(okey), before, Some(1), [okey]);
    NeighbourScan(order, i, before);
    if rows == [] {
      return None;
    }
    return Some(rows[0]);
  }

  lemma KeptAfterFirst(rows: seq<Row>)
    requires rows != [] && DistinctKeys(rows)
    ensures Kept(rows, [rows[0].okey]) == rows[1..]
  {
    KeptUntouched(rows[1..], rows[0].okey);
  }

  lemma NeighbourScan(order: Rows, i: nat, before: bool)
    requires i < |order|
    ensures var rows := Kept(StorageScan(order, Some(KeySeq(order)[i]), before), [KeySeq(order)[i]]);
            if before then |rows| == i && (i > 0 ==> rows[0] == RowAt(order, i - 1))
            else |rows| == |order| - 1 - i && (i < |order| - 1 ==> rows[0] == RowAt(order, i + 1))
  {
    var q := KeySeq(order);
    ScanDistinct(order, Some(q[i]), before);
    var rows := StorageScan(order, Some(q[i]), before);
    ScanReaches(order, i, before);
    KeptAfterFirst(rows);
  }

  /** The rows from an existing row on, in either direction, as many as asked for. */
  method ScanFrom(order: Rows, okey: string, reverse: bool, limit: Option<nat>, ghost i: nat) returns (rows: seq<Row>)
    requires i < |order| && KeySeq(order)[i] == okey && limit != Some(0)
    ensures |rows| == Capped(if reverse then i + 1 else |order| - i, limit)
    ensures forall j :: 0 <= j < |rows| ==> rows[j] == RowAt(order, if reverse then i - j else i + j)
  {
    rows := ScanOrder(order, Some(okey), reverse, limit, []);
    KeptAll(StorageScan(order, Some(okey), reverse));
    ScanReaches(order, i, reverse);
    TakenReaches(order, StorageScan(order, Some(okey), reverse), i, reverse, limit);
  }

  lemma TakenReaches(order: Rows, all: seq<Row>, i: nat, reverse: bool, limit: Option<nat>)
    requires i < |order| && Reaches(order, all, i, reverse)
    ensures var rows := Taken(all, limit);
            && |rows| == Capped(|all|, limit)
            && forall j :: 0 <= j < |rows| ==> rows[j] == RowAt(order, if reverse then i - j else i + j)
  {
  }

  /** `rows` are the rows from `i` on, to the end of the collection in that direction. */
  predicate Reaches(order: Rows, rows: seq<Row>, i: nat, reverse: bool)
    requires i < |order|
  {
    && |rows| == (if reverse then i + 1 else |order| - i)
    && forall j :: 0 <= j < |rows| ==> rows[j] == RowAt(order, if reverse then i - j else i + j)
  }

  lemma SliceRows(order: Rows, from: nat, to: nat)
    requires from <= to <= |order|
    ensures HasRows(order, KeySeq(order)[from..to])
    ensures Listing(order, RowsAt(order, KeySeq(order)[from..to]), from, to)
  {
    hide Ascending;
    forall j | 0 <= j < to - from ensures KeySeq(order)[from..to][j] in order {
      assert KeySeq(order)[from + j] in KeySeq(order);
    }
  }

  lemma ScanKeysAt(order: Rows, i: nat, reverse: bool)
    requires i < |order|
    ensures ScanKeys(order, Some(KeySeq(order)[i]), reverse)
         == if reverse then KeySeq(order)[0..i + 1] else KeySeq(order)[i..|order|]
  {
    var q := KeySeq(order);
    CountsAt(q, i);
    assert q[0..i + 1] == q[..i + 1] && q[i..|order|] == q[i..];
  }

  lemma ScanReaches(order: Rows, i: nat, reverse: bool)
    requires i < |order|
    ensures Reaches(order, StorageScan(order, Some(KeySeq(order)[i]), reverse), i, reverse)
  {
    hide Ascending, KeySeq, IdSeq, RowsAt, RowAt, ScanKeys, HasRows;
    ScanKeysAt(order, i, reverse);
    SliceRows(order, 0, i + 1);
    SliceRows(order, i, |order|);
  }

  function Capped(n: nat, limit: Option<nat>): nat {
    if limit.Some? && limit.value < n then limit.value else n
  }
}
