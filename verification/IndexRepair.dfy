/** Rebuilding the order index from the data rows, whatever the order and position rows hold. */
module IndexRepair {
  import opened Wrappers
  import opened StringOrder
  import opened Segments
  import opened SortedRows
  import opened OrderScans
  import opened OrderedCollection
  import opened OrderKeys
  import opened RowMaps
  import opened IndexSteps

  /** The first entry of every id that still holds data. */
  function FirstEntries(ids: seq<Segment>, present: set<Segment>): (r: seq<Segment>)
    ensures forall id :: id in r <==> id in ids && id in present
  {
    if ids == [] then []
    else
      var n := |ids| - 1;
      var rest := FirstEntries(ids[..n], present);
      assert ids == ids[..n] + [ids[n]];
      if ids[n] in present && ids[n] !in rest then rest + [ids[n]] else rest
  }

  /** The ids a listing of the data holds and the index never recorded, in listing order. */
  function Unrecorded(keys: seq<Segment>, recorded: set<Segment>): seq<Segment> {
    if keys == [] then []
    else
      var n := |keys| - 1;
      Unrecorded(keys[..n], recorded) + (if keys[n] in recorded then [] else [keys[n]])
  }

  function Ids(rows: seq<Row>): (ids: seq<Segment>)
    ensures |ids| == |rows| && forall i :: 0 <= i < |rows| ==> ids[i] == rows[i].id
  {
    seq(|rows|, i requires 0 <= i < |rows| => rows[i].id)
  }

  function Okeys(rows: seq<Row>): (q: seq<string>)
    ensures |q| == |rows| && forall i :: 0 <= i < |rows| ==> q[i] == rows[i].okey
  {
    seq(|rows|, i requires 0 <= i < |rows| => rows[i].okey)
  }

  /** The rows that stay: the first entry of every id that still holds data. */
  function FirstRows(rows: seq<Row>, present: set<Segment>): (kept: seq<Row>)
    ensures Ids(kept) == FirstEntries(Ids(rows), present)
    ensures forall row :: row in kept ==> row in rows
  {
    if rows == [] then []
    else
      var n := |rows| - 1;
      var rest := FirstRows(rows[..n], present);
      assert Ids(rows)[..n] == Ids(rows[..n]);
      if rows[n].id in present && rows[n].id !in Ids(rest) then
        assert Ids(rest + [rows[n]]) == Ids(rest) + [rows[n].id];
        rest + [rows[n]]
      else rest
  }

  /** The keys of the rows that go: repeated ids, and ids without data. */
  function Lost(rows: seq<Row>, present: set<Segment>): seq<string> {
    if rows == [] then []
    else
      var n := |rows| - 1;
      Lost(rows[..n], present)
      + (if rows[n].id in present && rows[n].id !in Ids(FirstRows(rows[..n], present)) then [] else [rows[n].okey])
  }

  /** Every row stays or goes, never both; the rows that stay are in order. */
  lemma {:induction false} RowsPart(rows: seq<Row>, present: set<Segment>)
    requires Ascending(Okeys(rows))
    ensures var kept, lost := Okeys(FirstRows(rows, present)), Lost(rows, present);
            && Ascending(kept)
            && (forall k :: k in Okeys(rows) <==> k in kept || k in lost)
            && (forall k :: k in kept ==> k !in lost)
  {
    if rows != [] {
      var n := |rows| - 1;
      var top := Okeys(rows)[n];
      assert Okeys(rows)[..n] == Okeys(rows[..n]);
      assert Okeys(rows) == Okeys(rows[..n]) + [top];
      RowsPart(rows[..n], present);
      var kept := Okeys(FirstRows(rows[..n], present));
      forall k | k in Okeys(rows[..n]) ensures Less(k, top) && k != top {
        Irreflexive(k);
      }
      RowsStep(rows, present, kept, top);
    }
  }

  lemma RowsStep(rows: seq<Row>, present: set<Segment>, kept: seq<string>, top: string)
    requires rows != [] && top == rows[|rows| - 1].okey && kept == Okeys(FirstRows(rows[..|rows| - 1], present))
    requires Ascending(kept) && forall k :: k in kept ==> Less(k, top)
    ensures Ascending(Okeys(FirstRows(rows, present)))
    ensures var stays := rows[|rows| - 1].id in present
          && rows[|rows| - 1].id !in Ids(FirstRows(rows[..|rows| - 1], present));
            && Okeys(FirstRows(rows, present)) == kept + (if stays then [top] else [])
            && Lost(rows, present) == Lost(rows[..|rows| - 1], present) + (if stays then [] else [top])
  {
    hide Less, FirstEntries;
    assert forall i :: 0 <= i < |kept| ==> kept[i] in kept;
    var rest := FirstRows(rows[..|rows| - 1], present);
    assert Okeys(rest + [rows[|rows| - 1]]) == Okeys(rest) + [top];
    assert Okeys(rest) + [] == Okeys(rest);
  }

  // ---------------------------------------------------------------------------
  // What first entries are
  // ---------------------------------------------------------------------------

  /** Some first part of `r` holds exactly the chosen ids among the first `n`. */
  ghost predicate SomePartHolds(ids: seq<Segment>, n: nat, chosen: set<Segment>, r: seq<Segment>)
    requires n <= |ids|
  {
    exists m :: 0 <= m <= |r| && forall id :: id in r[..m] <==> id in ids[..n] && id in chosen
  }

  /** `r` lists every chosen id of `ids` once, in the order in which they first come up. */
  ghost predicate FirstOnes(ids: seq<Segment>, chosen: set<Segment>, r: seq<Segment>) {
    Distinct(r) && forall n :: 0 <= n <= |ids| ==> SomePartHolds(ids, n, chosen, r)
  }

  lemma {:induction false} FirstEntriesGrow(ids: seq<Segment>, present: set<Segment>, n: nat)
    requires n <= |ids|
    ensures Distinct(FirstEntries(ids, present))
    ensures FirstEntries(ids[..n], present) <= FirstEntries(ids, present)
    decreases |ids|
  {
    if n < |ids| {
      FirstEntriesGrow(ids[..|ids| - 1], present, n);
      assert ids[..|ids| - 1][..n] == ids[..n];
    } else {
      assert ids[..n] == ids;
      if ids != [] {
        FirstEntriesGrow(ids[..|ids| - 1], present, 0);
      }
    }
  }

  lemma {:induction false} UnrecordedGrows(keys: seq<Segment>, recorded: set<Segment>, n: nat)
    requires NoRepeats(keys) && n <= |keys|
    ensures Distinct(Unrecorded(keys, recorded))
    ensures forall id :: id in Unrecorded(keys, recorded) <==> id in keys && id !in recorded
    ensures Unrecorded(keys[..n], recorded) <= Unrecorded(keys, recorded)
    decreases |keys|
  {
    if keys != [] {
      var last := |keys| - 1;
      assert keys == keys[..last] + [keys[last]];
      if n <= last {
        UnrecordedGrows(keys[..last], recorded, n);
        assert keys[..last][..n] == keys[..n];
      } else {
        UnrecordedGrows(keys[..last], recorded, 0);
        assert keys[..n] == keys;
      }
    } else {
      assert keys[..n] == keys;
    }
  }

  /** The ids a rebuild keeps and the ids it adds are listed as they first come up. */
  lemma RebuildLists(ids: seq<Segment>, keys: seq<Segment>, present: set<Segment>)
    requires NoRepeats(keys) && forall id :: id in keys ==> id in present
    ensures FirstOnes(ids, present, FirstEntries(ids, present))
    ensures var kept := Elements(FirstEntries(ids, present));
            FirstOnes(keys, present - kept, Unrecorded(keys, kept))
  {
    var first, kept := FirstEntries(ids, present), Elements(FirstEntries(ids, present));
    FirstEntriesGrow(ids, present, 0);
    forall n | 0 <= n <= |ids| ensures SomePartHolds(ids, n, present, first) {
      FirstEntriesGrow(ids, present, n);
      assert first[..|FirstEntries(ids[..n], present)|] == FirstEntries(ids[..n], present);
    }
    UnrecordedGrows(keys, kept, 0);
    forall n | 0 <= n <= |keys| ensures SomePartHolds(keys, n, present - kept, Unrecorded(keys, kept)) {
      AddedPart(keys, present, kept, n);
    }
  }

  /** What a rebuild makes of a list: its first entries that hold data, then the ids of the listing it missed. */
  ghost predicate Relisted(ids: seq<Segment>, keys: seq<Segment>, present: set<Segment>, after: seq<Segment>) {
    exists kept, added :: after == kept + added && FirstOnes(ids, present, kept)
                       && FirstOnes(keys, present - Elements(kept), added)
  }

  lemma RebuildRelists(ids: seq<Segment>, keys: seq<Segment>, present: set<Segment>)
    requires NoRepeats(keys) && forall id :: id in keys ==> id in present
    ensures var kept := FirstEntries(ids, present);
            Relisted(ids, keys, present, kept + Unrecorded(keys, Elements(kept)))
  {
    RebuildLists(ids, keys, present);
  }

  lemma AddedPart(keys: seq<Segment>, present: set<Segment>, kept: set<Segment>, n: nat)
    requires NoRepeats(keys) && (forall id :: id in keys ==> id in present) && n <= |keys|
    ensures SomePartHolds(keys, n, present - kept, Unrecorded(keys, kept))
  {
    UnrecordedGrows(keys, kept, n);
    UnrecordedGrows(keys[..n], kept, 0);
    var part, all := Unrecorded(keys[..n], kept), Unrecorded(keys, kept);
    hide Unrecorded;
    assert all[..|part|] == part;
    assert forall id :: id in keys[..n] ==> id in keys;
  }

  // ---------------------------------------------------------------------------
  // The three passes
  // ---------------------------------------------------------------------------

  /** `rows` are all the rows of the order, in scan order. */
  ghost predicate AllRows(order: Rows, rows: seq<Row>) {
    Okeys(rows) == KeySeq(order) && Ids(rows) == IdSeq(order)
  }

  /** `seen` records the rows kept, each id with its key. */
  ghost predicate Records(seen: map<Segment, string>, kept: seq<Row>) {
    && (forall id :: id in seen <==> id in Ids(kept))
    && (forall i :: 0 <= i < |kept| ==> kept[i].id in seen && seen[kept[i].id] == kept[i].okey)
  }

  /** A scan with no start, no skip and no limit lists every row. */
  lemma ScansAll(order: Rows, rows: seq<Row>)
    requires rows == Taken(Kept(StorageScan(order, None, false), []), None)
    ensures |rows| == |order|
    ensures forall j :: 0 <= j < |rows| ==> rows[j].okey == KeySeq(order)[j]
    ensures forall j :: 0 <= j < |rows| ==> rows[j].id == IdSeq(order)[j]
  {
    KeptAll(StorageScan(order, None, false));
  }

  lemma ScansRows(order: Rows, rows: seq<Row>)
    requires rows == Taken(Kept(StorageScan(order, None, false), []), None)
    ensures AllRows(order, rows)
  {
    ScansAll(order, rows);
    assert Okeys(rows) == KeySeq(order) && Ids(rows) == IdSeq(order);
  }

  lemma RecordsNothing(order: Rows, rows: seq<Row>, present: set<Segment>)
    ensures Records(map[], FirstRows(rows[..0], present)) && Dropped(order, Lost(rows[..0], present)) == order
  {
    assert rows[..0] == [];
  }

  lemma DropOneMore(order: Rows, w: seq<string>, k: string)
    ensures Dropped(order, w + [k]) == Dropped(order, w) - {k}
  {
  }

  /** After the first pass the record of first entries is a full index of the rows left. */
  lemma FirstPass(order: Rows, rows: seq<Row>, present: set<Segment>, seen: map<Segment, string>)
    requires AllRows(order, rows) && Records(seen, FirstRows(rows, present))
    requires forall k :: k in order ==> IsOrderKey(k)
    ensures Indexed(Dropped(order, Lost(rows, present)), seen)
    ensures IdSeq(Dropped(order, Lost(rows, present))) == FirstEntries(IdSeq(order), present)
  {
    var kept, r := FirstRows(rows, present), Dropped(order, Lost(rows, present));
    RowsPart(rows, present);
    SortedUnique(Okeys(kept), KeySeq(r));
    KeptNames(order, rows, present);
    NamesScan(r, Ids(kept));
    RecordsIndexed(r, kept, seen);
  }

  lemma KeptNames(order: Rows, rows: seq<Row>, present: set<Segment>)
    requires AllRows(order, rows)
    requires forall k :: k in Okeys(FirstRows(rows, present)) ==> k !in Lost(rows, present)
    ensures var kept := FirstRows(rows, present);
            Names(Dropped(order, Lost(rows, present)), Okeys(kept), Ids(kept))
  {
    var kept := FirstRows(rows, present);
    ScanNames(order);
    forall i | 0 <= i < |kept| ensures kept[i].okey in order && order[kept[i].okey] == kept[i].id {
      assert kept[i] in kept;
      var j :| 0 <= j < |rows| && rows[j] == kept[i];
      assert Okeys(rows)[j] == KeySeq(order)[j] && Ids(rows)[j] == IdSeq(order)[j];
    }
    assert forall i :: 0 <= i < |kept| ==> Okeys(kept)[i] in Okeys(kept);
  }

  lemma RecordsIndexed(r: Rows, kept: seq<Row>, seen: map<Segment, string>)
    requires Records(seen, kept) && KeySeq(r) == Okeys(kept) && IdSeq(r) == Ids(kept)
    requires forall k :: k in r ==> IsOrderKey(k)
    ensures Indexed(r, seen)
  {
    forall k | k in r ensures r[k] in seen && seen[r[k]] == k {
      assert k in KeySeq(r);
      var i :| 0 <= i < |kept| && KeySeq(r)[i] == k;
      assert Okeys(kept)[i] == kept[i].okey && IdSeq(r)[i] == Ids(kept)[i];
    }
    CoveredListed(r, seen);
  }

  predicate Stays(rows: seq<Row>, i: nat, present: set<Segment>)
    requires i < |rows|
  {
    rows[i].id in present && rows[i].id !in Ids(FirstRows(rows[..i], present))
  }

  lemma Unroll(rows: seq<Row>, i: nat, present: set<Segment>)
    requires i < |rows|
    ensures FirstRows(rows[..i + 1], present)
         == FirstRows(rows[..i], present) + (if Stays(rows, i, present) then [rows[i]] else [])
    ensures Lost(rows[..i + 1], present)
         == Lost(rows[..i], present) + (if Stays(rows, i, present) then [] else [rows[i].okey])
  {
    assert rows[..i + 1][..i] == rows[..i];
  }

  lemma RecordMore(seen: map<Segment, string>, kept: seq<Row>, row: Row)
    requires Records(seen, kept) && row.id !in seen
    ensures Records(seen[row.id := row.okey], kept + [row])
  {
    assert Ids(kept + [row]) == Ids(kept) + [row.id];
    forall j | 0 <= j < |kept| ensures kept[j].id in seen && kept[j].id != row.id {
      assert Ids(kept)[j] in Ids(kept);
    }
  }

  /** One more row scanned: recorded if it is a first entry, dropped otherwise. */
  lemma PassStep(rows: seq<Row>, i: nat, present: set<Segment>, seen: map<Segment, string>)
    requires i < |rows| && Records(seen, FirstRows(rows[..i], present))
    ensures var row, upTo := rows[i], rows[..i + 1];
            if row.id in present && row.id !in seen then
              && Records(seen[row.id := row.okey], FirstRows(upTo, present))
              && Lost(upTo, present) == Lost(rows[..i], present)
            else
              && Records(seen, FirstRows(upTo, present))
              && Lost(upTo, present) == Lost(rows[..i], present) + [rows[i].okey]
  {
    hide FirstRows, Lost, FirstEntries;
    Unroll(rows, i, present);
    var kept := FirstRows(rows[..i], present);
    assert Stays(rows, i, present) <==> rows[i].id in present && rows[i].id !in seen;
    if Stays(rows, i, present) {
      hide Records;
      RecordMore(seen, kept, rows[i]);
    }
  }

  /** An index that agrees with its data has nothing to drop. */
  lemma {:induction false} NothingLost(rows: seq<Row>, present: set<Segment>, n: nat)
    requires Distinct(Ids(rows)) && (forall id :: id in Ids(rows) ==> id in present) && n <= |rows|
    ensures Lost(rows[..n], present) == [] && FirstRows(rows[..n], present) == rows[..n]
  {
    if n != 0 {
      hide *;
      NothingLost(rows, present, n - 1);
      Unroll(rows, n - 1, present);
      NextStays(rows, present, n - 1);
      TakeOneMore(rows, n - 1);
    }
  }

  lemma TakeOneMore<T>(rows: seq<T>, i: nat)
    requires i < |rows|
    ensures rows[..i + 1] == rows[..i] + [rows[i]]
  {
  }

  lemma NextStays(rows: seq<Row>, present: set<Segment>, i: nat)
    requires Distinct(Ids(rows)) && (forall id :: id in Ids(rows) ==> id in present) && i < |rows|
    requires FirstRows(rows[..i], present) == rows[..i]
    ensures Stays(rows, i, present)
  {
    hide FirstRows;
    assert Ids(rows)[i] in Ids(rows);
    NotEarlier(rows, i);
  }

  lemma NotEarlier(rows: seq<Row>, i: nat)
    requires Distinct(Ids(rows)) && i < |rows|
    ensures rows[i].id !in Ids(rows[..i])
  {
    assert forall j :: 0 <= j < i ==> Ids(rows[..i])[j] == Ids(rows)[j];
  }

  lemma NoneUnrecorded(keys: seq<Segment>, recorded: set<Segment>)
    ensures Unrecorded(keys, recorded) == [] <==> forall id :: id in keys ==> id in recorded
  {
    if keys != [] {
      NoneUnrecorded(keys[..|keys| - 1], recorded);
      assert keys == keys[..|keys| - 1] + [keys[|keys| - 1]];
    }
  }

  /** The positions left by the second pass: the kept ids that had one, realigned. */
  function Realigned(pos: Positions, seen: map<Segment, string>): Positions {
    map id | id in pos && id in seen :: seen[id]
  }

  /** Realigned positions are a full index exactly if every kept id had a position. */
  lemma RealignedIndexed(r: Rows, pos: Positions, seen: map<Segment, string>)
    requires Indexed(r, seen)
    ensures (forall id :: id in IdSeq(r) <==> id in seen)
    ensures Indexed(r, Realigned(pos, seen)) <==> forall id :: id in seen ==> id in pos
    ensures (forall id :: id in seen ==> id in pos) ==> Realigned(pos, seen) == seen
  {
    ListsPositions(r, seen);
    if Indexed(r, Realigned(pos, seen)) {
      ListsPositions(r, Realigned(pos, seen));
    }
  }

  /** Where the second pass stands: the positions outside `todo` are settled. */
  ghost predicate Realigning(pos0: Positions, pos: Positions, seen: map<Segment, string>, todo: set<Segment>) {
    && (forall id :: id in todo ==> id in pos0 && id in pos && pos[id] == pos0[id])
    && (forall id :: id !in todo ==> (id in pos <==> id in pos0 && id in seen))
    && (forall id :: id in pos && id !in todo ==> pos[id] == seen[id])
  }

  function Elements(ids: seq<Segment>): (s: set<Segment>)
    ensures forall id :: id in s <==> id in ids
  {
    set id | id in ids
  }

  /** What the third pass may start from: a full index of the kept ids, if there is anything to append. */
  ghost predicate Appendable(order: Rows, pos: Positions, keys: seq<Segment>, recorded: set<Segment>) {
    NoRepeats(keys) && (Unrecorded(keys, recorded) != [] ==> Indexed(order, pos) && pos.Keys == recorded)
  }

  /** Where the third pass stands after the first `i` keys of the listing. */
  ghost predicate Appending(order0: Rows, pos0: Positions, order: Rows, pos: Positions,
                            keys: seq<Segment>, i: nat, recorded: set<Segment>) {
    && i <= |keys|
    && IdSeq(order) == IdSeq(order0) + Unrecorded(keys[..i], recorded)
    && (Unrecorded(keys[..i], recorded) == [] ==> order == order0 && pos == pos0)
    && (Indexed(order0, pos0) && pos0.Keys == recorded ==>
          Indexed(order, pos) && pos.Keys == recorded + Elements(keys[..i]))
  }

  lemma AppendingStart(order: Rows, pos: Positions, keys: seq<Segment>, recorded: set<Segment>)
    ensures Appending(order, pos, order, pos, keys, 0, recorded)
  {
    assert keys[..0] == [] && IdSeq(order) + [] == IdSeq(order);
    assert Indexed(order, pos) && pos.Keys == recorded ==> pos.Keys == recorded + Elements(keys[..0]);
  }

  lemma AppendingEnd(order0: Rows, pos0: Positions, order: Rows, pos: Positions, keys: seq<Segment>,
                     recorded: set<Segment>)
    requires Appending(order0, pos0, order, pos, keys, |keys|, recorded)
    ensures IdSeq(order) == IdSeq(order0) + Unrecorded(keys, recorded)
    ensures Unrecorded(keys, recorded) == [] ==> order == order0 && pos == pos0
    ensures Indexed(order0, pos0) && pos0.Keys == recorded ==>
              Indexed(order, pos) && forall id :: id in pos <==> id in recorded || id in keys
  {
    assert keys[..|keys|] == keys;
  }

  /** A key the index never recorded is not yet in it when its turn comes. */
  lemma AppendingReady(order0: Rows, pos0: Positions, order: Rows, pos: Positions,
                       keys: seq<Segment>, i: nat, recorded: set<Segment>)
    requires Appendable(order0, pos0, keys, recorded) && i < |keys|
    requires Appending(order0, pos0, order, pos, keys, i, recorded) && keys[i] !in recorded
    ensures Indexed(order, pos) && keys[i] !in pos
  {
    hide Indexed, IdSeq;
    NoneUnrecorded(keys, recorded);
    assert keys[i] in keys && keys[i] !in keys[..i];
  }

  lemma AppendingMore(order0: Rows, pos0: Positions, order: Rows, pos: Positions, next: Rows, nextPos: Positions,
                      keys: seq<Segment>, i: nat, recorded: set<Segment>)
    requires Appending(order0, pos0, order, pos, keys, i, recorded) && i < |keys|
    requires if keys[i] in recorded then next == order && nextPos == pos
             else
               && Indexed(next, nextPos) && IdSeq(next) == IdSeq(order) + [keys[i]]
               && nextPos.Keys == pos.Keys + {keys[i]}
    ensures Appending(order0, pos0, next, nextPos, keys, i + 1, recorded)
  {
    hide Indexed, IdSeq, Unrecorded;
    UnrecordedMore(keys, i, recorded, IdSeq(order0));
    if keys[i] in recorded {
      assert recorded + Elements(keys[..i + 1]) == recorded + Elements(keys[..i]);
    } else {
      assert recorded + Elements(keys[..i + 1]) == (recorded + Elements(keys[..i])) + {keys[i]};
    }
  }

  lemma UnrecordedMore(keys: seq<Segment>, i: nat, recorded: set<Segment>, ids: seq<Segment>)
    requires i < |keys|
    ensures var un, more := Unrecorded(keys[..i], recorded), Unrecorded(keys[..i + 1], recorded);
            && (keys[i] in recorded ==> more == un)
            && (keys[i] !in recorded ==> more != [] && (ids + un) + [keys[i]] == ids + more)
    ensures forall id :: id in Elements(keys[..i + 1]) <==> id in Elements(keys[..i]) || id == keys[i]
  {
    UnrecordedNext(keys, i, recorded);
    ElementsNext(keys, i);
    hide *;
    var un := Unrecorded(keys[..i], recorded);
    if keys[i] !in recorded {
      assert (ids + un) + [keys[i]] == ids + (un + [keys[i]]);
    }
  }

  lemma ElementsNext(keys: seq<Segment>, i: nat)
    requires i < |keys|
    ensures forall id :: id in Elements(keys[..i + 1]) <==> id in Elements(keys[..i]) || id == keys[i]
  {
    var upTo, before := keys[..i + 1], keys[..i];
    assert upTo == before + [keys[i]];
    assert Elements(upTo) == Elements(before) + {keys[i]};
  }

  lemma UnrecordedNext(keys: seq<Segment>, i: nat, recorded: set<Segment>)
    requires i < |keys|
    ensures var un, more := Unrecorded(keys[..i], recorded), Unrecorded(keys[..i + 1], recorded);
            more == if keys[i] in recorded then un else un + [keys[i]]
  {
    var upTo := keys[..i + 1];
    assert upTo[..i] == keys[..i] && upTo[i] == keys[i];
    assert Unrecorded(keys[..i], recorded) + [] == Unrecorded(keys[..i], recorded);
  }

  // ---------------------------------------------------------------------------
  // The whole rebuild
  // ---------------------------------------------------------------------------

  /** Every kept id has some position row. */
  ghost predicate PositionsKept(present: set<Segment>, order: Rows, pos: Positions) {
    forall id :: id in FirstEntries(IdSeq(order), present) ==> id in pos
  }

  /** Every order row is the only one of its id, and the id holds data. */
  ghost predicate AllCurrent(order: Rows, present: set<Segment>) {
    Distinct(IdSeq(order)) && forall id :: id in IdSeq(order) ==> id in present
  }

  lemma NothingDropped(order: Rows, rows: seq<Row>, present: set<Segment>)
    requires AllRows(order, rows)
    ensures AllCurrent(order, present) ==> Dropped(order, Lost(rows, present)) == order
  {
    if AllCurrent(order, present) {
      hide FirstRows, Lost, IdSeq, KeySeq, Distinct;
      assert Distinct(Ids(rows));
      NothingLost(rows, present, |rows|);
      assert rows[..|rows|] == rows;
    }
  }

  lemma OneIndex(order: Rows, p: Positions, q: Positions)
    requires Indexed(order, p) && Indexed(order, q)
    ensures p == q
  {
  }

  /** The first two passes leave a record the third may append to. */
  lemma ReadyToAppend(order0: Rows, pos0: Positions, order1: Rows, seen: map<Segment, string>,
                      keys: seq<Segment>, present: set<Segment>)
    requires NoRepeats(keys) && Indexed(order1, seen) && IdSeq(order1) == FirstEntries(IdSeq(order0), present)
    requires PositionsKept(present, order0, pos0)
          || Unrecorded(keys, Elements(FirstEntries(IdSeq(order0), present))) == []
    ensures seen.Keys == Elements(FirstEntries(IdSeq(order0), present))
    ensures Appendable(order1, Realigned(pos0, seen), keys, seen.Keys)
  {
    RealignedIndexed(order1, pos0, seen);
    assert seen.Keys == Elements(FirstEntries(IdSeq(order0), present));
  }

  /** What a rebuild comes to: which ids, in which order, and exactly when the rows agree. */
  lemma RebuildOutcome(order0: Rows, pos0: Positions, order1: Rows, seen: map<Segment, string>, order: Rows,
                       pos: Positions,
                       keys: seq<Segment>, present: set<Segment>)
    requires Indexed(order1, seen) && IdSeq(order1) == FirstEntries(IdSeq(order0), present)
    requires present == Elements(keys) && seen.Keys == Elements(FirstEntries(IdSeq(order0), present))
    requires Appendable(order1, Realigned(pos0, seen), keys, seen.Keys)
    requires Appending(order1, Realigned(pos0, seen), order, pos, keys, |keys|, seen.Keys)
    ensures IdSeq(order) == FirstEntries(IdSeq(order0), present) + Unrecorded(keys, seen.Keys)
    ensures Indexed(order, pos) && pos.Keys == present <==> PositionsKept(present, order0, pos0)
  {
    KeptIff(order0, pos0, order1, seen, present);
    var pos1 := Realigned(pos0, seen);
    AppendedIff(order1, pos1, order, pos, keys, seen.Keys, present);
  }

  /** The third pass ends with the rows agreeing exactly if it started from a full index. */
  lemma AppendedIff(order0: Rows, pos0: Positions, order: Rows, pos: Positions, keys: seq<Segment>,
                    recorded: set<Segment>, present: set<Segment>)
    requires Appendable(order0, pos0, keys, recorded) && Appending(order0, pos0, order, pos, keys, |keys|, recorded)
    requires (Indexed(order0, pos0) ==> pos0.Keys == recorded) && recorded <= present == Elements(keys)
    ensures IdSeq(order) == IdSeq(order0) + Unrecorded(keys, recorded)
    ensures Indexed(order, pos) && pos.Keys == present <==> Indexed(order0, pos0)
  {
    hide Indexed, IdSeq, Unrecorded, Appending;
    AppendingEnd(order0, pos0, order, pos, keys, recorded);
    if Indexed(order0, pos0) {
      assert pos.Keys == present;
    }
  }

  /** Realigned positions index the kept rows exactly if every kept id had a position. */
  lemma KeptIff(order0: Rows, pos0: Positions, order1: Rows, seen: map<Segment, string>, present: set<Segment>)
    requires Indexed(order1, seen) && IdSeq(order1) == FirstEntries(IdSeq(order0), present)
    ensures PositionsKept(present, order0, pos0) <==> Indexed(order1, Realigned(pos0, seen))
    ensures PositionsKept(present, order0, pos0) ==> Realigned(pos0, seen) == seen
    ensures seen.Keys <= present
  {
    RealignedIndexed(order1, pos0, seen);
  }

  const LONE: Segment := Str("x")

  /** One id with data and an order row but no position: its row is kept, and it stays without a position. */
  lemma PositionStaysLost()
    ensures var order: Rows, pos: Positions, seen := map["a0" := LONE], map[], map[LONE := "a0"];
            && IdSeq(order) == [LONE] == FirstEntries(IdSeq(order), {LONE})
            && !PositionsKept({LONE}, order, pos) && Realigned(pos, seen) == map[] && !Indexed(order, map[])
  {
    var order: Rows := map["a0" := LONE];
    assert "a0" in KeySeq(order) && |KeySeq(order)| == |order.Keys| == 1;
    assert IdSeq(order) == [LONE];
    assert [LONE][..0] == [];
    assert LONE in FirstEntries([LONE], {LONE});
  }

  /** A rebuild of an index that agrees with its data changes nothing. */
  lemma RebuildIdempotent(order0: Rows, pos0: Positions, order1: Rows, seen: map<Segment, string>, order: Rows,
                          pos: Positions,
                          keys: seq<Segment>, present: set<Segment>)
    requires Indexed(order0, pos0) && pos0.Keys == present == Elements(keys)
    requires Indexed(order1, seen) && (AllCurrent(order0, present) ==> order1 == order0)
    requires Appending(order1, Realigned(pos0, seen), order, pos, keys, |keys|, seen.Keys)
    ensures order == order0 && pos == pos0
  {
    LinkedDistinct(order0, pos0);
    ListsPositions(order0, pos0);
    assert AllCurrent(order0, present);
    OneIndex(order0, pos0, seen);
    RealignedIndexed(order0, pos0, seen);
    NoneUnrecorded(keys, seen.Keys);
    AppendingEnd(order1, Realigned(pos0, seen), order, pos, keys, seen.Keys);
  }
}
