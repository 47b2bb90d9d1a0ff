/**
 The log-indexed view: data rows, an append-only log of their ids, and a reverse index from id to
 log key. Log keys are fresh and increasing; which ones a writer draws is a parameter.
 */
module LogView {
  import opened Wrappers
  import opened StringOrder
  import opened Segments
  import opened Sequences
  import opened SortedRows
  import opened OrderScans
  import opened OrderedCollection
  import opened OrderedLaws
  import opened RowMaps
  import opened IndexRepair

  /** Log rows and reverse rows mirror each other. */
  ghost predicate Mirrored(keys: Rows, log: Positions) {
    && (forall k :: k in keys ==> keys[k] in log && log[keys[k]] == k)
    && (forall id :: id in log ==> log[id] in keys && keys[log[id]] == id)
  }

  /** The log lists exactly the ids that hold data. */
  ghost predicate Logged<V>(data: map<Segment, V>, keys: Rows, log: Positions) {
    Mirrored(keys, log) && log.Keys == data.Keys
  }

  /** Log keys yet to be drawn, from the `i`th on: ascending, and above every key of the log. */
  ghost predicate Fresh(keys: Rows, supply: seq<string>, i: nat) {
    && Ascending(supply)
    && forall k, j :: k in keys && i <= j < |supply| ==> Less(k, supply[j])
  }

  lemma ListedKey(keys: Rows, id: Segment)
    ensures id in IdSeq(keys) <==> exists k :: k in keys && keys[k] == id
  {
    if id in IdSeq(keys) {
      var i :| 0 <= i < |keys| && IdSeq(keys)[i] == id;
      assert KeySeq(keys)[i] in keys;
    }
    forall k | k in keys && keys[k] == id ensures id in IdSeq(keys) {
      assert k in KeySeq(keys);
      var i :| 0 <= i < |keys| && KeySeq(keys)[i] == k;
      assert IdSeq(keys)[i] == id;
    }
  }

  /** A mirrored log names every id of the reverse index once. */
  lemma MirroredLists(keys: Rows, log: Positions)
    requires Mirrored(keys, log)
    ensures Distinct(IdSeq(keys))
    ensures forall id :: id in log <==> id in IdSeq(keys)
  {
    var q, ids := KeySeq(keys), IdSeq(keys);
    forall i, j | 0 <= i < j < |ids| ensures ids[i] != ids[j] {
      Irreflexive(q[i]);
      assert log[ids[i]] == q[i] && log[ids[j]] == q[j];
    }
    forall id ensures id in log <==> id in IdSeq(keys) {
      ListedKey(keys, id);
    }
  }

  /** A fresh key lands behind all the others. */
  lemma AppendsLast(keys: Rows, k: string, id: Segment)
    requires forall x :: x in keys ==> Less(x, k)
    ensures k !in keys && IdSeq(keys[k := id]) == IdSeq(keys) + [id]
  {
    var n := |keys|;
    assert n > 0 ==> KeySeq(keys)[n - 1] in KeySeq(keys);
    InsertRow(keys, n, k, id);
    assert InsertAt(IdSeq(keys), n, id) == IdSeq(keys) + [id];
  }

  // ---------------------------------------------------------------------------
  // Deleting an id whose reverse row may be missing or stale
  // ---------------------------------------------------------------------------

  /** The first log row that names `id`. */
  function FirstKeyOf(keys: Rows, id: Segment): (k: Option<string>)
    ensures k.None? <==> id !in IdSeq(keys)
    ensures k.Some? ==> k.value in keys && keys[k.value] == id
  {
    ListedKey(keys, id);
    if id in IdSeq(keys) then Some(KeySeq(keys)[IndexOf(IdSeq(keys), id)]) else None
  }

  /** The log row a delete of `id` drops: the one its reverse row names, if that still names `id`. */
  function LogKeyOf(keys: Rows, log: Positions, id: Segment): (k: Option<string>)
    ensures k.None? <==> id !in IdSeq(keys)
    ensures k.Some? ==> k.value in keys && keys[k.value] == id
  {
    ListedKey(keys, id);
    if id in log && log[id] in keys && keys[log[id]] == id then Some(log[id]) else FirstKeyOf(keys, id)
  }

  /** What a delete of `id` leaves of the log and its reverse index. */
  function Unlogged(keys: Rows, log: Positions, id: Segment): (Rows, Positions) {
    var k := LogKeyOf(keys, log, id);
    if k.Some? then (keys - {k.value}, log - {id}) else (keys, log)
  }

  /** The row at `k` is the first that names `id`. */
  ghost predicate NamesFirst(keys: Rows, id: Segment, k: string) {
    k in keys && keys[k] == id && forall x :: x in keys && keys[x] == id ==> !Less(x, k)
  }

  /** A reverse row is trusted if the row it names still names the id; else the first row naming it goes, if any. */
  ghost predicate LogDropped(keys: Rows, log: Positions, id: Segment, keys1: Rows, log1: Positions) {
    if id in log && log[id] in keys && keys[log[id]] == id then keys1 == keys - {log[id]} && log1 == log - {id}
    else if exists k :: k in keys && keys[k] == id then
      log1 == log - {id} && exists k :: NamesFirst(keys, id, k) && keys1 == keys - {k}
    else keys1 == keys && log1 == log
  }

  lemma {:induction false} IndexIsFirst(ids: seq<Segment>, id: Segment, j: nat)
    requires id in ids && j < IndexOf(ids, id)
    ensures ids[j] != id
  {
    if j > 0 {
      IndexIsFirst(ids[1..], id, j - 1);
    }
  }

  lemma UnloggedDrops(keys: Rows, log: Positions, id: Segment)
    ensures LogDropped(keys, log, id, Unlogged(keys, log, id).0, Unlogged(keys, log, id).1)
  {
    ListedKey(keys, id);
    if id in IdSeq(keys) && !(id in log && log[id] in keys && keys[log[id]] == id) {
      FirstKeyIsFirst(keys, id);
      assert NamesFirst(keys, id, FirstKeyOf(keys, id).value);
    }
  }

  lemma FirstKeyIsFirst(keys: Rows, id: Segment)
    requires id in IdSeq(keys)
    ensures FirstKeyOf(keys, id).Some? && NamesFirst(keys, id, FirstKeyOf(keys, id).value)
  {
    var q, ids := KeySeq(keys), IdSeq(keys);
    var n := IndexOf(ids, id);
    forall x | x in keys && keys[x] == id ensures !Less(x, q[n]) {
      assert x in q;
      var i :| 0 <= i < |q| && q[i] == x;
      if i < n {
        IndexIsFirst(ids, id, i);
      } else if i == n {
        Irreflexive(x);
      } else {
        Asymmetric(q[n], x);
      }
    }
  }

  /**
     Whatever the reverse index holds, a log that names an id once no longer names it, and every
     other id stays in its place.
   */
  lemma DeleteForgets(keys: Rows, log: Positions, id: Segment)
    requires Distinct(IdSeq(keys))
    ensures IdSeq(Unlogged(keys, log, id).0) == if id in IdSeq(keys) then Without(IdSeq(keys), id) else IdSeq(keys)
  {
    if id in IdSeq(keys) {
      var k := LogKeyOf(keys, log, id).value;
      assert k in KeySeq(keys);
      var i :| 0 <= i < |keys| && KeySeq(keys)[i] == k;
      IndexUnique(IdSeq(keys), i);
      DeleteRow(keys, i);
    }
  }

  lemma FirstIndex(ids: seq<Segment>, id: Segment, i: nat)
    requires i < |ids| && ids[i] == id && forall j :: 0 <= j < i ==> ids[j] != id
    ensures IndexOf(ids, id) == i
  {
    if i > 0 {
      FirstIndex(ids[1..], id, i - 1);
    }
  }

  lemma UnloggedWithin(keys: Rows, log: Positions, id: Segment)
    ensures forall k :: k in Unlogged(keys, log, id).0 ==> k in keys
  {
  }

  /** On a log that agrees with its data, a delete is a delete from the ordered dict. */
  lemma DeleteRefines<V>(s: Ordered<V>, keys: Rows, log: Positions, id: Segment)
    requires s.ids == IdSeq(keys)
    ensures Logged(s.values, keys, log) ==>
              && (id in s.values <==> id in s.ids)
              && (id in s.ids ==>
                    var (keys1, log1) := Unlogged(keys, log, id);
                    && Logged(s.values - {id}, keys1, log1)
                    && (Ordered(s.created, IdSeq(keys1), s.values - {id}), Done) == Remove(s, id))
  {
    hide Mirrored, IdSeq, Unlogged, Distinct, Without;
    if Logged(s.values, keys, log) {
      MirroredLists(keys, log);
      assert id in s.values <==> id in s.ids;
      if id in s.ids {
        DeleteForgets(keys, log, id);
        DropsMirrored(keys, log, id);
      }
    }
  }

  /** Setting a value: the reverse index tells a new id from one the log already lists. */
  lemma SetRefines<V>(s: Ordered<V>, keys: Rows, log: Positions, id: Segment, value: V)
    requires s.ids == IdSeq(keys)
    ensures Logged(s.values, keys, log) ==>
              && (id in s.values <==> id in s.ids)
              && (id in s.values ==> Logged(s.values[id := value], keys, log))
              && (id !in s.values ==> forall k :: k !in keys ==>
                Logged(s.values[id := value], keys[k := id], log[id := k]))
  {
    hide IdSeq, Distinct, Mirrored;
    if Logged(s.values, keys, log) {
      MirroredLists(keys, log);
      assert id in s.values ==> s.values[id := value].Keys == s.values.Keys;
      forall k | k !in keys && id !in log ensures Mirrored(keys[k := id], log[id := k]) {
        MirrorsOneMore(keys, log, id, k);
      }
    }
  }

  lemma DropsMirrored(keys: Rows, log: Positions, id: Segment)
    requires Mirrored(keys, log) && id in log
    ensures Unlogged(keys, log, id) == (keys - {log[id]}, log - {id})
    ensures Mirrored(keys - {log[id]}, log - {id})
  {
  }

  // ---------------------------------------------------------------------------
  // Reading on from a cursor
  // ---------------------------------------------------------------------------

  /** The rows of the log from place `i` on. */
  function RowsFrom(keys: Rows, i: nat): (rows: seq<Row>)
    requires i <= |keys|
    ensures |rows| == |keys| - i && forall j :: 0 <= j < |rows| ==> rows[j] == RowAt(keys, i + j)
  {
    seq(|keys| - i, j requires 0 <= j < |keys| - i => RowAt(keys, i + j))
  }

  /** The first place strictly past a cursor, which need not be the key of a row. */
  function PlaceAfter(keys: Rows, cursor: Option<string>): (i: nat)
    ensures i <= |keys|
  {
    if cursor.None? then 0 else CountUpTo(KeySeq(keys), cursor.value)
  }

  function RowsAfter(keys: Rows, cursor: Option<string>): seq<Row> {
    RowsFrom(keys, PlaceAfter(keys, cursor))
  }

  lemma ScansFrom(keys: Rows, cursor: string)
    ensures StorageScan(keys, Some(cursor), false) == RowsFrom(keys, CountBelow(KeySeq(keys), cursor))
  {
    var q := KeySeq(keys);
    SliceRows(keys, CountBelow(q, cursor), |q|);
    hide Ascending, Less;
    assert q[CountBelow(q, cursor)..|q|] == q[CountBelow(q, cursor)..];
  }

  /** A scan that starts at the cursor's row and skips it reads on strictly past the cursor. */
  lemma SkipsCursor(keys: Rows, cursor: string)
    ensures Kept(StorageScan(keys, Some(cursor), false), [cursor]) == RowsAfter(keys, Some(cursor))
  {
    hide StorageScan, Kept, KeySeq, CountBelow, CountUpTo, RowsFrom, RowAt, DistinctKeys, Less;
    var q := KeySeq(keys);
    ScansFrom(keys, cursor);
    ScanDistinct(keys, Some(cursor), false);
    if cursor in q {
      var i :| 0 <= i < |q| && q[i] == cursor;
      CountsAt(q, i);
      SkipsFirst(keys, i);
    } else {
      SameCounts(q, cursor);
      SkipsNone(keys, CountBelow(q, cursor), cursor);
    }
  }

  lemma SkipsFirst(keys: Rows, i: nat)
    requires i < |keys| && DistinctKeys(RowsFrom(keys, i))
    ensures Kept(RowsFrom(keys, i), [KeySeq(keys)[i]]) == RowsFrom(keys, i + 1)
  {
    hide Kept, KeySeq, IdSeq, DistinctKeys;
    var rows := RowsFrom(keys, i);
    KeptAfterFirst(rows);
    assert rows[1..] == RowsFrom(keys, i + 1);
  }

  lemma SkipsNone(keys: Rows, i: nat, cursor: string)
    requires i <= |keys| && cursor !in KeySeq(keys)
    ensures Kept(RowsFrom(keys, i), [cursor]) == RowsFrom(keys, i)
  {
    hide Kept, IdSeq;
    var rows := RowsFrom(keys, i);
    forall j | 0 <= j < |rows| ensures rows[j].okey != cursor {
      assert KeySeq(keys)[i + j] in KeySeq(keys);
    }
    KeptUntouched(rows, cursor);
  }

  lemma SameCounts(q: seq<string>, k: string)
    requires k !in q
    ensures CountBelow(q, k) == CountUpTo(q, k)
  {
    if q != [] {
      assert q[0] in q && forall x :: x in q[1..] ==> x in q;
      SameCounts(q[1..], k);
    }
  }

  /** One page of the log past a cursor. */
  method Page(keys: Rows, cursor: Option<string>, limit: Option<nat>) returns (rows: seq<Row>)
    requires limit != Some(0)
    ensures rows == Taken(RowsAfter(keys, cursor), limit)
  {
    if cursor.Some? {
      SkipsCursor(keys, cursor.value);
      rows := ScanOrder(keys, cursor, false, limit, [cursor.value]);
    } else {
      KeptAll(StorageScan(keys, None, false));
      rows := ScanOrder(keys, None, false, limit, []);
    }
  }

  /** The page read from a cursor, followed by what lies past its last row, is all past the cursor. */
  lemma PageThenRest(keys: Rows, cursor: Option<string>, limit: nat)
    requires limit > 0 && RowsAfter(keys, cursor) != []
    ensures var page := Taken(RowsAfter(keys, cursor), Some(limit));
            && page != []
            && RowsAfter(keys, cursor) == page + RowsAfter(keys, Some(page[|page| - 1].okey))
            && |RowsAfter(keys, Some(page[|page| - 1].okey))| < |RowsAfter(keys, cursor)|
  {
    hide KeySeq, IdSeq, RowAt, PlaceAfter, RowsFrom;
    var all, i := RowsAfter(keys, cursor), PlaceAfter(keys, cursor);
    var page := Taken(all, Some(limit));
    assert page == all[..|page|];
    LastPlace(keys, i + |page| - 1);
    RowsSplit(keys, i, |page|);
  }

  lemma LastPlace(keys: Rows, i: nat)
    requires i < |keys|
    ensures PlaceAfter(keys, Some(RowAt(keys, i).okey)) == i + 1
  {
    CountsAt(KeySeq(keys), i);
  }

  lemma RowsSplit(keys: Rows, i: nat, n: nat)
    requires i + n <= |keys|
    ensures RowsFrom(keys, i) == RowsFrom(keys, i)[..n] + RowsFrom(keys, i + n)
  {
    hide *;
  }

  /** Page after page, each from the last key of the one before, until a page comes back empty. */
  ghost function Pages(keys: Rows, cursor: Option<string>, limit: nat): seq<Row>
    requires limit > 0
    decreases |RowsAfter(keys, cursor)|
  {
    var page := Taken(RowsAfter(keys, cursor), Some(limit));
    if page == [] then []
    else
      PageThenRest(keys, cursor, limit);
      page + Pages(keys, Some(page[|page| - 1].okey), limit)
  }

  /** Paging through the log reads every row once, in order, whatever the page size. */
  lemma {:induction false} PagesCover(keys: Rows, cursor: Option<string>, limit: nat)
    requires limit > 0
    ensures Pages(keys, cursor, limit) == RowsAfter(keys, cursor)
    decreases |RowsAfter(keys, cursor)|
  {
    hide RowsAfter;
    if RowsAfter(keys, cursor) != [] {
      PageThenRest(keys, cursor, limit);
      var page := Taken(RowsAfter(keys, cursor), Some(limit));
      PagesCover(keys, Some(page[|page| - 1].okey), limit);
    }
  }

  // ---------------------------------------------------------------------------
  // Repair
  // ---------------------------------------------------------------------------

  /** The record of first entries mirrors the rows the first pass leaves. */
  lemma FirstPassMirrors(keys: Rows, rows: seq<Row>, present: set<Segment>, seen: Positions)
    requires AllRows(keys, rows) && Records(seen, FirstRows(rows, present))
    ensures var left := Dropped(keys, Lost(rows, present));
            && Mirrored(left, seen) && IdSeq(left) == FirstEntries(IdSeq(keys), present)
            && seen.Keys == Elements(FirstEntries(IdSeq(keys), present))
  {
    var kept, left := FirstRows(rows, present), Dropped(keys, Lost(rows, present));
    hide *;
    KeptScans(keys, rows, present);
    RecordsMirrored(left, kept, seen);
    RecordedKeys(keys, rows, kept, seen);
  }

  lemma RecordedKeys(keys: Rows, rows: seq<Row>, kept: seq<Row>, seen: Positions)
    requires AllRows(keys, rows) && Records(seen, kept)
    ensures Ids(rows) == IdSeq(keys) && seen.Keys == Elements(Ids(kept))
  {
  }

  lemma KeptScans(keys: Rows, rows: seq<Row>, present: set<Segment>)
    requires AllRows(keys, rows)
    ensures var kept, left := FirstRows(rows, present), Dropped(keys, Lost(rows, present));
            KeySeq(left) == Okeys(kept) && IdSeq(left) == Ids(kept)
  {
    var kept, left := FirstRows(rows, present), Dropped(keys, Lost(rows, present));
    RowsPart(rows, present);
    SortedUnique(Okeys(kept), KeySeq(left));
    KeptNames(keys, rows, present);
    NamesScan(left, Ids(kept));
  }

  lemma RecordsMirrored(left: Rows, kept: seq<Row>, seen: Positions)
    requires Records(seen, kept) && KeySeq(left) == Okeys(kept) && IdSeq(left) == Ids(kept)
    ensures Mirrored(left, seen)
  {
    forall k | k in left ensures left[k] in seen && seen[left[k]] == k {
      assert k in KeySeq(left);
      var i :| 0 <= i < |kept| && KeySeq(left)[i] == k;
      assert Okeys(kept)[i] == kept[i].okey && IdSeq(left)[i] == Ids(kept)[i];
    }
    forall id | id in seen ensures seen[id] in left && left[seen[id]] == id {
      var i :| 0 <= i < |kept| && Ids(kept)[i] == id;
      assert Okeys(kept)[i] == kept[i].okey && KeySeq(left)[i] in left;
    }
  }

  /** Where the second pass stands: reverse rows outside `todo` are settled. */
  ghost predicate Settling(log0: Positions, log: Positions, seen: Positions, todo: set<Segment>,
                           indexed: set<Segment>) {
    && (forall id :: id in todo ==> id in log0 && id in log && log[id] == log0[id])
    && (forall id :: id !in todo ==> (id in log <==> id in log0 && id in seen))
    && (forall id :: id in log && id !in todo ==> log[id] == seen[id])
    && (forall id :: id in indexed <==> id in log0 && id in seen && id !in todo)
  }

  /** Where the last pass stands after the first `i` keys of the listing. */
  ghost predicate Relogging(keys0: Rows, log0: Positions, keys: Rows, log: Positions,
                            listing: seq<Segment>, i: nat, supply: seq<string>) {
    && i <= |listing|
    && Mirrored(keys, log)
    && IdSeq(keys) == IdSeq(keys0) + Unrecorded(listing[..i], log0.Keys)
    && log.Keys == log0.Keys + Elements(listing[..i])
    && (Unrecorded(listing[..i], log0.Keys) == [] ==> keys == keys0 && log == log0)
    && RowsFromEither(keys0, keys, supply)
  }

  /** Every row is one of `keys0`, or stands at a key drawn for it. */
  ghost predicate RowsFromEither(keys0: Rows, keys: Rows, supply: seq<string>) {
    forall k :: k in keys ==> (k in keys0 && keys[k] == keys0[k]) || k in supply
  }

  lemma ReloggingStart(keys: Rows, log: Positions, listing: seq<Segment>, supply: seq<string>)
    requires Mirrored(keys, log)
    ensures Relogging(keys, log, keys, log, listing, 0, supply)
  {
    hide Mirrored;
    assert listing[..0] == [] && IdSeq(keys) + [] == IdSeq(keys);
    assert log.Keys == log.Keys + Elements(listing[..0]);
  }

  /** One more key of the listing: already logged, or logged now. */
  lemma ReloggingMore(keys0: Rows, log0: Positions, keys: Rows, log: Positions,
                      listing: seq<Segment>, i: nat, supply: seq<string>)
    requires i < |listing| && i < |supply| && NoRepeats(listing)
    requires Relogging(keys0, log0, keys, log, listing, i, supply)
    requires forall x :: x in keys ==> Less(x, supply[i])
    ensures if listing[i] in log0 then Relogging(keys0, log0, keys, log, listing, i + 1, supply)
            else Relogging(keys0, log0, keys[supply[i] := listing[i]], log[listing[i] := supply[i]], listing, i + 1,
                supply)
  {
    UnrecordedMore(listing, i, log0.Keys, IdSeq(keys0));
    if listing[i] in log0 {
      hide IdSeq, Unrecorded, Elements, Mirrored, RowsFromEither;
      assert log0.Keys + Elements(listing[..i + 1]) == log0.Keys + Elements(listing[..i]);
    } else {
      ReloggingPut(keys0, log0, keys, log, listing, i, supply);
    }
  }

  lemma ReloggingPut(keys0: Rows, log0: Positions, keys: Rows, log: Positions,
                     listing: seq<Segment>, i: nat, supply: seq<string>)
    requires i < |listing| && i < |supply| && NoRepeats(listing)
    requires Relogging(keys0, log0, keys, log, listing, i, supply)
    requires forall x :: x in keys ==> Less(x, supply[i])
    requires listing[i] !in log0
    requires var un, more := Unrecorded(listing[..i], log0.Keys), Unrecorded(listing[..i + 1], log0.Keys);
             more != [] && (IdSeq(keys0) + un) + [listing[i]] == IdSeq(keys0) + more
    requires forall x :: x in Elements(listing[..i + 1]) <==> x in Elements(listing[..i]) || x == listing[i]
    ensures Relogging(keys0, log0, keys[supply[i] := listing[i]], log[listing[i] := supply[i]], listing, i + 1, supply)
  {
    hide Mirrored, IdSeq, Unrecorded, Elements, RowsFromEither, Less, NoRepeats;
    var id, k := listing[i], supply[i];
    NotAmong(listing, i);
    AppendsLast(keys, k, id);
    MirrorsOneMore(keys, log, id, k);
    EitherOneMore(keys0, keys, supply, i, id);
    OneMoreKey(log0.Keys, log, id, k, Elements(listing[..i]), Elements(listing[..i + 1]));
  }

  lemma OneMoreKey(recorded: set<Segment>, log: Positions, id: Segment, k: string, some: set<Segment>,
                   more: set<Segment>)
    requires log.Keys == recorded + some && forall x :: x in more <==> x in some || x == id
    ensures log[id := k].Keys == recorded + more
  {
  }

  lemma EitherOneMore(keys0: Rows, keys: Rows, supply: seq<string>, i: nat, id: Segment)
    requires i < |supply| && RowsFromEither(keys0, keys, supply)
    ensures RowsFromEither(keys0, keys[supply[i] := id], supply)
  {
  }

  lemma MirrorsOneMore(keys: Rows, log: Positions, id: Segment, k: string)
    requires k !in keys
    ensures Mirrored(keys, log) && id !in log ==> Mirrored(keys[k := id], log[id := k])
  {
  }

  lemma NotAmong(listing: seq<Segment>, i: nat)
    requires i < |listing| && NoRepeats(listing)
    ensures listing[i] !in Elements(listing[..i])
  {
  }

  lemma NothingRelogged(listing: seq<Segment>, recorded: set<Segment>)
    requires forall id :: id in listing ==> id in recorded
    ensures Unrecorded(listing, recorded) == []
  {
    NoneUnrecorded(listing, recorded);
  }

  lemma FreshNext(keys: Rows, supply: seq<string>, i: nat)
    requires i < |supply| && Fresh(keys, supply, i)
    ensures forall k :: k in keys ==> Less(k, supply[i])
  {
  }

  lemma MirrorUnique(keys: Rows, p: Positions, q: Positions)
    requires Mirrored(keys, p) && Mirrored(keys, q)
    ensures p == q
  {
  }

  lemma FreshAfter(before: Rows, after: Rows, supply: seq<string>, i: nat)
    requires i < |supply| && Fresh(before, supply, i)
    requires forall k :: k in after ==> k in before || k == supply[i]
    ensures Fresh(after, supply, i + 1)
  {
    hide Less;
  }

  lemma FreshWithin(before: Rows, after: Rows, supply: seq<string>)
    requires Fresh(before, supply, 0) && forall k :: k in after ==> k in before
    ensures Fresh(after, supply, 0)
  {
    hide Less, Ascending;
  }

  lemma MirroredEmpty()
    ensures Mirrored(map[], map[]) && IdSeq(map[]) == []
  {
  }

  lemma DropsOnly(keys: Rows, w: seq<string>)
    ensures forall k :: k in Dropped(keys, w) ==> k in keys && Dropped(keys, w)[k] == keys[k]
  {
  }

  lemma LoggedIsCurrent<V>(data: map<Segment, V>, keys: Rows, log: Positions)
    requires Logged(data, keys, log)
    ensures AllCurrent(keys, data.Keys)
  {
    MirroredLists(keys, log);
  }

  lemma EitherWithin(keys0: Rows, keys1: Rows, keys: Rows, supply: seq<string>)
    requires RowsFromEither(keys1, keys, supply) && forall k :: k in keys1 ==> k in keys0 && keys1[k] == keys0[k]
    ensures RowsFromEither(keys0, keys, supply)
  {
  }

  lemma RelogsAll<V>(recorded: set<Segment>, ids: seq<Segment>, listing: seq<Segment>, data: map<Segment, V>)
    requires recorded == Elements(FirstEntries(ids, data.Keys)) && forall id :: id in listing <==> id in data
    ensures listing[..|listing|] == listing && recorded + Elements(listing) == data.Keys
  {
    hide FirstEntries;
  }

  /** What a rebuild comes to. */
  lemma RebuildMeans<V>(keys0: Rows, log0: Positions, keys1: Rows, seen: Positions, keys: Rows, log: Positions,
                        listing: seq<Segment>, data: map<Segment, V>, supply: seq<string>)
    requires forall id :: id in listing <==> id in data
    requires Mirrored(keys1, seen) && IdSeq(keys1) == FirstEntries(IdSeq(keys0), data.Keys)
    requires seen.Keys == Elements(FirstEntries(IdSeq(keys0), data.Keys))
    requires AllCurrent(keys0, data.Keys) ==> keys1 == keys0
    requires Relogging(keys1, seen, keys, log, listing, |listing|, supply)
    requires forall k :: k in keys1 ==> k in keys0 && keys1[k] == keys0[k]
    ensures Logged(data, keys, log)
    ensures IdSeq(keys) == FirstEntries(IdSeq(keys0), data.Keys) + Unrecorded(listing, seen.Keys)
    ensures RowsFromEither(keys0, keys, supply)
    ensures Logged(data, keys0, log0) ==> keys == keys0 && log == log0
  {
    hide Mirrored, IdSeq, Unrecorded, Elements, RowsFromEither, FirstEntries, AllCurrent, NoRepeats;
    RelogsAll(seen.Keys, IdSeq(keys0), listing, data);
    EitherWithin(keys0, keys1, keys, supply);
    if Logged(data, keys0, log0) {
      LoggedIsCurrent(data, keys0, log0);
      MirrorUnique(keys0, log0, seen);
      NothingRelogged(listing, seen.Keys);
    }
  }

  // ---------------------------------------------------------------------------
  // The view
  // ---------------------------------------------------------------------------

  class View<V> {
    var created: bool
    var data: map<Segment, V>
    var keys: Rows
    var log: Positions

    ghost predicate Valid()
      reads this
    {
      Logged(data, keys, log) && (!created ==> data == map[])
    }

    /** An insertion-ordered dict. */
    ghost function Abstract(): Ordered<V>
      reads this
    {
      Ordered(created, IdSeq(keys), data)
    }

    lemma ValidIsWellFormed()
      requires Valid()
      ensures WellFormed(Abstract())
    {
      MirroredLists(keys, log);
    }

    constructor ()
      ensures Valid() && Abstract() == Ordered(false, [], map[])
    {
      created, data, keys, log := false, map[], map[], map[];
    }

    /** One log put and one reverse put. */
    method AppendLogKey(id: Segment, logKey: string)
      requires forall k :: k in keys ==> Less(k, logKey)
      modifies `keys, `log
      ensures logKey !in old(keys) && keys == old(keys)[logKey := id] && log == old(log)[id := logKey]
      ensures IdSeq(keys) == old(IdSeq(keys)) + [id]
    {
      AppendsLast(keys, logKey, id);
      keys := keys[logKey := id];
      log := log[id := logKey];
    }

    method SetItem(id: Segment, value: V, logKey: string)
      requires Valid() && forall k :: k in keys ==> Less(k, logKey)
      modifies this
      ensures Valid() && Abstract() == SetTo(old(Abstract()), id, value).0
      ensures id in data && data[id] == value && OthersKept(old(data), data, id) && created
      ensures IdSeq(keys) == if id in old(IdSeq(keys)) then old(IdSeq(keys)) else old(IdSeq(keys)) + [id]
      ensures keys == if id in old(data) then old(keys) else old(keys)[logKey := id]
    {
      hide Logged, IdSeq, Less;
      SetRefines(Abstract(), keys, log, id, value);
      created := true;
      var isNew := id !in data;
      data := data[id := value];
      if isNew {
        AppendLogKey(id, logKey);
      }
    }

    /** The log scan a delete falls back to. */
    method FirstRowNaming(id: Segment) returns (k: Option<string>)
      ensures k == FirstKeyOf(keys, id)
    {
      hide Ascending, StorageScan, Kept, IndexOf;
      var rows := ScanOrder(keys, None, false, None, []);
      ScansAll(keys, rows);
      for i := 0 to |rows|
        invariant forall j :: 0 <= j < i ==> IdSeq(keys)[j] != id
      {
        if rows[i].id == id {
          FirstIndex(IdSeq(keys), id, i);
          return Some(rows[i].okey);
        }
      }
      return None;
    }

    /**
     Drop an id's log row and its reverse row. The reverse row is trusted only if the log row it names
     still names the id; otherwise the log is scanned.
     */
    method DropLogRow(id: Segment)
      modifies `keys, `log
      ensures (keys, log) == Unlogged(old(keys), old(log), id)
    {
      hide IdSeq, FirstKeyOf;
      ghost var keys0, log0 := keys, log;
      var logKey: Option<string> := None;
      if id in log {
        if log[id] in keys && keys[log[id]] == id {
          logKey := Some(log[id]);
        }
      }
      if logKey.None? {
        logKey := FirstRowNaming(id);
      }
      assert logKey == LogKeyOf(keys0, log0, id);
      if logKey.Some? {
        keys := keys - {logKey.value};
        log := log - {id};
      }
    }

    /** Delete an id: its value, and its log row with the reverse row. */
    method Delete(id: Segment) returns (out: Outcome)
      modifies this
      ensures created == old(created)
      ensures if id !in old(data) then out == Raised(KeyError) && data == old(data) && keys == old(keys)
            && log == old(log)
              else out == Done && data == old(data) - {id} && (keys, log) == Unlogged(old(keys), old(log), id)
      ensures id in old(data) ==> LogDropped(old(keys), old(log), id, keys, log)
      ensures old(Valid()) ==> Valid() && (Abstract(), out) == Remove(old(Abstract()), id)
    {
      hide Logged, IdSeq, Without, LogDropped, Unlogged;
      UnloggedDrops(keys, log, id);
      DeleteRefines(Ordered(created, IdSeq(keys), data), keys, log, id);
      if id !in data {
        return Raised(KeyError);
      }
      data := data - {id};
      DropLogRow(id);
      return Done;
    }

    method Clear()
      modifies this
      ensures created == old(created)
      ensures if old(created) then data == map[] && keys == map[] && log == map[]
              else data == old(data) && keys == old(keys) && log == old(log)
      ensures old(Valid()) ==> Valid() && Abstract() == Apply(old(Abstract()), Op.Clear).0
    {
      if created {
        data, keys, log := map[], map[], map[];
      }
      MirroredEmpty();
    }

    method Perform(op: Op<V>, logKey: string) returns (out: Outcome)
      requires op.Set? || op.Delete? || op.Clear?
      requires Valid() && forall k :: k in keys ==> Less(k, logKey)
      modifies this
      ensures Valid() && (Abstract(), out) == Apply(old(Abstract()), op)
      ensures forall k :: k in keys ==> k in old(keys) || k == logKey
    {
      hide Logged, IdSeq, Unlogged, Remove, Less;
      out := Done;
      match op
      case Set(id, value) => SetItem(id, value, logKey);
      case Delete(id) =>
        out := Delete(id);
        UnloggedWithin(old(keys), old(log), id);
      case Clear => Clear();
    }

    /** Over any run, under any fresh log keys, the view is an insertion-ordered dict. */
    method Run(ops: seq<Op<V>>, supply: seq<string>) returns (outs: seq<Outcome>)
      requires forall i :: 0 <= i < |ops| ==> ops[i].Set? || ops[i].Delete? || ops[i].Clear?
      requires Valid() && |ops| <= |supply| && Fresh(keys, supply, 0)
      modifies this
      ensures Valid() && (Abstract(), outs) == ApplyAll(old(Abstract()), ops)
      ensures Remembers(old(data), ops, outs, data)
    {
      hide Remembers, WellFormed, Apply;
      ghost var start := Abstract();
      ValidIsWellFormed();
      outs := [];
      for n := 0 to |ops|
        invariant Valid() && (Abstract(), outs) == ApplyAll(start, ops[..n])
        invariant Fresh(keys, supply, n)
      {
        assert ops[..n + 1][..n] == ops[..n];
        FreshNext(keys, supply, n);
        ghost var keys0 := keys;
        var out := Perform(ops[n], supply[n]);
        FreshAfter(keys0, keys, supply, n);
        outs := outs + [out];
      }
      assert ops[..|ops|] == ops;
      RunRemembers(start, ops);
    }

    // -------------------------------------------------------------------------
    // Repair
    // -------------------------------------------------------------------------

    /** Keep the first log row of every id that holds data, drop the others. */
    method KeepFirstRows(present: set<Segment>) returns (seen: Positions)
      modifies `keys
      ensures Mirrored(keys, seen) && IdSeq(keys) == FirstEntries(old(IdSeq(keys)), present)
      ensures seen.Keys == Elements(FirstEntries(old(IdSeq(keys)), present))
      ensures forall k :: k in keys ==> k in old(keys) && keys[k] == old(keys)[k]
      ensures AllCurrent(old(keys), present) ==> keys == old(keys)
    {
      hide *;
      var rows := ScanOrder(keys, None, false, None, []);
      ScansRows(keys, rows);
      seen := map[];
      RecordsNothing(keys, rows, present);
      for i := 0 to |rows|
        invariant Records(seen, FirstRows(rows[..i], present))
        invariant keys == Dropped(old(keys), Lost(rows[..i], present))
      {
        PassStep(rows, i, present, seen);
        DropOneMore(old(keys), Lost(rows[..i], present), rows[i].okey);
        if rows[i].id in present && rows[i].id !in seen {
          seen := seen[rows[i].id := rows[i].okey];
        } else {
          keys := keys - {rows[i].okey};
        }
      }
      assert rows[..|rows|] == rows;
      FirstPassMirrors(old(keys), rows, present, seen);
      NothingDropped(old(keys), rows, present);
      DropsOnly(old(keys), Lost(rows, present));
    }

    /** Realign the reverse rows with the log rows kept, and put the missing ones. */
    method Realign(seen: Positions)
      modifies `log
      ensures log == seen
    {
      var todo := log.Keys;
      var indexed: set<Segment> := {};
      while todo != {}
        invariant Settling(old(log), log, seen, todo, indexed)
        decreases todo
      {
        var id :| id in todo;
        if id !in seen {
          log := log - {id};
        } else {
          indexed := indexed + {id};
          if log[id] != seen[id] {
            log := log[id := seen[id]];
          }
        }
        todo := todo - {id};
      }
      todo := seen.Keys;
      while todo != {}
        invariant todo <= seen.Keys
        invariant forall id :: id in indexed ==> id in log && id in seen && log[id] == seen[id]
        invariant forall id :: id in seen && id !in todo ==> id in log && log[id] == seen[id]
        invariant forall id :: id in log ==> id in seen
        decreases todo
      {
        var id :| id in todo;
        if id !in indexed {
          log := log[id := seen[id]];
        }
        todo := todo - {id};
      }
    }

    /** Log the ids the index never recorded, in listing order. */
    method AppendUnrecorded(listing: seq<Segment>, seen: Positions, supply: seq<string>)
      requires NoRepeats(listing) && |listing| <= |supply| && Fresh(keys, supply, 0)
      requires Mirrored(keys, log) && seen == log
      modifies `keys, `log
      ensures Relogging(old(keys), old(log), keys, log, listing, |listing|, supply)
    {
      hide *;
      ReloggingStart(keys, log, listing, supply);
      for i := 0 to |listing|
        invariant Relogging(old(keys), old(log), keys, log, listing, i, supply)
        invariant Fresh(keys, supply, i)
      {
        FreshNext(keys, supply, i);
        ReloggingMore(old(keys), old(log), keys, log, listing, i, supply);
        ghost var keys1 := keys;
        if listing[i] !in seen {
          AppendLogKey(listing[i], supply[i]);
        }
        FreshAfter(keys1, keys, supply, i);
      }
    }

    /**
     Rebuild the log and its reverse index from the data, whatever their rows hold. First entries
     keep their rows and their order, ids never logged follow in listing order, and the two mirror
     each other and the data. An index that already did is left as it is.
     */
    method RebuildBookkeeping(listing: seq<Segment>, supply: seq<string>)
      requires NoRepeats(listing) && (forall id :: id in listing <==> id in data)
      requires |listing| <= |supply| && Fresh(keys, supply, 0)
      modifies `keys, `log
      ensures Logged(data, keys, log)
      ensures var kept := FirstEntries(old(IdSeq(keys)), data.Keys);
              IdSeq(keys) == kept + Unrecorded(listing, Elements(kept))
      ensures Relisted(old(IdSeq(keys)), listing, data.Keys, IdSeq(keys))
      ensures RowsFromEither(old(keys), keys, supply)
      ensures Logged(data, old(keys), old(log)) ==> keys == old(keys) && log == old(log)
    {
      hide *;
      var present := data.Keys;
      assert forall id :: id in present <==> id in listing;
      RebuildRelists(IdSeq(keys), listing, present);
      var seen := KeepFirstRows(present);
      ghost var keys1 := keys;
      FreshWithin(old(keys), keys, supply);
      Realign(seen);
      AppendUnrecorded(listing, seen, supply);
      RebuildMeans(old(keys), old(log), keys1, seen, keys, log, listing, data, supply);
    }
  }
}
