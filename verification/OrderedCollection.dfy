/**
 What the ordered collection means: a list of ids beside a map of values.
 Every operation of the fractional view is specified here on that plain pair.
 */
module OrderedCollection {
  import opened Wrappers
  import opened Segments
  import opened Sequences
  import opened SortedRows

  /** `created` is false until a first write materializes the view. */
  datatype Ordered<V> = Ordered(created: bool, ids: seq<Segment>, values: map<Segment, V>)

  /** How a value write ends; a failing one may leave a partial value behind. */
  datatype Fault<V> = NoFault | Fails(partial: Option<V>)

  datatype Op<V> =
    | Set(id: Segment, value: V)
    | Append(id: Segment, value: V, fault: Fault<V>)
    | Prepend(id: Segment, value: V, fault: Fault<V>)
    | InsertBefore(ref: Segment, id: Segment, value: V, fault: Fault<V>)
    | InsertAfter(ref: Segment, id: Segment, value: V, fault: Fault<V>)
    | MoveBefore(id: Segment, ref: Segment)
    | MoveAfter(id: Segment, ref: Segment)
    | MoveFirst(id: Segment)
    | MoveLast(id: Segment)
    | Delete(id: Segment)
    | Clear
    | Respace

  datatype Outcome = Done | Raised(error: Error)

  predicate Distinct(ids: seq<Segment>) {
    forall i, j :: 0 <= i < j < |ids| ==> ids[i] != ids[j]
  }

  /** No id twice, and exactly the listed ids have values. */
  ghost predicate WellFormed<V>(s: Ordered<V>) {
    && Distinct(s.ids)
    && (forall id :: id in s.values <==> id in s.ids)
    && (!s.created ==> s.ids == [])
  }

  function IndexOf(ids: seq<Segment>, id: Segment): (i: nat)
    requires id in ids
    ensures i < |ids| && ids[i] == id
  {
    if ids[0] == id then 0 else 1 + IndexOf(ids[1..], id)
  }

  /** The list without one id. */
  function Without(ids: seq<Segment>, id: Segment): seq<Segment>
    requires id in ids
  {
    RemoveAt(ids, IndexOf(ids, id))
  }

  function Insert<V>(s: Ordered<V>, i: nat, id: Segment, value: V, fault: Fault<V>): (Ordered<V>, Outcome)
    requires i <= |s.ids|
  {
    if id in s.ids then (s.(created := true), Raised(ValueError))
    else if fault.Fails? then (s.(created := true), Raised(WriteFailure))
    else (Ordered(true, InsertAt(s.ids, i, id), s.values[id := value]), Done)
  }

  /** Place `id`, taken out of the list, directly before (`after` 0) or after (1) `ref`. */
  function Beside(ids: seq<Segment>, id: Segment, ref: Segment, after: nat): seq<Segment>
    requires id in ids && ref in Without(ids, id) && after <= 1
  {
    var rest := Without(ids, id);
    InsertAt(rest, IndexOf(rest, ref) + after, id)
  }

  lemma OtherStays(ids: seq<Segment>, id: Segment, ref: Segment)
    requires id in ids && ref in ids && id != ref
    ensures ref in Without(ids, id)
  {
    var i, j := IndexOf(ids, id), IndexOf(ids, ref);
    assert Without(ids, id)[if j < i then j else j - 1] == ref;
  }

  function SetTo<V>(s: Ordered<V>, id: Segment, value: V): (Ordered<V>, Outcome) {
    (Ordered(true, if id in s.ids then s.ids else s.ids + [id], s.values[id := value]), Done)
  }

  function InsertBeside<V>(s: Ordered<V>, ref: Segment, after: nat, id: Segment, value: V, fault: Fault<V>)
    : (Ordered<V>, Outcome)
    requires after <= 1
  {
    if ref !in s.ids then (s, Raised(KeyError)) else Insert(s, IndexOf(s.ids, ref) + after, id, value, fault)
  }

  function MoveBeside<V>(s: Ordered<V>, id: Segment, ref: Segment, after: nat): (Ordered<V>, Outcome)
    requires after <= 1
  {
    if id !in s.ids then (s, Raised(KeyError))
    else if id == ref then (s, Done)
    else if ref !in s.ids then (s, Raised(KeyError))
    else
      OtherStays(s.ids, id, ref);
      (s.(ids := Beside(s.ids, id, ref, after)), Done)
  }

  function MoveToEnd<V>(s: Ordered<V>, id: Segment, last: bool): (Ordered<V>, Outcome) {
    if id !in s.ids then (s, Raised(KeyError))
    else (s.(ids := if last then Without(s.ids, id) + [id] else [id] + Without(s.ids, id)), Done)
  }

  function Remove<V>(s: Ordered<V>, id: Segment): (Ordered<V>, Outcome) {
    if id !in s.ids then (s, Raised(KeyError))
    else (s.(ids := Without(s.ids, id), values := s.values - {id}), Done)
  }

  function Apply<V>(s: Ordered<V>, op: Op<V>): (Ordered<V>, Outcome) {
    match op
    case Set(id, value) => SetTo(s, id, value)
    case Append(id, value, fault) => Insert(s, |s.ids|, id, value, fault)
    case Prepend(id, value, fault) => Insert(s, 0, id, value, fault)
    case InsertBefore(ref, id, value, fault) => InsertBeside(s, ref, 0, id, value, fault)
    case InsertAfter(ref, id, value, fault) => InsertBeside(s, ref, 1, id, value, fault)
    case MoveBefore(id, ref) => MoveBeside(s, id, ref, 0)
    case MoveAfter(id, ref) => MoveBeside(s, id, ref, 1)
    case MoveFirst(id) => MoveToEnd(s, id, false)
    case MoveLast(id) => MoveToEnd(s, id, true)
    case Delete(id) => Remove(s, id)
    case Clear => (if s.created then Ordered(true, [], map[]) else s, Done)
    case Respace => (s, Done)
  }

  /** A whole run: the last state, and every outcome on the way. */
  function ApplyAll<V>(s: Ordered<V>, ops: seq<Op<V>>): (Ordered<V>, seq<Outcome>)
    decreases |ops|
  {
    if ops == [] then (s, [])
    else
      var n := |ops| - 1;
      var (before, outs) := ApplyAll(s, ops[..n]);
      var (after, out) := Apply(before, ops[n]);
      (after, outs + [out])
  }

  // ---------------------------------------------------------------------------
  // Facts about the plain list
  // ---------------------------------------------------------------------------

  lemma IndexUnique(ids: seq<Segment>, i: nat)
    requires Distinct(ids) && i < |ids|
    ensures IndexOf(ids, ids[i]) == i
  {
  }

  lemma RemoveDistinct(ids: seq<Segment>, i: nat)
    requires Distinct(ids) && i < |ids|
    ensures Distinct(RemoveAt(ids, i))
    ensures forall x :: x in RemoveAt(ids, i) <==> x in ids && x != ids[i]
  {
    forall x ensures x in RemoveAt(ids, i) <==> x in ids && x != ids[i] {
      if x in ids && x != ids[i] {
        OtherStays(ids, ids[i], x);
        IndexUnique(ids, i);
      }
    }
  }

  lemma InsertDistinct(ids: seq<Segment>, i: nat, id: Segment)
    requires Distinct(ids) && i <= |ids| && id !in ids
    ensures Distinct(InsertAt(ids, i, id))
    ensures forall x :: x in InsertAt(ids, i, id) <==> x in ids || x == id
  {
    InsertMembers(ids, i, id);
  }

  lemma InsertKeeps<V>(s: Ordered<V>, i: nat, id: Segment, value: V, fault: Fault<V>)
    requires WellFormed(s) && i <= |s.ids|
    ensures WellFormed(Insert(s, i, id, value, fault).0)
  {
    if id !in s.ids {
      InsertDistinct(s.ids, i, id);
    }
  }

  lemma BesideDistinct(ids: seq<Segment>, id: Segment, ref: Segment, after: nat)
    requires Distinct(ids) && id in ids && ref in ids && id != ref && after <= 1
    ensures ref in Without(ids, id) && Distinct(Beside(ids, id, ref, after))
    ensures forall x :: x in Beside(ids, id, ref, after) <==> x in ids
  {
    OtherStays(ids, id, ref);
    RemoveDistinct(ids, IndexOf(ids, id));
    var rest := Without(ids, id);
    hide Distinct, RemoveAt, IndexOf;
    InsertDistinct(rest, IndexOf(rest, ref) + after, id);
  }

  lemma BesideKeeps<V>(s: Ordered<V>, id: Segment, ref: Segment, after: nat)
    requires WellFormed(s) && id in s.ids && ref in s.ids && id != ref && after <= 1
    ensures ref in Without(s.ids, id) && WellFormed(s.(ids := Beside(s.ids, id, ref, after)))
  {
    hide Distinct, Beside, Without, IndexOf;
    BesideDistinct(s.ids, id, ref, after);
  }

  lemma SetKeeps<V>(s: Ordered<V>, id: Segment, value: V)
    requires WellFormed(s)
    ensures WellFormed(SetTo(s, id, value).0)
  {
    if id !in s.ids {
      InsertDistinct(s.ids, |s.ids|, id);
      assert InsertAt(s.ids, |s.ids|, id) == s.ids + [id];
    }
  }

  /** Taking an id out, and putting it back at either end. */
  lemma EndsDistinct(ids: seq<Segment>, id: Segment)
    requires Distinct(ids) && id in ids
    ensures var rest := Without(ids, id);
            && Distinct(rest) && Distinct([id] + rest) && Distinct(rest + [id])
            && forall x :: x in rest <==> x in ids && x != id
  {
    var rest := Without(ids, id);
    RemoveDistinct(ids, IndexOf(ids, id));
    InsertDistinct(rest, 0, id);
    InsertDistinct(rest, |rest|, id);
    assert InsertAt(rest, 0, id) == [id] + rest && InsertAt(rest, |rest|, id) == rest + [id];
  }

  lemma EndsKeep<V>(s: Ordered<V>, id: Segment)
    requires WellFormed(s) && id in s.ids
    ensures WellFormed(s.(ids := [id] + Without(s.ids, id)))
    ensures WellFormed(s.(ids := Without(s.ids, id) + [id]))
    ensures WellFormed(s.(ids := Without(s.ids, id), values := s.values - {id}))
  {
    EndsDistinct(s.ids, id);
    hide Distinct, Without, IndexOf;
  }

  /** Every operation keeps the list and the map agreeing. */
  lemma ApplyKeepsWellFormed<V>(s: Ordered<V>, op: Op<V>)
    requires WellFormed(s)
    ensures WellFormed(Apply(s, op).0)
  {
    if op.Set? {
      SetKeeps(s, op.id, op.value);
    } else if op.Delete? || op.MoveFirst? || op.MoveLast? {
      if op.id in s.ids {
        EndsKeep(s, op.id);
      }
    } else if op.MoveBefore? || op.MoveAfter? {
      if op.id in s.ids && op.ref in s.ids && op.id != op.ref {
        BesideKeeps(s, op.id, op.ref, if op.MoveBefore? then 0 else 1);
      }
    } else if !op.Clear? && !op.Respace? {
      InsertsKeep(s, op);
    }
  }

  lemma InsertsKeep<V>(s: Ordered<V>, op: Op<V>)
    requires WellFormed(s) && (op.Append? || op.Prepend? || op.InsertBefore? || op.InsertAfter?)
    ensures WellFormed(Apply(s, op).0)
  {
    hide WellFormed, Insert;
    match op
    case Append(id, value, fault) => InsertKeeps(s, |s.ids|, id, value, fault);
    case Prepend(id, value, fault) => InsertKeeps(s, 0, id, value, fault);
    case InsertBefore(ref, id, value, fault) =>
      if ref in s.ids { InsertKeeps(s, IndexOf(s.ids, ref), id, value, fault); }
    case InsertAfter(ref, id, value, fault) =>
      if ref in s.ids { InsertKeeps(s, IndexOf(s.ids, ref) + 1, id, value, fault); }
  }

  /** A move puts the id directly beside its reference and leaves all the others as they were. */
  lemma MoveIsLocal<V>(s: Ordered<V>, id: Segment, ref: Segment)
    requires WellFormed(s) && id in s.ids && ref in s.ids && id != ref
    ensures forall after :: 0 <= after <= 1 ==>
              var moved := MoveBeside(s, id, ref, after).0;
              && moved == s.(ids := moved.ids) && StandsAt(moved.ids, id, ref, if after == 0 then -1 else 1)
              && Without(moved.ids, id) == Without(s.ids, id)
  {
    forall after: nat | after <= 1
      ensures var moved := MoveBeside(s, id, ref, after).0;
              && moved == s.(ids := moved.ids) && StandsAt(moved.ids, id, ref, if after == 0 then -1 else 1)
              && Without(moved.ids, id) == Without(s.ids, id)
    {
      BesideIsLocal(s.ids, id, ref, after);
    }
  }

  predicate StandsAt(ids: seq<Segment>, id: Segment, ref: Segment, distance: int) {
    id in ids && ref in ids && IndexOf(ids, id) == IndexOf(ids, ref) + distance
  }

  lemma BesideIsLocal(ids: seq<Segment>, id: Segment, ref: Segment, after: nat)
    requires Distinct(ids) && id in ids && ref in ids && id != ref && after <= 1
    ensures ref in Without(ids, id)
    ensures var moved := Beside(ids, id, ref, after);
            && StandsAt(moved, id, ref, if after == 0 then -1 else 1)
            && Without(moved, id) == Without(ids, id)
  {
    OtherStays(ids, id, ref);
    RemoveDistinct(ids, IndexOf(ids, id));
    InsertedBeside(Without(ids, id), IndexOf(Without(ids, id), ref), id, after);
  }

  lemma InsertedBeside(rest: seq<Segment>, i: nat, id: Segment, after: nat)
    requires Distinct(rest) && i < |rest| && id !in rest && after <= 1
    ensures var moved := InsertAt(rest, i + after, id);
            && StandsAt(moved, id, rest[i], if after == 0 then -1 else 1)
            && Without(moved, id) == rest
  {
    InsertDistinct(rest, i + after, id);
    var moved := InsertAt(rest, i + after, id);
    assert moved[i + after] == id && moved[i + 1 - after] == rest[i];
    IndexUnique(moved, i + after);
    IndexUnique(moved, i + 1 - after);
    RemoveInserted(rest, i + after, id);
  }

  lemma RemoveInserted(s: seq<Segment>, i: nat, x: Segment)
    requires i <= |s|
    ensures RemoveAt(InsertAt(s, i, x), i) == s
  {
  }

  /** An insert that fails, for whatever reason, changes neither the list nor a value. */
  lemma FailedInsertChangesNothing<V>(s: Ordered<V>, op: Op<V>)
    requires op.Append? || op.Prepend? || op.InsertBefore? || op.InsertAfter?
    ensures Apply(s, op).1.Raised? <==>
              op.id in s.ids || op.fault.Fails? || ((op.InsertBefore? || op.InsertAfter?) && op.ref !in s.ids)
    ensures Apply(s, op).1.Raised? ==> Apply(s, op).0.ids == s.ids && Apply(s, op).0.values == s.values
  {
  }
}
