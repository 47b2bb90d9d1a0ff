/**
 What a reader of an ordered dict may count on, operation by operation and over whole runs, said of the
 list and the map before and after.
 */
module OrderedLaws {
  import opened Wrappers
  import opened Segments
  import opened Sequences
  import opened OrderedCollection

  /** No value but that of `id` has changed, come or gone. */
  ghost predicate OthersKept<V>(before: map<Segment, V>, after: map<Segment, V>, id: Segment) {
    forall x :: x != id ==> (x in after <==> x in before) && (x in before ==> after[x] == before[x])
  }

  /** `after` is `before` with `id` put in at place `p`. */
  predicate PutAt(before: seq<Segment>, after: seq<Segment>, p: nat, id: Segment) {
    p <= |before| && after == before[..p] + [id] + before[p..]
  }

  /** `after` is `before` with the id at place `p` taken out. */
  predicate TakenAt(before: seq<Segment>, after: seq<Segment>, p: nat) {
    p < |before| && after == before[..p] + before[p + 1..]
  }

  /** Setting stores the value; a new id goes to the end, a known one stays where it is. */
  lemma SetLaw<V>(s: Ordered<V>, id: Segment, value: V)
    ensures var (t, out) := Apply(s, Set(id, value));
            && out == Done && t.created
            && id in t.values && t.values[id] == value && OthersKept(s.values, t.values, id)
            && (id in s.ids ==> t.ids == s.ids) && (id !in s.ids ==> t.ids == s.ids + [id])
  {
  }

  predicate IsInsert<V>(op: Op<V>) {
    op.Append? || op.Prepend? || op.InsertBefore? || op.InsertAfter?
  }

  predicate NamesRef<V>(op: Op<V>) {
    op.InsertBefore? || op.InsertAfter?
  }

  /** Which inserts are refused and how; a refused one leaves ids and values alone. */
  lemma InsertRefusals<V>(s: Ordered<V>, op: Op<V>)
    requires IsInsert(op)
    ensures var (t, out) := Apply(s, op);
            && (NamesRef(op) && op.ref !in s.ids ==> out == Raised(KeyError) && t == s)
            && (!(NamesRef(op) && op.ref !in s.ids) ==>
                  && t.created
                  && (out == Raised(ValueError) <==> op.id in s.ids)
                  && (out == Raised(WriteFailure) <==> op.id !in s.ids && op.fault.Fails?)
                  && (out == Done <==> op.id !in s.ids && op.fault.NoFault?))
            && (out != Done ==> t.ids == s.ids && t.values == s.values)
  {
  }

  /** Where an inserted id goes: the end, the front, or directly beside its reference. */
  lemma InsertPlace<V>(s: Ordered<V>, op: Op<V>) returns (p: nat)
    requires IsInsert(op) && Apply(s, op).1 == Done
    ensures var t := Apply(s, op).0;
            && PutAt(s.ids, t.ids, p, op.id)
            && (op.Append? ==> p == |s.ids|) && (op.Prepend? ==> p == 0)
            && (op.InsertBefore? ==> p < |s.ids| && s.ids[p] == op.ref)
            && (op.InsertAfter? ==> 0 < p <= |s.ids| && s.ids[p - 1] == op.ref)
            && op.id in t.values && t.values[op.id] == op.value && OthersKept(s.values, t.values, op.id)
  {
    p := match op
      case Append(_, _, _) => |s.ids|
      case Prepend(_, _, _) => 0
      case InsertBefore(ref, _, _, _) => IndexOf(s.ids, ref)
      case InsertAfter(ref, _, _, _) => IndexOf(s.ids, ref) + 1;
  }

  predicate IsMove<V>(op: Op<V>) {
    op.MoveBefore? || op.MoveAfter? || op.MoveFirst? || op.MoveLast?
  }

  predicate MovesBeside<V>(op: Op<V>) {
    op.MoveBefore? || op.MoveAfter?
  }

  /** A move is refused exactly when an id it names is missing, and changes nothing then, or beside itself. */
  lemma MoveRefusals<V>(s: Ordered<V>, op: Op<V>)
    requires IsMove(op)
    ensures var (t, out) := Apply(s, op);
            && t.created == s.created && t.values == s.values
            && out == (if op.id !in s.ids || (MovesBeside(op) && op.ref !in s.ids) then Raised(KeyError) else Done)
            && (out != Done ==> t == s)
            && (MovesBeside(op) && op.ref == op.id ==> t == s)
  {
  }

  /** The id is taken out and put back at one end or directly beside its reference; the others keep their order. */
  lemma MovePlace<V>(s: Ordered<V>, op: Op<V>) returns (rest: seq<Segment>, from: nat, to: nat)
    requires IsMove(op) && Apply(s, op).1 == Done && (MovesBeside(op) ==> op.ref != op.id)
    ensures var t := Apply(s, op).0;
            && TakenAt(s.ids, rest, from) && s.ids[from] == op.id
            && PutAt(rest, t.ids, to, op.id)
            && (op.MoveFirst? ==> to == 0) && (op.MoveLast? ==> to == |rest|)
            && (op.MoveBefore? ==> to < |rest| && rest[to] == op.ref)
            && (op.MoveAfter? ==> 0 < to <= |rest| && rest[to - 1] == op.ref)
  {
    from := IndexOf(s.ids, op.id);
    rest := Without(s.ids, op.id);
    match op
    case MoveFirst(_) => to := 0;
    case MoveLast(_) =>
      to := |rest|;
      assert rest[..to] == rest && rest[to..] == [];
    case MoveBefore(id, ref) =>
      OtherStays(s.ids, id, ref);
      to := IndexOf(rest, ref);
    case MoveAfter(id, ref) =>
      OtherStays(s.ids, id, ref);
      to := IndexOf(rest, ref) + 1;
  }

  /** Deleting takes out one id and its value; clearing takes all; respacing changes nothing. */
  lemma RemovalLaw<V>(s: Ordered<V>, op: Op<V>)
    requires op.Delete? || op.Clear? || op.Respace?
    ensures var (t, out) := Apply(s, op);
            && t.created == s.created
            && (op.Delete? && op.id !in s.ids ==> out == Raised(KeyError) && t == s)
            && (op.Delete? && op.id in s.ids ==>
                  && out == Done && op.id !in t.values && OthersKept(s.values, t.values, op.id)
                  && exists p: nat :: TakenAt(s.ids, t.ids, p) && s.ids[p] == op.id)
            && (op.Clear? ==>
                  out == Done && (s.created ==> t.ids == [] && t.values == map[]) && (!s.created ==> t == s))
            && (op.Respace? ==> out == Done && t == s)
  {
    if op.Delete? && op.id in s.ids {
      assert TakenAt(s.ids, Apply(s, op).0.ids, IndexOf(s.ids, op.id));
    }
  }

  // ---------------------------------------------------------------------------
  // Runs
  // ---------------------------------------------------------------------------

  function Lookup<V>(values: map<Segment, V>, id: Segment): Option<V> {
    if id in values then Some(values[id]) else None
  }

  predicate Writes<V>(op: Op<V>, id: Segment) {
    (op.Set? || IsInsert(op)) && op.id == id
  }

  predicate Erases<V>(op: Op<V>, id: Segment) {
    op.Clear? || (op.Delete? && op.id == id)
  }

  /** The value of the last write that reached `id`, none if it was erased since; `first` if neither happened. */
  function LastWritten<V>(ops: seq<Op<V>>, outs: seq<Outcome>, id: Segment, first: Option<V>): Option<V>
    requires |outs| == |ops|
  {
    if ops == [] then first
    else
      var n := |ops| - 1;
      if outs[n] == Done && Writes(ops[n], id) then Some(ops[n].value)
      else if outs[n] == Done && Erases(ops[n], id) then None
      else LastWritten(ops[..n], outs[..n], id, first)
  }

  lemma StepLooksUp<V>(s: Ordered<V>, op: Op<V>, id: Segment)
    requires WellFormed(s)
    ensures var (t, out) := Apply(s, op);
            Lookup(t.values, id) == if out == Done && Writes(op, id) then Some(op.value)
                                    else if out == Done && Erases(op, id) then None
                                    else Lookup(s.values, id)
  {
    hide Apply;
    if op.Set? {
      SetLaw(s, op.id, op.value);
    } else if IsInsert(op) {
      InsertRefusals(s, op);
      if Apply(s, op).1 == Done {
        var p := InsertPlace(s, op);
      }
    } else if IsMove(op) {
      MoveRefusals(s, op);
    } else {
      RemovalLaw(s, op);
    }
  }

  /** Over any run the value of every id is that of the last write that reached it. */
  lemma {:induction false} LastWriteCounts<V>(s: Ordered<V>, ops: seq<Op<V>>, id: Segment)
    requires WellFormed(s)
    ensures WellFormed(ApplyAll(s, ops).0) && |ApplyAll(s, ops).1| == |ops|
    ensures Lookup(ApplyAll(s, ops).0.values, id) == LastWritten(ops, ApplyAll(s, ops).1, id, Lookup(s.values, id))
    decreases |ops|
  {
    hide Apply, WellFormed;
    if ops != [] {
      var n := |ops| - 1;
      LastWriteCounts(s, ops[..n], id);
      var (before, outs) := ApplyAll(s, ops[..n]);
      ApplyKeepsWellFormed(before, ops[n]);
      StepLooksUp(before, ops[n], id);
      assert ApplyAll(s, ops).1[..n] == outs;
    }
  }

  /** The same for all ids at once. */
  ghost predicate Remembers<V>(first: map<Segment, V>, ops: seq<Op<V>>, outs: seq<Outcome>, last: map<Segment, V>) {
    |outs| == |ops| && forall id :: Lookup(last, id) == LastWritten(ops, outs, id, Lookup(first, id))
  }

  lemma RunRemembers<V>(s: Ordered<V>, ops: seq<Op<V>>)
    requires WellFormed(s)
    ensures Remembers(s.values, ops, ApplyAll(s, ops).1, ApplyAll(s, ops).0.values)
  {
    hide Lookup, LastWritten, ApplyAll, WellFormed;
    LastWriteCounts(s, ops, Str(""));
    forall id ensures Lookup(ApplyAll(s, ops).0.values, id)
                   == LastWritten(ops, ApplyAll(s, ops).1, id, Lookup(s.values, id)) {
      LastWriteCounts(s, ops, id);
    }
  }
}
