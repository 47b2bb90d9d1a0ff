/**
 The set view: one opaque row per member under a key derived from it, and a stored length that the
 creation hook and the deletes keep. Checked against a mathematical set.
 */
module SetView {
  import opened Wrappers
  import opened Segments
  import opened ContainerTree
  import opened ViewChain
  import opened ViewStore

  datatype Op<V> =
    | Add(value: V)
    | Remove(value: V)
    | Discard(value: V)
    | Clear
    | Store(values: seq<V>, replace: bool)

  /** The error of the first value that cannot be a member, if there is one. */
  function FirstProblem<V>(values: seq<V>, problem: V -> Option<Error>): Option<Error> {
    if values == [] then None
    else if problem(values[0]).Some? then problem(values[0])
    else FirstProblem(values[1..], problem)
  }

  /** What each operation does to a set of members. */
  function Meant<V(==)>(members: set<V>, op: Op<V>, problem: V -> Option<Error>, noKey: V -> Option<Error>)
    : (set<V>, Outcome)
  {
    match op
    case Add(v) => if problem(v).Some? then (members, Raised(problem(v).value)) else (members + {v}, Done)
    case Remove(v) =>
      if noKey(v).Some? then (members, Raised(noKey(v).value))
      else if v in members then (members - {v}, Done) else (members, Raised(KeyError))
    case Discard(v) => if noKey(v).Some? then (members, Raised(noKey(v).value)) else (members - {v}, Done)
    case Clear => ({}, Done)
    case Store(values, replace) =>
      if FirstProblem(values, problem).Some? then (members, Raised(FirstProblem(values, problem).value))
      else ((if replace then {} else members) + (set v | v in values), Done)
  }

  function MeantAll<V(==)>(members: set<V>, ops: seq<Op<V>>, problem: V -> Option<Error>, noKey: V -> Option<Error>)
    : (r: (set<V>, seq<Outcome>))
    ensures |r.1| == |ops|
    decreases |ops|
  {
    if ops == [] then (members, [])
    else
      var n := |ops| - 1;
      var (before, outs) := MeantAll(members, ops[..n], problem, noKey);
      var (after, out) := Meant(before, ops[n], problem, noKey);
      (after, outs + [out])
  }

  // ---------------------------------------------------------------------------
  // What may be counted on
  // ---------------------------------------------------------------------------

  /** The operation, carried out, puts the value in. */
  predicate Puts<V(==)>(op: Op<V>, v: V) {
    (op.Add? && op.value == v) || (op.Store? && v in op.values)
  }

  /** The operation, carried out, takes the value out. */
  predicate Takes<V(==)>(op: Op<V>, v: V) {
    ((op.Remove? || op.Discard?) && op.value == v) || op.Clear? || (op.Store? && op.replace && v !in op.values)
  }

  /** Whether the value was put in last or taken out last; `first` if neither happened. */
  predicate LastPut<V(==)>(ops: seq<Op<V>>, outs: seq<Outcome>, v: V, first: bool)
    requires |outs| == |ops|
  {
    if ops == [] then first
    else
      var n := |ops| - 1;
      if outs[n] == Done && Puts(ops[n], v) then true
      else if outs[n] == Done && Takes(ops[n], v) then false
      else LastPut(ops[..n], outs[..n], v, first)
  }

  ghost predicate Remembers<V(!new)>(first: set<V>, ops: seq<Op<V>>, outs: seq<Outcome>, last: set<V>) {
    |outs| == |ops| && forall v :: v in last <==> LastPut(ops, outs, v, v in first)
  }

  /** One operation changes a value's membership exactly if it is carried out and puts it in or takes it out. */
  lemma MeantMembers<V>(members: set<V>, op: Op<V>, problem: V -> Option<Error>, noKey: V -> Option<Error>, v: V)
    ensures var (after, out) := Meant(members, op, problem, noKey);
            v in after <==> if out == Done && Puts(op, v) then true
                            else if out == Done && Takes(op, v) then false
                            else v in members
  {
  }

  /** Membership is decided by the last operation that put the value in or took it out. */
  lemma {:induction false} LastOneCounts<V>(members: set<V>, ops: seq<Op<V>>, problem: V -> Option<Error>,
                                            noKey: V -> Option<Error>, v: V)
    ensures var (after, outs) := MeantAll(members, ops, problem, noKey);
            v in after <==> LastPut(ops, outs, v, v in members)
    decreases |ops|
  {
    hide Meant, Puts, Takes;
    if ops != [] {
      var n := |ops| - 1;
      LastOneCounts(members, ops[..n], problem, noKey, v);
      var (before, outs) := MeantAll(members, ops[..n], problem, noKey);
      MeantMembers(before, ops[n], problem, noKey, v);
      assert MeantAll(members, ops, problem, noKey).1[..n] == outs;
    }
  }

  lemma RunRemembers<V(!new)>(members: set<V>, ops: seq<Op<V>>, problem: V -> Option<Error>,
                              noKey: V -> Option<Error>)
    ensures var (after, outs) := MeantAll(members, ops, problem, noKey);
            Remembers(members, ops, outs, after)
  {
    var (after, outs) := MeantAll(members, ops, problem, noKey);
    hide LastPut;
    forall v ensures v in after <==> LastPut(ops, outs, v, v in members) {
      LastOneCounts(members, ops, problem, noKey, v);
    }
  }

  /** When an operation is refused, and with which error. */
  lemma MeantRefusals<V>(members: set<V>, op: Op<V>, problem: V -> Option<Error>, noKey: V -> Option<Error>)
    ensures var out := Meant(members, op, problem, noKey).1;
            && (op.Add? ==> Refusal(out, problem(op.value)))
            && (op.Discard? ==> Refusal(out, noKey(op.value)))
            && (op.Remove? && (noKey(op.value).Some? || op.value in members) ==> Refusal(out, noKey(op.value)))
            && (op.Remove? && noKey(op.value).None? && op.value !in members ==> out == Raised(KeyError))
            && (op.Clear? ==> out == Done)
            && (op.Store? && (forall v :: v in op.values ==> problem(v).None?) ==> out == Done)
            && (op.Store? ==> forall i :: FirstAt(op.values, i, problem) ==> out == Raised(problem(op.values[i]).value))
  {
    if op.Store? {
      FirstProblemIsFirst(op.values, problem);
    }
  }

  predicate Refusal(out: Outcome, e: Option<Error>) {
    if e.Some? then out == Raised(e.value) else out == Done
  }

  /** The first value with a problem stands at place `i`. */
  predicate FirstAt<V>(values: seq<V>, i: int, problem: V -> Option<Error>) {
    0 <= i < |values| && problem(values[i]).Some? && forall j :: 0 <= j < i ==> problem(values[j]).None?
  }

  lemma {:induction false} FirstProblemIsFirst<V>(values: seq<V>, problem: V -> Option<Error>)
    ensures FirstProblem(values, problem).None? <==> forall v :: v in values ==> problem(v).None?
    ensures forall i :: FirstAt(values, i, problem) ==> FirstProblem(values, problem) == problem(values[i])
  {
    if values != [] && problem(values[0]).None? {
      FirstProblemIsFirst(values[1..], problem);
      forall i | FirstAt(values, i, problem) ensures FirstProblem(values, problem) == problem(values[i]) {
        assert forall j :: 0 <= j < |values| - 1 ==> values[1..][j] == values[j + 1];
        assert FirstAt(values[1..], i - 1, problem);
      }
    }
  }

  // ---------------------------------------------------------------------------
  // The rows of a set
  // ---------------------------------------------------------------------------

  /** Different members have different keys, and none takes the name of the stored length. */
  ghost predicate GoodKeys<V(!new)>(memberKey: V -> string) {
    && (forall a, b :: memberKey(a) == memberKey(b) ==> a == b)
    && (forall a :: Str(memberKey(a)) != LENGTH)
  }

  /** A member's row: its value, or a container from before members were single rows. */
  ghost predicate HoldsMember<V>(rows: Rows<Cell<V>>, site: Key, key: string, m: V) {
    var k := site + [Str(key)];
    k in rows && (rows[k].Marker? || rows[k] == Primitive(Item(m)))
  }

  ghost predicate HoldsMembers<V>(rows: Rows<Cell<V>>, site: Key, members: set<V>, memberKey: V -> string) {
    && (forall m :: m in members ==> HoldsMember(rows, site, memberKey(m), m))
    && (forall x :: x in ChildKeys(rows, site) ==> exists m :: m in members && x == Str(memberKey(m)))
  }

  /** The set is what its rows say, and every view's stored length is the number of its children. */
  ghost predicate Held<V(!new)>(rows: Rows<Cell<V>>, self: ViewRef, keyed: set<Key>, members: set<V>,
                         memberKey: V -> string) {
    && Opened(self) && self.keyed && self.protocol != {} && Agrees(self, keyed) && GoodKeys(memberKey)
    && NoOrphans(rows) && AllCounted(rows, keyed)
    && HoldsMembers(rows, self.site, members, memberKey)
  }

  lemma {:induction false} KeysCount<V>(members: set<V>, keys: set<Segment>, memberKey: V -> string)
    requires forall a, b :: a in members && b in members && memberKey(a) == memberKey(b) ==> a == b
    requires forall m :: m in members ==> Str(memberKey(m)) in keys
    requires forall x :: x in keys ==> exists m :: m in members && x == Str(memberKey(m))
    ensures |keys| == |members|
  {
    if members == {} {
      assert keys == {};
    } else {
      var m :| m in members;
      var x := Str(memberKey(m));
      KeysCount(members - {m}, keys - {x}, memberKey);
    }
  }

  /** The stored length is the size of the set. */
  lemma LengthIsSize<V(!new)>(rows: Rows<Cell<V>>, self: ViewRef, keyed: set<Key>, members: set<V>,
                       memberKey: V -> string)
    requires Held(rows, self, keyed, members, memberKey)
    ensures LenOf(rows, self.site) == |members|
  {
    forall m | m in members ensures Str(memberKey(m)) in ChildKeys(rows, self.site) {
      assert HoldsMember(rows, self.site, memberKey(m), m);
      ChildOf(rows, self.site, Str(memberKey(m)));
    }
    KeysCount(members, ChildKeys(rows, self.site), memberKey);
    assert Counted(rows, self.site);
  }

  /** A value is a member exactly if there is a row under its key. */
  lemma MemberHasRow<V(!new)>(rows: Rows<Cell<V>>, self: ViewRef, keyed: set<Key>, members: set<V>,
                       memberKey: V -> string, v: V)
    requires Held(rows, self, keyed, members, memberKey)
    ensures v in members <==> self.site + [Str(memberKey(v))] in rows
    ensures v in members ==> IsContainer(rows, self.site)
  {
    var x := Str(memberKey(v));
    var k := self.site + [x];
    ChildOf(rows, self.site, x);
    if v in members {
      assert HoldsMember(rows, self.site, memberKey(v), v);
      assert k[..|k| - 1] == self.site;
    }
  }

  /** The children other than one are as they were. */
  ghost predicate OthersKept<V>(rows: Rows<Cell<V>>, after: Rows<Cell<V>>, site: Key, key: Segment) {
    forall x :: x != key && x in ChildKeys(rows, site) ==>
      site + [x] in rows && site + [x] in after && after[site + [x]] == rows[site + [x]]
  }

  lemma MembersPut<V(!new)>(rows: Rows<Cell<V>>, after: Rows<Cell<V>>, site: Key, members: set<V>,
                     memberKey: V -> string, v: V)
    requires HoldsMembers(rows, site, members, memberKey) && GoodKeys(memberKey)
    requires OthersKept(rows, after, site, Str(memberKey(v)))
    requires ChildKeys(after, site) == ChildKeys(rows, site) + {Str(memberKey(v))}
    requires var k := site + [Str(memberKey(v))]; k in after && after[k] == Primitive(Item(v))
    ensures HoldsMembers(after, site, members + {v}, memberKey)
  {
    forall m | m in members + {v} ensures HoldsMember(after, site, memberKey(m), m) {
      if m != v {
        assert HoldsMember(rows, site, memberKey(m), m);
        ChildOf(rows, site, Str(memberKey(m)));
      }
    }
  }

  lemma MembersCut<V(!new)>(rows: Rows<Cell<V>>, after: Rows<Cell<V>>, site: Key, members: set<V>,
                     memberKey: V -> string, v: V)
    requires HoldsMembers(rows, site, members, memberKey) && GoodKeys(memberKey)
    requires OthersKept(rows, after, site, Str(memberKey(v)))
    requires ChildKeys(after, site) == ChildKeys(rows, site) - {Str(memberKey(v))}
    ensures HoldsMembers(after, site, members - {v}, memberKey)
  {
    forall m | m in members - {v} ensures HoldsMember(after, site, memberKey(m), m) {
      assert HoldsMember(rows, site, memberKey(m), m);
      ChildOf(rows, site, Str(memberKey(m)));
    }
  }

  // ---------------------------------------------------------------------------
  // Taking a member out, putting one in
  // ---------------------------------------------------------------------------

  /** A delete with its decrement. */
  function Cut<V>(rows: Rows<Cell<V>>, self: ViewRef, key: Segment): Rows<Cell<V>>
    requires self.site != []
  {
    Decremented(ChildDeleted(rows, self.site, key).0, self.site)
  }

  lemma CutOthers<V>(rows: Rows<Cell<V>>, site: Key, key: Segment)
    requires NoOrphans(rows) && site != [] && site[0] == DATA_ROOT && IsContainer(rows, site) && site + [key] in rows
    ensures OthersKept(rows, ChildDeleted(rows, site, key).0, site, key)
    ensures site in ChildDeleted(rows, site, key).0 && ChildDeleted(rows, site, key).0[site] == rows[site]
  {
    var child := site + [key];
    DeletedRows(rows, site, key);
    assert Mirror(child)[0] == METADATA_ROOT;
    hide ChildDeleted;
    forall x | x != key && x in ChildKeys(rows, site) ensures !GoneWith(rows, child, site + [x]) && site + [x] in rows {
      ChildOf(rows, site, x);
      SameChildSite(site, x, site, key);
      PrefixOfChild(child, site, x);
    }
    assert !GoneWith(rows, child, site);
  }

  /** A length stored right makes every count right. */
  lemma Recounted<V>(rows: Rows<Cell<V>>, keyed: set<Key>, site: Key)
    requires CountedBut(rows, keyed, site) && site != [] && site[0] == DATA_ROOT
    ensures AllCounted(WithLength(rows, site, |ChildKeys(rows, site)|), keyed)
  {
    var n := |ChildKeys(rows, site)|;
    hide ChildKeys, LenOf, WithLength;
    forall s | s in keyed ensures s != [] && s[0] == DATA_ROOT && Counted(WithLength(rows, site, n), s) {
      LengthIsOwn(rows, site, n, s);
    }
  }

  /** Taking out a member leaves one child less and a length one less. */
  lemma CutCounts<V>(rows: Rows<Cell<V>>, self: ViewRef, keyed: set<Key>, key: Segment)
    requires self.site != [] && self.site[0] == DATA_ROOT && self.site in keyed && key != LENGTH
    requires NoOrphans(rows) && AllCounted(rows, keyed) && IsContainer(rows, self.site) && self.site + [key] in rows
    ensures var after := Cut(rows, self, key);
            && NoOrphans(after) && AllCounted(after, keyed)
            && ChildKeys(after, self.site) == ChildKeys(rows, self.site) - {key}
            && OthersKept(rows, after, self.site, key)
            && self.site in after && after[self.site] == rows[self.site]
  {
    var gone := ChildDeleted(rows, self.site, key).0;
    DeleteKeeps(rows, self.site, key);
    ChildGone(rows, self.site, key, keyed);
    CutOthers(rows, self.site, key);
    ChildOf(rows, self.site, key);
    assert Counted(rows, self.site);
    hide ChildDeleted, NoOrphans, ChildKeys, LenOf, WithLength, AllCounted, CountedBut, OthersKept;
    var n := |ChildKeys(gone, self.site)|;
    assert |ChildKeys(rows, self.site)| == n + 1;
    LengthKeepsTree(gone, self.site, n);
    Recounted(gone, keyed, self.site);
    LengthIsOwn(gone, self.site, n, self.site);
    LengthKeepsData(gone, self.site, n, self.site);
    OthersThrough(rows, gone, self.site, key, n);
  }

  lemma OthersThrough<V>(rows: Rows<Cell<V>>, after: Rows<Cell<V>>, site: Key, key: Segment, n: nat)
    requires OthersKept(rows, after, site, key) && site != [] && site[0] == DATA_ROOT
    ensures OthersKept(rows, WithLength(after, site, n), site, key)
  {
    forall x | x != key && x in ChildKeys(rows, site)
      ensures site + [x] in WithLength(after, site, n) && WithLength(after, site, n)[site + [x]] == rows[site + [x]]
    {
      LengthKeepsData(after, site, n, site + [x]);
    }
  }

  lemma RemoveKeeps<V(!new)>(rows: Rows<Cell<V>>, self: ViewRef, keyed: set<Key>, members: set<V>,
                      memberKey: V -> string, v: V)
    requires Held(rows, self, keyed, members, memberKey) && v in members
    ensures var after := Cut(rows, self, Str(memberKey(v)));
            && Held(after, self, keyed, members - {v}, memberKey)
            && self.site in after && self.site in rows && after[self.site] == rows[self.site]
  {
    MemberHasRow(rows, self, keyed, members, memberKey, v);
    CutCounts(rows, self, keyed, Str(memberKey(v)));
    MembersCut(rows, Cut(rows, self, Str(memberKey(v))), self.site, members, memberKey, v);
  }

  /** What writing a member comes to: its row, over whatever stood under its key. */
  function Written<V>(rows: Rows<Cell<V>>, self: ViewRef, key: Segment, v: V): Rows<Cell<V>>
    requires self.site != []
  {
    if PutMade(rows, self, key, v).out.Raised? then PutMade(Cut(rows, self, key), self, key, v).rows
    else PutMade(rows, self, key, v).rows
  }

  /** A member's row written where no container stands. */
  lemma PutMemberKeeps<V(!new)>(rows: Rows<Cell<V>>, self: ViewRef, keyed: set<Key>, members: set<V>,
                         memberKey: V -> string, v: V)
    requires Held(rows, self, keyed, members, memberKey) && IsContainer(rows, self.site)
    requires !IsContainer(rows, self.site + [Str(memberKey(v))])
    ensures var made := PutMade(rows, self, Str(memberKey(v)), v);
            && made.out == Done && Held(made.rows, self, keyed, members + {v}, memberKey)
            && self.site in made.rows && made.rows[self.site] == rows[self.site]
            && self.site + [Str(memberKey(v))] in made.rows
            && made.rows[self.site + [Str(memberKey(v))]] == Primitive(Item(v))
  {
    var key := Str(memberKey(v));
    PutCounts(rows, self, key, v, keyed);
    PutChildren(rows, self, key, v);
    var made := PutMade(rows, self, key, v);
    hide PutMade, HoldsMembers, ChildKeys, AllCounted, NoOrphans, GoodKeys, Opened, Agrees, OthersKept;
    MembersPut(rows, made.rows, self.site, members, memberKey, v);
  }

  lemma PutChildren<V>(rows: Rows<Cell<V>>, self: ViewRef, key: Segment, v: V)
    requires self.site != [] && self.site[0] == DATA_ROOT && !IsContainer(rows, self.site + [key]) && self.site in rows
    ensures var after := PutMade(rows, self, key, v).rows;
            && OthersKept(rows, after, self.site, key)
            && ChildKeys(after, self.site) == ChildKeys(rows, self.site) + {key}
            && self.site in after && after[self.site] == rows[self.site]
            && self.site + [key] in after && after[self.site + [key]] == Primitive(Item(v))
  {
    var child := self.site + [key];
    var one := rows[child := Primitive(Item(v))];
    var after := PutMade(rows, self, key, v).rows;
    assert LenKey(self.site)[0] == METADATA_ROOT;
    assert forall k :: k != [] && k[0] == DATA_ROOT ==> (k in after <==> k in one) && (k in one ==> after[k] == one[k]);
    forall x ensures x in ChildKeys(after, self.site) <==> x in ChildKeys(rows, self.site) || x == key {
      ChildOf(after, self.site, x);
      ChildOf(rows, self.site, x);
      SameChildSite(self.site, x, self.site, key);
    }
    hide PutMade;
    forall x | x != key && x in ChildKeys(rows, self.site)
      ensures self.site + [x] in rows && self.site + [x] in after && after[self.site + [x]] == rows[self.site + [x]]
    {
      ChildOf(rows, self.site, x);
      SameChildSite(self.site, x, self.site, key);
    }
  }

  /** Writing a member makes it one, whatever stood under its key; a container there is replaced and counted once. */
  lemma WrittenKeeps<V(!new)>(rows: Rows<Cell<V>>, self: ViewRef, keyed: set<Key>, members: set<V>,
                       memberKey: V -> string, v: V)
    requires Held(rows, self, keyed, members, memberKey) && IsContainer(rows, self.site)
    ensures var key := Str(memberKey(v));
            var after := Written(rows, self, key, v);
            && Held(after, self, keyed, members + {v}, memberKey)
            && self.site in after && after[self.site] == rows[self.site]
            && self.site + [key] in after && after[self.site + [key]] == Primitive(Item(v))
            && (PutMade(rows, self, key, v).out.Raised? ==>
                  PutMade(rows, self, key, v).rows == rows && IsContainer(Cut(rows, self, key), self.site))
  {
    var key := Str(memberKey(v));
    if IsContainer(rows, self.site + [key]) {
      MemberHasRow(rows, self, keyed, members, memberKey, v);
      RemoveKeeps(rows, self, keyed, members, memberKey, v);
      var cut := Cut(rows, self, key);
      MemberHasRow(cut, self, keyed, members - {v}, memberKey, v);
      PutMemberKeeps(cut, self, keyed, members - {v}, memberKey, v);
      assert members - {v} + {v} == members + {v};
    } else {
      PutMemberKeeps(rows, self, keyed, members, memberKey, v);
    }
  }

  lemma ClearKeeps<V(!new)>(rows: Rows<Cell<V>>, after: Rows<Cell<V>>, self: ViewRef, keyed: set<Key>,
                            members: set<V>, memberKey: V -> string)
    requires Held(rows, self, keyed, members, memberKey) && IsContainer(rows, self.site)
    requires Cleared(rows, after, self.site, ChildKeys(rows, self.site))
    ensures Held(WithLength(after, self.site, 0), self, keyed, {}, memberKey)
    ensures var last := WithLength(after, self.site, 0); self.site in last && last[self.site] == rows[self.site]
  {
    ClearCounts(rows, after, self.site, keyed);
    ClearEmpties(rows, after, self.site);
    ClearedWithin(rows, after, self.site);
    assert self.site in after;
    hide Opened, Agrees, GoodKeys, NoOrphans, AllCounted, CountedBut, Cleared, ChildKeys, LenOf, WithLength,
        IsContainer;
    Recounted(after, keyed, self.site);
    LengthKeepsTree(after, self.site, 0);
    LengthIsOwn(after, self.site, 0, self.site);
    LengthKeepsData(after, self.site, 0, self.site);
  }

  lemma FreshHasNone<V>(rows: Rows<Cell<V>>, self: ViewRef)
    requires Opened(self) && NoOrphans(rows) && self.site !in rows && Ensured(rows, self).out == Done
    ensures ChildKeys(rows, self.site) == {} && ChildKeys(Ensured(rows, self).rows, self.site) == {}
  {
    ChainMade(rows, self);
    AnchorAbove(rows, self);
    LeafHasNone(rows, self.site);
    hide Ensured, Missing, Anchor, ChildKeys;
    forall x ensures x !in ChildKeys(Ensured(rows, self).rows, self.site) {
      ChildOf(rows, self.site, x);
      ChildOf(Ensured(rows, self).rows, self.site, x);
      var k := self.site + [x];
      assert k !in Missing(rows, self) && k != Anchor(rows, self).site;
    }
  }

  /** Creating the view, and whatever is missing above it, touches no member. */
  lemma EnsureKeeps<V(!new)>(rows: Rows<Cell<V>>, self: ViewRef, keyed: set<Key>, members: set<V>,
                      memberKey: V -> string)
    requires Held(rows, self, keyed, members, memberKey)
    ensures var made := Ensured(rows, self);
            && Held(made.rows, self, keyed, members, memberKey)
            && (made.out.Raised? ==> made.rows == rows)
            && (made.out == Done ==> Stands(made.rows, self))
  {
    var made := Ensured(rows, self);
    ChainMade(rows, self);
    EnsuredCounts(rows, self, keyed);
    if made.out == Done {
      StampedCompatible(rows, self);
      if self.site in rows {
        StandingOpens(rows, self);
      } else {
        FreshHasNone(rows, self);
      }
    }
  }

  lemma HeldParts<V(!new)>(rows: Rows<Cell<V>>, self: ViewRef, keyed: set<Key>, members: set<V>, memberKey: V -> string)
    requires Held(rows, self, keyed, members, memberKey)
    ensures Opened(self) && NoOrphans(rows) && self.site != [] && self.site[0] == DATA_ROOT
  {
  }

  /** A set that is absent has no member. */
  lemma AbsentIsEmpty<V(!new)>(rows: Rows<Cell<V>>, self: ViewRef, keyed: set<Key>, members: set<V>,
                        memberKey: V -> string)
    requires Held(rows, self, keyed, members, memberKey) && self.site !in rows
    ensures members == {}
  {
    forall m | m in members ensures false {
      MemberHasRow(rows, self, keyed, members, memberKey, m);
    }
  }

  lemma AbsentFalls<V>(rows: Rows<Cell<V>>, self: ViewRef)
    requires self.site != [] && self.site !in rows
    ensures !Stands(rows, self)
  {
  }

  function Among<V(==)>(values: seq<V>): set<V> {
    set v | v in values
  }

  lemma AmongMore<V>(values: seq<V>, i: nat)
    requires i < |values|
    ensures Among(values[..i + 1]) == Among(values[..i]) + {values[i]}
    ensures forall kept: set<V> :: kept + Among(values[..i]) + {values[i]} == kept + Among(values[..i + 1])
  {
    assert values[..i + 1] == values[..i] + [values[i]];
  }

  // ---------------------------------------------------------------------------
  // The view
  // ---------------------------------------------------------------------------

  class View<V(!new, ==)> {
    const views: Views<V>
    const self: ViewRef
    const memberKey: V -> string
    /** Why a value cannot be a member: it holds EMPTY, is unhashable, or does not pickle. */
    const problem: V -> Option<Error>
    /** Why no key can be made of a value, even to look for it: it does not pickle. */
    const noKey: V -> Option<Error>
    ghost const keyed: set<Key>
    ghost var members: set<V>

    ghost function Rows(): Rows<Cell<V>>
      reads this, views, views.tree
    {
      views.tree.rows
    }

    ghost predicate Valid()
      reads this, views, views.tree
    {
      Held(Rows(), self, keyed, members, memberKey)
    }

    /** Creating the view would succeed: it stands, or its ancestors let it be made. */
    ghost predicate Opens()
      reads this, views, views.tree
      requires Valid()
    {
      Ensured(Rows(), self).out == Done
    }

    constructor (views: Views<V>, self: ViewRef, memberKey: V -> string, problem: V -> Option<Error>,
                 noKey: V -> Option<Error>, ghost keyed: set<Key>, ghost members: set<V>)
      requires Held(views.tree.rows, self, keyed, members, memberKey)
      ensures Valid() && this.views == views && this.self == self && this.members == members
      ensures this.memberKey == memberKey && this.problem == problem && this.noKey == noKey && this.keyed == keyed
    {
      this.views, this.self, this.memberKey, this.problem := views, self, memberKey, problem;
      this.noKey, this.keyed, this.members := noKey, keyed, members;
    }

    method EnsureCreated() returns (out: Outcome)
      requires Valid()
      modifies this, views, views.tree
      ensures Valid() && members == old(members) && out == Ensured(old(Rows()), self).out
      ensures if out == Done then Stands(Rows(), self) else Rows() == old(Rows())
    {
      hide Held, Stands, Ensured;
      EnsureKeeps(Rows(), self, keyed, members, memberKey);
      HeldParts(Rows(), self, keyed, members, memberKey);
      out := views.EnsureCreated(self);
    }

    /** Write one member as a single row under its key. */
    method PutMember(value: V)
      requires Valid() && Stands(Rows(), self)
      modifies this, views, views.tree
      ensures Valid() && Stands(Rows(), self) && members == old(members) + {value}
      ensures var k := self.site + [Str(memberKey(value))]; k in Rows() && Rows()[k] == Primitive(Item(value))
    {
      hide Ensured, HoldsMembers, AllCounted, NoOrphans, Opened;
      ghost var before := Rows();
      WrittenKeeps(before, self, keyed, members, memberKey, value);
      HeldParts(before, self, keyed, members, memberKey);
      var key := Str(memberKey(value));
      var out := views.PutChildPrimitive(self, key, value);
      if out.Raised? {
        var deleted := views.tree.DeleteChild(self.site, key);
        views.DecrementLength(self.site);
        out := views.PutChildPrimitive(self, key, value);
      }
      members := members + {value};
    }

    /** Delete a member's row and count it out. */
    method CutMember(value: V)
      requires Valid() && Stands(Rows(), self) && value in members
      modifies this, views, views.tree
      ensures Valid() && Stands(Rows(), self) && members == old(members) - {value}
    {
      hide Ensured, HoldsMembers, AllCounted, NoOrphans, Opened;
      RemoveKeeps(Rows(), self, keyed, members, memberKey, value);
      HeldParts(Rows(), self, keyed, members, memberKey);
      var deleted := views.tree.DeleteChild(self.site, Str(memberKey(value)));
      views.DecrementLength(self.site);
      members := members - {value};
    }

    method Add(value: V) returns (out: Outcome)
      requires Valid()
      modifies this, views, views.tree
      ensures Valid() && (out.Raised? ==> Rows() == old(Rows()) && members == old(members))
      ensures problem(value).Some? ==> out == Raised(problem(value).value)
      ensures problem(value).None? ==> out == Ensured(old(Rows()), self).out
      ensures out == Done ==> members == old(members) + {value}
      ensures old(Opens()) ==> Opens() && (members, out) == Meant(old(members), Op.Add(value), problem, noKey)
    {
      hide Stands, Ensured, HoldsMembers, AllCounted;
      if problem(value).Some? {
        return Raised(problem(value).value);
      }
      out := EnsureCreated();
      if out == Done {
        PutMember(value);
        StandingOpens(Rows(), self);
      }
    }

    /** `strict` tells a member that is absent from a set that is. */
    method HasRow(value: V) returns (held: bool)
      requires Valid()
      ensures held == (value in members)
    {
      hide Held;
      MemberHasRow(Rows(), self, keyed, members, memberKey, value);
      held := self.site + [Str(memberKey(value))] in views.tree.rows;
    }

    method Contains(value: V) returns (r: Result<bool>)
      requires Valid()
      ensures r == if noKey(value).Some? then Err(noKey(value).value)
                   else if value in members then Ok(true)
                   else if self.site in Rows() then Ok(false) else Err(NotFoundError)
    {
      if noKey(value).Some? {
        return Err(noKey(value).value);
      }
      var held := HasRow(value);
      if held {
        return Ok(true);
      }
      return if self.site in views.tree.rows then Ok(false) else Err(NotFoundError);
    }

    method Len() returns (r: Result<nat>)
      requires Valid()
      ensures self.site in Rows() ==> r == Ok(|members|)
      ensures r == Err(NotFoundError) || r == Ok(|members|)
    {
      hide Held;
      HeldParts(Rows(), self, keyed, members, memberKey);
      LengthIsSize(Rows(), self, keyed, members, memberKey);
      var k := LenKey(self.site);
      if k in views.tree.rows && views.tree.rows[k].Primitive? && views.tree.rows[k].value.Count? {
        return Ok(views.tree.rows[k].value.n);
      }
      return if self.site in views.tree.rows then Ok(0) else Err(NotFoundError);
    }

    method Remove(value: V) returns (out: Outcome)
      requires Valid()
      modifies this, views, views.tree
      ensures Valid() && (out.Raised? ==> Rows() == old(Rows()) && members == old(members))
      ensures out == Done ==> value in old(members) && members == old(members) - {value}
      ensures noKey(value).Some? ==> out == Raised(noKey(value).value)
      ensures noKey(value).None? && value !in old(members) ==> out == Raised(KeyError)
      ensures noKey(value).None? && value in old(members) ==> out == Ensured(old(Rows()), self).out
      ensures old(Opens()) ==> Opens() && (members, out) == Meant(old(members), Op.Remove(value), problem, noKey)
    {
      hide Stands, Ensured, HoldsMembers, AllCounted;
      if noKey(value).Some? {
        return Raised(noKey(value).value);
      }
      var held := HasRow(value);
      if !held {
        return Raised(KeyError);
      }
      out := EnsureCreated();
      if out == Done {
        CutMember(value);
        StandingOpens(Rows(), self);
      }
    }

    method Discard(value: V) returns (out: Outcome)
      requires Valid()
      modifies this, views, views.tree
      ensures Valid() && (out.Raised? ==> Rows() == old(Rows()) && members == old(members))
      ensures out == Done ==> members == old(members) - {value}
      ensures noKey(value).Some? ==> out == Raised(noKey(value).value)
      ensures noKey(value).None? ==> out == if value in old(members) then Ensured(old(Rows()), self).out else Done
      ensures old(Opens()) ==> Opens() && (members, out) == Meant(old(members), Op.Discard(value), problem, noKey)
    {
      hide Stands, Ensured, HoldsMembers, AllCounted;
      if noKey(value).Some? {
        return Raised(noKey(value).value);
      }
      var held := HasRow(value);
      if !held {
        assert members - {value} == members;
        return Done;
      }
      out := EnsureCreated();
      if out == Done {
        CutMember(value);
        StandingOpens(Rows(), self);
      }
    }

    /** Clearing an absent set leaves it absent. */
    method Clear() returns (out: Outcome)
      requires Valid()
      modifies this, views, views.tree
      ensures Valid() && (out.Raised? ==> Rows() == old(Rows()) && members == old(members))
      ensures out == Done ==> members == {}
      ensures old(Opens()) ==> Opens() && out == Done && (old(Stands(Rows(), self)) ==> Stands(Rows(), self))
    {
      hide Held, Stands, Ensured;
      HeldParts(Rows(), self, keyed, members, memberKey);
      if self.site !in views.tree.rows {
        AbsentIsEmpty(Rows(), self, keyed, members, memberKey);
        AbsentFalls(Rows(), self);
        return Done;
      }
      out := EnsureCreated();
      if out == Done {
        ghost var before := Rows();
        out := ClearRows();
      }
    }

    method ClearRows() returns (out: Outcome)
      requires Valid() && Stands(Rows(), self)
      modifies this, views, views.tree
      ensures Valid() && Stands(Rows(), self) && Opens() && members == {} && out == Done
    {
      hide Held, Ensured, Cleared;
      ghost var before := Rows();
      HeldParts(before, self, keyed, members, memberKey);
      out := views.tree.ClearChildren(self.site);
      ClearKeeps(before, Rows(), self, keyed, members, memberKey);
      views.SetLength(self.site, 0);
      members := {};
      StandingOpens(Rows(), self);
    }

    /** Every value is checked before the first write. */
    method Check(values: seq<V>) returns (p: Option<Error>)
      ensures p == FirstProblem(values, problem)
    {
      p := None;
      for i := 0 to |values|
        invariant FirstProblem(values, problem) == FirstProblem(values[i..], problem)
      {
        if problem(values[i]).Some? {
          return problem(values[i]);
        }
        assert values[i..][1..] == values[i + 1..];
      }
    }

    method Store(values: seq<V>, replace: bool) returns (out: Outcome)
      requires Valid()
      modifies this, views, views.tree
      ensures Valid() && (out.Raised? ==> Rows() == old(Rows()) && members == old(members))
      ensures out == Done ==>
                forall v :: v in members <==> v in values || (!replace && v in old(members))
      ensures forall i :: FirstAt(values, i, problem) ==> out == Raised(problem(values[i]).value)
      ensures (forall v :: v in values ==> problem(v).None?) ==> out == Ensured(old(Rows()), self).out
      ensures old(Opens()) ==>
                Opens() && (members, out) == Meant(old(members), Op.Store(values, replace), problem, noKey)
    {
      hide Stands, Ensured, HoldsMembers, AllCounted;
      var p := Check(values);
      FirstProblemIsFirst(values, problem);
      if p.Some? {
        return Raised(p.value);
      }
      out := EnsureCreated();
      if out.Raised? {
        return;
      }
      StandingOpens(Rows(), self);
      if replace {
        var cleared := Clear();
      }
      ghost var kept := members;
      assert self.site != [] by { HeldParts(Rows(), self, keyed, members, memberKey); }
      for i := 0 to |values|
        invariant Valid() && Stands(Rows(), self)
        invariant members == kept + Among(values[..i])
      {
        PutMember(values[i]);
        AmongMore(values, i);
      }
      assert values[..|values|] == values;
      assert members == kept + (set v | v in values);
      StandingOpens(Rows(), self);
      return Done;
    }

    method Perform(op: Op<V>) returns (out: Outcome)
      requires Valid()
      modifies this, views, views.tree
      ensures Valid() && (out.Raised? ==> Rows() == old(Rows()) && members == old(members))
      ensures old(Opens()) ==> Opens() && (members, out) == Meant(old(members), op, problem, noKey)
    {
      hide Held, Ensured;
      match op
      case Add(v) => out := Add(v);
      case Remove(v) => out := Remove(v);
      case Discard(v) => out := Discard(v);
      case Clear => out := Clear();
      case Store(values, replace) => out := Store(values, replace);
    }

    /** Over any run the view is a mathematical set, and its stored length is the size of the set. */
    method Run(ops: seq<Op<V>>) returns (outs: seq<Outcome>, length: nat)
      requires Valid() && Opens()
      modifies this, views, views.tree
      ensures Valid() && (members, outs) == MeantAll(old(members), ops, problem, noKey)
      ensures Remembers(old(members), ops, outs, members)
      ensures length == |members|
    {
      hide Held, Ensured, Meant, Remembers;
      outs := [];
      for n := 0 to |ops|
        invariant Valid() && Opens() && (members, outs) == MeantAll(old(members), ops[..n], problem, noKey)
      {
        assert ops[..n + 1][..n] == ops[..n];
        var out := Perform(ops[n]);
        outs := outs + [out];
      }
      assert ops[..|ops|] == ops;
      RunRemembers(old(members), ops, problem, noKey);
      HeldParts(Rows(), self, keyed, members, memberKey);
      LengthIsSize(Rows(), self, keyed, members, memberKey);
      length := views.StoredLength(self.site);
    }
  }
}
