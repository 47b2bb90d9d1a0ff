/**
 Canonical filters: an equivalent filter, one for every way of ordering, repeating or nesting the
 constituents of an And or an Or.
 */
module Canonical {
  import opened Wrappers
  import opened StringOrder
  import opened Segments
  import opened Filters
  import opened FilterJson

  /** What an And (`conj`) or an Or is made of once it is flattened. */
  function Constituents(f: Filter, conj: bool): seq<Filter> {
    if conj && f.And? then f.filters
    else if !conj && f.Or? then f.filters
    else [f]
  }

  function Flat(cs: seq<Filter>, conj: bool): (r: seq<Filter>)
    ensures forall c :: c in r <==> exists i :: 0 <= i < |cs| && c in Constituents(cs[i], conj)
  {
    if cs == [] then []
    else
      var n := |cs| - 1;
      Flat(cs[..n], conj) + Constituents(cs[n], conj)
  }

  /** Dropped from an And or Or: it changes nothing. */
  function Identity(conj: bool): Filter {
    if conj then PassAll else PassNone
  }

  /** Decides an And or Or by itself. */
  function Absorber(conj: bool): Filter {
    if conj then PassNone else PassAll
  }

  predicate Before(f: Filter, g: Filter) {
    Less(SortKey(f), SortKey(g))
  }

  predicate InOrder(q: seq<Filter>) {
    forall i, j :: 0 <= i < j < |q| ==> Before(q[i], q[j])
  }

  /** Put a filter at its place in an ordered list, unless it is there. */
  function Place(q: seq<Filter>, f: Filter): (r: seq<Filter>)
    ensures forall c :: c in r <==> c in q || c == f
  {
    if q == [] then [f]
    else if q[0] == f then q
    else if Before(f, q[0]) then [f] + q
    else [q[0]] + Place(q[1..], f)
  }

  /** The elements of a list, once each, by sort key. */
  function Arrange(fs: seq<Filter>): (q: seq<Filter>)
    ensures forall c :: c in q <==> c in fs
  {
    if fs == [] then []
    else
      assert fs == fs[..|fs| - 1] + [fs[|fs| - 1]];
      Place(Arrange(fs[..|fs| - 1]), fs[|fs| - 1])
  }

  function Dropping(fs: seq<Filter>, f: Filter): (r: seq<Filter>)
    ensures forall c :: c in r <==> c in fs && c != f
  {
    if fs == [] then []
    else
      assert fs == fs[..|fs| - 1] + [fs[|fs| - 1]];
      Dropping(fs[..|fs| - 1], f) + (if fs[|fs| - 1] == f then [] else [fs[|fs| - 1]])
  }

  function Wrap(q: seq<Filter>, conj: bool): Filter {
    if q == [] then Identity(conj)
    else if |q| == 1 then q[0]
    else if conj then And(q) else Or(q)
  }

  function Combine(flat: seq<Filter>, conj: bool): Filter {
    if Absorber(conj) in flat then Absorber(conj)
    else Wrap(Arrange(Dropping(flat, Identity(conj))), conj)
  }

  predicate AllWild(pattern: Key) {
    forall i :: 0 <= i < |pattern| ==> pattern[i] == WILDCARD
  }

  function Canon(f: Filter): Filter {
    match f
    case Prefix(prefix) => if prefix == [] then PassAll else f
    case Suffix(suffix) => if suffix == [] then PassAll else f
    case Wildcard(pattern) => if AllWild(pattern) then Length(|pattern|) else f
    case And(fs) => Combine(Flat(seq(|fs|, i requires 0 <= i < |fs| => Canon(fs[i])), true), true)
    case Or(fs) => Combine(Flat(seq(|fs|, i requires 0 <= i < |fs| => Canon(fs[i])), false), false)
    case _ => f
  }

  function Canons(fs: seq<Filter>): (cs: seq<Filter>)
    ensures |cs| == |fs| && forall i :: 0 <= i < |fs| ==> cs[i] == Canon(fs[i])
  {
    seq(|fs|, i requires 0 <= i < |fs| => Canon(fs[i]))
  }

  function Joined(fs: seq<Filter>, conj: bool): Filter {
    if conj then And(fs) else Or(fs)
  }

  lemma CanonJoined(fs: seq<Filter>, conj: bool)
    ensures Canon(Joined(fs, conj)) == Combine(Flat(Canons(fs), conj), conj)
  {
    assert seq(|fs|, i requires 0 <= i < |fs| => Canon(fs[i])) == Canons(fs);
  }

  // ---------------------------------------------------------------------------
  // Order
  // ---------------------------------------------------------------------------

  lemma {:induction false} PlaceInOrder(q: seq<Filter>, f: Filter)
    requires InOrder(q)
    ensures InOrder(Place(q, f))
  {
    hide SortKey;
    if q != [] && q[0] != f {
      if Before(f, q[0]) {
        forall j | 0 <= j < |q| ensures Before(f, q[j]) {
          if j > 0 {
            Transitive(SortKey(f), SortKey(q[0]), SortKey(q[j]));
          }
        }
      } else {
        if SortKey(f) == SortKey(q[0]) {
          SortKeyInjective(f, q[0]);
        }
        Total(SortKey(f), SortKey(q[0]));
        PlaceInOrder(q[1..], f);
        var rest := Place(q[1..], f);
        forall j | 0 <= j < |rest| ensures Before(q[0], rest[j]) {
          assert rest[j] in rest;
        }
      }
    }
  }

  lemma {:induction false} ArrangeInOrder(fs: seq<Filter>)
    ensures InOrder(Arrange(fs))
  {
    if fs != [] {
      ArrangeInOrder(fs[..|fs| - 1]);
      PlaceInOrder(Arrange(fs[..|fs| - 1]), fs[|fs| - 1]);
    }
  }

  lemma HasElement(q: seq<Filter>)
    ensures q != [] ==> exists c :: c in q
  {
    if q != [] {
      assert q[0] in q;
    }
  }

  lemma FirstIsLeast(q: seq<Filter>, f: Filter)
    requires InOrder(q) && f in q
    ensures f == q[0] || Before(q[0], f)
  {
  }

  /** An ordered list is determined by its elements. */
  lemma {:induction false} OrderUnique(p: seq<Filter>, q: seq<Filter>)
    requires InOrder(p) && InOrder(q) && forall c :: c in p <==> c in q
    ensures p == q
  {
    if p == [] {
      HasElement(q);
    } else {
      assert p[0] in p;
      assert q[0] in q;
      FirstIsLeast(p, q[0]);
      FirstIsLeast(q, p[0]);
      if p[0] != q[0] {
        Asymmetric(SortKey(p[0]), SortKey(q[0]));
      }
      RestElements(p);
      RestElements(q);
      hide InOrder;
      OrderUnique(p[1..], q[1..]);
      assert p == [p[0]] + p[1..] && q == [q[0]] + q[1..];
    }
  }

  lemma RestElements(q: seq<Filter>)
    requires q != [] && InOrder(q)
    ensures InOrder(q[1..]) && forall c :: c in q[1..] <==> c in q && c != q[0]
  {
    Irreflexive(SortKey(q[0]));
    forall c ensures c in q[1..] <==> c in q && c != q[0] {
      if c in q && c != q[0] {
        var i :| 0 <= i < |q| && q[i] == c;
        assert q[1..][i - 1] == c;
      }
    }
  }

  /** A combination depends on its elements only: not on their order, not on how often they occur. */
  lemma CombineUnique(a: seq<Filter>, b: seq<Filter>, conj: bool)
    requires Absorber(conj) in a <==> Absorber(conj) in b
    requires Absorber(conj) !in a ==> forall c :: c != Identity(conj) ==> (c in a <==> c in b)
    ensures Combine(a, conj) == Combine(b, conj)
  {
    if Absorber(conj) !in a {
      var p, q := Dropping(a, Identity(conj)), Dropping(b, Identity(conj));
      ArrangeInOrder(p);
      ArrangeInOrder(q);
      OrderUnique(Arrange(p), Arrange(q));
    }
  }

  // ---------------------------------------------------------------------------
  // Meaning
  // ---------------------------------------------------------------------------

  /** All (`conj`) or any of the filters match. */
  predicate Together(fs: seq<Filter>, conj: bool, key: Key) {
    if conj then forall f | f in fs :: Matches(f, key) else exists f | f in fs :: Matches(f, key)
  }

  lemma JoinedMatches(fs: seq<Filter>, conj: bool, key: Key)
    ensures Matches(Joined(fs, conj), key) <==> Together(fs, conj, key)
  {
    if conj {
      assert (forall i :: 0 <= i < |fs| ==> Matches(fs[i], key)) <==> (forall f | f in fs :: Matches(f, key));
    } else {
      if Together(fs, conj, key) {
        var f :| f in fs && Matches(f, key);
        var i :| 0 <= i < |fs| && fs[i] == f;
        assert Matches(fs[i], key);
      }
    }
  }

  lemma WrapMatches(q: seq<Filter>, conj: bool, key: Key)
    ensures Matches(Wrap(q, conj), key) <==> Together(q, conj, key)
  {
    if |q| > 1 {
      JoinedMatches(q, conj, key);
    }
  }

  /** Dropping identities, absorbing, removing repeats and sorting change no match. */
  lemma CombineMatches(flat: seq<Filter>, conj: bool, key: Key)
    ensures Matches(Combine(flat, conj), key) <==> Together(flat, conj, key)
  {
    if Absorber(conj) in flat {
    } else {
      var q := Arrange(Dropping(flat, Identity(conj)));
      WrapMatches(q, conj, key);
      assert forall f :: f in q <==> f in flat && f != Identity(conj);
    }
  }

  lemma ConstituentsMatch(f: Filter, conj: bool, key: Key)
    ensures Together(Constituents(f, conj), conj, key) <==> Matches(f, key)
  {
    if (conj && f.And?) || (!conj && f.Or?) {
      JoinedMatches(f.filters, conj, key);
    }
  }

  lemma FlatMatches(cs: seq<Filter>, conj: bool, key: Key)
    ensures Together(Flat(cs, conj), conj, key) <==> Together(cs, conj, key)
  {
    forall i | 0 <= i < |cs| ensures Together(Constituents(cs[i], conj), conj, key) <==> Matches(cs[i], key) {
      ConstituentsMatch(cs[i], conj, key);
    }
    if conj {
      if Together(cs, conj, key) {
        forall f | f in Flat(cs, conj) ensures Matches(f, key) {
          var i :| 0 <= i < |cs| && f in Constituents(cs[i], conj);
          assert cs[i] in cs;
        }
      }
      if Together(Flat(cs, conj), conj, key) {
        forall c | c in cs ensures Matches(c, key) {
          var i :| 0 <= i < |cs| && cs[i] == c;
          assert Together(Constituents(cs[i], conj), conj, key);
        }
      }
    } else {
      if Together(cs, conj, key) {
        var c :| c in cs && Matches(c, key);
        var i :| 0 <= i < |cs| && cs[i] == c;
        assert Together(Constituents(cs[i], conj), conj, key);
        var f :| f in Constituents(cs[i], conj) && Matches(f, key);
        assert f in Flat(cs, conj);
      }
      if Together(Flat(cs, conj), conj, key) {
        var f :| f in Flat(cs, conj) && Matches(f, key);
        var i :| 0 <= i < |cs| && f in Constituents(cs[i], conj);
        assert Together(Constituents(cs[i], conj), conj, key);
        assert cs[i] in cs;
      }
    }
  }

  /** The canonical form matches exactly the keys the filter matches. */
  lemma {:induction false} CanonAgrees(f: Filter, key: Key)
    ensures Matches(Canon(f), key) <==> Matches(f, key)
  {
    if f.And? || f.Or? {
      var conj, fs := f.And?, f.filters;
      forall i | 0 <= i < |fs| ensures Matches(Canon(fs[i]), key) <==> Matches(fs[i], key) {
        CanonAgrees(fs[i], key);
      }
      CanonJoined(fs, conj);
      CombineMatches(Flat(Canons(fs), conj), conj, key);
      FlatMatches(Canons(fs), conj, key);
      CanonsTogether(fs, conj, key);
      JoinedMatches(fs, conj, key);
    } else if f.Wildcard? && AllWild(f.pattern) {
    }
  }

  lemma CanonsTogether(fs: seq<Filter>, conj: bool, key: Key)
    requires forall i :: 0 <= i < |fs| ==> (Matches(Canon(fs[i]), key) <==> Matches(fs[i], key))
    ensures Together(Canons(fs), conj, key) <==> Together(fs, conj, key)
  {
    hide Matches, Canon;
    var cs := Canons(fs);
    assert forall i :: 0 <= i < |fs| ==> fs[i] in fs && cs[i] in cs;
    if conj {
      assert (forall f | f in fs :: Matches(f, key)) <==> forall i :: 0 <= i < |fs| ==> Matches(fs[i], key);
      assert (forall f | f in cs :: Matches(f, key)) <==> forall i :: 0 <= i < |cs| ==> Matches(cs[i], key);
    } else {
      assert (exists f | f in fs :: Matches(f, key)) <==> exists i :: 0 <= i < |fs| && Matches(fs[i], key);
      assert (exists f | f in cs :: Matches(f, key)) <==> exists i :: 0 <= i < |cs| && Matches(cs[i], key);
    }
  }

  // ---------------------------------------------------------------------------
  // One normal form
  // ---------------------------------------------------------------------------

  /** Children with the same canonical forms give the same filter: order, repeats and equals are forgotten. */
  lemma SameChildren(fs: seq<Filter>, gs: seq<Filter>, conj: bool)
    requires forall c :: c in Canons(fs) <==> c in Canons(gs)
    ensures Canon(Joined(fs, conj)) == Canon(Joined(gs, conj))
  {
    SameFlat(Canons(fs), Canons(gs), conj);
    CombineUnique(Flat(Canons(fs), conj), Flat(Canons(gs), conj), conj);
    CanonJoined(fs, conj);
    CanonJoined(gs, conj);
  }

  lemma SameFlat(cs: seq<Filter>, ds: seq<Filter>, conj: bool)
    requires forall c :: c in cs <==> c in ds
    ensures forall c :: c in Flat(cs, conj) <==> c in Flat(ds, conj)
  {
    hide Constituents;
    forall c ensures c in Flat(cs, conj) <==> c in Flat(ds, conj) {
      if c in Flat(cs, conj) {
        var i :| 0 <= i < |cs| && c in Constituents(cs[i], conj);
        assert cs[i] in ds;
        var j :| 0 <= j < |ds| && ds[j] == cs[i];
      }
      if c in Flat(ds, conj) {
        var i :| 0 <= i < |ds| && c in Constituents(ds[i], conj);
        assert ds[i] in cs;
        var j :| 0 <= j < |cs| && cs[j] == ds[i];
      }
    }
  }

  /** Reordering constituents and repeating them change nothing. */
  lemma SameConstituents(fs: seq<Filter>, gs: seq<Filter>, conj: bool)
    requires forall f :: f in fs <==> f in gs
    ensures Canon(Joined(fs, conj)) == Canon(Joined(gs, conj))
  {
    CanonsOf(fs, gs);
    CanonsOf(gs, fs);
    SameChildren(fs, gs, conj);
  }

  lemma CanonsOf(fs: seq<Filter>, gs: seq<Filter>)
    requires forall f :: f in fs ==> f in gs
    ensures forall c :: c in Canons(fs) ==> c in Canons(gs)
  {
    forall c | c in Canons(fs) ensures c in Canons(gs) {
      var i :| 0 <= i < |fs| && Canons(fs)[i] == c;
      assert fs[i] in gs;
      var j :| 0 <= j < |gs| && gs[j] == fs[i];
      assert Canons(gs)[j] == c;
    }
  }

  lemma CanonsConcat(fs: seq<Filter>, gs: seq<Filter>)
    ensures Canons(fs + gs) == Canons(fs) + Canons(gs)
  {
  }

  lemma FlatConcat(cs: seq<Filter>, ds: seq<Filter>, conj: bool)
    ensures forall c :: c in Flat(cs + ds, conj) <==> c in Flat(cs, conj) || c in Flat(ds, conj)
  {
    hide Constituents;
    var both := cs + ds;
    assert forall i :: 0 <= i < |cs| ==> both[i] == cs[i];
    assert forall i :: 0 <= i < |ds| ==> both[|cs| + i] == ds[i];
  }

  /** A canonical constituent: not of the kind it is part of, and neither trivial filter. */
  predicate IsPart(f: Filter, conj: bool) {
    !f.PassAll? && !f.PassNone? && (if conj then !f.And? else !f.Or?)
  }

  predicate IsCanonical(f: Filter) {
    match f
    case Prefix(prefix) => prefix != []
    case Suffix(suffix) => suffix != []
    case Wildcard(pattern) => !AllWild(pattern)
    case And(q) => |q| >= 2 && InOrder(q) && forall i :: 0 <= i < |q| ==> IsCanonical(q[i]) && IsPart(q[i], true)
    case Or(q) => |q| >= 2 && InOrder(q) && forall i :: 0 <= i < |q| ==> IsCanonical(q[i]) && IsPart(q[i], false)
    case _ => true
  }

  lemma CombineCanonical(flat: seq<Filter>, conj: bool)
    requires forall c :: c in flat ==> IsCanonical(c) && (if conj then !c.And? else !c.Or?)
    ensures IsCanonical(Combine(flat, conj))
  {
    if Absorber(conj) !in flat {
      var q := Arrange(Dropping(flat, Identity(conj)));
      ArrangeInOrder(Dropping(flat, Identity(conj)));
      forall i | 0 <= i < |q| ensures IsCanonical(q[i]) && IsPart(q[i], conj) {
        assert q[i] in q;
      }
    }
  }

  /** The flattened constituents of canonical filters are canonical and no longer of that kind. */
  lemma FlatCanonical(cs: seq<Filter>, conj: bool)
    requires forall i :: 0 <= i < |cs| ==> IsCanonical(cs[i])
    ensures forall c :: c in Flat(cs, conj) ==> IsCanonical(c) && (if conj then !c.And? else !c.Or?)
  {
    forall c | c in Flat(cs, conj) ensures IsCanonical(c) && (if conj then !c.And? else !c.Or?) {
      var i :| 0 <= i < |cs| && c in Constituents(cs[i], conj);
    }
  }

  lemma {:induction false} CanonIsCanonical(f: Filter)
    ensures IsCanonical(Canon(f))
  {
    if f.And? || f.Or? {
      forall i | 0 <= i < |f.filters| ensures IsCanonical(Canons(f.filters)[i]) {
        CanonIsCanonical(f.filters[i]);
      }
      FlatCanonical(Canons(f.filters), f.And?);
      CombineCanonical(Flat(Canons(f.filters), f.And?), f.And?);
      CanonJoined(f.filters, f.And?);
    }
  }

  lemma {:induction false} CanonicalFixed(f: Filter)
    requires IsCanonical(f)
    ensures Canon(f) == f
  {
    if f.And? || f.Or? {
      var q, conj := f.filters, f.And?;
      forall i | 0 <= i < |q| ensures Canon(q[i]) == q[i] {
        CanonicalFixed(q[i]);
      }
      assert Canons(q) == q;
      CanonJoined(q, conj);
      PartsCombine(q, conj);
    }
  }

  /** An ordered list of canonical parts is already flat, sorted and free of repeats. */
  lemma PartsCombine(q: seq<Filter>, conj: bool)
    requires |q| >= 2 && InOrder(q) && forall i :: 0 <= i < |q| ==> IsPart(q[i], conj)
    ensures Combine(Flat(q, conj), conj) == Joined(q, conj)
  {
    forall c ensures c in Flat(q, conj) <==> c in q {
      if c in q {
        var i :| 0 <= i < |q| && q[i] == c;
        assert c in Constituents(q[i], conj);
      }
    }
    CombineUnique(Flat(q, conj), q, conj);
    var p := Arrange(Dropping(q, Identity(conj)));
    ArrangeInOrder(Dropping(q, Identity(conj)));
    assert forall c :: c in p <==> c in q;
    OrderUnique(p, q);
  }

  /** Canonical forms are their own canonical forms. */
  lemma CanonIdempotent(f: Filter)
    ensures Canon(Canon(f)) == Canon(f)
  {
    CanonIsCanonical(f);
    CanonicalFixed(Canon(f));
  }

  /** What a combination is made of: itself if it absorbed or is trivial, else the elements but the identity. */
  lemma CombineConstituents(flat: seq<Filter>, conj: bool)
    requires forall c :: c in flat ==> if conj then !c.And? else !c.Or?
    ensures var parts := Constituents(Combine(flat, conj), conj);
            && (Absorber(conj) in parts <==> Absorber(conj) in flat)
            && (Absorber(conj) !in flat ==> forall c :: c != Identity(conj) ==> (c in parts <==> c in flat))
  {
    if Absorber(conj) !in flat {
      var q := Arrange(Dropping(flat, Identity(conj)));
      assert forall c :: c in q <==> c in flat && c != Identity(conj);
      if |q| == 1 {
        assert q == [q[0]] && q[0] in q;
      }
    }
  }

  /** A filter stands for the list it was joined from: the same parts, up to the absorber and the identity. */
  predicate SameParts(joined: Filter, cs: seq<Filter>, conj: bool) {
    var parts, flat := Constituents(joined, conj), Flat(cs, conj);
    && (Absorber(conj) in parts <==> Absorber(conj) in flat)
    && (Absorber(conj) !in flat ==>
          && (forall c | c in parts :: c != Identity(conj) ==> c in flat)
          && (forall c | c in flat :: c != Identity(conj) ==> c in parts))
  }

  lemma InnerParts(inner: seq<Filter>, conj: bool)
    ensures SameParts(Canon(Joined(inner, conj)), Canons(inner), conj)
  {
    var cs := Canons(inner);
    CanonJoined(inner, conj);
    forall i | 0 <= i < |cs| ensures IsCanonical(cs[i]) {
      CanonIsCanonical(inner[i]);
    }
    FlatCanonical(cs, conj);
    CombineConstituents(Flat(cs, conj), conj);
  }

  lemma SplicedFlat(a: seq<Filter>, b: seq<Filter>, c: seq<Filter>, joined: Filter, conj: bool)
    requires SameParts(joined, b, conj)
    ensures Combine(Flat(a + [joined] + c, conj), conj) == Combine(Flat(a + b + c, conj), conj)
  {
    FlatConcat(a + [joined], c, conj);
    FlatConcat(a, [joined], conj);
    FlatConcat(a + b, c, conj);
    FlatConcat(a, b, conj);
    assert forall x :: x in Flat([joined], conj) <==> x in Constituents(joined, conj) by {
      assert Flat([joined], conj) == Constituents(joined, conj);
    }
    hide Flat, Constituents, Combine;
    CombineUnique(Flat(a + [joined] + c, conj), Flat(a + b + c, conj), conj);
  }

  /** An And inside an And, or an Or inside an Or, may be spliced in anywhere. */
  lemma NestingFlattens(pre: seq<Filter>, inner: seq<Filter>, post: seq<Filter>, conj: bool)
    ensures Canon(Joined(pre + [Joined(inner, conj)] + post, conj)) == Canon(Joined(pre + inner + post, conj))
  {
    hide *;
    var joined := Joined(inner, conj);
    InnerParts(inner, conj);
    CanonsConcat(pre + [joined], post);
    CanonsConcat(pre, [joined]);
    CanonsConcat(pre + inner, post);
    CanonsConcat(pre, inner);
    assert Canons([joined]) == [Canon(joined)];
    SplicedFlat(Canons(pre), Canons(inner), Canons(post), Canon(joined), conj);
    CanonJoined(pre + [joined] + post, conj);
    CanonJoined(pre + inner + post, conj);
  }

  // ---------------------------------------------------------------------------
  // The normaliser
  // ---------------------------------------------------------------------------

  /** The list sort by key; ties do not occur, since keys are distinct. */
  method SortByKey(fs: seq<Filter>) returns (q: seq<Filter>)
    ensures q == Arrange(fs)
  {
    q := [];
    for i := 0 to |fs|
      invariant q == Arrange(fs[..i])
    {
      assert fs[..i + 1][..i] == fs[..i];
      q := Place(q, fs[i]);
    }
    assert fs[..|fs|] == fs;
  }

  /** Keep the first filter of every sort key. */
  method Dedup(fs: seq<Filter>) returns (dedup: seq<Filter>)
    ensures forall c :: c in dedup <==> c in fs
    ensures forall i, j :: 0 <= i < j < |dedup| ==> dedup[i] != dedup[j]
  {
    var seen: set<string> := {};
    dedup := [];
    for n := 0 to |fs|
      invariant forall c :: c in dedup <==> c in fs[..n]
      invariant forall k :: k in seen <==> exists i :: 0 <= i < |dedup| && SortKey(dedup[i]) == k
      invariant forall i, j :: 0 <= i < j < |dedup| ==> dedup[i] != dedup[j]
    {
      assert fs[..n + 1] == fs[..n] + [fs[n]];
      var k := SortKey(fs[n]);
      if k !in seen {
        seen := seen + {k};
        ghost var before := dedup;
        dedup := dedup + [fs[n]];
        assert dedup[|before|] == fs[n] && forall i :: 0 <= i < |before| ==> dedup[i] == before[i];
      } else {
        var i :| 0 <= i < |dedup| && SortKey(dedup[i]) == k;
        SortKeyInjective(dedup[i], fs[n]);
      }
    }
    assert fs[..|fs|] == fs;
  }

  method Canonicalize(f: Filter) returns (r: Filter)
    ensures r == Canon(f)
    decreases f, 1
  {
    match f
    case Prefix(prefix) => return if |prefix| == 0 then PassAll else f;
    case Suffix(suffix) => return if |suffix| == 0 then PassAll else f;
    case Wildcard(pattern) => return if AllWild(pattern) then Length(|pattern|) else f;
    case And(fs) =>
      CanonJoined(fs, true);
      r := Simplify(f, true);
    case Or(fs) =>
      CanonJoined(fs, false);
      r := Simplify(f, false);
    case Length(_) => return f;
    case PassAll => return f;
    case PassNone => return f;
  }

  /** Canonicalize the constituents, flatten, absorb, drop identities, drop repeats, sort, collapse. */
  method Simplify(f: Filter, conj: bool) returns (r: Filter)
    requires if conj then f.And? else f.Or?
    ensures r == Combine(Flat(Canons(f.filters), conj), conj)
    decreases f, 0
  {
    var fs := f.filters;
    var children: seq<Filter> := [];
    for i := 0 to |fs|
      invariant children == Canons(fs[..i])
    {
      var c := Canonicalize(fs[i]);
      assert fs[..i + 1] == fs[..i] + [fs[i]];
      CanonsConcat(fs[..i], [fs[i]]);
      children := children + [c];
    }
    assert fs[..|fs|] == fs;
    var flat: seq<Filter> := [];
    for i := 0 to |children|
      invariant flat == Flat(children[..i], conj)
    {
      assert children[..i + 1][..i] == children[..i];
      flat := flat + Constituents(children[i], conj);
    }
    assert children[..|children|] == children;
    if Absorber(conj) in flat {
      return Absorber(conj);
    }
    var dedup := Dedup(Dropping(flat, Identity(conj)));
    var q := SortByKey(dedup);
    ArrangeInOrder(dedup);
    ArrangeInOrder(Dropping(flat, Identity(conj)));
    OrderUnique(q, Arrange(Dropping(flat, Identity(conj))));
    return Wrap(q, conj);
  }
}
