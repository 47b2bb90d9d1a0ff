/** Coarse routing hints: supersets of what a filter matches, cheap for a server to index. */
module RoutingHints {
  import opened Wrappers
  import opened Segments
  import opened Filters

  datatype Hint =
    | PrefixHint(segments: Key)
    | SuffixHint(segments: Key)
    | LengthHint(length: int)
    | WildcardHint(segments: Key, length: int, positions: seq<nat>)
    | AllHint

  /** Fixed positions of a wildcard hint, ascending and inside its length. */
  predicate IsHint(h: Hint) {
    h.WildcardHint? ==>
      && h.length >= 0 && |h.segments| == |h.positions|
      && (forall i :: 0 <= i < |h.positions| ==> h.positions[i] < h.length)
      && (forall i, j :: 0 <= i < j < |h.positions| ==> h.positions[i] < h.positions[j])
  }

  /** Which keys a hint covers. */
  predicate Covers(h: Hint, key: Key)
    requires IsHint(h)
  {
    match h
    case AllHint => true
    case LengthHint(length) => |key| == length
    case PrefixHint(segments) => |key| >= |segments| && key[..|segments|] == segments
    case SuffixHint(segments) => |key| >= |segments| && key[|key| - |segments|..] == segments
    case WildcardHint(segments, length, positions) =>
      |key| == length && forall i :: 0 <= i < |positions| ==> key[positions[i]] == segments[i]
  }

  /** Selectivity, lower is more selective. */
  function Rank(h: Hint): (int, int) {
    match h
    case PrefixHint(segments) => (0, -|segments|)
    case WildcardHint(segments, _, _) => (1, -|segments|)
    case SuffixHint(segments) => (2, -|segments|)
    case LengthHint(_) => (3, 0)
    case AllHint => (9, 0)
  }

  predicate RankBelow(a: (int, int), b: (int, int)) {
    a.0 < b.0 || (a.0 == b.0 && a.1 < b.1)
  }

  function MaxRank(hints: seq<Hint>): (r: (int, int))
    requires hints != []
    ensures exists h :: h in hints && Rank(h) == r
    ensures forall h :: h in hints ==> !RankBelow(r, Rank(h))
  {
    if |hints| == 1 then
      assert hints[0] in hints;
      Rank(hints[0])
    else
      var rest := MaxRank(hints[1..]);
      assert hints == [hints[0]] + hints[1..];
      if RankBelow(rest, Rank(hints[0])) then Rank(hints[0]) else rest
  }

  /** The score of a hint set: its least selective hint, then its size. */
  function Score(hints: seq<Hint>): ((int, int), int)
    requires hints != []
  {
    (MaxRank(hints), |hints|)
  }

  predicate ScoreBelow(a: ((int, int), int), b: ((int, int), int)) {
    RankBelow(a.0, b.0) || (a.0 == b.0 && a.1 < b.1)
  }

  /** Both kinds list segments, and are the same kind. */
  predicate SameListing(a: Hint, b: Hint) {
    (a.PrefixHint? && b.PrefixHint?) || (a.SuffixHint? && b.SuffixHint?) || (a.WildcardHint? && b.WildcardHint?)
  }

  /** The more selective of two hints: by kind, and within a kind the one that fixes more segments. */
  predicate Narrower(a: Hint, b: Hint) {
    || (SameListing(a, b) && |a.segments| > |b.segments|)
    || (a.PrefixHint? && !b.PrefixHint?)
    || (a.WildcardHint? && (b.SuffixHint? || b.LengthHint? || b.AllHint?))
    || (a.SuffixHint? && (b.LengthHint? || b.AllHint?))
    || (a.LengthHint? && b.AllHint?)
  }

  /** The widest hint of `wide` is wider than every hint of `narrow`. */
  ghost predicate NarrowerAll(narrow: seq<Hint>, wide: seq<Hint>) {
    exists h :: h in wide && forall g :: g in narrow ==> Narrower(g, h)
  }

  /** One hint set is to be preferred: its widest hint is narrower, or just as narrow and it has fewer hints. */
  ghost predicate Preferred(a: seq<Hint>, b: seq<Hint>) {
    NarrowerAll(a, b) || (!NarrowerAll(b, a) && |a| < |b|)
  }

  lemma RankIsNarrowness(a: Hint, b: Hint)
    ensures RankBelow(Rank(a), Rank(b)) <==> Narrower(a, b)
  {
  }

  lemma MaxRankIsWidest(a: seq<Hint>, b: seq<Hint>)
    requires a != [] && b != []
    ensures RankBelow(MaxRank(a), MaxRank(b)) <==> NarrowerAll(a, b)
  {
    forall g, h ensures RankBelow(Rank(g), Rank(h)) <==> Narrower(g, h) {
      RankIsNarrowness(g, h);
    }
    var widestA, widestB := MaxRank(a), MaxRank(b);
    var g :| g in a && Rank(g) == widestA;
    var h :| h in b && Rank(h) == widestB;
  }

  /** Scores order hint sets by preference. */
  lemma ScoreIsPreference(a: seq<Hint>, b: seq<Hint>)
    requires a != [] && b != []
    ensures ScoreBelow(Score(a), Score(b)) <==> Preferred(a, b)
  {
    hide MaxRank, NarrowerAll;
    MaxRankIsWidest(a, b);
    MaxRankIsWidest(b, a);
  }

  const ALL: seq<Hint> := [AllHint]

  /** The first child of least score. */
  function Best(children: seq<seq<Hint>>): (b: nat)
    requires children != [] && [] !in children
    ensures b < |children|
    ensures forall i :: 0 <= i < |children| ==> !ScoreBelow(Score(children[i]), Score(children[b]))
    ensures forall i :: 0 <= i < b ==> Score(children[i]) != Score(children[b])
  {
    var n := |children| - 1;
    assert children == children[..n] + [children[n]];
    if n == 0 then 0
    else
      var b := Best(children[..n]);
      if ScoreBelow(Score(children[n]), Score(children[b])) then n else b
  }

  function AndOf(children: seq<seq<Hint>>): seq<Hint> {
    if children == [] then ALL
    else if [] in children then []
    else children[Best(children)]
  }

  /** Nothing is preferred to the choice, and the choice is preferred to every earlier child. */
  ghost predicate Chosen(children: seq<seq<Hint>>, b: nat) {
    && b < |children|
    && (forall i :: 0 <= i < |children| ==> !Preferred(children[i], children[b]))
    && (forall i :: 0 <= i < b ==> Preferred(children[b], children[i]))
  }

  /** What an And's hints are: all keys without children, none if a child has none, else the preferred child's. */
  ghost predicate AndLaw(children: seq<seq<Hint>>, hints: seq<Hint>) {
    && (children == [] ==> hints == [AllHint])
    && ([] in children ==> hints == [])
    && (children != [] && [] !in children ==> exists b: nat :: Chosen(children, b) && hints == children[b])
  }

  lemma ScoresCompare(a: seq<Hint>, b: seq<Hint>)
    requires a != [] && b != []
    requires !ScoreBelow(Score(a), Score(b))
    ensures !Preferred(a, b)
    ensures Score(a) != Score(b) ==> Preferred(b, a)
  {
    hide Preferred, MaxRank;
    ScoreIsPreference(a, b);
    ScoreIsPreference(b, a);
  }

  lemma BestIsPreferred(children: seq<seq<Hint>>, i: nat)
    requires children != [] && [] !in children && i < |children|
    ensures !Preferred(children[i], children[Best(children)])
    ensures i < Best(children) ==> Preferred(children[Best(children)], children[i])
  {
    hide Preferred, Score, ScoreBelow;
    var b := Best(children);
    assert children[i] != [] && children[b] != [];
    ScoresCompare(children[i], children[b]);
  }

  lemma BestIsChosen(children: seq<seq<Hint>>, b: nat)
    requires children != [] && [] !in children && b == Best(children)
    ensures Chosen(children, b)
  {
    hide Best, Preferred;
    forall i: nat | i < |children|
      ensures !Preferred(children[i], children[b]) && (i < b ==> Preferred(children[b], children[i]))
    {
      BestIsPreferred(children, i);
    }
  }

  lemma AndOfLaw(children: seq<seq<Hint>>)
    ensures AndLaw(children, AndOf(children))
  {
    hide Chosen, Best;
    if children != [] && [] !in children {
      BestIsChosen(children, Best(children));
    }
  }

  /** The smallest child by score, the first one on ties. */
  method MostSelective(children: seq<seq<Hint>>) returns (hints: seq<Hint>)
    requires children != [] && [] !in children
    ensures hints == children[Best(children)]
  {
    hide Score, ScoreBelow;
    hints := children[0];
    for i := 1 to |children|
      invariant hints == children[Best(children[..i])]
    {
      assert children[..i + 1][..i] == children[..i];
      if ScoreBelow(Score(children[i]), Score(hints)) {
        hints := children[i];
      }
    }
    assert children[..|children|] == children;
  }

  /** Hints for an And: the most selective child, the first one on ties; nothing if a child has none. */
  method AndHints(children: seq<seq<Hint>>) returns (hints: seq<Hint>)
    ensures hints == AndOf(children)
    ensures AndLaw(children, hints)
  {
    AndOfLaw(children);
    hide AndLaw;
    if |children| == 0 {
      return ALL;
    }
    if [] in children {
      return [];
    }
    hints := MostSelective(children);
  }

  function Flatten(children: seq<seq<Hint>>): (hs: seq<Hint>)
    ensures forall h :: h in hs <==> exists i :: 0 <= i < |children| && h in children[i]
  {
    if children == [] then [] else Flatten(children[..|children| - 1]) + children[|children| - 1]
  }

  /** First occurrences only. */
  function Distinct(hs: seq<Hint>): (r: seq<Hint>)
    ensures forall h :: h in r <==> h in hs
    ensures forall i, j :: 0 <= i < j < |r| ==> r[i] != r[j]
  {
    if hs == [] then []
    else
      var n := |hs| - 1;
      assert hs == hs[..n] + [hs[n]];
      var r := Distinct(hs[..n]);
      if hs[n] in r then r else r + [hs[n]]
  }

  lemma DistinctMore(hs: seq<Hint>, h: Hint)
    ensures Distinct(hs + [h]) == if h in Distinct(hs) then Distinct(hs) else Distinct(hs) + [h]
  {
    assert (hs + [h])[..|hs|] == hs;
  }

  lemma DistinctNext(before: seq<Hint>, c: seq<Hint>, j: nat)
    requires j < |c|
    ensures var some := Distinct(before + c[..j]);
            Distinct(before + c[..j + 1]) == if c[j] in some then some else some + [c[j]]
    ensures AllHint in c[..j + 1] <==> AllHint in c[..j] || c[j] == AllHint
  {
    OneMore(before, c, j);
    hide *;
    DistinctMore(before + c[..j], c[j]);
  }

  lemma OneMore(before: seq<Hint>, c: seq<Hint>, j: nat)
    requires j < |c|
    ensures before + c[..j + 1] == before + c[..j] + [c[j]]
    ensures AllHint in c[..j + 1] <==> AllHint in c[..j] || c[j] == AllHint
  {
    assert c[..j + 1] == c[..j] + [c[j]];
  }

  function OrOf(children: seq<seq<Hint>>): seq<Hint> {
    if AllHint in Flatten(children) then ALL else Distinct(Flatten(children))
  }

  /** Read child by child and hint by hint, `h` comes up before hint `p` of child `a`. */
  ghost predicate ReadBefore(children: seq<seq<Hint>>, a: nat, p: nat, h: Hint)
    requires a < |children| && p <= |children[a]|
  {
    h in children[a][..p] || exists b :: 0 <= b < a && h in children[b]
  }

  /** At every point of reading the children, what was read so far is a first part of the result. */
  ghost predicate InReadingOrder(children: seq<seq<Hint>>, out: seq<Hint>) {
    forall a, p :: 0 <= a < |children| && 0 <= p <= |children[a]| ==> SomePartIs(children, a, p, out)
  }

  ghost predicate SomePartIs(children: seq<seq<Hint>>, a: nat, p: nat, out: seq<Hint>)
    requires a < |children| && p <= |children[a]|
  {
    exists n :: 0 <= n <= |out| && forall h :: h in out[..n] <==> ReadBefore(children, a, p, h)
  }

  /** What an Or's hints are: one that covers all if a child has it, else every child's hints, once each, as read. */
  ghost predicate OrLaw(children: seq<seq<Hint>>, hints: seq<Hint>) {
    if exists i :: 0 <= i < |children| && AllHint in children[i] then hints == [AllHint]
    else
      && (forall h :: h in hints <==> exists i :: 0 <= i < |children| && h in children[i])
      && (forall i, j :: 0 <= i < j < |hints| ==> hints[i] != hints[j])
      && InReadingOrder(children, hints)
  }

  lemma {:induction false} DistinctGrows(before: seq<Hint>, more: seq<Hint>)
    ensures Distinct(before) <= Distinct(before + more)
    decreases |more|
  {
    if more == [] {
      assert before + more == before;
    } else {
      var m := |more| - 1;
      DistinctGrows(before, more[..m]);
      hide *;
      assert before + more == before + more[..m] + [more[m]];
      DistinctMore(before + more[..m], more[m]);
    }
  }

  lemma {:induction false} FlattenSplits(children: seq<seq<Hint>>, a: nat) returns (rest: seq<Hint>)
    requires a < |children|
    ensures Flatten(children) == Flatten(children[..a]) + children[a] + rest
    decreases |children|
  {
    var n := |children| - 1;
    if a == n {
      rest := [];
    } else {
      assert children[..n][..a] == children[..a];
      var less := FlattenSplits(children[..n], a);
      rest := less + children[n];
    }
  }

  lemma OrOfLaw(children: seq<seq<Hint>>)
    ensures OrLaw(children, OrOf(children))
  {
    if AllHint !in Flatten(children) {
      var out := Distinct(Flatten(children));
      hide Distinct, Flatten, SomePartIs;
      forall a, p | 0 <= a < |children| && 0 <= p <= |children[a]| ensures SomePartIs(children, a, p, out) {
        PartIs(children, a, p);
      }
    }
  }

  lemma PartIs(children: seq<seq<Hint>>, a: nat, p: nat)
    requires a < |children| && p <= |children[a]|
    ensures SomePartIs(children, a, p, Distinct(Flatten(children)))
  {
    var rest := FlattenSplits(children, a);
    var read := Flatten(children[..a]) + children[a][..p];
    assert Flatten(children) == read + (children[a][p..] + rest);
    DistinctGrows(read, children[a][p..] + rest);
    var out := Distinct(Flatten(children));
    hide Distinct, Flatten;
    assert out[..|Distinct(read)|] == Distinct(read);
    forall h ensures h in Distinct(read) <==> ReadBefore(children, a, p, h) {
      assert h in read <==> h in Flatten(children[..a]) || h in children[a][..p];
      assert h in Flatten(children[..a]) <==> exists b :: 0 <= b < a && h in children[..a][b];
      assert forall b :: 0 <= b < a ==> children[..a][b] == children[b];
    }
  }

  /** One child's hints that are new, in order; stops at a hint that covers all. */
  method AddNew(out: seq<Hint>, c: seq<Hint>, ghost before: seq<Hint>) returns (more: seq<Hint>, all: bool)
    requires out == Distinct(before)
    ensures all <==> AllHint in c
    ensures !all ==> more == Distinct(before + c)
  {
    hide *;
    more := out;
    assert before + c[..0] == before && c[..0] == [];
    for j := 0 to |c|
      invariant AllHint !in c[..j] && more == Distinct(before + c[..j])
    {
      if c[j] == AllHint {
        return more, true;
      }
      DistinctNext(before, c, j);
      if c[j] !in more {
        more := more + [c[j]];
      }
    }
    assert c[..|c|] == c;
    return more, false;
  }

  /** Hints for an Or: every child's hints, once each, in order; one that covers all covers all. */
  method OrHints(children: seq<seq<Hint>>) returns (out: seq<Hint>)
    ensures out == OrOf(children)
    ensures OrLaw(children, out)
  {
    OrOfLaw(children);
    hide OrLaw;
    out := [];
    for i := 0 to |children|
      invariant AllHint !in Flatten(children[..i])
      invariant out == Distinct(Flatten(children[..i]))
    {
      var more, all := AddNew(out, children[i], Flatten(children[..i]));
      if all {
        assert AllHint in children[i];
        return ALL;
      }
      assert children[..i + 1][..i] == children[..i];
      out := more;
    }
    assert children[..|children|] == children;
  }

  // ---------------------------------------------------------------------------
  // The hints of a filter
  // ---------------------------------------------------------------------------

  /** The positions below `n` that a pattern fixes. */
  function Fixed(pattern: Key, n: nat): (ps: seq<nat>)
    requires n <= |pattern|
    ensures forall i :: 0 <= i < |ps| ==> ps[i] < n && pattern[ps[i]] != WILDCARD
    ensures forall i, j :: 0 <= i < j < |ps| ==> ps[i] < ps[j]
    ensures forall p: nat :: p < n && pattern[p] != WILDCARD ==> p in ps
  {
    if n == 0 then []
    else Fixed(pattern, n - 1) + (if pattern[n - 1] != WILDCARD then [n - 1] else [])
  }

  function Hints(f: Filter): (hints: seq<Hint>)
  {
    match f
    case Prefix(prefix) => if prefix != [] then [PrefixHint(prefix)] else ALL
    case Suffix(suffix) => if suffix != [] then [SuffixHint(suffix)] else ALL
    case Length(length) => if length >= 0 then [LengthHint(length)] else []
    case Wildcard(pattern) =>
      var ps := Fixed(pattern, |pattern|);
      if ps == [] then [LengthHint(|pattern|)]
      else [WildcardHint(seq(|ps|, i requires 0 <= i < |ps| => pattern[ps[i]]), |pattern|, ps)]
    case And(fs) => AndOf(seq(|fs|, i requires 0 <= i < |fs| => Hints(fs[i])))
    case Or(fs) => OrOf(seq(|fs|, i requires 0 <= i < |fs| => Hints(fs[i])))
    case PassAll => ALL
    case PassNone => []
  }

  /** The hints of each child. */
  function ChildHints(fs: seq<Filter>): seq<seq<Hint>> {
    seq(|fs|, i requires 0 <= i < |fs| => Hints(fs[i]))
  }

  /** An And is looked up by its preferred child and an Or by all its children; what matches nothing has no hint. */
  lemma HintsOfCombined(f: Filter)
    ensures f.And? ==> AndLaw(ChildHints(f.filters), Hints(f))
    ensures f.Or? ==> OrLaw(ChildHints(f.filters), Hints(f))
    ensures f.PassNone? ==> Hints(f) == []
  {
    if f.And? || f.Or? {
      var children := seq(|f.filters|, i requires 0 <= i < |f.filters| => Hints(f.filters[i]));
      assert children == ChildHints(f.filters);
      hide AndLaw, OrLaw;
      AndOfLaw(children);
      OrOfLaw(children);
    }
  }

  ghost predicate AllHints(hints: seq<Hint>) {
    forall h :: h in hints ==> IsHint(h)
  }

  lemma AndOfChild(children: seq<seq<Hint>>)
    ensures AndOf(children) == ALL || AndOf(children) in children
  {
    if [] in children {
    } else if children != [] {
      assert children[Best(children)] in children;
    }
  }

  lemma {:induction false} HintsAreHints(f: Filter)
    ensures AllHints(Hints(f))
  {
    if f.And? || f.Or? {
      var children := seq(|f.filters|, i requires 0 <= i < |f.filters| => Hints(f.filters[i]));
      forall i | 0 <= i < |children| ensures AllHints(children[i]) {
        HintsAreHints(f.filters[i]);
      }
      if f.And? {
        AndOfChild(children);
      }
    }
  }

  /** Some hint covers the key. */
  predicate Covered(hints: seq<Hint>, key: Key) {
    exists i :: 0 <= i < |hints| && IsHint(hints[i]) && Covers(hints[i], key)
  }

  lemma CoveredBy(hints: seq<Hint>, h: Hint, key: Key)
    requires h in hints && IsHint(h) && Covers(h, key)
    ensures Covered(hints, key)
  {
    var i :| 0 <= i < |hints| && hints[i] == h;
  }

  /** Hints never under-cover: every key the filter matches is covered by one of its hints. */
  lemma {:induction false} NeverUnderCover(f: Filter, key: Key)
    requires Matches(f, key)
    ensures Covered(Hints(f), key)
  {
    match f
    case And(fs) =>
      var children := seq(|fs|, i requires 0 <= i < |fs| => Hints(fs[i]));
      forall i | 0 <= i < |fs| ensures Covered(children[i], key) {
        NeverUnderCover(fs[i], key);
      }
      AndOfChild(children);
      if AndOf(children) == ALL {
        CoveredBy(ALL, AllHint, key);
      }
    case Or(fs) =>
      var children := seq(|fs|, i requires 0 <= i < |fs| => Hints(fs[i]));
      var i :| 0 <= i < |fs| && Matches(fs[i], key);
      NeverUnderCover(fs[i], key);
      var j :| 0 <= j < |children[i]| && IsHint(children[i][j]) && Covers(children[i][j], key);
      OrOfHolds(children, i, children[i][j], key);
    case Prefix(prefix) => LeafCovered(f, key);
    case Suffix(suffix) => LeafCovered(f, key);
    case Length(_) => LeafCovered(f, key);
    case Wildcard(_) => LeafCovered(f, key);
    case PassAll => CoveredBy(ALL, AllHint, key);
  }

  lemma OrOfHolds(children: seq<seq<Hint>>, i: nat, h: Hint, key: Key)
    requires i < |children| && h in children[i] && IsHint(h) && Covers(h, key)
    ensures Covered(OrOf(children), key)
  {
    if AllHint in Flatten(children) {
      CoveredBy(ALL, AllHint, key);
    } else {
      CoveredBy(Distinct(Flatten(children)), h, key);
    }
  }

  lemma LeafCovered(f: Filter, key: Key)
    requires Matches(f, key) && (f.Prefix? || f.Suffix? || f.Length? || f.Wildcard?)
    ensures Covered(Hints(f), key)
  {
    var h := Hints(f)[0];
    CoveredBy(Hints(f), h, key);
  }

  /** The key has the pattern's segments at the given positions. */
  predicate AgreesAt(pattern: Key, key: Key, ps: seq<nat>)
    requires |key| == |pattern| && forall i :: 0 <= i < |ps| ==> ps[i] < |pattern|
  {
    forall i :: 0 <= i < |ps| ==> key[ps[i]] == pattern[ps[i]]
  }

  /** Outside the wildcards a pattern is matched at its fixed positions. */
  lemma FixedDecide(pattern: Key, key: Key)
    requires |key| == |pattern|
    ensures Matches(Wildcard(pattern), key) <==> AgreesAt(pattern, key, Fixed(pattern, |pattern|))
  {
    var ps := Fixed(pattern, |pattern|);
    if AgreesAt(pattern, key, ps) {
      forall p | 0 <= p < |key| && pattern[p] != WILDCARD ensures key[p] == pattern[p] {
        assert p in ps;
      }
    } else {
      var i :| 0 <= i < |ps| && key[ps[i]] != pattern[ps[i]];
      assert pattern[ps[i]] != WILDCARD;
    }
  }

  lemma WildcardHintExact(pattern: Key, key: Key)
    requires !Matches(Wildcard(pattern), key)
    ensures !Covered(Hints(Wildcard(pattern)), key)
  {
    var h := Hints(Wildcard(pattern))[0];
    if |key| == |pattern| {
      FixedDecide(pattern, key);
      hide Matches;
      var ps := Fixed(pattern, |pattern|);
      assert !AgreesAt(pattern, key, ps);
      var i :| 0 <= i < |ps| && key[ps[i]] != pattern[ps[i]];
      assert h.positions[i] == ps[i] && h.segments[i] == pattern[ps[i]];
    }
    assert IsHint(h) ==> !Covers(h, key);
  }

  /** A single leaf's hint is exact: it covers nothing the filter does not match. */
  lemma LeafHintExact(f: Filter, key: Key)
    requires f.Prefix? || f.Suffix? || f.Length? || f.Wildcard?
    ensures Covered(Hints(f), key) <==> Matches(f, key)
  {
    if Matches(f, key) {
      LeafCovered(f, key);
    } else if f.Wildcard? {
      WildcardHintExact(f.pattern, key);
    } else if Hints(f) != [] {
      var h := Hints(f)[0];
      assert Hints(f) == [h] && !Covers(h, key);
    }
  }
}
