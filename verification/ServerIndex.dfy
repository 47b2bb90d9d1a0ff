/**
 The server's routing index: which observers' filter hashes are stored under which entry, how many
 entries use a field, and which keys are published to whom.
 */
module ServerIndex {
  import opened Wrappers
  import opened Segments
  import opened Decimals
  import opened KeyEncoding
  import opened Filters
  import opened Canonical
  import opened RoutingHints
  import opened HintEntries

  type Hash = nat
  type Field = (char, string)

  // ---------------------------------------------------------------------------
  // Reading a field back
  // ---------------------------------------------------------------------------

  function DigitRun(s: string): (n: nat)
    ensures n <= |s| && AllDecimal(s[..n]) && (n < |s| ==> !IsDecimal(s[n]))
  {
    if s == [] || !IsDecimal(s[0]) then 0 else 1 + DigitRun(s[1..])
  }

  /** Every run of digits in a text. */
  function ParseNats(s: string): seq<nat>
    decreases |s|
  {
    if s == [] then []
    else if !IsDecimal(s[0]) then ParseNats(s[1..])
    else
      var n := DigitRun(s);
      [TextValue(s[..n])] + ParseNats(s[n..])
  }

  /** The key length and the fixed positions of a wildcard field. */
  function ParseWild(field: string): (nat, seq<nat>) {
    var n := DigitRun(field);
    (TextValue(field[..n]), ParseNats(field[n..]))
  }

  lemma {:induction false} RunIs(u: string, k: nat)
    requires k <= |u| && (forall i :: 0 <= i < k ==> IsDecimal(u[i])) && (k < |u| ==> !IsDecimal(u[k]))
    ensures DigitRun(u) == k
  {
    if k > 0 {
      RunIs(u[1..], k - 1);
    }
  }

  lemma RunOf(n: nat, x: char, s: string)
    requires !IsDecimal(x)
    ensures var u := NatText(n) + [x] + s;
            DigitRun(u) == |NatText(n)| && u[..DigitRun(u)] == NatText(n) && u[DigitRun(u)..] == [x] + s
  {
    hide DigitRun;
    var t := NatText(n);
    var u := t + [x] + s;
    assert u[|t|] == x;
    assert forall i :: 0 <= i < |t| ==> u[i] == t[i];
    RunIs(u, |t|);
    assert u[..|t|] == t && u[|t|..] == [x] + s;
  }

  lemma RunOfAll(n: nat)
    ensures DigitRun(NatText(n)) == |NatText(n)| && NatText(n)[..|NatText(n)|] == NatText(n)
  {
    RunIs(NatText(n), |NatText(n)|);
  }

  lemma {:induction false} ParsePositions(ps: seq<nat>)
    ensures ParseNats(PosText(ps)) == ps
  {
    if |ps| == 1 {
      RunOfAll(ps[0]);
      TextReadsBack(ps[0]);
      assert NatText(ps[0])[|NatText(ps[0])|..] == [];
    } else if |ps| > 1 {
      var rest := PosText(ps[1..]);
      assert PosText(ps) == NatText(ps[0]) + [','] + rest;
      RunOf(ps[0], ',', rest);
      TextReadsBack(ps[0]);
      ParsePositions(ps[1..]);
      assert ([','] + rest)[1..] == rest;
      assert ps == [ps[0]] + ps[1..];
    }
  }

  lemma ParseWildField(n: nat, ps: seq<nat>)
    ensures ParseWild(WildField(n, ps)) == (n, ps)
  {
    RunOf(n, ':', PosText(ps));
    TextReadsBack(n);
    ParsePositions(ps);
    assert ([':'] + PosText(ps))[1..] == PosText(ps);
  }

  // ---------------------------------------------------------------------------
  // Lookups
  // ---------------------------------------------------------------------------

  /** A field as an entry of a filter carries it. */
  ghost predicate IsField(f: Field) {
    && (f.0 == 'p' || f.0 == 's' ==> exists d: nat :: f.1 == NatText(d))
    && (f.0 == 'w' ==> exists n: nat, ps :: f.1 == WildField(n, ps) && InRange(ps, n))
  }

  predicate IsCounted(kind: char) {
    kind == 'p' || kind == 's' || kind == 'w'
  }

  /** The entry looked up for a counted field and an encoded key, if the key is long enough. */
  function Probe(f: Field, segs: seq<string>): Option<Entry> {
    var n := |segs|;
    if f.0 == 'p' && AllDecimal(f.1) then
      var d := TextValue(f.1);
      if d <= n then Some(Entry('p', NatText(d), Join(segs[..d]))) else None
    else if f.0 == 's' && AllDecimal(f.1) then
      var d := TextValue(f.1);
      if d <= n then Some(Entry('s', NatText(d), Join(segs[n - d..]))) else None
    else if f.0 == 'w' then
      var (m, ps) := ParseWild(f.1);
      if m == n && InRange(ps, n) then Some(Entry('w', f.1, Join(Picked(segs, ps)))) else None
    else None
  }

  /** A counted entry is looked up for exactly the keys it matches. */
  lemma ProbeExact(e: Entry, segs: seq<string>)
    requires IsCounted(e.kind) && IsField((e.kind, e.field))
    ensures EntryMatches(e, segs) <==> Probe((e.kind, e.field), segs) == Some(e)
  {
    if e.kind == 'w' {
      var n: nat, ps :| e.field == WildField(n, ps) && InRange(ps, n);
      ParseWildField(n, ps);
      if EntryMatches(e, segs) {
        var qs :| InRange(qs, |segs|) && e.field == WildField(|segs|, qs) && e.enc == Join(Picked(segs, qs));
        WildFieldTells(n, ps, |segs|, qs);
      }
    } else {
      var d: nat :| e.field == NatText(d);
      TextReadsBack(d);
      if EntryMatches(e, segs) {
        if e.kind == 'p' {
          var c: nat :| c <= |segs| && e.field == NatText(c) && e.enc == Join(segs[..c]);
          NatTextTells(c, d);
        } else {
          var c: nat :| c <= |segs| && e.field == NatText(c) && e.enc == Join(segs[|segs| - c..]);
          NatTextTells(c, d);
        }
      }
    }
  }

  lemma ProbeMatches(f: Field, segs: seq<string>, e: Entry)
    requires IsField(f) && Probe(f, segs) == Some(e)
    ensures EntryMatches(e, segs)
  {
    if f.0 == 'w' {
      var n: nat, ps :| f.1 == WildField(n, ps) && InRange(ps, n);
      ParseWildField(n, ps);
    } else {
      var d: nat :| f.1 == NatText(d);
      TextReadsBack(d);
    }
  }

  // ---------------------------------------------------------------------------
  // How many entries use a field
  // ---------------------------------------------------------------------------

  type Refs = map<Hash, seq<Entry>>

  function Uses(e: Entry, f: Field): nat {
    if IsCounted(e.kind) && (e.kind, e.field) == f then 1 else 0
  }

  function UsesIn(entries: seq<Entry>, f: Field): nat {
    if entries == [] then 0 else UsesIn(entries[..|entries| - 1], f) + Uses(entries[|entries| - 1], f)
  }

  ghost function Tally(refs: Refs, f: Field): nat
    decreases |refs|
  {
    if refs == map[] then 0
    else
      var h :| h in refs;
      UsesIn(refs[h], f) + Tally(refs - {h}, f)
  }

  lemma {:induction false} TallyWithout(refs: Refs, h: Hash, f: Field)
    requires h in refs
    ensures Tally(refs, f) == UsesIn(refs[h], f) + Tally(refs - {h}, f)
    decreases |refs|
  {
    var g :| g in refs && Tally(refs, f) == UsesIn(refs[g], f) + Tally(refs - {g}, f);
    if g != h {
      TallyWithout(refs - {g}, h, f);
      TallyWithout(refs - {h}, g, f);
      assert refs - {g} - {h} == refs - {h} - {g};
    }
  }

  lemma TallyWith(refs: Refs, h: Hash, entries: seq<Entry>, f: Field)
    requires h !in refs
    ensures Tally(refs[h := entries], f) == UsesIn(entries, f) + Tally(refs, f)
  {
    TallyWithout(refs[h := entries], h, f);
    assert refs[h := entries] - {h} == refs;
  }

  lemma {:induction false} UsedIn(entries: seq<Entry>, e: Entry)
    requires e in entries && IsCounted(e.kind)
    ensures UsesIn(entries, (e.kind, e.field)) > 0
  {
    if e != entries[|entries| - 1] {
      UsedIn(entries[..|entries| - 1], e);
    }
  }

  /** Where the entries of a counted kind that use the field stand: which hash, and which of its entries. */
  ghost function UsePlaces(refs: Refs, f: Field): set<(Hash, nat)> {
    set h, i | h in refs && 0 <= i < |refs[h]| && IsCounted(refs[h][i].kind)
            && (refs[h][i].kind, refs[h][i].field) == f :: (h, i)
  }

  lemma PlacesMore(h: Hash, entries: seq<Entry>, f: Field)
    requires entries != []
    ensures var n := |entries| - 1;
            var before := UsePlaces(map[h := entries[..n]], f);
            (h, n) !in before
            && UsePlaces(map[h := entries], f) == before + (if Uses(entries[n], f) == 1 then {(h, n)} else {})
  {
    hide IsCounted;
  }

  lemma {:induction false} PlacesOfOne(h: Hash, entries: seq<Entry>, f: Field)
    ensures UsesIn(entries, f) == |UsePlaces(map[h := entries], f)|
  {
    if entries == [] {
      assert UsePlaces(map[h := entries], f) == {};
    } else {
      hide UsePlaces;
      PlacesOfOne(h, entries[..|entries| - 1], f);
      PlacesMore(h, entries, f);
    }
  }

  lemma PlacesApart(refs: Refs, h: Hash, f: Field)
    requires h in refs
    ensures |UsePlaces(refs, f)| == |UsePlaces(map[h := refs[h]], f)| + |UsePlaces(refs - {h}, f)|
  {
    hide IsCounted;
    var own, others := UsePlaces(map[h := refs[h]], f), UsePlaces(refs - {h}, f);
    assert UsePlaces(refs, f) == own + others;
    hide *;
    assert own !! others;
  }

  /** The tally of a field is how many entries of all registered hashes use it. */
  lemma {:induction false} TallyIsUses(refs: Refs, f: Field)
    ensures Tally(refs, f) == |UsePlaces(refs, f)|
    decreases |refs|
  {
    if refs == map[] {
      assert UsePlaces(refs, f) == {};
    } else {
      var h :| h in refs;
      TallyIsUses(refs - {h}, f);
      hide *;
      TallyWithout(refs, h, f);
      PlacesOfOne(h, refs[h], f);
      PlacesApart(refs, h, f);
    }
  }

  // ---------------------------------------------------------------------------
  // The index
  // ---------------------------------------------------------------------------

  type Sets = map<Entry, set<Hash>>
  type Counts = map<Field, int>

  function Members(sets: Sets, e: Entry): set<Hash> {
    if e in sets then sets[e] else {}
  }

  function Count(counts: Counts, f: Field): int {
    if f in counts then counts[f] else 0
  }

  /** An entry as `EntriesOf` makes them. */
  ghost predicate IsEntry(e: Entry) {
    if IsCounted(e.kind) then IsField((e.kind, e.field)) else e == ALL_ENTRY || (e.kind == 'l' && e.enc == "")
  }

  ghost predicate SetsMatch(sets: Sets, refs: Refs) {
    forall e, h :: h in Members(sets, e) <==> h in refs && e in refs[h]
  }

  ghost predicate CountsMatch(counts: Counts, refs: Refs) {
    forall f :: Count(counts, f) == Tally(refs, f) && (f in counts ==> counts[f] > 0)
  }

  ghost predicate AllEntries(refs: Refs) {
    forall h, e :: h in refs && e in refs[h] ==> IsEntry(e)
  }

  /** Some entry of a registered hash matches the encoded key. */
  ghost predicate Wants(refs: Refs, h: Hash, segs: seq<string>) {
    h in refs && exists e :: e in refs[h] && EntryMatches(e, segs)
  }

  /** Sets and counts once `h` was added under the entries. */
  ghost predicate Added(sets0: Sets, counts0: Counts, sets: Sets, counts: Counts, h: Hash, entries: seq<Entry>) {
    SetsAdded(sets0, sets, h, entries) && CountsAdded(counts0, counts, entries)
  }

  /** Sets and counts once `h` was taken out from under the entries. */
  ghost predicate Removed(sets0: Sets, counts0: Counts, sets: Sets, counts: Counts, h: Hash, entries: seq<Entry>) {
    && (forall e, x :: x in Members(sets, e) <==> x in Members(sets0, e) && !(x == h && e in entries))
    && CountsRemoved(counts0, counts, entries)
  }

  lemma AddedMatches(sets0: Sets, counts0: Counts, sets: Sets, counts: Counts, refs: Refs, h: Hash, entries: seq<Entry>)
    requires SetsMatch(sets0, refs) && CountsMatch(counts0, refs) && h !in refs
    requires Added(sets0, counts0, sets, counts, h, entries)
    ensures SetsMatch(sets, refs[h := entries]) && CountsMatch(counts, refs[h := entries])
  {
    forall f ensures Count(counts, f) == Tally(refs[h := entries], f) && (f in counts ==> counts[f] > 0) {
      TallyWith(refs, h, entries, f);
      assert Count(counts, f) == Count(counts0, f) + UsesIn(entries, f);
    }
  }

  lemma RemovedMatches(sets0: Sets, counts0: Counts, sets: Sets, counts: Counts, refs: Refs, h: Hash)
    requires SetsMatch(sets0, refs) && CountsMatch(counts0, refs) && h in refs
    requires Removed(sets0, counts0, sets, counts, h, refs[h])
    ensures SetsMatch(sets, refs - {h}) && CountsMatch(counts, refs - {h})
  {
    forall f ensures Count(counts, f) == Tally(refs - {h}, f) && (f in counts ==> counts[f] > 0) {
      TallyWithout(refs, h, f);
    }
  }

  /** One more entry: the entries seen so far, and the uses of every field. */
  lemma FieldsMore(entries: seq<Entry>, i: nat)
    requires i < |entries|
    ensures forall e :: e in entries[..i + 1] <==> e in entries[..i] || e == entries[i]
    ensures forall f :: UsesIn(entries[..i + 1], f) == UsesIn(entries[..i], f) + Uses(entries[i], f)
  {
    assert entries[..i + 1] == entries[..i] + [entries[i]] && entries[..i + 1][..i] == entries[..i];
  }

  lemma RemovedNone(sets: Sets, counts: Counts, h: Hash, refs: Refs)
    requires CountsMatch(counts, refs) && h in refs
    ensures Removed(sets, counts, sets, counts, h, refs[h][..0])
  {
    assert refs[h][..0] == [];
    forall f ensures f in counts ==> counts[f] > 0 {
      assert Count(counts, f) == Tally(refs, f);
    }
  }

  lemma {:induction false} UsesMonotone(entries: seq<Entry>, i: nat, f: Field)
    requires i <= |entries|
    ensures UsesIn(entries[..i], f) <= UsesIn(entries, f)
    decreases |entries| - i
  {
    if i < |entries| {
      assert entries[..i + 1][..i] == entries[..i];
      UsesMonotone(entries, i + 1, f);
    } else {
      assert entries[..i] == entries;
    }
  }

  /** A registered entry's use is still counted when its turn to be removed comes. */
  lemma EnoughUses(refs: Refs, h: Hash, i: nat, f: Field)
    requires h in refs && i < |refs[h]|
    ensures UsesIn(refs[h][..i], f) + Uses(refs[h][i], f) <= Tally(refs, f)
  {
    FieldsMore(refs[h], i);
    UsesMonotone(refs[h], i + 1, f);
    TallyWithout(refs, h, f);
  }

  ghost predicate CountsAdded(counts0: Counts, counts: Counts, entries: seq<Entry>) {
    && (forall f :: Count(counts, f) == Count(counts0, f) + UsesIn(entries, f))
    && (forall f :: f in counts ==> f in counts0 || counts[f] > 0)
  }

  ghost predicate CountsRemoved(counts0: Counts, counts: Counts, entries: seq<Entry>) {
    && (forall f :: Count(counts, f) == Count(counts0, f) - UsesIn(entries, f))
    && (forall f :: f in counts ==> counts[f] > 0)
  }

  ghost predicate SetsAdded(sets0: Sets, sets: Sets, h: Hash, entries: seq<Entry>) {
    forall e, x :: x in Members(sets, e) <==> x in Members(sets0, e) || (x == h && e in entries)
  }

  lemma MembersMore(sets0: Sets, sets: Sets, h: Hash, entries: seq<Entry>, i: nat)
    requires i < |entries| && SetsAdded(sets0, sets, h, entries[..i])
    ensures SetsAdded(sets0, sets[entries[i] := Members(sets, entries[i]) + {h}], h, entries[..i + 1])
  {
    FieldsMore(entries, i);
    var e := entries[i];
    var more := sets[e := Members(sets, e) + {h}];
    forall d, x ensures x in Members(more, d) <==> x in Members(sets0, d) || (x == h && d in entries[..i + 1]) {
      assert x in Members(more, d) <==> x in Members(sets, d) || (d == e && x == h);
      assert x in Members(sets, d) <==> x in Members(sets0, d) || (x == h && d in entries[..i]);
      assert d in entries[..i + 1] <==> d in entries[..i] || d == e;
    }
  }

  function Bumped(counts: Counts, e: Entry): Counts {
    if IsCounted(e.kind) then counts[(e.kind, e.field) := Count(counts, (e.kind, e.field)) + 1] else counts
  }

  function Lowered(counts: Counts, e: Entry): Counts {
    if !IsCounted(e.kind) then counts
    else
      var f := (e.kind, e.field);
      var left := Count(counts, f) - 1;
      if left <= 0 then counts - {f} else counts[f := left]
  }

  lemma AddedMore(counts0: Counts, counts: Counts, entries: seq<Entry>, i: nat)
    requires i < |entries| && CountsAdded(counts0, counts, entries[..i])
    ensures CountsAdded(counts0, Bumped(counts, entries[i]), entries[..i + 1])
  {
    FieldsMore(entries, i);
    var e := entries[i];
    var more := Bumped(counts, e);
    forall f ensures Count(more, f) == Count(counts0, f) + UsesIn(entries[..i + 1], f) {
      assert Count(more, f) == Count(counts, f) + Uses(e, f);
    }
    forall f | f in more ensures f in counts0 || more[f] > 0 {
      if f !in counts0 {
        assert Count(counts, f) >= 0;
      }
    }
  }

  lemma RemovedMore(counts0: Counts, counts: Counts, refs: Refs, h: Hash, i: nat)
    requires h in refs && i < |refs[h]| && CountsMatch(counts0, refs) && CountsRemoved(counts0, counts, refs[h][..i])
    ensures CountsRemoved(counts0, Lowered(counts, refs[h][i]), refs[h][..i + 1])
  {
    FieldsMore(refs[h], i);
    var e := refs[h][i];
    var less := Lowered(counts, e);
    EnoughUses(refs, h, i, (e.kind, e.field));
    forall f ensures Count(less, f) == Count(counts0, f) - UsesIn(refs[h][..i + 1], f) {
      assert Count(counts0, f) == Tally(refs, f);
      assert Count(counts, f) == Count(counts0, f) - UsesIn(refs[h][..i], f);
      assert Count(less, f) == Count(counts, f) - Uses(e, f);
    }
  }

  /** Looking up the fields not in `todo` found exactly these hashes. */
  ghost predicate Looked(sets: Sets, counts: Counts, segs: seq<string>, cand: set<Hash>, todo: set<Field>) {
    forall h :: h in cand <==>
      || h in Members(sets, ALL_ENTRY)
      || h in Members(sets, Entry('l', NatText(|segs|), ""))
      || exists f :: f in counts && f !in todo && Probe(f, segs).Some? && h in Members(sets, Probe(f, segs).value)
  }

  /** Every field in use is a field of some entry. */
  lemma FieldsInUse(counts: Counts, refs: Refs, f: Field)
    requires CountsMatch(counts, refs) && AllEntries(refs) && f in counts
    ensures IsField(f)
  {
    assert Count(counts, f) == Tally(refs, f);
    TallyFinds(refs, f);
  }

  lemma {:induction false} TallyFinds(refs: Refs, f: Field)
    requires Tally(refs, f) > 0 && AllEntries(refs)
    ensures IsField(f)
    decreases |refs|
  {
    var h :| h in refs && Tally(refs, f) == UsesIn(refs[h], f) + Tally(refs - {h}, f);
    if UsesIn(refs[h], f) > 0 {
      UsesFind(refs[h], f);
    } else {
      TallyFinds(refs - {h}, f);
    }
  }

  lemma {:induction false} UsesFind(entries: seq<Entry>, f: Field)
    requires UsesIn(entries, f) > 0 && forall e :: e in entries ==> IsEntry(e)
    ensures IsField(f)
  {
    var n := |entries| - 1;
    if Uses(entries[n], f) == 0 {
      UsesFind(entries[..n], f);
    } else {
      assert IsEntry(entries[n]);
    }
  }

  /** The lookups find exactly the hashes with a matching entry. */
  lemma LookedAll(sets: Sets, counts: Counts, refs: Refs, segs: seq<string>, cand: set<Hash>)
    requires SetsMatch(sets, refs) && CountsMatch(counts, refs) && AllEntries(refs)
    requires Looked(sets, counts, segs, cand, {})
    ensures forall h :: h in cand <==> Wants(refs, h, segs)
  {
    forall h ensures h in cand <==> Wants(refs, h, segs) {
      if Wants(refs, h, segs) {
        WantedIsFound(sets, counts, refs, segs, h);
      }
      if h in cand {
        FoundIsWanted(sets, counts, refs, segs, h);
      }
    }
  }

  ghost predicate Found(sets: Sets, counts: Counts, segs: seq<string>, h: Hash) {
    || h in Members(sets, ALL_ENTRY)
    || h in Members(sets, Entry('l', NatText(|segs|), ""))
    || exists f :: f in counts && Probe(f, segs).Some? && h in Members(sets, Probe(f, segs).value)
  }

  lemma WantedIsFound(sets: Sets, counts: Counts, refs: Refs, segs: seq<string>, h: Hash)
    requires SetsMatch(sets, refs) && CountsMatch(counts, refs) && AllEntries(refs) && Wants(refs, h, segs)
    ensures Found(sets, counts, segs, h)
  {
    var e :| e in refs[h] && EntryMatches(e, segs);
    assert h in Members(sets, e) && IsEntry(e);
    if IsCounted(e.kind) {
      var f := (e.kind, e.field);
      ProbeExact(e, segs);
      UsedIn(refs[h], e);
      TallyWithout(refs, h, f);
      assert Count(counts, f) > 0;
    } else if e != ALL_ENTRY {
      assert e == Entry('l', NatText(|segs|), "");
    }
  }

  lemma FoundIsWanted(sets: Sets, counts: Counts, refs: Refs, segs: seq<string>, h: Hash)
    requires SetsMatch(sets, refs) && CountsMatch(counts, refs) && AllEntries(refs) && Found(sets, counts, segs, h)
    ensures Wants(refs, h, segs)
  {
    if h in Members(sets, ALL_ENTRY) {
      assert EntryMatches(ALL_ENTRY, segs);
    } else if h in Members(sets, Entry('l', NatText(|segs|), "")) {
      assert EntryMatches(Entry('l', NatText(|segs|), ""), segs);
    } else {
      var f :| f in counts && Probe(f, segs).Some? && h in Members(sets, Probe(f, segs).value);
      FieldsInUse(counts, refs, f);
      ProbeMatches(f, segs, Probe(f, segs).value);
    }
  }

  /** `keys` lists the places in the batch of the keys a hash wants. */
  ghost predicate IsWanted(refs: Refs, h: Hash, batch: seq<seq<string>>, keys: seq<nat>) {
    && (forall i :: 0 <= i < |keys| ==> keys[i] < |batch|)
    && (forall i, j :: 0 <= i < j < |keys| ==> keys[i] < keys[j])
    && (forall i: nat :: i < |batch| ==> (i in keys <==> Wants(refs, h, batch[i])))
  }

  ghost predicate Routed(refs: Refs, batch: seq<seq<string>>, sent: map<Hash, seq<nat>>) {
    && (forall h :: h in sent <==> exists i :: 0 <= i < |batch| && Wants(refs, h, batch[i]))
    && (forall h :: h in sent ==> IsWanted(refs, h, batch, sent[h]))
  }

  lemma RoutedNone(refs: Refs, batch: seq<seq<string>>)
    ensures Routed(refs, batch[..0], map[])
  {
  }

  lemma RoutedMore(refs: Refs, batch: seq<seq<string>>, i: nat, sent: map<Hash, seq<nat>>, cand: set<Hash>)
    requires i < |batch| && Routed(refs, batch[..i], sent)
    requires forall h :: h in cand <==> Wants(refs, h, batch[i])
    ensures Routed(refs, batch[..i + 1], map h | h in sent.Keys + cand ::
                     (if h in sent then sent[h] else []) + (if h in cand then [i] else []))
  {
    hide Wants, IsWanted;
    var more := map h | h in sent.Keys + cand :: (if h in sent then sent[h] else []) + (if h in cand then [i] else []);
    var upTo, before := batch[..i + 1], batch[..i];
    assert upTo == before + [batch[i]];
    forall h ensures h in more <==> exists j :: 0 <= j < |upTo| && Wants(refs, h, upTo[j]) {
      EverWanted(refs, h, before, batch[i], upTo);
      assert h in sent <==> exists j :: 0 <= j < |before| && Wants(refs, h, before[j]);
    }
    forall h | h in more ensures IsWanted(refs, h, upTo, more[h]) {
      if h !in sent {
        NeverWanted(refs, h, before);
      }
      WantedMore(refs, h, batch, i, if h in sent then sent[h] else [], h in cand);
    }
  }

  lemma EverWanted(refs: Refs, h: Hash, before: seq<seq<string>>, segs: seq<string>, upTo: seq<seq<string>>)
    requires upTo == before + [segs]
    ensures (exists j :: 0 <= j < |upTo| && Wants(refs, h, upTo[j]))
       <==> (exists j :: 0 <= j < |before| && Wants(refs, h, before[j])) || Wants(refs, h, segs)
  {
    hide Wants;
    assert upTo[|before|] == segs;
    if j :| 0 <= j < |before| && Wants(refs, h, before[j]) {
      assert upTo[j] == before[j];
    }
    if j :| 0 <= j < |upTo| && Wants(refs, h, upTo[j]) {
      assert j < |before| ==> before[j] == upTo[j];
    }
  }

  lemma NeverWanted(refs: Refs, h: Hash, batch: seq<seq<string>>)
    requires !exists j :: 0 <= j < |batch| && Wants(refs, h, batch[j])
    ensures IsWanted(refs, h, batch, [])
  {
  }

  lemma WantedMore(refs: Refs, h: Hash, batch: seq<seq<string>>, i: nat, keys: seq<nat>, wanted: bool)
    requires i < |batch| && wanted == Wants(refs, h, batch[i]) && IsWanted(refs, h, batch[..i], keys)
    ensures IsWanted(refs, h, batch[..i + 1], keys + (if wanted then [i] else []))
  {
    assert forall j :: 0 <= j < i ==> batch[..i + 1][j] == batch[..i][j];
    assert i !in keys;
  }

  class Index {
    var sets: Sets
    var counts: Counts
    var refs: Refs

    ghost predicate Valid()
      reads this
    {
      SetsMatch(sets, refs) && CountsMatch(counts, refs) && AllEntries(refs)
    }

    constructor ()
      ensures Valid() && refs == map[]
    {
      sets, counts, refs := map[], map[], map[];
      new;
      assert forall f :: Tally(map[], f) == 0;
    }

    /** What the counts are: a field in use has the number of its uses, one not in use has none. */
    lemma CountsAreUses(f: Field)
      requires Valid()
      ensures f in counts <==> UsePlaces(refs, f) != {}
      ensures f in counts ==> counts[f] == |UsePlaces(refs, f)|
    {
      TallyIsUses(refs, f);
      assert Count(counts, f) == Tally(refs, f);
    }

    /** Index a filter hash under its entries, unless it is indexed already. */
    method Reg(h: Hash, entries: seq<Entry>) returns (added: int)
      requires Valid() && forall e :: e in entries ==> IsEntry(e)
      modifies this
      ensures Valid()
      ensures added == if h in old(refs) then 0 else 1
      ensures refs == if h in old(refs) then old(refs) else old(refs)[h := entries]
    {
      if h in refs {
        return 0;
      }
      for i := 0 to |entries|
        modifies `sets, `counts
        invariant Added(old(sets), old(counts), sets, counts, h, entries[..i])
      {
        AddOne(h, entries[i], old(sets), old(counts), entries, i);
      }
      assert entries[..|entries|] == entries;
      AddedMatches(old(sets), old(counts), sets, counts, refs, h, entries);
      refs := refs[h := entries];
      return 1;
    }

    method AddOne(h: Hash, e: Entry, ghost sets0: Sets, ghost counts0: Counts, ghost entries: seq<Entry>, ghost i: nat)
      requires i < |entries| && entries[i] == e && Added(sets0, counts0, sets, counts, h, entries[..i])
      modifies `sets, `counts
      ensures Added(sets0, counts0, sets, counts, h, entries[..i + 1])
    {
      FieldsMore(entries, i);
      AddedMore(counts0, counts, entries, i);
      MembersMore(sets0, sets, h, entries, i);
      sets := sets[e := Members(sets, e) + {h}];
      if IsCounted(e.kind) {
        counts := counts[(e.kind, e.field) := Count(counts, (e.kind, e.field)) + 1];
      }
    }

    /** Take a filter hash out from under its entries; a count that falls to zero is dropped. */
    method Unreg(h: Hash)
      requires Valid()
      modifies this
      ensures Valid() && refs == old(refs) - {h}
    {
      if h !in refs {
        return;
      }
      var entries := refs[h];
      RemovedNone(sets, counts, h, refs);
      for i := 0 to |entries|
        modifies `sets, `counts
        invariant Removed(old(sets), old(counts), sets, counts, h, entries[..i])
      {
        RemoveOne(h, entries[i], old(sets), old(counts), entries, i, refs);
      }
      assert entries[..|entries|] == entries;
      RemovedMatches(old(sets), old(counts), sets, counts, refs, h);
      refs := refs - {h};
    }

    method RemoveOne(h: Hash, e: Entry, ghost sets0: Sets, ghost counts0: Counts, ghost entries: seq<Entry>,
                     ghost i: nat,
                     ghost refs0: Refs)
      requires i < |entries| && entries[i] == e && Removed(sets0, counts0, sets, counts, h, entries[..i])
      requires h in refs0 && refs0[h] == entries && CountsMatch(counts0, refs0)
      modifies `sets, `counts
      ensures Removed(sets0, counts0, sets, counts, h, entries[..i + 1])
    {
      FieldsMore(entries, i);
      RemovedMore(counts0, counts, refs0, h, i);
      sets := sets[e := Members(sets, e) - {h}];
      if IsCounted(e.kind) {
        var f := (e.kind, e.field);
        var left := Count(counts, f) - 1;
        counts := if left <= 0 then counts - {f} else counts[f := left];
      }
    }

    /** Everyone a key goes to: look up each field in use, the key's length, and those who want all. */
    method Candidates(segs: seq<string>) returns (cand: set<Hash>)
      requires Valid()
      ensures forall h :: h in cand <==> Wants(refs, h, segs)
    {
      cand := Members(sets, ALL_ENTRY) + Members(sets, Entry('l', NatText(|segs|), ""));
      var todo := counts.Keys;
      while todo != {}
        invariant todo <= counts.Keys
        invariant Looked(sets, counts, segs, cand, todo)
        decreases todo
      {
        var f :| f in todo;
        var probe := Probe(f, segs);
        if probe.Some? {
          cand := cand + Members(sets, probe.value);
        }
        todo := todo - {f};
      }
      LookedAll(sets, counts, refs, segs, cand);
    }

    /** The keys of a batch that go to each candidate, in batch order. */
    method Gather(batch: seq<seq<string>>) returns (sent: map<Hash, seq<nat>>)
      requires Valid()
      ensures Routed(refs, batch, sent)
    {
      hide Wants, IsWanted, SetsMatch, CountsMatch, AllEntries;
      sent := map[];
      RoutedNone(refs, batch);
      for i := 0 to |batch|
        invariant Routed(refs, batch[..i], sent)
      {
        var cand := Candidates(batch[i]);
        RoutedMore(refs, batch, i, sent, cand);
        sent := map h | h in sent.Keys + cand ::
          (if h in sent then sent[h] else []) + (if h in cand then [i] else []);
      }
      assert batch[..|batch|] == batch;
    }

    method DropAll(silent: set<Hash>)
      requires Valid()
      modifies this
      ensures Valid() && refs == old(refs) - silent
    {
      hide SetsMatch, CountsMatch, AllEntries;
      var todo := silent;
      while todo != {}
        invariant Valid() && todo <= silent && refs == old(refs) - (silent - todo)
        decreases todo
      {
        var h :| h in todo;
        assert silent - (todo - {h}) == (silent - todo) + {h};
        Unreg(h);
        todo := todo - {h};
      }
      assert silent - todo == silent;
    }

    /**
     Route a batch: each candidate gets the keys it wants, in batch order; a hash nobody listens
     for any more is dropped from the index.
     */
    method Route(batch: seq<seq<string>>, listening: set<Hash>) returns (sent: map<Hash, seq<nat>>)
      requires Valid()
      modifies this
      ensures Valid()
      ensures Routed(old(refs), batch, sent)
      ensures refs == old(refs) - (sent.Keys - listening)
    {
      sent := Gather(batch);
      DropAll(sent.Keys - listening);
    }
  }

  // ---------------------------------------------------------------------------
  // End to end
  // ---------------------------------------------------------------------------

  /** The entries of a canonical filter's hints. */
  ghost predicate EntriesFor(f: Filter, entries: seq<Entry>) {
    var hints := Hints(Canon(f));
    if exists h :: h in hints && EntryOf(h) == ALL_ENTRY then entries == [ALL_ENTRY]
    else forall e :: e in entries <==> exists h :: h in hints && EntryOf(h) == e
  }

  lemma EntryIsEntry(h: Hint)
    requires IsHint(h)
    ensures IsEntry(EntryOf(h))
  {
    if h.WildcardHint? {
      assert InRange(h.positions, h.length);
    }
  }

  lemma EntriesAreEntries(f: Filter, entries: seq<Entry>)
    requires EntriesFor(f, entries)
    ensures forall e :: e in entries ==> IsEntry(e)
  {
    HintsAreHints(Canon(f));
    forall h | h in Hints(Canon(f)) ensures IsEntry(EntryOf(h)) {
      EntryIsEntry(h);
    }
  }

  lemma AllMatches(key: Key)
    ensures EntryMatches(ALL_ENTRY, EncKey(key))
  {
  }

  /** The entries of a hint set match a key exactly if some hint covers it, or one stands for all keys. */
  lemma EntriesNeverUnderCover(f: Filter, entries: seq<Entry>, key: Key)
    requires EntriesFor(f, entries) && Matches(f, key)
    ensures exists e :: e in entries && EntryMatches(e, EncKey(key))
  {
    hide Matches, Canon, Hints, Covers, IsHint, EntryMatches, EncKey;
    var hints := Hints(Canon(f));
    CanonAgrees(f, key);
    NeverUnderCover(Canon(f), key);
    var i :| 0 <= i < |hints| && IsHint(hints[i]) && Covers(hints[i], key);
    EntryExact(hints[i], key);
    if exists h :: h in hints && EntryOf(h) == ALL_ENTRY {
      AllMatches(key);
    } else {
      assert EntryOf(hints[i]) in entries;
    }
  }

  /**
   No under-delivery, end to end: a filter registered under the entries of its canonical form's
   hints is a candidate for every key it matches.
   */
  lemma NoUnderDelivery(refs: Refs, h: Hash, f: Filter, key: Key)
    requires h in refs && EntriesFor(f, refs[h]) && Matches(f, key)
    ensures Wants(refs, h, EncKey(key))
  {
    EntriesNeverUnderCover(f, refs[h], key);
  }

  /** For a filter whose canonical form is a single leaf the server is exact: no over-delivery either. */
  lemma LeavesRoutedExactly(refs: Refs, h: Hash, f: Filter, key: Key)
    requires h in refs && EntriesFor(f, refs[h])
    requires var c := Canon(f); c.Prefix? || c.Suffix? || c.Length? || c.Wildcard?
    ensures Wants(refs, h, EncKey(key)) <==> Matches(f, key)
  {
    var c := Canon(f);
    CanonAgrees(f, key);
    CanonIsCanonical(f);
    LeafHintExact(c, key);
    if Wants(refs, h, EncKey(key)) {
      var e :| e in refs[h] && EntryMatches(e, EncKey(key));
      LeafHintAlone(c);
      var g :| g in Hints(c) && EntryOf(g) == e;
      HintsAreHints(c);
      EntryExact(g, key);
      CoveredBy(Hints(c), g, key);
    } else if Matches(f, key) {
      NoUnderDelivery(refs, h, f, key);
    }
  }

  /** A canonical leaf's hint never stands for all keys. */
  lemma LeafHintAlone(c: Filter)
    requires IsCanonical(c) && (c.Prefix? || c.Suffix? || c.Length? || c.Wildcard?)
    ensures forall h :: h in Hints(c) ==> EntryOf(h) != ALL_ENTRY
  {
  }

  /** Register a filter, and route a batch: it is sent every key of the batch that it matches. */
  method RegisterAndRoute(index: Index, f: Filter, h: Hash, batch: seq<Key>, listening: set<Hash>)
    returns (sent: map<Hash, seq<nat>>)
    requires index.Valid() && h !in index.refs
    modifies index
    ensures forall i :: 0 <= i < |batch| && Matches(f, batch[i]) ==> h in sent && i in sent[h]
  {
    hide *;
    var c := Canonicalize(f);
    var entries, _ := EntriesOf(Hints(c));
    EntriesMade(f, entries);
    EntriesAreEntries(f, entries);
    var _ := index.Reg(h, entries);
    ghost var refs := index.refs;
    var encoded := seq(|batch|, i requires 0 <= i < |batch| => EncKey(batch[i]));
    sent := index.Route(encoded, listening);
    forall i | 0 <= i < |batch| && Matches(f, batch[i]) ensures h in sent && i in sent[h] {
      NoUnderDelivery(refs, h, f, batch[i]);
      WantedIsSent(refs, encoded, sent, h, i);
    }
  }

  lemma EntriesMade(f: Filter, entries: seq<Entry>)
    requires var hints := Hints(Canon(f));
             && ((exists h :: h in hints && EntryOf(h) == ALL_ENTRY) ==> entries == [ALL_ENTRY])
             && (!(exists h :: h in hints && EntryOf(h) == ALL_ENTRY) ==>
                   forall e :: e in entries <==> exists h :: h in hints && EntryOf(h) == e)
    ensures EntriesFor(f, entries)
  {
  }

  lemma WantedIsSent(refs: Refs, batch: seq<seq<string>>, sent: map<Hash, seq<nat>>, h: Hash, i: nat)
    requires Routed(refs, batch, sent) && i < |batch| && Wants(refs, h, batch[i])
    ensures h in sent && i in sent[h]
  {
    hide Wants;
  }
}
