/** Routing entries: hints as opaque byte strings, compared with encoded keys byte by byte. */
module HintEntries {
  import opened Wrappers
  import opened Segments
  import opened Decimals
  import opened KeyEncoding
  import opened RoutingHints

  datatype Entry = Entry(kind: char, field: string, enc: string)

  const ALL_ENTRY := Entry('a', "", "")

  /** Positions separated by commas. */
  function PosText(ps: seq<nat>): string {
    if ps == [] then ""
    else if |ps| == 1 then NatText(ps[0])
    else NatText(ps[0]) + "," + PosText(ps[1..])
  }

  function WildField(length: int, ps: seq<nat>): string {
    IntText(length) + ":" + PosText(ps)
  }

  function EntryOf(h: Hint): Entry {
    match h
    case PrefixHint(segments) => Entry('p', NatText(|segments|), Join(EncKey(segments)))
    case SuffixHint(segments) => Entry('s', NatText(|segments|), Join(EncKey(segments)))
    case LengthHint(length) => Entry('l', IntText(length), "")
    case WildcardHint(segments, length, positions) => Entry('w', WildField(length, positions), Join(EncKey(segments)))
    case AllHint => ALL_ENTRY
  }

  /** `out[i]` first stands for the hint at `first[i]`: each entry once, at its first hint, in hint order. */
  ghost predicate FirstHints(hints: seq<Hint>, out: seq<Entry>, first: seq<nat>) {
    && |first| == |out|
    && (forall i :: 0 <= i < |out| ==> first[i] < |hints| && EntryOf(hints[first[i]]) == out[i])
    && (forall i, j :: 0 <= i < j < |out| ==> first[i] < first[j])
    && (forall i, k :: 0 <= i < |out| && 0 <= k < first[i] ==> EntryOf(hints[k]) != out[i])
  }

  /** The entries of a hint set, once each in order; one entry for all keys replaces the set. */
  method EntriesOf(hints: seq<Hint>) returns (out: seq<Entry>, ghost first: seq<nat>)
    ensures (exists h :: h in hints && EntryOf(h) == ALL_ENTRY) ==> out == [ALL_ENTRY]
    ensures !(exists h :: h in hints && EntryOf(h) == ALL_ENTRY) ==>
              && (forall e :: e in out <==> exists h :: h in hints && EntryOf(h) == e)
              && FirstHints(hints, out, first)
    ensures forall i, j :: 0 <= i < j < |out| ==> out[i] != out[j]
  {
    hide EntryOf;
    out, first := [], [];
    for n := 0 to |hints|
      invariant forall h :: h in hints[..n] ==> EntryOf(h) != ALL_ENTRY
      invariant forall e :: e in out <==> exists h :: h in hints[..n] && EntryOf(h) == e
      invariant forall i, j :: 0 <= i < j < |out| ==> out[i] != out[j]
      invariant FirstHints(hints, out, first) && forall i :: 0 <= i < |first| ==> first[i] < n
    {
      assert hints[..n + 1] == hints[..n] + [hints[n]];
      var e := EntryOf(hints[n]);
      if e == ALL_ENTRY {
        assert hints[n] in hints;
        return [ALL_ENTRY], [];
      }
      if e !in out {
        forall k | 0 <= k < n ensures EntryOf(hints[k]) != e {
          assert hints[k] in hints[..n];
        }
        out, first := out + [e], first + [n];
      }
    }
    assert hints[..|hints|] == hints;
  }

  predicate InRange(ps: seq<nat>, n: nat) {
    forall i :: 0 <= i < |ps| ==> ps[i] < n
  }

  function Picked<T>(s: seq<T>, ps: seq<nat>): (r: seq<T>)
    requires InRange(ps, |s|)
    ensures |r| == |ps| && forall i :: 0 <= i < |ps| ==> r[i] == s[ps[i]]
  {
    seq(|ps|, i requires 0 <= i < |ps| => s[ps[i]])
  }

  /** What the server compares: the bytes at the entry's place in the key are the entry's bytes. */
  ghost predicate EntryMatches(e: Entry, segs: seq<string>) {
    || e == ALL_ENTRY
    || (e.kind == 'p' && exists d: nat :: d <= |segs| && e.field == NatText(d) && e.enc == Join(segs[..d]))
    || (e.kind == 's' && exists d: nat :: d <= |segs| && e.field == NatText(d) && e.enc == Join(segs[|segs| - d..]))
    || (e.kind == 'l' && e.field == NatText(|segs|) && e.enc == "")
    || (e.kind == 'w' && exists ps ::
          InRange(ps, |segs|) && e.field == WildField(|segs|, ps) && e.enc == Join(Picked(segs, ps)))
  }

  // ---------------------------------------------------------------------------
  // Entries compare as hints cover
  // ---------------------------------------------------------------------------

  lemma NatTextTells(a: nat, b: nat)
    requires NatText(a) == NatText(b)
    ensures a == b
  {
    TextReadsBack(a);
    TextReadsBack(b);
  }

  lemma PosTextStarts(ps: seq<nat>)
    ensures ps == [] <==> PosText(ps) == ""
    ensures ps != [] ==>
          PosText(ps) + ";" == NatText(ps[0]) + (if |ps| == 1 then ";" else "," + (PosText(ps[1..]) + ";"))
  {
  }

  lemma {:induction false} PosTextTells(a: seq<nat>, b: seq<nat>)
    requires PosText(a) == PosText(b)
    ensures a == b
  {
    PosTextStarts(a);
    PosTextStarts(b);
    if a != [] {
      var s, t := if |a| == 1 then "" else PosText(a[1..]) + ";", if |b| == 1 then "" else PosText(b[1..]) + ";";
      var x, y := if |a| == 1 then ';' else ',', if |b| == 1 then ';' else ',';
      assert PosText(a) + ";" == NatText(a[0]) + [x] + s && PosText(b) + ";" == NatText(b[0]) + [y] + t;
      NatSplits(a[0], x, s, b[0], y, t);
      if |a| > 1 {
        assert s[..|s| - 1] == PosText(a[1..]) && t[..|t| - 1] == PosText(b[1..]);
        PosTextTells(a[1..], b[1..]);
      }
      assert a == [a[0]] + a[1..] && b == [b[0]] + b[1..];
    }
  }

  lemma WildFieldTells(m: int, ps: seq<nat>, n: int, qs: seq<nat>)
    requires WildField(m, ps) == WildField(n, qs)
    ensures m == n && ps == qs
  {
    IntSplits(m, ':', PosText(ps), n, ':', PosText(qs));
    PosTextTells(ps, qs);
  }

  lemma EncHead(key: Key, n: nat)
    requires n <= |key|
    ensures EncKey(key)[..n] == EncKey(key[..n])
  {
  }

  lemma EncTail(key: Key, n: nat)
    requires n <= |key|
    ensures EncKey(key)[|key| - n..] == EncKey(key[|key| - n..])
  {
  }

  lemma EncPicked(key: Key, ps: seq<nat>)
    requires InRange(ps, |key|)
    ensures Picked(EncKey(key), ps) == EncKey(Picked(key, ps))
  {
  }

  lemma PrefixExact(segments: Key, key: Key)
    ensures EntryMatches(EntryOf(PrefixHint(segments)), EncKey(key)) <==> Covers(PrefixHint(segments), key)
  {
    hide NatText, Join, EncSeg;
    var e, segs, n := EntryOf(PrefixHint(segments)), EncKey(key), |segments|;
    if EntryMatches(e, segs) {
      var d: nat :| d <= |segs| && e.field == NatText(d) && e.enc == Join(segs[..d]);
      NatTextTells(d, n);
    }
    if n <= |key| {
      EncHead(key, n);
      if Join(EncKey(segments)) == Join(segs[..n]) {
        KeysInjective(segments, key[..n]);
      }
      assert n <= |segs| && e.field == NatText(n);
    }
  }

  lemma SuffixExact(segments: Key, key: Key)
    ensures EntryMatches(EntryOf(SuffixHint(segments)), EncKey(key)) <==> Covers(SuffixHint(segments), key)
  {
    hide NatText, Join, EncSeg;
    var e, segs, n := EntryOf(SuffixHint(segments)), EncKey(key), |segments|;
    if EntryMatches(e, segs) {
      var d: nat :| d <= |segs| && e.field == NatText(d) && e.enc == Join(segs[|segs| - d..]);
      NatTextTells(d, n);
    }
    if n <= |key| {
      EncTail(key, n);
      if Join(EncKey(segments)) == Join(segs[|segs| - n..]) {
        KeysInjective(segments, key[|key| - n..]);
      }
      assert n <= |segs| && e.field == NatText(n);
    }
  }

  lemma WildcardExact(h: Hint, key: Key)
    requires h.WildcardHint? && IsHint(h)
    ensures EntryMatches(EntryOf(h), EncKey(key)) <==> Covers(h, key)
  {
    var e, segs := EntryOf(h), EncKey(key);
    if EntryMatches(e, segs) {
      var ps :| InRange(ps, |segs|) && e.field == WildField(|segs|, ps) && e.enc == Join(Picked(segs, ps));
      WildFieldTells(h.length, h.positions, |segs|, ps);
      EncPicked(key, ps);
      KeysInjective(h.segments, Picked(key, ps));
    }
    if Covers(h, key) {
      assert InRange(h.positions, |segs|);
      EncPicked(key, h.positions);
      assert Picked(key, h.positions) == h.segments;
    }
  }

  lemma LengthExact(length: int, key: Key)
    ensures EntryMatches(EntryOf(LengthHint(length)), EncKey(key)) <==> Covers(LengthHint(length), key)
  {
    if IntText(length) == NatText(|key|) {
      SignShows(length);
      SignShows(|key|);
      assert IntText(|key|) == NatText(|key|);
      NatTextTells(length, |key|);
    }
  }

  /** Byte by byte on the server, segment by segment in the hint: the same keys. */
  lemma EntryExact(h: Hint, key: Key)
    requires IsHint(h)
    ensures EntryMatches(EntryOf(h), EncKey(key)) <==> Covers(h, key)
  {
    match h
    case PrefixHint(segments) => PrefixExact(segments, key);
    case SuffixHint(segments) => SuffixExact(segments, key);
    case LengthHint(length) => LengthExact(length, key);
    case WildcardHint(_, _, _) => WildcardExact(h, key);
    case AllHint =>
  }
}
