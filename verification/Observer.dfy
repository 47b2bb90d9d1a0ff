/** The observer's guarded sections: each acts as its counterpart in `Readiness`. */
module Observer {
  import opened Wrappers
  import opened Readiness

  class Sections {
    const empties: set<Hash>
    var refcount: map<Hash, nat>
    var local: set<Hash>
    var ready: map<Hash, ReadyId>
    var flags: map<ReadyId, ReadyFlag>
    var gen: nat
    var commands: set<AckId>
    var acks: map<AckId, Ack>
    var pending: map<Hash, seq<seq<AckId>>>
    ghost var epoch: map<Hash, nat>
    var nextReady: ReadyId

    ghost function View(): Table
      reads this
    {
      Table(empties, refcount, local, ready, flags, gen, commands, acks, pending, epoch)
    }

    ghost predicate Valid()
      reads this
    {
      && (forall h :: h in ready ==> ready[h] in flags)
      && (forall r :: r in flags ==> r < nextReady)
    }

    constructor (empties: set<Hash>)
      ensures Valid() && View() == Table(empties, map[], {}, map[], map[], 0, {}, map[], map[], map[])
    {
      this.empties := empties;
      refcount, local, ready, flags, gen, commands, acks, pending := map[], {}, map[], map[], 0, {}, map[], map[];
      epoch, nextReady := map[], 0;
    }

    method SetEvent(r: ReadyId)
      requires Valid() && r in flags
      modifies `flags
      ensures Valid() && View() == SetFlag(old(View()), r)
      ensures flags == old(flags)[r := ReadyFlag(true, old(flags)[r].error)]
    {
      flags := flags[r := flags[r].(isSet := true)];
    }

    /** The first registrant of a hash brings a fresh readiness, a later one shares it. */
    method Enter(h: Hash) returns (prior: nat, r: ReadyId)
      requires Valid() && (h in refcount ==> h in ready)
      modifies this
      ensures Valid()
      ensures prior == (if h in old(refcount) then old(refcount)[h] else 0)
      ensures prior == 0 ==>
                && r !in old(flags) && h in epoch && epoch == old(epoch)[h := epoch[h]]
                && epoch[h] == Epoch(old(View()), h) + 1
                && View() == old(View()).(refcount := old(refcount)[h := 1], ready := old(ready)[h := r],
                                          flags := old(flags)[r := ReadyFlag(false, false)], epoch := epoch)
      ensures prior > 0 ==> r == old(ready)[h] && View() == old(View()).(refcount := old(refcount)[h := prior + 1])
    {
      prior := if h in refcount then refcount[h] else 0;
      refcount := refcount[h := prior + 1];
      if prior == 0 {
        r := nextReady;
        nextReady := nextReady + 1;
        flags := flags[r := ReadyFlag(false, false)];
        ready := ready[h := r];
        epoch := epoch[h := (if h in epoch then epoch[h] else 0) + 1];
      } else {
        r := ready[h];
      }
    }

    /** A fresh unset readiness for a hash. */
    method Renew(h: Hash)
      requires Valid()
      modifies `ready, `flags, `nextReady
      ensures Valid() && nextReady == old(nextReady) + 1
      ensures View() == old(View()).(ready := old(ready)[h := old(nextReady)],
            flags := old(flags)[old(nextReady) := ReadyFlag(false, false)])
    {
      flags := flags[nextReady := ReadyFlag(false, false)];
      ready := ready[h := nextReady];
      nextReady := nextReady + 1;
    }

    predicate Routed(h: Hash)
      requires forall x :: x in ready ==> ready[x] in flags
      reads this
    {
      h in ready && flags[ready[h]].isSet && !flags[ready[h]].error
    }

    /** Every registered hash that was routed gets a fresh unset readiness; the generation moves on. */
    method InvalidateReady() returns (ghost names: map<Hash, ReadyId>)
      requires Valid()
      modifies this
      ensures Valid() && Fresh(old(View()), names) && View() == Invalidate(old(View()), names)
      ensures Invalidated(old(View()), View())
    {
      hide Invalidate, Renaming, Fresh, Stale, Invalidated;
      ghost var before := View();
      names := map[];
      InvalidatesNone(before, nextReady);
      gen := gen + 1;
      var todo := local;
      while todo != {}
        modifies `ready, `flags, `nextReady
        invariant Valid() && todo <= local
        invariant Renaming(before, names, todo, nextReady)
        invariant View() == Invalidate(before, names)
        decreases todo
      {
        var h :| h in todo;
        StillStale(before, names, todo, nextReady, h);
        if Routed(h) {
          RenamesOne(before, names, todo, nextReady, h);
          names := names[h := nextReady];
          Renew(h);
        } else {
          SkipsOne(before, names, todo, nextReady, h);
        }
        todo := todo - {h};
      }
      RenamedAll(before, names, nextReady);
      InvalidateLaw(before, names);
    }

    /**
     A SUBSCRIBE confirmation releases the oldest waiting group; with none waiting it queues a
     re-registration. The channel of a hash that is not local is an orphan once nobody waits for it.
     */
    method OnSubscribed(h: Hash) returns (requeued: Option<(Hash, nat)>, orphan: bool)
      requires Valid() && (h in pending && pending[h] != [] ==> forall a :: a in pending[h][0] ==> a in acks)
      modifies `acks, `pending
      ensures Valid()
      ensures if h in old(pending) && old(pending)[h] != [] then requeued == None && View() == Confirm(old(View()), h)
              else View() == old(View()) && requeued == if h in local then Some((h, gen)) else None
      ensures orphan <==> h !in local && (h in old(pending) ==> |old(pending)[h]| <= 1)
      ensures h in old(pending) && old(pending)[h] != [] ==> GroupReleased(old(View()), View(), h)
    {
      if h in pending && pending[h] != [] {
        var groups := pending[h];
        var group := groups[0];
        assert acks == Release(acks, group[..0], gen);
        for i := 0 to |group|
          modifies `acks
          invariant acks == Release(old(acks), group[..i], gen)
        {
          assert group[..i + 1] == group[..i] + [group[i]];
          acks := acks[group[i] := acks[group[i]].(isSet := true, gen := gen)];
        }
        assert group[..|group|] == group;
        if |groups| > 1 {
          pending := pending[h := groups[1..]];
          return None, false;
        }
        pending := pending - {h};
        return None, h !in local;
      }
      return if h in local then Some((h, gen)) else None, h !in local;
    }

    /** Each live channel is confirmed once for all that wait; what waits on another is forgotten. */
    method CollapseGroups(channels: set<Hash>)
      modifies `pending
      ensures pending == Collapse(old(View()), channels).pending
      ensures forall h :: h in pending <==> h in old(pending) && h in channels
      ensures forall h :: h in pending ==> pending[h] == [Flatten(old(pending)[h])]
      ensures forall h :: h in pending ==> OneGroup(old(pending)[h], pending[h])
    {
      hide OneGroup, Flatten;
      ghost var before := pending;
      forall h | h in before ensures OneGroup(before[h], [Flatten(before[h])]) {
        OneGroupOf(before[h]);
      }
      var todo := pending.Keys;
      assert pending == Collapsed(before, channels, todo);
      while todo != {}
        modifies `pending
        invariant todo <= before.Keys && pending == Collapsed(before, channels, todo)
        decreases todo
      {
        var h :| h in todo;
        var groups := pending[h];
        pending := if h in channels then pending[h := [Flatten(groups)]] else pending - {h};
        todo := todo - {h};
      }
    }

    /** After a reconnect: nothing is routed, and each live channel is confirmed once for all that wait. */
    method OnReconnect(channels: set<Hash>) returns (ghost names: map<Hash, ReadyId>)
      requires Valid()
      modifies this
      ensures Valid() && Fresh(old(View()), names) && View() == Collapse(Invalidate(old(View()), names), channels)
      ensures Invalidated(old(View()).(pending := pending), View())
      ensures forall h :: h in pending <==> h in old(pending) && h in channels
      ensures forall h :: h in pending ==> OneGroup(old(pending)[h], pending[h])
    {
      hide Invalidated, OneGroup;
      names := InvalidateReady();
      InvalidatedElse(old(View()), View(), Collapse(View(), channels).pending);
      CollapseGroups(channels);
    }

    static function Collapsed(pending: map<Hash, seq<seq<AckId>>>, channels: set<Hash>,
                              todo: set<Hash>): map<Hash, seq<seq<AckId>>> {
      map h | h in pending && (h in channels || h in todo) :: if h in todo then pending[h] else [Flatten(pending[h])]
    }

    /** A re-registration that landed releases its waiters, unless a newer loss happened since its confirmation. */
    method MarkReady(h: Hash, g: nat)
      requires Valid()
      modifies `flags
      ensures Valid() && View() == Readiness.MarkReady(old(View()), h, g)
      ensures var due := h in ready && g == gen && h in local && !old(flags)[ready[h]].error;
              && (due ==> flags == old(flags)[ready[h] := ReadyFlag(true, false)])
              && (!due ==> flags == old(flags))
    {
      if h in ready && g == gen && h in local && !flags[ready[h]].error {
        SetEvent(ready[h]);
      }
    }

    /** A subscriber leaves: while others are left only the count goes down, the last one takes the hash along. */
    method Unregister(h: Hash)
      requires Valid()
      modifies `refcount, `ready, `local
      ensures Valid() && View() == Readiness.Unregister(old(View()), h)
      ensures h in old(refcount) && old(refcount)[h] >= 2 ==>
                && refcount == old(refcount)[h := old(refcount)[h] - 1] && ready == old(ready) && local == old(local)
      ensures !(h in old(refcount) && old(refcount)[h] >= 2) ==>
                && h !in refcount && h !in ready && h !in local
                && refcount == old(refcount) - {h} && ready == old(ready) - {h} && local == old(local) - {h}
    {
      var prior := if h in refcount then refcount[h] else 0;
      if prior > 1 {
        refcount := refcount[h := prior - 1];
        return;
      }
      refcount, ready, local := refcount - {h}, ready - {h}, local - {h};
    }

    /** A first registrant that failed takes its hash with it, if the hash is still its own. */
    method RollBack(h: Hash, r: ReadyId)
      requires Valid() && r in flags
      modifies `refcount, `ready, `local, `flags
      ensures Valid() && View() == Readiness.RollBack(old(View()), h, r)
      ensures flags == old(flags)[r := ReadyFlag(true, true)]
      ensures if h in old(ready) && old(ready)[h] == r
              then refcount == old(refcount) - {h} && ready == old(ready) - {h} && local == old(local) - {h}
              else refcount == old(refcount) && ready == old(ready) && local == old(local)
    {
      if h in ready && ready[h] == r {
        refcount, ready, local := refcount - {h}, ready - {h}, local - {h};
      }
      flags := flags[r := flags[r].(isSet := true, error := true)];
    }

    /** After the index call: ready at once if the generation is still that of the confirmation. */
    method CheckGeneration(r: ReadyId, a: AckId) returns (outdated: bool)
      requires Valid() && r in flags && a in acks
      modifies `flags
      ensures Valid() && (outdated <==> gen != acks[a].gen)
      ensures View() == if outdated then old(View()) else SetFlag(old(View()), r)
      ensures flags == if outdated then old(flags) else old(flags)[r := ReadyFlag(true, old(flags)[r].error)]
    {
      outdated := gen != acks[a].gen;
      if !outdated {
        SetEvent(r);
      }
    }
  }

  /** All waiting groups have become one. */
  ghost predicate OneGroup(groups: seq<seq<AckId>>, after: seq<seq<AckId>>) {
    |after| == 1 && forall a :: a in after[0] <==> exists i :: 0 <= i < |groups| && a in groups[i]
  }

  lemma OneGroupOf(groups: seq<seq<AckId>>)
    ensures OneGroup(groups, [Flatten(groups)])
  {
    FlattenKeeps(groups);
  }

  /** A registered, set and faultless readiness is swapped for a fresh unset one; the generation moves on. */
  ghost predicate Invalidated(t: Table, d: Table) {
    && d == t.(gen := t.gen + 1, ready := d.ready, flags := d.flags)
    && d.ready.Keys == t.ready.Keys
    && (forall r :: r in t.flags ==> r in d.flags && d.flags[r] == t.flags[r])
    && (forall h :: h in t.ready ==> t.ready[h] in t.flags && d.ready[h] in d.flags)
    && (forall h :: h in t.ready ==>
          if h in t.local && t.flags[t.ready[h]].isSet && !t.flags[t.ready[h]].error
          then d.ready[h] !in t.flags && d.flags[d.ready[h]] == ReadyFlag(false, false)
          else d.ready[h] == t.ready[h])
  }

  lemma InvalidateLaw(t: Table, names: map<Hash, ReadyId>)
    requires Fresh(t, names) && (forall h :: h in t.ready ==> t.ready[h] in t.flags)
    ensures Invalidated(t, Invalidate(t, names))
  {
  }

  lemma InvalidatedElse(t: Table, d: Table, pending: map<Hash, seq<seq<AckId>>>)
    requires Invalidated(t, d)
    ensures Invalidated(t.(pending := pending), d.(pending := pending))
  {
  }

  /** The acks of the oldest group are set in this generation; the later groups still wait, and all else. */
  ghost predicate GroupReleased(t: Table, d: Table, h: Hash)
    requires h in t.pending && t.pending[h] != []
  {
    && d == t.(acks := d.acks, pending := d.pending) && d.acks.Keys == t.acks.Keys
    && (forall a :: a in t.acks ==>
          d.acks[a] == if a in t.pending[h][0] then Ack(t.acks[a].hash, true, t.acks[a].error, t.gen) else t.acks[a])
    && (forall x :: x != h ==> (x in d.pending <==> x in t.pending))
    && (forall x :: x != h && x in t.pending ==> d.pending[x] == t.pending[x])
    && (h in d.pending <==> |t.pending[h]| > 1) && (h in d.pending ==> d.pending[h] == t.pending[h][1..])
  }

  /** New names so far: outside `todo` every stale hash has one, inside none does. */
  ghost predicate Renaming(t: Table, names: map<Hash, ReadyId>, todo: set<Hash>, next: ReadyId) {
    && (forall h :: h in names ==> h in t.local && h !in todo && Stale(t, h) && names[h] !in t.flags && names[h] < next)
    && (forall h :: Stale(t, h) && h !in todo ==> h in names)
    && (forall g, h :: g in names && h in names && names[g] == names[h] ==> g == h)
    && (forall r :: r in t.flags ==> r < next)
  }

  lemma InvalidatesNone(t: Table, next: ReadyId)
    requires forall r :: r in t.flags ==> r < next
    ensures Renaming(t, map[], t.local, next)
    ensures Invalidate(t, map[]) == t.(gen := t.gen + 1)
  {
    assert Invalidate(t, map[]).ready == t.ready && Invalidate(t, map[]).flags == t.flags;
  }

  /** A hash whose turn has not come is stale exactly as it was before. */
  lemma StillStale(t: Table, names: map<Hash, ReadyId>, todo: set<Hash>, next: ReadyId, h: Hash)
    requires Renaming(t, names, todo, next) && h in todo && todo <= t.local
    ensures h !in names
    ensures var d := Invalidate(t, names); d.local == t.local && (IsRouted(d, h) <==> Stale(t, h))
  {
    var d := Invalidate(t, names);
    if h in t.ready {
      assert d.ready[h] == t.ready[h];
    }
  }

  lemma RenamesOne(t: Table, names: map<Hash, ReadyId>, todo: set<Hash>, next: ReadyId, h: Hash)
    requires Renaming(t, names, todo, next) && h in todo && todo <= t.local && Stale(t, h) && h !in names
    ensures Renaming(t, names[h := next], todo - {h}, next + 1)
    ensures var d := Invalidate(t, names);
            Invalidate(t, names[h := next]) == d.(ready := d.ready[h := next],
                flags := d.flags[next := ReadyFlag(false, false)])
  {
    RenamesReady(t, names, h, next);
    RenamesFlags(t, names, h, next);
    RenamesMore(t, names, todo, next, h);
  }

  lemma RenamesMore(t: Table, names: map<Hash, ReadyId>, todo: set<Hash>, next: ReadyId, h: Hash)
    requires Renaming(t, names, todo, next) && h in todo && todo <= t.local && Stale(t, h) && h !in names
    ensures Renaming(t, names[h := next], todo - {h}, next + 1)
  {
    hide Stale;
  }

  lemma RenamesReady(t: Table, names: map<Hash, ReadyId>, h: Hash, next: ReadyId)
    requires Stale(t, h)
    ensures Invalidate(t, names[h := next]).ready == Invalidate(t, names).ready[h := next]
  {
    var more, d := Invalidate(t, names[h := next]).ready, Invalidate(t, names).ready[h := next];
    assert h in t.ready;
    forall x ensures x in more <==> x in d {
    }
    forall x | x in more ensures more[x] == d[x] {
    }
  }

  lemma RenamesFlags(t: Table, names: map<Hash, ReadyId>, h: Hash, next: ReadyId)
    requires next !in t.flags && h !in names
    ensures Invalidate(t, names[h := next]).flags == Invalidate(t, names).flags[next := ReadyFlag(false, false)]
  {
    NamesMore(names, h, next);
    var more, d := Invalidate(t, names[h := next]).flags, Invalidate(t, names).flags[next := ReadyFlag(false, false)];
    assert more.Keys == d.Keys;
  }

  lemma NamesMore(names: map<Hash, ReadyId>, h: Hash, next: ReadyId)
    requires h !in names
    ensures names[h := next].Values == names.Values + {next}
  {
    var more := names[h := next];
    assert forall x :: x in names ==> x in more && more[x] == names[x];
    assert h in more && more[h] == next;
  }

  lemma SkipsOne(t: Table, names: map<Hash, ReadyId>, todo: set<Hash>, next: ReadyId, h: Hash)
    requires Renaming(t, names, todo, next) && h in todo && !Stale(t, h) && h !in names
    ensures Renaming(t, names, todo - {h}, next)
  {
  }

  lemma RenamedAll(t: Table, names: map<Hash, ReadyId>, next: ReadyId)
    requires Renaming(t, names, {}, next)
    ensures Fresh(t, names)
  {
  }
}
