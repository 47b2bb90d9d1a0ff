/** The writer lock itself: each method is one guarded section, and acts as its counterpart in `SlotCore`. */
module WriterLock {
  import opened Wrappers
  import opened SlotCore

  class Writer {
    var lock: Lock
    var locked: set<Lock>
    var owner: Option<nat>
    var waiters: seq<WaiterId>
    var table: map<WaiterId, Waiter>
    var pending: Option<WaiterId>
    var syncWaiting: int
    var bargeNext: bool

    function View(): Core
      reads this
    {
      Core(lock, locked, owner, waiters, table, pending, syncWaiting, bargeNext)
    }

    predicate Valid()
      reads this
    {
      && (forall w :: w in waiters ==> w in table)
      && (pending.Some? ==> pending.value in table)
    }

    constructor ()
      ensures Valid() && View() == FRESH
    {
      lock, locked, owner, waiters := 0, {}, None, [];
      table, pending, syncWaiting, bargeNext := map[], None, 0, false;
    }

    /** Schedule the wake-up on the waiter's loop; false if the loop is gone by now. */
    method Wake(w: WaiterId, late: set<WaiterId>) returns (ok: bool)
      requires w in table
      modifies `table
      ensures table == old(table)[w := old(table[w]).(loopClosed := old(table[w]).loopClosed || w in late)]
      ensures ok == !table[w].loopClosed
    {
      table := table[w := table[w].(loopClosed := table[w].loopClosed || w in late)];
      return !table[w].loopClosed;
    }

    method SetState(w: WaiterId, state: WaiterState)
      requires w in table
      modifies `table
      ensures View() == Mark(old(View()), w, state)
      ensures table == old(table)[w := old(table)[w].(state := state)]
    {
      table := table[w := table[w].(state := state)];
    }

    /** Hand the slot to one waiter; false if its loop is gone by the time it is woken. */
    method Offer(waiter: WaiterId, late: set<WaiterId>) returns (woken: bool)
      requires waiter in table && !table[waiter].loopClosed && !table[waiter].futureDone
      modifies `table, `pending, `bargeNext
      ensures woken <==> waiter !in late
      ensures View() == if woken then Grant(old(View()), waiter) else LoseWake(old(View()), waiter)
      ensures table.Keys == old(table.Keys) && forall w :: w in table && w != waiter ==> table[w] == old(table)[w]
      ensures woken ==> table[waiter].state == Granted && table[waiter].lock == Some(lock)
      ensures woken ==> pending == Some(waiter) && bargeNext
      ensures !woken ==> table[waiter].state == Abandoned && pending == old(pending) && bargeNext == old(bargeNext)
    {
      table := table[waiter := table[waiter].(state := Granted, lock := Some(lock))];
      woken := Wake(waiter, late);
      if woken {
        pending, bargeNext := Some(waiter), true;
      } else {
        SetState(waiter, Abandoned);
      }
    }

    method HandOff(late: set<WaiterId>)
      requires Valid()
      modifies this
      ensures View() == SlotCore.HandOff(old(View()), late)
      ensures QueueWaits(old(View())) ==> exists k :: HandedOff(old(View()), View(), late, k)
      ensures lock == old(lock) && owner == old(owner) && syncWaiting == old(syncWaiting)
      ensures Valid()
    {
      ghost var before := View();
      if QueueWaits(before) {
        ghost var k := HandOffShape(before, late);
      }
      hide HandedOff, QueueWaits;
      while waiters != []
        invariant Valid()
        invariant SlotCore.HandOff(View(), late) == SlotCore.HandOff(old(View()), late)
        invariant lock == old(lock) && owner == old(owner) && syncWaiting == old(syncWaiting)
        decreases |waiters|
      {
        var waiter := waiters[0];
        waiters := waiters[1..];
        if table[waiter].state != Waiting || table[waiter].Dead() {
          SetState(waiter, Abandoned);
        } else {
          var woken := Offer(waiter, late);
          if woken {
            return;
          }
        }
      }
      locked, bargeNext := locked - {lock}, false;
    }

    method ReleaseLocked(late: set<WaiterId>)
      requires Valid()
      modifies this
      ensures View() == SlotCore.ReleaseLocked(old(View()), late)
      ensures QueueWaits(old(View())) ==> LetGo(old(View()), View(), late)
      ensures lock == old(lock) && owner == old(owner) && syncWaiting == old(syncWaiting)
      ensures Valid()
    {
      ghost var before := View();
      if QueueWaits(before) {
        ReleaseReleases(before, late);
      }
      hide HandedOff, QueueWaits, LetGo;
      if waiters != [] && !(bargeNext && syncWaiting != 0) {
        HandOff(late);
      } else {
        locked, bargeNext := locked - {lock}, false;
      }
    }

    method Reclaim(late: set<WaiterId>)
      requires Valid()
      modifies this
      ensures View() == SlotCore.Reclaim(old(View()), late)
      ensures QueueWaits(old(View())) ==> Reclaimed(old(View()), View(), late)
      ensures lock == old(lock) && owner == old(owner) && syncWaiting == old(syncWaiting)
      ensures Valid()
    {
      ghost var before := View();
      if QueueWaits(before) {
        ReclaimReclaims(before, late);
      }
      hide QueueWaits, Reclaimed, LetGo;
      if pending.Some? && table[pending.value].state == Granted && table[pending.value].loopClosed {
        var w := pending.value;
        SetState(w, Abandoned);
        pending := None;
        if table[w].lock == Some(lock) {
          ReleaseLocked(late);
        }
      }
    }

    method Rescue(late: set<WaiterId>)
      requires Valid()
      modifies this
      ensures View() == SlotCore.Rescue(old(View()), late)
      ensures QueueWaits(old(View())) ==> Rescued(old(View()), View(), late)
      ensures lock == old(lock) && owner == old(owner) && syncWaiting == old(syncWaiting)
      ensures Valid()
    {
      ghost var before := View();
      if QueueWaits(before) {
        RescueRescues(before, late);
      }
      hide QueueWaits, Rescued, HandedOff;
      if waiters != [] && lock !in locked {
        locked := locked + {lock};
        HandOff(late);
      }
    }

    method PassOn(waiter: WaiterId, late: set<WaiterId>)
      requires Valid() && waiter in table
      modifies this
      ensures View() == SlotCore.PassOn(old(View()), waiter, late)
      ensures old(table[waiter].state) != Granted ==> View() == old(View())
      ensures old(table[waiter].state) == Granted && QueueWaits(old(View())) ==>
                GaveUp(old(View()), View(), waiter, late)
      ensures Valid()
    {
      ghost var before := View();
      if table[waiter].state == Granted && QueueWaits(before) {
        PassOnGivesUp(before, waiter, late);
      }
      hide QueueWaits, GaveUp, LetGo;
      if table[waiter].state != Granted {
        return;
      }
      SetState(waiter, Abandoned);
      if pending == Some(waiter) {
        pending := None;
      }
      if table[waiter].lock == Some(lock) {
        ReleaseLocked(late);
      }
    }

    method TakeGrant(me: nat, waiter: WaiterId) returns (r: Result<Lock>)
      requires Valid() && waiter in table
      modifies this
      ensures Valid()
      ensures var t := SlotCore.TakeGrant(old(View()), waiter, me);
              && (r.Ok? <==> t.Ok?) && View() == (if t.Ok? then t.value else old(View()))
              && (r.Ok? ==> r.value == lock)
      ensures r == if old(table[waiter].state) == Granted && old(table[waiter].lock) == Some(lock) then Ok(lock)
                   else Err(StorageClosedError)
      ensures r.Err? ==> View() == old(View())
      ensures r.Ok? ==>
                View() == old(View()).(owner := Some(me),
                                       pending := if old(pending) == Some(waiter) then None else old(pending))
    {
      var granted := table[waiter];
      if granted.state != Granted || granted.lock.None? || granted.lock.value != lock {
        return Err(StorageClosedError);
      }
      if pending == Some(waiter) {
        pending := None;
      }
      owner := Some(me);
      return Ok(lock);
    }

    method HeldBy(me: nat, taken: Lock, waited: bool, late: set<WaiterId>) returns (held: bool)
      requires Valid()
      modifies this
      ensures (View(), held) == SlotCore.HeldBy(old(View()), me, taken, waited, late)
      ensures held <==> taken == old(lock)
      ensures var c := old(View()).(syncWaiting := old(syncWaiting) - if waited then 1 else 0);
              && (held ==> View() == c.(owner := Some(me)))
              && (!held && !waited ==> View() == c)
              && (!held && waited && QueueWaits(c) ==> Rescued(c, View(), late))
      ensures Valid()
    {
      hide QueueWaits, Rescued;
      if waited {
        syncWaiting := syncWaiting - 1;
      }
      if taken != lock {
        if waited {
          Rescue(late);
        }
        return false;
      }
      owner := Some(me);
      return true;
    }

    method Release(given: Option<Lock>, late: set<WaiterId>) returns (r: Outcome)
      requires Valid()
      modifies this
      ensures Valid()
      ensures var t := SlotCore.Release(old(View()), given, late);
              && (r == Done <==> t.Ok?) && View() == (if t.Ok? then t.value else old(View()))
      ensures given.Some? && given.value != old(lock) ==> r == Done && View() == old(View())
      ensures given.None? || given.value == old(lock) ==>
                && r == (if old(lock) in old(locked) then Done else Raised(RuntimeError))
                && (r == Done && QueueWaits(old(View())) ==> LetGo(old(View()).(owner := None), View(), late))
                && (r != Done ==> View() == old(View()))
    {
      assert QueueWaits(View()) ==> QueueWaits(View().(owner := None));
      hide QueueWaits, LetGo;
      if given.Some? && given.value != lock {
        return Done;
      }
      if lock !in locked {
        return Raised(RuntimeError);
      }
      owner := None;
      ReleaseLocked(late);
      return Done;
    }

    method Close()
      requires Valid()
      modifies this
      ensures View() == SlotCore.Close(old(View()))
      ensures lock == old(lock) + 1 && owner.None? && waiters == [] && pending.None? && !bargeNext
      ensures syncWaiting == old(syncWaiting)
      ensures locked == if old(owner).Some? || old(pending).Some? then old(locked) - {old(lock)} else old(locked)
      ensures table.Keys == old(table).Keys
      ensures forall w :: w in table ==>
                table[w] == if w in old(waiters) || old(pending) == Some(w) then old(table)[w].(state := Closed)
                            else old(table)[w]
      ensures Valid()
    {
      var hadOwner, grant, dropped := owner.Some?, pending, waiters;
      if hadOwner || grant.Some? {
        locked := locked - {lock};
      }
      lock, owner, waiters, pending, bargeNext := lock + 1, None, [], None, false;
      MarkClosed(dropped, grant);
    }

    method MarkClosed(dropped: seq<WaiterId>, grant: Option<WaiterId>)
      requires (forall w :: w in dropped ==> w in table) && (grant.Some? ==> grant.value in table)
      modifies `table
      ensures table == MarkAll(old(table), dropped + (if grant.Some? then [grant.value] else []), Closed)
      ensures table.Keys == old(table).Keys
      ensures forall w :: w in table ==>
                table[w] == if w in dropped || grant == Some(w) then old(table)[w].(state := Closed) else old(table)[w]
    {
      ghost var first := if grant.Some? then [grant.value] else [];
      MarkedNone(table, Closed);
      assert [] + first == first && dropped[..0] == [];
      if grant.Some? {
        MarkedMore(table, [], [], grant.value, Closed);
        assert [] + [grant.value] + [] == first;
        SetState(grant.value, Closed);
      }
      hide MarkAll;
      for i := 0 to |dropped|
        invariant table == MarkAll(old(table), dropped[..i] + first, Closed)
      {
        assert dropped[..i + 1] == dropped[..i] + [dropped[i]];
        MarkedMore(old(table), dropped[..i], first, dropped[i], Closed);
        SetState(dropped[i], Closed);
      }
      assert dropped[..|dropped|] == dropped;
    }

    /** A thread that found the lock taken is counted before it blocks; it blocks on the current lock. */
    method CountThread(late: set<WaiterId>) returns (l: Lock)
      requires Valid()
      modifies this
      ensures var d := SlotCore.Reclaim(old(View()), late);
              View() == d.(syncWaiting := d.syncWaiting + 1) && l == d.lock
      ensures l == lock == old(lock) && syncWaiting == old(syncWaiting) + 1
      ensures Valid()
    {
      Reclaim(late);
      l := lock;
      syncWaiting := syncWaiting + 1;
    }

    /** A thread that timed out is uncounted, and leaves no queue behind on a free lock. */
    method UncountThread(late: set<WaiterId>, later: set<WaiterId>)
      requires Valid()
      modifies this
      ensures var c := old(View());
              var d := SlotCore.Reclaim(c.(syncWaiting := c.syncWaiting - 1), late);
              Queued(d) && View() == SlotCore.Rescue(d, later)
      ensures Valid()
    {
      syncWaiting := syncWaiting - 1;
      Reclaim(late);
      Rescue(later);
    }

    /**
     A coroutine first hands on a grant whose loop was closed, then takes a free slot nobody is queued or
     counted for, or joins the queue.
     */
    method ReserveOrQueue(me: nat, waiter: WaiterId, late: set<WaiterId>) returns (taken: bool)
      requires Valid() && waiter !in table
      modifies this
      ensures var c := SlotCore.Reclaim(old(View()), late);
              && (taken <==> c.waiters == [] && c.syncWaiting == 0 && c.lock !in c.locked)
              && View() == if taken then c.(locked := c.locked + {c.lock}, owner := Some(me))
                           else c.(waiters := c.waiters + [waiter],
                                   table := c.table[waiter := Waiter(Waiting, None, false, false)])
      ensures Valid()
    {
      Reclaim(late);
      if waiters == [] && syncWaiting == 0 && lock !in locked {
        locked := locked + {lock};
        var held := HeldBy(me, lock, false, {});
        return true;
      }
      table := table[waiter := Waiter(Waiting, None, false, false)];
      waiters := waiters + [waiter];
      return false;
    }

    /** A transaction takes over a reserved slot; its undo needs the owner it displaced. */
    method TakeSlot(storage: nat, slot: WriteSlot, me: nat) returns (r: Result<Option<nat>>)
      requires Valid()
      modifies this, slot
      ensures r.Ok? <==> storage == slot.storage && old(slot.state) == Held && slot.lock == old(lock)
      ensures View() == if r.Ok? then old(View()).(owner := Some(me)) else old(View())
      ensures r.Ok? ==> slot.state == Taken && r.value == old(owner)
      ensures r.Err? ==> slot.state == if storage == slot.storage
            && old(slot.state) == Held then Released else old(slot.state)
      ensures Valid()
    {
      var took := slot.Take(storage, lock);
      if took.Raised? {
        return Err(took.error);
      }
      r := Ok(owner);
      owner := Some(me);
    }

    /** Undo of `TakeSlot`: the slot and its owner return, unless the lock was replaced meanwhile. */
    method GiveBack(slot: WriteSlot, previous: Option<nat>)
      requires Valid()
      modifies this, slot
      ensures View() == if slot.lock == old(lock) then old(View()).(owner := previous) else old(View())
      ensures slot.state == if slot.lock != old(lock) then Released
                            else if old(slot.state) == Taken then Held else old(slot.state)
      ensures Valid()
    {
      if slot.lock == lock {
        owner := previous;
        slot.GiveBack();
      } else {
        slot.state := Released;
      }
    }

    /** A reserved slot is given back once; a slot a transaction took, or one given back, is left alone. */
    method ReleaseSlot(slot: WriteSlot, late: set<WaiterId>) returns (r: Outcome)
      requires Valid()
      modifies this, slot
      ensures slot.state == if old(slot.state) == Held then Released else old(slot.state)
      ensures old(slot.state) != Held ==> r == Done && View() == old(View())
      ensures old(slot.state) == Held ==>
                var t := SlotCore.Release(old(View()), Some(slot.lock), late);
                (r == Done <==> t.Ok?) && View() == (if t.Ok? then t.value else old(View()))
      ensures Valid()
    {
      if slot.state != Held {
        return Done;
      }
      slot.state := Released;
      r := Release(Some(slot.lock), late);
    }

    /** A coroutine that gave up while queued. */
    method LeaveQueue(waiter: WaiterId)
      requires Valid() && waiter in waiters
      modifies `waiters
      ensures View() == Leave(old(View()), waiter)
      ensures exists i :: 0 <= i < |old(waiters)| && old(waiters)[i] == waiter
                       && waiters == old(waiters)[..i] + old(waiters)[i + 1..]
      ensures Valid()
    {
      var i := Index(waiters, waiter);
      waiters := waiters[..i] + waiters[i + 1..];
    }

    /** A queued waiter whose coroutine is leaving: out of the queue, or its grant handed on. */
    method PassOnOrLeave(waiter: WaiterId, late: set<WaiterId>)
      requires Valid() && waiter in table && (table[waiter].state == Waiting ==> waiter in waiters)
      modifies this
      ensures View() == if old(table)[waiter].state == Waiting then Leave(old(View()), waiter)
                        else SlotCore.PassOn(old(View()), waiter, late)
      ensures Valid()
    {
      if table[waiter].state == Waiting {
        LeaveQueue(waiter);
        return;
      }
      PassOn(waiter, late);
    }
  }

  datatype Outcome = Done | Raised(error: Error)

  datatype SlotState = Held | Taken | Released

  /** A reserved slot, held before any transaction is begun. */
  class WriteSlot {
    const storage: nat
    const lock: Lock
    var state: SlotState

    constructor (storage: nat, lock: Lock)
      ensures this.storage == storage && this.lock == lock && state == Held
    {
      this.storage, this.lock, state := storage, lock, Held;
    }

    /** Refused on another storage, when not held, and when the lock was replaced since it was reserved. */
    method Take(forStorage: nat, current: Lock) returns (out: Outcome)
      modifies this
      ensures out == Done <==> forStorage == storage && old(state) == Held && lock == current
      ensures state == if out == Done then Taken
                       else if forStorage == storage && old(state) == Held then Released else old(state)
    {
      if forStorage != storage {
        return Raised(StorageError);
      }
      if state != Held {
        return Raised(StorageError);
      }
      if lock != current {
        state := Released;
        return Raised(StorageError);
      }
      state := Taken;
      return Done;
    }

    method GiveBack()
      modifies this
      ensures state == if old(state) == Taken then Held else old(state)
    {
      if state == Taken {
        state := Held;
      }
    }
  }
}
