/** Whose turn it is: coroutines never starve the blocked threads, never barge in, and no dead grant keeps the slot. */
module SlotTurns {
  import opened Wrappers
  import opened SlotCore
  import opened SlotSystem
  import opened SlotTheorems
  import opened BoundedBypass

  /** The threads are owed a turn only while the slot is held. */
  predicate OwedWhileHeld(c: Core) {
    c.bargeNext ==> c.lock in c.locked
  }

  /** A coroutine is granted the slot. */
  predicate NewGrant(c: Core, d: Core) {
    d.pending.Some? && d.pending != c.pending
  }

  /** A grant owes the threads a turn, none is made while they are owed one, and the debt stays till it is free. */
  predicate Alternates(c: Core, d: Core) {
    && OwedWhileHeld(d)
    && (NewGrant(c, d) ==> d.bargeNext && !(c.bargeNext && c.syncWaiting != 0))
    && (c.bargeNext && d.lock in d.locked ==> d.bargeNext)
  }

  lemma HandOffAlternates(c: Core, late: set<WaiterId>)
    requires QueueWaits(c) && c.pending.None?
    ensures Queued(c)
    ensures var d := HandOff(c, late); d.lock == c.lock && (if d.pending.Some? then d.bargeNext && d.locked == c.locked
                                                            else !d.bargeNext && d.locked == c.locked - {c.lock})
  {
    var k := HandOffShape(c, late);
  }

  lemma ReleaseAlternates(c: Core, late: set<WaiterId>)
    requires QueueWaits(c) && c.pending.None? && c.lock in c.locked
    ensures Queued(c) && Alternates(c, ReleaseLocked(c, late))
  {
    HandOffAlternates(c, late);
    hide HandOff;
  }

  lemma RescueAlternates(c: Core, late: set<WaiterId>)
    requires QueueWaits(c) && OwedWhileHeld(c) && (c.lock !in c.locked ==> c.pending.None?)
    ensures Queued(c) && Alternates(c, Rescue(c, late))
  {
    if c.waiters != [] && c.lock !in c.locked {
      HandOffAlternates(c.(locked := c.locked + {c.lock}), late);
    }
    hide HandOff;
  }

  lemma PassOnAlternates(c: Core, w: WaiterId, late: set<WaiterId>)
    requires Ordered(c) && OwedWhileHeld(c) && w in c.table
    requires c.table[w].state == Granted ==> c.pending == Some(w) && c.lock in c.locked
    ensures Queued(c) && Alternates(c, PassOn(c, w, late))
  {
    if c.table[w].state == Granted {
      var back := Mark(c, w, Abandoned).(pending := None);
      ReleaseAlternates(back, late);
      hide ReleaseLocked;
    }
  }

  lemma ReclaimAlternates(c: Core, late: set<WaiterId>)
    requires Ordered(c) && OwedWhileHeld(c) && (c.pending.Some? ==> c.lock in c.locked)
    ensures Queued(c) && Alternates(c, Reclaim(c, late))
    ensures Reclaim(c, late).syncWaiting == c.syncWaiting
  {
    if DeadPending(c) {
      PassOnAlternates(c, c.pending.value, late);
      var k := HandOffKeepsCount(Mark(c, c.pending.value, Abandoned).(pending := None), late);
      hide ReleaseLocked;
    }
  }

  lemma HandOffKeepsCount(c: Core, late: set<WaiterId>) returns (k: nat)
    requires QueueWaits(c)
    ensures Queued(c) && ReleaseLocked(c, late).syncWaiting == c.syncWaiting
  {
    k := HandOffShape(c, late);
  }

  /** A new lock is free. */
  lemma NextLockFree(s: System)
    requires Inv(s)
    ensures s.core.lock + 1 !in s.core.locked
  {
    var l := s.core.lock + 1;
    forall t | t in s.threads ensures !Holds(s.threads[t], l) {
      assert LockOf(s.threads[t], s.core.lock);
    }
    assert Takers(s.threads, l) == {};
    assert |Takers(s.threads, l)| + (if l == s.core.lock then Claims(s.core) else 0) == Bit(l in s.core.locked);
  }

  lemma PendingHoldsLock(s: System)
    requires Inv(s)
    ensures s.core.pending.Some? || s.core.owner.Some? ==> s.core.lock in s.core.locked
    ensures s.core.pending.Some? ==> s.core.owner.None?
  {
    assert |Takers(s.threads, s.core.lock)| + Claims(s.core) == Bit(s.core.lock in s.core.locked);
  }

  /** What the step finds counted: the threads before it, or after it. */
  predicate TurnTaken(s: System, d: System) {
    && OwedWhileHeld(d.core)
    && (NewGrant(s.core, d.core) ==>
          d.core.bargeNext && (s.core.bargeNext ==> s.core.syncWaiting == 0 || d.core.syncWaiting == 0))
    && (s.core.bargeNext && d.core.lock in d.core.locked ==> d.core.bargeNext)
  }

  /** Every step of any party keeps the turns. */
  lemma StepTakesTurns(s: System, step: Step)
    requires Inv(s) && OwedWhileHeld(s.core) && Enabled(s, step)
    ensures TurnTaken(s, Do(s, step))
  {
    hide *;
    if step.Count? || step.Begin? || step.Uncount? {
      ReclaimStepsTakeTurns(s, step);
    } else if step.RescueQueue? || step.Record? {
      RescueStepsTakeTurns(s, step);
    } else if step.HandOn? || step.FinishRelease? {
      GivingStepsTakeTurns(s, step);
    } else if step.Look? || step.TryLock? || step.TakeLock? || step.Expire? || step.ReturnLock? {
      ThreadStepsTakeTurns(s, step);
    } else if step.StartRelease? || step.TakeOver? || step.GiveBack? || step.CloseStorage? {
      OtherStepsTakeTurns(s, step);
    } else {
      WaitStepsTakeTurns(s, step);
    }
  }

  lemma ReclaimStepsTakeTurns(s: System, step: Step)
    requires Inv(s) && OwedWhileHeld(s.core) && Enabled(s, step) && (step.Count? || step.Begin? || step.Uncount?)
    ensures TurnTaken(s, Do(s, step))
  {
    var c := if step.Uncount? then s.core.(syncWaiting := s.core.syncWaiting - 1) else s.core;
    PendingHoldsLock(s);
    ReclaimAlternates(c, step.late);
    hide Inv, Reclaim;
  }

  lemma RescueStepsTakeTurns(s: System, step: Step)
    requires Inv(s) && OwedWhileHeld(s.core) && Enabled(s, step) && (step.RescueQueue? || step.Record?)
    ensures TurnTaken(s, Do(s, step))
  {
    var c := if step.Record? then s.core.(syncWaiting := s.core.syncWaiting - 1) else s.core;
    PendingHoldsLock(s);
    RescueAlternates(c, step.late);
    hide Inv, Rescue;
  }

  lemma GivingStepsTakeTurns(s: System, step: Step)
    requires Inv(s) && OwedWhileHeld(s.core) && Enabled(s, step) && (step.HandOn? || step.FinishRelease?)
    ensures TurnTaken(s, Do(s, step))
  {
    PendingHoldsLock(s);
    if step.HandOn? {
      assert WaitMatches(s.core, step.w, s.waits[step.w]);
      PassOnAlternates(s.core, step.w, step.late);
      hide Inv, PassOn;
    } else if s.tokens[step.k].lock == s.core.lock {
      LiveOwned(s.core, s.tokens, step.k);
      ReleaseAlternates(s.core.(owner := None), step.late);
      hide Inv, ReleaseLocked;
    }
  }

  lemma ThreadStepsTakeTurns(s: System, step: Step)
    requires Inv(s) && OwedWhileHeld(s.core) && Enabled(s, step)
    requires step.Look? || step.TryLock? || step.TakeLock? || step.Expire? || step.ReturnLock?
    ensures TurnTaken(s, Do(s, step))
  {
    if step.ReturnLock? {
      assert LockOf(s.threads[step.t], s.core.lock);
    }
    hide Inv;
  }

  lemma WaitStepsTakeTurns(s: System, step: Step)
    requires Inv(s) && OwedWhileHeld(s.core) && Enabled(s, step)
    requires step.Reserve? || step.WakeUp? || step.Stop? || step.LeaveWait? || step.RecordGrant? || step.LoopCloses?
          || step.FutureEnds?
    ensures TurnTaken(s, Do(s, step))
  {
    hide Inv;
  }

  lemma OtherStepsTakeTurns(s: System, step: Step)
    requires Inv(s) && OwedWhileHeld(s.core) && Enabled(s, step)
    requires step.StartRelease? || step.TakeOver? || step.GiveBack? || step.CloseStorage?
    ensures TurnTaken(s, Do(s, step))
  {
    NextLockFree(s);
    hide Inv;
  }

  lemma {:induction false} RunTakesTurns(states: seq<System>, steps: seq<Step>, i: nat)
    requires IsRun(states, steps) && Inv(states[0]) && OwedWhileHeld(states[0].core) && i < |states|
    ensures Inv(states[i]) && OwedWhileHeld(states[i].core)
  {
    hide Inv, Enabled, Do;
    RunKeepsInv(states, steps, i);
    if i > 0 {
      RunTakesTurns(states, steps, i - 1);
      StepTakesTurns(states[i - 1], steps[i - 1]);
    }
  }

  /** The debt to the threads stays as long as the slot is not free. */
  lemma {:induction false} DebtStays(states: seq<System>, steps: seq<Step>, i: nat, j: nat)
    requires IsRun(states, steps) && Inv(states[0]) && OwedWhileHeld(states[0].core) && i <= j < |states|
    requires states[i].core.bargeNext
    requires forall n :: i < n <= j ==> states[n].core.lock in states[n].core.locked
    ensures states[j].core.bargeNext
  {
    hide Inv, Enabled, Do;
    if i < j {
      DebtStays(states, steps, i, j - 1);
      RunTakesTurns(states, steps, j - 1);
      StepTakesTurns(states[j - 1], steps[j - 1]);
    }
  }

  /**
   Blocked threads are not starved: between two grants to coroutines the slot is free for the threads
   at least once, if some are counted all the while.
   */
  lemma ThreadsGetTurns(states: seq<System>, steps: seq<Step>, i: nat, j: nat)
    requires IsRun(states, steps) && Inv(states[0]) && OwedWhileHeld(states[0].core) && i < j < |steps|
    requires NewGrant(states[i].core, states[i + 1].core) && NewGrant(states[j].core, states[j + 1].core)
    requires forall n :: i < n <= j + 1 ==> states[n].core.syncWaiting != 0
    ensures exists n :: i < n <= j && states[n].core.lock !in states[n].core.locked
  {
    hide Inv, Enabled, Do;
    RunTakesTurns(states, steps, i);
    StepTakesTurns(states[i], steps[i]);
    if forall n :: i + 1 < n <= j ==> states[n].core.lock in states[n].core.locked {
      DebtStays(states, steps, i + 1, j);
      RunTakesTurns(states, steps, j);
      StepTakesTurns(states[j], steps[j]);
    }
  }

  // ---------------------------------------------------------------------------
  // Who may take it
  // ---------------------------------------------------------------------------

  /** A coroutine that arrives takes the slot only if nobody is queued or counted for it; else it is queued last. */
  lemma ArrivalDoesNotBarge(s: System, w: WaiterId, k: TokenId)
    requires Inv(s) && Enabled(s, Reserve(w, k))
    ensures var c, d := s.core, Do(s, Reserve(w, k)).core;
            if c.waiters == [] && c.syncWaiting == 0 && c.lock !in c.locked then
              d.owner == Some(w) && d.lock in d.locked && d.waiters == []
            else
              && d.waiters == c.waiters + [w] && d.owner == c.owner && d.locked == c.locked && d.pending == c.pending
              && w in d.table && d.table[w].state == Waiting && !d.table[w].Dead()
  {
  }

  lemma ReclaimLeavesNoDead(c: Core, late: set<WaiterId>)
    requires Ordered(c)
    ensures Queued(c)
    ensures var d := Reclaim(c, late);
            d.pending.Some? ==> d.pending.value in d.table && !d.table[d.pending.value].loopClosed
  {
    ReclaimReclaims(c, late);
    hide Reclaim;
  }

  /** After an arrival, a thread counted or a thread uncounted, no grant is left to a closed loop. */
  lemma NoDeadGrantStays(s: System, step: Step)
    requires Inv(s) && Enabled(s, step) && (step.Count? || step.Uncount? || step.Begin?)
    ensures var d := Do(s, step).core;
            d.pending.Some? ==> d.pending.value in d.table && !d.table[d.pending.value].loopClosed
  {
    var c := if step.Uncount? then s.core.(syncWaiting := s.core.syncWaiting - 1) else s.core;
    ReclaimLeavesNoDead(c, step.late);
    hide Reclaim, Inv;
  }

  /** A coroutine granted while it timed out takes the slot; one that was cancelled hands it on. */
  lemma LateGrant(s: System, w: WaiterId)
    requires Inv(s) && Enabled(s, LeaveWait(w)) && s.core.pending == Some(w)
    ensures var d := Do(s, LeaveWait(w));
            && d.core == s.core
            && (s.waits[w].timedOut ==> d.waits[w].Woken?) && (!s.waits[w].timedOut ==> d.waits[w].Leaving?)
  {
    assert Promised(s.core, w);
  }

  /** A transaction that takes over a reserved slot and gives it back leaves everything as it was. */
  lemma TakeOverUndone(s: System, k: TokenId, me: nat)
    requires Inv(s) && Enabled(s, TakeOver(k, me)) && s.tokens[k].lock == s.core.lock
    ensures var t := Do(s, TakeOver(k, me));
            t.core == s.core.(owner := Some(me)) && Enabled(t, GiveBack(k)) && Do(t, GiveBack(k)) == s
  {
    var t := Do(s, TakeOver(k, me));
    assert t.tokens[k := s.tokens[k]] == s.tokens;
  }

  /** A coroutine's loop is found closed only if it closed: by itself, or under the handoff that woke it. */
  lemma LoopStaysOpen(s: System, step: Step, w: WaiterId)
    requires Inv(s) && Enabled(s, step) && w in s.core.table && w in Do(s, step).core.table
    requires step != LoopCloses(w) && w !in Late(step)
    ensures Do(s, step).core.table[w].loopClosed == s.core.table[w].loopClosed
  {
    hide *;
    if step.Count? || step.Begin? || step.Uncount? {
      ReclaimLoops(s, step, w);
    } else if step.RescueQueue? || step.Record? || step.HandOn? || step.FinishRelease? {
      GuardedLoops(s, step, w);
    } else if step.Reserve? {
      ReserveLoops(s, step, w);
    } else {
      OtherLoops(s, step, w);
    }
  }

  lemma {:induction false} HandOffLoops(c: Core, late: set<WaiterId>, w: WaiterId)
    requires Queued(c) && w in c.table && w !in late
    ensures w in HandOff(c, late).table && HandOff(c, late).table[w].loopClosed == c.table[w].loopClosed
    decreases |c.waiters|
  {
    if c.waiters != [] {
      var x, rest := c.waiters[0], c.(waiters := c.waiters[1..]);
      if c.table[x].state != Waiting || c.table[x].Dead() {
        HandOffLoops(Mark(rest, x, Abandoned), late, w);
      } else if x in late {
        HandOffLoops(LoseWake(rest, x), late, w);
      }
    }
  }

  lemma PassOnLoops(c: Core, x: WaiterId, late: set<WaiterId>, w: WaiterId)
    requires Queued(c) && x in c.table && w in c.table && w !in late
    ensures w in PassOn(c, x, late).table && PassOn(c, x, late).table[w].loopClosed == c.table[w].loopClosed
  {
    HandOffLoops(Mark(c, x, Abandoned).(pending := if c.pending == Some(x) then None else c.pending), late, w);
    hide HandOff;
  }

  lemma ReclaimLoops(s: System, step: Step, w: WaiterId)
    requires Enabled(s, step) && w in s.core.table && w !in Late(step) && w in Do(s, step).core.table
    requires step.Count? || step.Begin? || step.Uncount?
    ensures Do(s, step).core.table[w].loopClosed == s.core.table[w].loopClosed
  {
    var c := if step.Uncount? then s.core.(syncWaiting := s.core.syncWaiting - 1) else s.core;
    if DeadPending(c) {
      PassOnLoops(c, c.pending.value, step.late, w);
    }
    hide ReleaseLocked;
  }

  lemma GuardedLoops(s: System, step: Step, w: WaiterId)
    requires Enabled(s, step) && w in s.core.table && w !in Late(step) && w in Do(s, step).core.table
    requires step.RescueQueue? || step.Record? || step.HandOn? || step.FinishRelease?
    ensures Do(s, step).core.table[w].loopClosed == s.core.table[w].loopClosed
  {
    if step.RescueQueue? || step.Record? {
      var c := if step.Record? then s.core.(syncWaiting := s.core.syncWaiting - 1) else s.core;
      HandOffLoops(c.(locked := c.locked + {c.lock}), step.late, w);
    } else if step.HandOn? {
      PassOnLoops(s.core, step.w, step.late, w);
      hide PassOn;
    } else {
      HandOffLoops(s.core.(owner := None), step.late, w);
    }
    hide HandOff;
  }

  lemma ReserveLoops(s: System, step: Step, w: WaiterId)
    requires Inv(s) && Enabled(s, step) && w in s.core.table && step.Reserve? && w in Do(s, step).core.table
    ensures Do(s, step).core.table[w].loopClosed == s.core.table[w].loopClosed
  {
    assert WaitMatches(s.core, step.w, s.waits[step.w]);
    hide Inv;
  }

  lemma OtherLoops(s: System, step: Step, w: WaiterId)
    requires Enabled(s, step) && w in s.core.table && step != LoopCloses(w) && w in Do(s, step).core.table
    requires !(step.Count? || step.Begin? || step.Uncount? || step.RescueQueue? || step.Record? || step.HandOn?
               || step.FinishRelease? || step.Reserve?)
    ensures Do(s, step).core.table[w].loopClosed == s.core.table[w].loopClosed
  {
  }
}
