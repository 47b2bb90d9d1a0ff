/** What holds in every run of the writer slot, whatever the interleaving. */
module SlotTheorems {
  import opened Wrappers
  import opened SlotCore
  import opened SlotSystem

  /** A run: every step is enabled where it happens. */
  ghost predicate IsRun(states: seq<System>, steps: seq<Step>) {
    && |states| == |steps| + 1
    && forall i :: 0 <= i < |steps| ==> Enabled(states[i], steps[i]) && states[i + 1] == Do(states[i], steps[i])
  }

  lemma {:induction false} RunKeepsInv(states: seq<System>, steps: seq<Step>, i: nat)
    requires IsRun(states, steps) && Inv(states[0]) && i < |states|
    ensures Inv(states[i])
  {
    if i > 0 {
      RunKeepsInv(states, steps, i - 1);
      StepKeepsInv(states[i - 1], steps[i - 1]);
    }
  }

  // ---------------------------------------------------------------------------
  // Mutual exclusion
  // ---------------------------------------------------------------------------

  /** The parties a locked slot can belong to. */
  datatype Party = Owner(me: nat) | Grantee(w: WaiterId) | Taker(t: ThreadId)

  predicate HasSlot(s: System, p: Party) {
    match p
    case Owner(me) => s.core.owner == Some(me)
    case Grantee(w) => s.core.pending == Some(w)
    case Taker(t) => t in s.threads && s.threads[t].Won? && s.threads[t].lock == s.core.lock
  }

  lemma OneOf(a: set<nat>) returns (x: nat)
    requires |a| == 1
    ensures a == {x}
  {
    x :| x in a;
    assert |a - {x}| == 0;
  }

  lemma TakerIsWon(s: System, t: ThreadId)
    requires LocksKnown(s.core, s.threads, s.tokens)
    ensures t in Takers(s.threads, s.core.lock) <==> HasSlot(s, Taker(t))
  {
    if t in s.threads {
      assert LockOf(s.threads[t], s.core.lock);
    }
  }

  /** The slot is locked exactly if one party has it, and never two. */
  lemma LockedByExactlyOne(s: System)
    requires Inv(s)
    ensures s.core.lock in s.core.locked <==> exists p :: HasSlot(s, p)
    ensures forall p, q :: HasSlot(s, p) && HasSlot(s, q) ==> p == q
  {
    var takers := Takers(s.threads, s.core.lock);
    assert |takers| + Claims(s.core) == Bit(s.core.lock in s.core.locked);
    forall t ensures t in takers <==> HasSlot(s, Taker(t)) {
      TakerIsWon(s, t);
    }
    if |takers| == 1 {
      var t := OneOf(takers);
      assert HasSlot(s, Taker(t));
    } else if s.core.owner.Some? {
      assert HasSlot(s, Owner(s.core.owner.value));
    } else if s.core.pending.Some? {
      assert HasSlot(s, Grantee(s.core.pending.value));
    }
  }

  /** No step unlocks a lock that is free: a release by a live holder never raises. */
  lemma NeverUnlocksFree(s: System, step: Step)
    requires Inv(s) && Enabled(s, step)
    ensures step.FinishRelease? ==> Release(s.core, Some(s.tokens[step.k].lock), step.late).Ok?
    ensures step.ReturnLock? ==> s.threads[step.t].lock in s.core.locked
    ensures s.core.pending.Some? || s.core.owner.Some? ==> s.core.lock in s.core.locked
  {
    if step.FinishRelease? {
      FinishReleaseStep(s, step);
    } else if step.ReturnLock? {
      ReturnLockStep(s, step);
    }
    assert |Takers(s.threads, s.core.lock)| + Claims(s.core) == Bit(s.core.lock in s.core.locked);
  }

  // ---------------------------------------------------------------------------
  // Every grant and every reference ends once
  // ---------------------------------------------------------------------------

  /** Nobody releases the slot while a grant is in flight. */
  lemma FinishKeepsGrant(s: System, k: TokenId, late: set<WaiterId>)
    requires Inv(s) && Enabled(s, FinishRelease(k, late)) && s.core.pending.Some?
    ensures Do(s, FinishRelease(k, late)).core.pending == s.core.pending
  {
    assert |Takers(s.threads, s.core.lock)| + Claims(s.core) == Bit(s.core.lock in s.core.locked);
    assert Promised(s.core, s.core.pending.value);
    if s.tokens[k].lock == s.core.lock {
      LiveOwned(s.core, s.tokens, k);
    }
  }

  /** The coroutine's own record, its own handing on, a loop found closed, or a close end a grant. */
  lemma GrantEnds(s: System, step: Step, w: WaiterId)
    requires Inv(s) && Enabled(s, step) && s.core.pending == Some(w) && Do(s, step).core.pending != Some(w)
    ensures var d := Do(s, step);
            || (step.RecordGrant? && step.w == w && d.core.owner == Some(w) && Live(d.tokens[step.k], d.core.lock))
            || (step.HandOn? && step.w == w)
            || (s.core.table[w].loopClosed && (step.Count? || step.Uncount? || step.Begin?))
            || step.CloseStorage?
  {
    if step.FinishRelease? {
      FinishKeepsGrant(s, step.k, step.late);
      hide Enabled, Do, Inv;
    } else if step.HandOn? || step.RecordGrant? {
      GrantTaken(s, step, w);
      hide Enabled, Do, Inv;
    } else {
      assert Promised(s.core, w);
      hide HandOff, Release;
    }
  }

  lemma GrantTaken(s: System, step: Step, w: WaiterId)
    requires Inv(s) && Enabled(s, step) && s.core.pending == Some(w) && Do(s, step).core.pending != Some(w)
    requires step.HandOn? || step.RecordGrant?
    ensures var d := Do(s, step);
            step.w == w && (step.RecordGrant? ==> d.core.owner == Some(w) && Live(d.tokens[step.k], d.core.lock))
  {
    assert Promised(s.core, w);
    assert WaitMatches(s.core, step.w, s.waits[step.w]);
  }

  /** Out of the queue and without a grant. */
  predicate Past(s: System, w: WaiterId) {
    && w in s.core.table && w !in s.core.waiters && s.core.pending != Some(w)
  }

  /** A grant is one that was there, or goes to a queued coroutine; nobody new is queued. */
  ghost predicate FromQueue(c: Core, d: Core) {
    && (d.pending.Some? ==> d.pending == c.pending || d.pending.value in c.waiters)
    && (forall x :: x in d.waiters ==> x in c.waiters) && d.table.Keys == c.table.Keys
  }

  /** A handoff only ever grants a queued coroutine. */
  lemma PassedFromQueue(c: Core, d: Core, k: nat)
    requires PassedOn(c, d, k) && c.pending.None?
    ensures d.pending.Some? ==> d.pending.value in c.waiters
    ensures forall x :: x in d.waiters ==> x in c.waiters
  {
  }

  /** What a guarded section that may pass the slot on does to the queue and the grant. */
  lemma ReclaimFromQueue(c: Core, late: set<WaiterId>)
    requires Ordered(c) && (c.pending.Some? ==> c.owner.None?)
    ensures Queued(c)
    ensures FromQueue(c, Reclaim(c, late))
  {
    if DeadPending(c) {
      var back := Mark(c, c.pending.value, Abandoned).(pending := None);
      var k := ReleasePasses(back, late);
      PassedFromQueue(back, ReleaseLocked(back, late), k);
    }
  }

  lemma RescueFromQueue(c: Core, late: set<WaiterId>)
    requires Ordered(c) && (c.lock !in c.locked ==> c.owner.None? && c.pending.None?)
    ensures Queued(c)
    ensures FromQueue(c, Rescue(c, late))
  {
    if c.waiters != [] && c.lock !in c.locked {
      var held := c.(locked := c.locked + {c.lock});
      var k := HandOffPasses(held, late);
      PassedFromQueue(held, HandOff(held, late), k);
    }
  }

  lemma ReleaseFromQueue(c: Core, late: set<WaiterId>)
    requires Ordered(c) && c.pending.None?
    ensures Queued(c)
    ensures FromQueue(c, ReleaseLocked(c.(owner := None), late))
  {
    var free := c.(owner := None);
    var k := ReleasePasses(free, late);
    PassedFromQueue(free, ReleaseLocked(free, late), k);
  }

  lemma PassOnFromQueue(c: Core, w: WaiterId, late: set<WaiterId>)
    requires Ordered(c) && w in c.table && (c.table[w].state == Granted ==> c.pending == Some(w) && c.owner.None?)
    ensures Queued(c)
    ensures FromQueue(c, PassOn(c, w, late))
  {
    if c.table[w].state == Granted {
      var back := Mark(c, w, Abandoned).(pending := None);
      var k := ReleasePasses(back, late);
      PassedFromQueue(back, ReleaseLocked(back, late), k);
    }
  }

  /** Every step but queueing itself only grants from the queue. */
  lemma StepFromQueue(s: System, step: Step)
    requires Inv(s) && Enabled(s, step) && !step.Reserve?
    ensures FromQueue(s.core, Do(s, step).core)
  {
    hide *;
    if step.Count? || step.Begin? || step.Uncount? {
      ReclaimStepsFromQueue(s, step);
    } else if step.RescueQueue? || step.Record? {
      RescueStepsFromQueue(s, step);
    } else if step.HandOn? || step.LeaveWait? {
      WaitStepsFromQueue(s, step);
    } else if step.FinishRelease? {
      FinishFromQueue(s, step.k, step.late);
    } else {
      OtherStepsFromQueue(s, step);
    }
  }

  lemma ReclaimStepsFromQueue(s: System, step: Step)
    requires Inv(s) && Enabled(s, step) && (step.Count? || step.Begin? || step.Uncount?)
    ensures FromQueue(s.core, Do(s, step).core)
  {
    var c := if step.Uncount? then s.core.(syncWaiting := s.core.syncWaiting - 1) else s.core;
    assert |Takers(s.threads, c.lock)| + Claims(c) == Bit(c.lock in c.locked);
    ReclaimFromQueue(c, step.late);
  }

  lemma RescueStepsFromQueue(s: System, step: Step)
    requires Inv(s) && Enabled(s, step) && (step.RescueQueue? || step.Record?)
    ensures FromQueue(s.core, Do(s, step).core)
  {
    var c := if step.Record? then s.core.(syncWaiting := s.core.syncWaiting - 1) else s.core;
    assert |Takers(s.threads, c.lock)| + Claims(c) == Bit(c.lock in c.locked);
    RescueFromQueue(c, step.late);
  }

  lemma WaitStepsFromQueue(s: System, step: Step)
    requires Inv(s) && Enabled(s, step) && (step.HandOn? || step.LeaveWait?)
    ensures FromQueue(s.core, Do(s, step).core)
  {
    var c := s.core;
    assert WaitMatches(c, step.w, s.waits[step.w]);
    assert |Takers(s.threads, c.lock)| + Claims(c) == Bit(c.lock in c.locked);
    if step.HandOn? {
      PassOnFromQueue(c, step.w, step.late);
    } else if c.table[step.w].state == Waiting {
      assert forall y :: y in Leave(c, step.w).waiters ==> y in c.waiters;
    }
  }

  lemma OtherStepsFromQueue(s: System, step: Step)
    requires Enabled(s, step)
    requires step.Look? || step.TryLock? || step.TakeLock? || step.Expire? || step.ReturnLock? || step.WakeUp?
          || step.Stop?
          || step.RecordGrant? || step.LoopCloses? || step.FutureEnds? || step.StartRelease? || step.TakeOver?
          || step.GiveBack? || step.CloseStorage?
    ensures FromQueue(s.core, Do(s, step).core)
  {
  }

  lemma FinishFromQueue(s: System, k: TokenId, late: set<WaiterId>)
    requires Inv(s) && Enabled(s, FinishRelease(k, late))
    ensures FromQueue(s.core, Do(s, FinishRelease(k, late)).core)
  {
    if s.tokens[k].lock == s.core.lock {
      LiveOwned(s.core, s.tokens, k);
      assert |Takers(s.threads, s.core.lock)| + Claims(s.core) == Bit(s.core.lock in s.core.locked);
      ReleaseFromQueue(s.core, late);
    }
  }

  /** No coroutine is granted twice: once out of the queue and without a grant, always so. */
  lemma NoSecondGrant(s: System, step: Step, w: WaiterId)
    requires Inv(s) && Enabled(s, step) && Past(s, w)
    ensures Past(Do(s, step), w)
  {
    if step.Reserve? {
      assert WaitMatches(s.core, step.w, s.waits[step.w]);
    } else {
      StepFromQueue(s, step);
      hide Do, Inv, Enabled;
    }
  }

  /** A released reference stays released, and one that ends gives up the slot or touches nothing. */
  lemma ReferenceEndsOnce(s: System, step: Step, k: TokenId)
    requires Inv(s) && Enabled(s, step) && k in s.tokens
    ensures var d := Do(s, step);
            && k in d.tokens && d.tokens[k].lock == s.tokens[k].lock
            && (s.tokens[k].state.Released? ==> d.tokens[k] == s.tokens[k])
            && (!s.tokens[k].state.Released? && d.tokens[k].state.Released? ==>
                  if s.tokens[k].lock == s.core.lock then
                    step.FinishRelease? && step.k == k && s.core.owner.Some? && d.core.owner.None?
                  else d.core == s.core)
  {
    if step.FinishRelease? && step.k == k && s.tokens[k].lock == s.core.lock {
      LiveOwned(s.core, s.tokens, k);
      ReleaseKeeps(s.core, step.late, s.threads, s.waits);
    }
  }

  /** While the slot has an owner, one reference to it is live; otherwise none is. */
  lemma OwnerHasOneReference(s: System)
    requires Inv(s)
    ensures s.core.owner.Some? <==> exists k :: k in s.tokens && Live(s.tokens[k], s.core.lock)
    ensures forall j, k ::
              j in s.tokens && k in s.tokens && Live(s.tokens[j], s.core.lock) && Live(s.tokens[k], s.core.lock) ==>
                j == k
  {
    var live := LiveTokens(s.tokens, s.core.lock);
    if s.core.owner.Some? {
      var k := OneOf(live);
      assert k in live;
    }
    forall j | j in s.tokens && Live(s.tokens[j], s.core.lock) ensures j in live {
    }
  }

  // ---------------------------------------------------------------------------
  // Nothing from before a close touches the fresh slot
  // ---------------------------------------------------------------------------

  lemma StaleReferenceTouchesNothing(s: System, step: Step)
    requires Enabled(s, step) && (step.StartRelease? || step.FinishRelease? || step.TakeOver? || step.GiveBack?)
    requires s.tokens[step.k].lock != s.core.lock
    ensures Do(s, step).core == s.core
  {
  }

  /** Close ends every waiter there is; an ended one neither takes nor frees the slot. */
  lemma CloseEndsWaiters(s: System, w: WaiterId)
    requires Inv(s) && s.guard.Free? && (w in s.core.waiters || s.core.pending == Some(w))
    ensures Enabled(s, CloseStorage)
    ensures var d := Do(s, CloseStorage); w in d.core.table && d.core.table[w].state == Closed
  {
  }

  lemma ClosedWaiterTouchesNothing(s: System, step: Step)
    requires Enabled(s, step) && (step.RecordGrant? || step.HandOn? || step.LeaveWait?)
    requires s.core.table[step.w].state == Closed
    ensures Do(s, step).core == s.core && Do(s, step).tokens == s.tokens
  {
  }

  /**
   A thread with a lock from before the close never owns, frees or takes the fresh slot; a counted
   one may, as it leaves, hand a free slot to a coroutine queued on the fresh one.
   */
  lemma StaleThreadTouchesNothing(s: System, step: Step)
    requires Inv(s) && Enabled(s, step) && (step.TryLock? || step.TakeLock? || step.Record? || step.ReturnLock?)
    requires s.threads[step.t].lock != s.core.lock
    ensures var c, d := s.core, Do(s, step).core;
            && d.lock == c.lock && d.owner == c.owner && Do(s, step).tokens == s.tokens
            && (c.lock in c.locked || !step.Record? ==>
                  (c.lock in d.locked <==> c.lock in c.locked) && d.waiters == c.waiters && d.pending == c.pending)
            && (c.lock !in c.locked && c.lock in d.locked ==> d.pending.Some? && d.pending.value in c.waiters)
  {
    var c := s.core;
    if step.Record? {
      var n := c.(syncWaiting := c.syncWaiting - 1);
      assert |Takers(s.threads, c.lock)| + Claims(c) == Bit(c.lock in c.locked);
      RescueFromQueue(n, step.late);
      ChangeSync(c, s.threads, s.waits, c.syncWaiting - 1);
      RescueKeeps(n, step.late, s.threads, s.waits);
      assert |Takers(s.threads, c.lock)| + Claims(Rescue(n, step.late)) == Bit(c.lock in Rescue(n, step.late).locked);
    }
  }

  // ---------------------------------------------------------------------------
  // No stranded queue
  // ---------------------------------------------------------------------------

  /** A queue on a free slot always has a thread on its way to take the slot or rescue the queue. */
  lemma QueueNeverStranded(s: System)
    requires Inv(s) && s.core.waiters != [] && s.core.lock !in s.core.locked
    ensures exists t :: t in s.threads && (Counted(s.threads[t]) || (s.threads[t].Rescuing? && s.guard == ByThread(t)))
  {
    if s.guard.ByThread? {
      assert s.threads[s.guard.t].Rescuing?;
    } else {
      assert CountedThreads(s.threads) != {};
      var t :| t in CountedThreads(s.threads);
      assert Counted(s.threads[t]);
    }
  }

  /** A thread stops being counted only into a taken slot, an empty queue, or its own rescue. */
  lemma LeavingThreadRescues(s: System, step: Step, t: ThreadId)
    requires Inv(s) && Enabled(s, step) && t in s.threads && Counted(s.threads[t])
    ensures var d := Do(s, step);
            && t in d.threads
            && (!Counted(d.threads[t]) ==>
                  d.core.waiters == [] || d.core.lock in d.core.locked || d.guard == ByThread(t))
  {
    if step.Record? && step.t == t {
      RecordLeaves(s, step);
      hide Enabled, Do, Inv;
    } else {
      hide Inv, HandOff, Reclaim, Rescue, Release, Close, PassOn, HeldBy;
    }
  }

  lemma RecordLeaves(s: System, step: Step)
    requires Inv(s) && Enabled(s, step) && step.Record? && Counted(s.threads[step.t])
    ensures var d := Do(s, step);
            && step.t in d.threads
            && (!Counted(d.threads[step.t]) ==>
                  d.core.waiters == [] || d.core.lock in d.core.locked || d.guard == ByThread(step.t))
  {
    var t := step.t;
    var c := s.core.(syncWaiting := s.core.syncWaiting - 1);
    ChangeSync(s.core, s.threads, s.waits, c.syncWaiting);
    RescueKeeps(c, step.late, s.threads, s.waits);
    if s.threads[t].lock == s.core.lock {
      ThreadRecords(s.core, s.threads, t, t);
    }
  }

  /** A rescue leaves no queue on a free slot. */
  lemma RescueSettles(s: System, step: Step)
    requires Inv(s) && Enabled(s, step) && step.RescueQueue?
    ensures var d := Do(s, step).core; d.waiters == [] || d.lock in d.locked
  {
    RescueKeeps(s.core, step.late, s.threads, s.waits);
  }

  /** While a queue waits on a free slot some step towards taking or rescuing it is enabled. */
  lemma StrandedQueueMoves(s: System)
    requires Inv(s) && s.core.waiters != [] && s.core.lock !in s.core.locked
    ensures exists step :: Enabled(s, step)
              && (step.TakeLock? || step.Expire? || step.Uncount? || step.Record? || step.RescueQueue? || step.Reserve?)
  {
    var k := Unused(s.tokens.Keys);
    if s.guard.ByThread? {
      assert Enabled(s, RescueQueue(s.guard.t, {}));
    } else if s.guard.ByWait? {
      assert Enabled(s, Reserve(s.guard.w, k));
    } else {
      QueueNeverStranded(s);
      var t :| t in s.threads && Counted(s.threads[t]);
      if s.threads[t].Blocked? {
        assert Enabled(s, Expire(t));
      } else if s.threads[t].Expired? {
        assert Enabled(s, Uncount(t, {}));
      } else {
        assert Enabled(s, Record(t, k, {}));
      }
    }
  }

  lemma {:induction false} Unused(used: set<nat>) returns (k: nat)
    ensures k !in used
    ensures forall x :: x in used ==> x < k
  {
    if used == {} {
      k := 0;
    } else {
      var x :| x in used;
      k := Unused(used - {x});
      assert used == (used - {x}) + {x};
      k := if k > x then k else x + 1;
    }
  }
}
