/** How long a queued coroutine can be passed over: two releases a place, in arrival order. */
module BoundedBypass {
  import opened Wrappers
  import opened SlotCore
  import opened SlotSystem
  import opened SlotTheorems

  /** Two for every coroutine ahead, one for its own handoff, one for a pending turn of the threads. */
  function Rank(c: Core, w: WaiterId): nat
    requires w in c.waiters
  {
    2 * Index(c.waiters, w) + Bit(c.bargeNext) + 1
  }

  lemma IndexIs(q: seq<WaiterId>, i: nat)
    requires Distinct(q) && i < |q|
    ensures Index(q, q[i]) == i
  {
  }

  lemma IndexInSuffix(q: seq<WaiterId>, k: nat, w: WaiterId)
    requires Distinct(q) && k <= |q| && w in q[k..]
    ensures w in q && k <= Index(q, w) && Index(q[k..], w) == Index(q, w) - k
  {
    var i := Index(q[k..], w);
    assert q[k + i] == w;
    IndexIs(q, k + i);
  }

  /** `d` still queues `w`, no further back, with `n` units of its rank spent. */
  ghost predicate Spends(c: Core, d: Core, w: WaiterId, n: nat)
    requires w in c.waiters
  {
    w in d.waiters ==> Rank(d, w) + n <= Rank(c, w)
  }

  lemma HandOffSpends(c: Core, late: set<WaiterId>, w: WaiterId)
    requires Ordered(c) && w in c.waiters
    ensures Queued(c) && Spends(c, HandOff(c, late), w, 1)
  {
    var d := HandOff(c, late);
    var k := HandOffShape(c, late);
    if w in d.waiters {
      IndexInSuffix(c.waiters, k + 1, w);
    }
  }

  /** One release costs a queued coroutine at least one: a place, or the threads' turn. */
  lemma ReleaseSpends(c: Core, late: set<WaiterId>, w: WaiterId)
    requires Ordered(c) && w in c.waiters
    ensures Queued(c) && Spends(c, ReleaseLocked(c, late), w, 1)
  {
    if !(c.bargeNext && c.syncWaiting != 0) {
      HandOffSpends(c, late, w);
    }
  }

  /** Whether a step passes the current slot on, in one call of the release section. */
  predicate Releases(s: System, step: Step)
    requires Enabled(s, step)
  {
    match step
    case Count(_, _) => DeadPending(s.core)
    case Uncount(_, _) => DeadPending(s.core)
    case Begin(_, _) => DeadPending(s.core)
    case HandOn(w, _) => s.core.table[w].state == Granted
    case FinishRelease(k, _) => s.tokens[k].lock == s.core.lock
    case _ => false
  }

  lemma ReclaimSpends(c: Core, late: set<WaiterId>, w: WaiterId)
    requires Ordered(c) && w in c.waiters
    ensures Queued(c) && Spends(c, Reclaim(c, late), w, Bit(DeadPending(c)))
  {
    if DeadPending(c) {
      ReleaseSpends(Mark(c, c.pending.value, Abandoned).(pending := None), late, w);
    }
  }

  lemma RescueSpends(c: Core, late: set<WaiterId>, w: WaiterId)
    requires Ordered(c) && w in c.waiters
    ensures Queued(c) && Spends(c, Rescue(c, late), w, 0)
  {
    if c.lock !in c.locked {
      HandOffSpends(c.(locked := c.locked + {c.lock}), late, w);
    }
  }

  lemma PassOnSpends(c: Core, x: WaiterId, late: set<WaiterId>, w: WaiterId)
    requires Ordered(c) && w in c.waiters && x in c.table && (c.table[x].state == Granted ==> c.pending == Some(x))
    ensures Queued(c) && Spends(c, PassOn(c, x, late), w, Bit(c.table[x].state == Granted))
  {
    if c.table[x].state == Granted {
      ReleaseSpends(Mark(c, x, Abandoned).(pending := None), late, w);
    }
  }

  lemma LeftBehind(q: seq<WaiterId>, i: nat, j: nat)
    requires Distinct(q) && i < |q| && j < |q| && q[j] in q[..i] + q[i + 1..]
    ensures i != j && Distinct(q[..i] + q[i + 1..])
    ensures (q[..i] + q[i + 1..])[if j < i then j else j - 1] == q[j]
  {
    var r := q[..i] + q[i + 1..];
    assert forall k :: 0 <= k < |r| ==> r[k] == q[if k < i then k else k + 1];
  }

  lemma LeaveSpends(c: Core, x: WaiterId, w: WaiterId)
    requires Distinct(c.waiters) && x in c.waiters && w in c.waiters
    ensures Spends(c, Leave(c, x), w, 0)
  {
    var q, i, j := c.waiters, Index(c.waiters, x), Index(c.waiters, w);
    var d := Leave(c, x);
    if w in d.waiters {
      assert d.waiters == q[..i] + q[i + 1..];
      LeftBehind(q, i, j);
      IndexIs(d.waiters, if j < i then j else j - 1);
    }
  }

  lemma AppendSpends(c: Core, d: Core, x: WaiterId, w: WaiterId)
    requires w in c.waiters && x !in c.waiters && Distinct(c.waiters)
    requires d.waiters == c.waiters + [x] && d.bargeNext == c.bargeNext
    ensures Spends(c, d, w, 0)
  {
    assert d.waiters[Index(c.waiters, w)] == w;
    IndexIs(d.waiters, Index(c.waiters, w));
  }

  /** No step pushes a queued coroutine back; each release brings it nearer. */
  lemma StepSpends(s: System, step: Step, w: WaiterId)
    requires Inv(s) && Enabled(s, step) && w in s.core.waiters
    ensures Spends(s.core, Do(s, step).core, w, Bit(Releases(s, step)))
  {
    var c := s.core;
    hide LocksCounted, TokensCounted, SyncCounted, NotStranded, LocksKnown, GuardHeld, HandOff, Ordered, Rank;
    if step.Count? || step.Begin? {
      ReclaimSpends(c, step.late, w);
      SyncNoRank(Reclaim(c, step.late), w, Reclaim(c, step.late).syncWaiting + 1);
    } else if step.Uncount? {
      SyncOrdered(c, w, c.syncWaiting - 1);
      ReclaimSpends(c.(syncWaiting := c.syncWaiting - 1), step.late, w);
    } else if step.RescueQueue? {
      RescueSpends(c, step.late, w);
    } else if step.Record? {
      RecordSpends(s, step.t, step.k, step.late, w);
    } else if step.HandOn? {
      assert WaitMatches(c, step.w, s.waits[step.w]);
      PassOnSpends(c, step.w, step.late, w);
    } else if step.FinishRelease? {
      FinishSpends(s, step.k, step.late, w);
    } else {
      QuietSpends(s, step, w);
    }
  }

  lemma SyncNoRank(c: Core, w: WaiterId, n: int)
    ensures w in c.waiters ==> Rank(c.(syncWaiting := n), w) == Rank(c, w)
  {
  }

  lemma SyncOrdered(c: Core, w: WaiterId, n: int)
    requires Ordered(c) && w in c.waiters
    ensures Ordered(c.(syncWaiting := n)) && Rank(c.(syncWaiting := n), w) == Rank(c, w)
  {
  }

  lemma RecordSpends(s: System, t: ThreadId, k: TokenId, late: set<WaiterId>, w: WaiterId)
    requires Inv(s) && Enabled(s, Record(t, k, late)) && w in s.core.waiters
    ensures Spends(s.core, Do(s, Record(t, k, late)).core, w, 0)
  {
    SyncOrdered(s.core, w, s.core.syncWaiting - 1);
    RescueSpends(s.core.(syncWaiting := s.core.syncWaiting - 1), late, w);
  }

  lemma FinishSpends(s: System, k: TokenId, late: set<WaiterId>, w: WaiterId)
    requires Inv(s) && Enabled(s, FinishRelease(k, late)) && w in s.core.waiters
    ensures Spends(s.core, Do(s, FinishRelease(k, late)).core, w, Bit(s.tokens[k].lock == s.core.lock))
  {
    if s.tokens[k].lock == s.core.lock {
      LiveOwned(s.core, s.tokens, k);
      ReleaseKeeps(s.core, late, s.threads, s.waits);
      ReleaseSpends(s.core.(owner := None), late, w);
    }
  }

  lemma QuietSpends(s: System, step: Step, w: WaiterId)
    requires Inv(s) && Enabled(s, step) && w in s.core.waiters
    requires !step.Count? && !step.Begin? && !step.Uncount? && !step.RescueQueue? && !step.Record? && !step.HandOn?
          && !step.FinishRelease?
    ensures Spends(s.core, Do(s, step).core, w, 0)
  {
    if step.Reserve? {
      assert WaitMatches(s.core, step.w, s.waits[step.w]);
      if s.core.waiters != [] {
        AppendSpends(s.core, Do(s, step).core, step.w, w);
      }
    } else if step.LeaveWait? && s.core.table[step.w].state == Waiting {
      LeaveSpends(s.core, step.w, w);
    }
  }

  // ---------------------------------------------------------------------------
  // Arrival order
  // ---------------------------------------------------------------------------

  function Late(step: Step): set<WaiterId> {
    match step
    case Count(_, late) => late
    case Uncount(_, late) => late
    case RescueQueue(_, late) => late
    case Record(_, _, late) => late
    case Begin(_, late) => late
    case HandOn(_, late) => late
    case FinishRelease(_, late) => late
    case _ => {}
  }

  /** A live coroutine leaves the queue only with the grant, and only when all ahead of it were gone. */
  ghost predicate Fair(c: Core, d: Core, late: set<WaiterId>, v: WaiterId, w: WaiterId) {
    w in c.waiters ==>
      && (!Gone(c, w, late) ==> w in d.waiters || d.pending == Some(w))
      && (v in c.waiters && Index(c.waiters, v) < Index(c.waiters, w) && d.pending == Some(w) ==> Gone(c, v, late))
  }

  lemma HandOffFair(c: Core, late: set<WaiterId>, v: WaiterId, w: WaiterId)
    requires Ordered(c)
    ensures Queued(c) && Fair(c, HandOff(c, late), late, v, w)
  {
    var k := HandOffShape(c, late);
    if w in c.waiters {
      var j := Index(c.waiters, w);
      assert c.waiters[j] == w;
      if k < |c.waiters| {
        IndexIs(c.waiters, k);
        assert j > k ==> c.waiters[k + 1..][j - k - 1] == w;
      }
      if v in c.waiters && Index(c.waiters, v) < k {
        assert Gone(c, c.waiters[Index(c.waiters, v)], late);
      }
    }
  }

  lemma ReleaseFair(c: Core, late: set<WaiterId>, v: WaiterId, w: WaiterId)
    requires Ordered(c)
    ensures Queued(c) && Fair(c, ReleaseLocked(c, late), late, v, w)
  {
    if c.waiters != [] && !(c.bargeNext && c.syncWaiting != 0) {
      HandOffFair(c, late, v, w);
    }
  }

  /** Abandoning a grant that is not queued changes nothing for the queue. */
  lemma GiveUpFair(c: Core, x: WaiterId, late: set<WaiterId>, v: WaiterId, w: WaiterId)
    requires Ordered(c) && c.pending == Some(x)
    ensures Queued(c)
    ensures Fair(c, ReleaseLocked(Mark(c, x, Abandoned).(pending := None), late), late, v, w)
  {
    ReleaseFair(Mark(c, x, Abandoned).(pending := None), late, v, w);
  }

  lemma ReclaimFair(c: Core, late: set<WaiterId>, v: WaiterId, w: WaiterId)
    requires Ordered(c)
    ensures Queued(c) && Fair(c, Reclaim(c, late), late, v, w)
  {
    if DeadPending(c) {
      GiveUpFair(c, c.pending.value, late, v, w);
    }
  }

  lemma RescueFair(c: Core, late: set<WaiterId>, v: WaiterId, w: WaiterId)
    requires Ordered(c)
    ensures Queued(c) && Fair(c, Rescue(c, late), late, v, w)
  {
    if c.waiters != [] && c.lock !in c.locked {
      HandOffFair(c.(locked := c.locked + {c.lock}), late, v, w);
    }
  }

  lemma FinishFair(s: System, k: TokenId, late: set<WaiterId>, v: WaiterId, w: WaiterId)
    requires Inv(s) && Enabled(s, FinishRelease(k, late))
    ensures Fair(s.core, Do(s, FinishRelease(k, late)).core, late, v, w)
  {
    if s.tokens[k].lock == s.core.lock {
      LiveOwned(s.core, s.tokens, k);
      ReleaseKeeps(s.core, late, s.threads, s.waits);
      ReleaseFair(s.core.(owner := None), late, v, w);
    }
  }

  lemma HandOnFair(s: System, x: WaiterId, late: set<WaiterId>, v: WaiterId, w: WaiterId)
    requires Inv(s) && Enabled(s, HandOn(x, late))
    ensures Fair(s.core, Do(s, HandOn(x, late)).core, late, v, w)
  {
    assert WaitMatches(s.core, x, s.waits[x]);
    if s.core.table[x].state == Granted {
      GiveUpFair(s.core, x, late, v, w);
    }
  }

  lemma QuietFair(s: System, step: Step, v: WaiterId, w: WaiterId)
    requires Inv(s) && Enabled(s, step) && !step.CloseStorage? && step != LeaveWait(w)
    requires !step.Count? && !step.Begin? && !step.Uncount? && !step.RescueQueue? && !step.Record? && !step.HandOn?
          && !step.FinishRelease?
    ensures Fair(s.core, Do(s, step).core, {}, v, w)
  {
    if step.LeaveWait? {
      LeaveFair(s, step.w, v, w);
    }
  }

  lemma LeaveFair(s: System, x: WaiterId, v: WaiterId, w: WaiterId)
    requires Inv(s) && Enabled(s, LeaveWait(x)) && x != w
    ensures Fair(s.core, Do(s, LeaveWait(x)).core, {}, v, w)
  {
    if s.core.table[x].state == Waiting {
      var i := Index(s.core.waiters, x);
      assert s.core.waiters == s.core.waiters[..i] + [x] + s.core.waiters[i + 1..];
    }
  }

  lemma StepFair(s: System, step: Step, v: WaiterId, w: WaiterId)
    requires Inv(s) && Enabled(s, step) && !step.CloseStorage? && step != LeaveWait(w)
    ensures Fair(s.core, Do(s, step).core, Late(step), v, w)
  {
    var c := s.core;
    var d := c.(syncWaiting := c.syncWaiting - 1);
    hide LocksCounted, TokensCounted, SyncCounted, NotStranded, LocksKnown, GuardHeld, HandOff, WaitsMatch, Distinct,
        Index;
    if step.Count? || step.Begin? {
      ReclaimFair(c, step.late, v, w);
    } else if step.Uncount? {
      ReclaimFair(d, step.late, v, w);
    } else if step.RescueQueue? {
      RescueFair(c, step.late, v, w);
    } else if step.Record? {
      RescueFair(d, step.late, v, w);
    } else if step.HandOn? {
      HandOnFair(s, step.w, step.late, v, w);
    } else if step.FinishRelease? {
      FinishFair(s, step.k, step.late, v, w);
    } else {
      QuietFair(s, step, v, w);
    }
  }

  /** First come, first served: a grant never overtakes a live coroutine. */
  lemma ArrivalOrder(s: System, step: Step, v: WaiterId, w: WaiterId)
    requires Inv(s) && Enabled(s, step) && v in s.core.waiters && w in s.core.waiters
    requires Index(s.core.waiters, v) < Index(s.core.waiters, w) && Do(s, step).core.pending == Some(w)
    ensures s.core.table[v].Dead() || v in Late(step)
  {
    if !step.CloseStorage? && step != LeaveWait(w) {
      StepFair(s, step, v, w);
    }
  }

  // ---------------------------------------------------------------------------
  // Whole runs
  // ---------------------------------------------------------------------------

  /** How often the slot is passed on in the first `n` steps of a run. */
  ghost function ReleasesIn(states: seq<System>, steps: seq<Step>, n: nat): nat
    requires IsRun(states, steps) && n <= |steps|
  {
    if n == 0 then 0 else ReleasesIn(states, steps, n - 1) + Bit(Releases(states[n - 1], steps[n - 1]))
  }

  lemma {:induction false} RunSpends(states: seq<System>, steps: seq<Step>, w: WaiterId, n: nat)
    requires IsRun(states, steps) && Inv(states[0]) && n <= |steps|
    requires forall i :: 0 <= i <= n ==> w in states[i].core.waiters
    ensures ReleasesIn(states, steps, n) + Rank(states[n].core, w) <= Rank(states[0].core, w)
  {
    if n > 0 {
      RunSpends(states, steps, w, n - 1);
      RunKeepsInv(states, steps, n - 1);
      StepSpends(states[n - 1], steps[n - 1], w);
    }
  }

  /** The coroutine keeps waiting: no close, it does not give up, its loop and future stay alive. */
  ghost predicate KeepsWaiting(s: System, step: Step, w: WaiterId) {
    && !step.CloseStorage? && step != LeaveWait(w) && w !in Late(step)
    && (w in s.core.table && s.core.table[w].state == Waiting ==> !s.core.table[w].Dead())
  }

  lemma StaysLive(s: System, step: Step, w: WaiterId)
    requires Inv(s) && w in s.core.waiters && KeepsWaiting(s, step, w)
    ensures !Gone(s.core, w, Late(step)) && !step.CloseStorage? && step != LeaveWait(w)
  {
  }

  lemma {:induction false} QueuedOrGranted(states: seq<System>, steps: seq<Step>, w: WaiterId, n: nat)
    requires IsRun(states, steps) && Inv(states[0]) && n <= |steps| && w in states[0].core.waiters
    requires forall i :: 0 <= i < n ==> KeepsWaiting(states[i], steps[i], w)
    ensures (forall i :: 0 <= i <= n ==> w in states[i].core.waiters)
         || (exists i :: 0 <= i <= n && states[i].core.pending == Some(w))
  {
    hide Inv, Enabled, Do;
    if n > 0 {
      QueuedOrGranted(states, steps, w, n - 1);
      if forall i :: 0 <= i <= n - 1 ==> w in states[i].core.waiters {
        RunKeepsInv(states, steps, n - 1);
        assert KeepsWaiting(states[n - 1], steps[n - 1], w);
        StaysLive(states[n - 1], steps[n - 1], w);
        StepFair(states[n - 1], steps[n - 1], w, w);
      }
    }
  }

  /**
   Bounded bypass: a coroutine at place `p` that keeps waiting is granted within `2 * (p + 1)`
   releases, however threads and other coroutines interleave.
   */
  lemma GrantedWithin(states: seq<System>, steps: seq<Step>, w: WaiterId)
    requires IsRun(states, steps) && Inv(states[0]) && w in states[0].core.waiters
    requires forall i :: 0 <= i < |steps| ==> KeepsWaiting(states[i], steps[i], w)
    requires ReleasesIn(states, steps, |steps|) >= 2 * (Index(states[0].core.waiters, w) + 1)
    ensures exists i :: 0 <= i <= |steps| && states[i].core.pending == Some(w)
  {
    QueuedOrGranted(states, steps, w, |steps|);
    if forall i :: 0 <= i <= |steps| ==> w in states[i].core.waiters {
      RunSpends(states, steps, w, |steps|);
    }
  }
}
