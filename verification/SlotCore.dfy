/**
 The writer slot under its guard: who holds the lock, who is queued, and what each guarded
 section of the lock does to that. Locks are numbered in the order `close` replaces them.
 */
module SlotCore {
  import opened Wrappers

  type Lock = nat
  type WaiterId = nat

  datatype WaiterState = Waiting | Granted | Closed | Abandoned

  /** One queued coroutine; `lock` is the lock held on its behalf once it is granted. */
  datatype Waiter = Waiter(state: WaiterState, lock: Option<Lock>, loopClosed: bool, futureDone: bool) {
    /** Nothing can take a grant any more. */
    predicate Dead() {
      loopClosed || futureDone
    }
  }

  datatype Core = Core(
    lock: Lock,
    locked: set<Lock>,
    owner: Option<nat>,
    waiters: seq<WaiterId>,
    table: map<WaiterId, Waiter>,
    pending: Option<WaiterId>,
    syncWaiting: int,
    bargeNext: bool)

  const FRESH := Core(0, {}, None, [], map[], None, 0, false)

  predicate Distinct(q: seq<WaiterId>) {
    forall i, j :: 0 <= i < j < |q| ==> q[i] != q[j]
  }

  /** The queue lists waiting coroutines once each; the pending one holds a grant of this lock. */
  ghost predicate Ordered(c: Core) {
    && Distinct(c.waiters)
    && (forall w :: w in c.waiters ==> w in c.table && c.table[w].state == Waiting)
    && (c.pending.Some? ==> Promised(c, c.pending.value))
  }

  predicate Promised(c: Core, w: WaiterId) {
    w in c.table && c.table[w].state == Granted && c.table[w].lock == Some(c.lock)
  }

  function Mark(c: Core, w: WaiterId, state: WaiterState): Core
    requires w in c.table
  {
    c.(table := c.table[w := c.table[w].(state := state)])
  }

  function Unlock(c: Core): Core {
    c.(locked := c.locked - {c.lock}, bargeNext := false)
  }

  function Grant(c: Core, w: WaiterId): Core
    requires w in c.table
  {
    c.(table := c.table[w := c.table[w].(state := Granted, lock := Some(c.lock))], pending := Some(w),
        bargeNext := true)
  }

  /** A waiter granted the slot whose loop turned out to be closed when it was woken. */
  function LoseWake(c: Core, w: WaiterId): Core
    requires w in c.table
  {
    c.(table := c.table[w := c.table[w].(state := Abandoned, lock := Some(c.lock), loopClosed := true)])
  }

  predicate Queued(c: Core) {
    forall w :: w in c.waiters ==> w in c.table
  }

  /**
   Pass a held, ownerless slot to the first live queued coroutine, or unlock it. `late` are the
   coroutines whose loop closes after the check that it is open and before the wake-up.
   */
  function HandOff(c: Core, late: set<WaiterId>): Core
    requires Queued(c)
    decreases |c.waiters|
  {
    if c.waiters == [] then Unlock(c)
    else
      var w, rest := c.waiters[0], c.(waiters := c.waiters[1..]);
      if c.table[w].state != Waiting || c.table[w].Dead() then HandOff(Mark(rest, w, Abandoned), late)
      else if w in late then HandOff(LoseWake(rest, w), late)
      else Grant(rest, w)
  }

  /** Give an ownerless held slot to whoever is next: a queued coroutine, or the blocked threads. */
  function ReleaseLocked(c: Core, late: set<WaiterId>): Core
    requires Queued(c)
  {
    if c.waiters != [] && !(c.bargeNext && c.syncWaiting != 0) then HandOff(c, late) else Unlock(c)
  }

  /** A grant whose loop has closed since the handoff. */
  predicate DeadPending(c: Core) {
    && c.pending.Some? && c.pending.value in c.table
    && c.table[c.pending.value].state == Granted && c.table[c.pending.value].loopClosed
  }

  function Reclaim(c: Core, late: set<WaiterId>): Core
    requires Queued(c)
  {
    if DeadPending(c) then
      var w := c.pending.value;
      var back := Mark(c, w, Abandoned).(pending := None);
      if c.table[w].lock == Some(c.lock) then ReleaseLocked(back, late) else back
    else c
  }

  function Rescue(c: Core, late: set<WaiterId>): Core
    requires Queued(c)
  {
    if c.waiters != [] && c.lock !in c.locked then HandOff(c.(locked := c.locked + {c.lock}), late) else c
  }

  function PassOn(c: Core, w: WaiterId, late: set<WaiterId>): Core
    requires Queued(c) && w in c.table
  {
    if c.table[w].state != Granted then c
    else
      var back := Mark(c, w, Abandoned).(pending := if c.pending == Some(w) then None else c.pending);
      if c.table[w].lock == Some(c.lock) then ReleaseLocked(back, late) else back
  }

  /** A woken coroutine records itself as the owner, unless the storage was closed meanwhile. */
  function TakeGrant(c: Core, w: WaiterId, me: nat): Result<Core>
    requires w in c.table
  {
    if c.table[w].state != Granted || c.table[w].lock != Some(c.lock) then Err(StorageClosedError)
    else Ok(c.(pending := if c.pending == Some(w) then None else c.pending, owner := Some(me)))
  }

  /** Record the owner of a lock just taken; false if it is no longer the slot. */
  function HeldBy(c: Core, me: nat, lock: Lock, waited: bool, late: set<WaiterId>): (Core, bool)
    requires Queued(c)
  {
    var d := if waited then c.(syncWaiting := c.syncWaiting - 1) else c;
    if lock != c.lock then (if waited then Rescue(d, late) else d, false)
    else (d.(owner := Some(me)), true)
  }

  /** What `release` does with a lock: nothing if it is not the slot any more. */
  function Release(c: Core, lock: Option<Lock>, late: set<WaiterId>): Result<Core>
    requires Queued(c)
  {
    if lock.Some? && lock.value != c.lock then Ok(c)
    else if c.lock !in c.locked then Err(RuntimeError)
    else Ok(ReleaseLocked(c.(owner := None), late))
  }

  function MarkAll(table: map<WaiterId, Waiter>, q: seq<WaiterId>, state: WaiterState): map<WaiterId, Waiter>
  {
    map w | w in table :: if w in q then table[w].(state := state) else table[w]
  }

  lemma MarkedNone(table: map<WaiterId, Waiter>, state: WaiterState)
    ensures MarkAll(table, [], state) == table
  {
  }

  lemma MarkedMore(table: map<WaiterId, Waiter>, q: seq<WaiterId>, rest: seq<WaiterId>, w: WaiterId, state: WaiterState)
    requires w in table
    ensures var marked := MarkAll(table, q + rest, state);
            w in marked && MarkAll(table, q + [w] + rest, state) == marked[w := marked[w].(state := state)]
  {
    assert forall x :: x in q + [w] + rest <==> x in q + rest || x == w;
  }

  /** Replace the slot: every waiter and a grant in flight end as closed, a recorded holder loses the lock. */
  function Close(c: Core): Core {
    var held := c.owner.Some? || c.pending.Some?;
    var ended := MarkAll(c.table, c.waiters + (if c.pending.Some? then [c.pending.value] else []), Closed);
    c.(lock := c.lock + 1, locked := if held then c.locked - {c.lock} else c.locked, owner := None,
       waiters := [], table := ended, pending := None, bargeNext := false)
  }

  function Index(q: seq<WaiterId>, w: WaiterId): (i: nat)
    requires w in q
    ensures i < |q| && q[i] == w
  {
    if q[0] == w then 0 else 1 + Index(q[1..], w)
  }

  /** A waiter that gave up leaves the queue. */
  function Leave(c: Core, w: WaiterId): Core
    requires w in c.waiters
  {
    var i := Index(c.waiters, w);
    c.(waiters := c.waiters[..i] + c.waiters[i + 1..])
  }

  // ---------------------------------------------------------------------------
  // What a handoff does
  // ---------------------------------------------------------------------------

  predicate Gone(c: Core, w: WaiterId, late: set<WaiterId>) {
    w in c.table && (c.table[w].loopClosed || c.table[w].futureDone || w in late)
  }

  /** The first `k` of the queue were gone; the next one was granted, or the queue ran out. */
  ghost predicate HandedOff(c: Core, d: Core, late: set<WaiterId>, k: nat) {
    && k <= |c.waiters|
    && d.lock == c.lock && d.owner == c.owner && d.syncWaiting == c.syncWaiting
    && (forall i :: 0 <= i < k ==> Gone(c, c.waiters[i], late))
    && (if k == |c.waiters| then
          d.waiters == [] && d.locked == c.locked - {c.lock} && !d.bargeNext && d.pending == c.pending
        else
          && d.waiters == c.waiters[k + 1..] && d.locked == c.locked && d.bargeNext && d.pending == Some(c.waiters[k])
          && !Gone(c, c.waiters[k], late))
    && HandedTable(c, d.table, k)
  }

  /** The skipped waiters are abandoned, the granted one holds the lock, no other changed. */
  ghost predicate HandedTable(c: Core, table: map<WaiterId, Waiter>, k: nat)
    requires k <= |c.waiters|
  {
    && table.Keys == c.table.Keys
    && (forall w :: w in c.table && w in c.waiters[..k] ==> table[w].state == Abandoned)
    && (forall w :: w in c.table && w !in c.waiters[..k] ==>
          table[w] == if k < |c.waiters| && w == c.waiters[k] then c.table[w].(state := Granted, lock := Some(c.lock))
                      else c.table[w])
  }

  lemma {:induction false} HandOffShape(c: Core, late: set<WaiterId>) returns (k: nat)
    requires Distinct(c.waiters) && Queued(c) && forall w :: w in c.waiters ==> c.table[w].state == Waiting
    ensures HandedOff(c, HandOff(c, late), late, k)
    decreases |c.waiters|
  {
    if c.waiters == [] {
      k := 0;
    } else {
      var w, rest := c.waiters[0], c.(waiters := c.waiters[1..]);
      assert c.waiters == [w] + rest.waiters;
      if Gone(c, w, late) {
        k := HandOffShape(SkipFirst(c), late);
        SkipOne(c, HandOff(SkipFirst(c), late), late, k);
        k := k + 1;
      } else {
        k := 0;
        assert c.waiters[..0] == [];
      }
    }
  }

  // ---------------------------------------------------------------------------
  // What the guarded sections do, said of the slot before and after
  // ---------------------------------------------------------------------------

  ghost predicate QueueWaits(c: Core) {
    Distinct(c.waiters) && forall w :: w in c.waiters ==> w in c.table && c.table[w].state == Waiting
  }

  /** A held slot given up: to the queue, or to the threads if there is no queue or it is their turn. */
  ghost predicate LetGo(c: Core, d: Core, late: set<WaiterId>) {
    if c.waiters == [] || (c.bargeNext && c.syncWaiting != 0) then
      d == c.(locked := c.locked - {c.lock}, bargeNext := false)
    else exists k :: HandedOff(c, d, late, k)
  }

  /** A queue on a free slot gets it. */
  ghost predicate Rescued(c: Core, d: Core, late: set<WaiterId>) {
    if c.waiters == [] || c.lock in c.locked then d == c
    else exists k :: HandedOff(c.(locked := c.locked + {c.lock}), d, late, k)
  }

  /** The waiter gives up its grant, and the slot with it if the grant is of the current lock. */
  ghost predicate GaveUp(c: Core, d: Core, w: WaiterId, late: set<WaiterId>)
    requires w in c.table
  {
    var back := c.(table := c.table[w := c.table[w].(state := Abandoned)],
                   pending := if c.pending == Some(w) then None else c.pending);
    if c.table[w].lock == Some(c.lock) then LetGo(back, d, late) else d == back
  }

  /** A grant to a coroutine whose loop has closed is given up for it; nothing happens otherwise. */
  ghost predicate Reclaimed(c: Core, d: Core, late: set<WaiterId>) {
    if c.pending.Some? && c.pending.value in c.table && c.table[c.pending.value].state == Granted
       && c.table[c.pending.value].loopClosed
    then GaveUp(c, d, c.pending.value, late)
    else d == c
  }

  lemma ReleaseReleases(c: Core, late: set<WaiterId>)
    requires QueueWaits(c)
    ensures Queued(c) && LetGo(c, ReleaseLocked(c, late), late)
  {
    if c.waiters != [] && !(c.bargeNext && c.syncWaiting != 0) {
      var k := HandOffShape(c, late);
    }
  }

  lemma RescueRescues(c: Core, late: set<WaiterId>)
    requires QueueWaits(c)
    ensures Queued(c) && Rescued(c, Rescue(c, late), late)
  {
    if c.waiters != [] && c.lock !in c.locked {
      var k := HandOffShape(c.(locked := c.locked + {c.lock}), late);
    }
  }

  lemma PassOnGivesUp(c: Core, w: WaiterId, late: set<WaiterId>)
    requires QueueWaits(c) && w in c.table && c.table[w].state == Granted
    ensures Queued(c) && GaveUp(c, PassOn(c, w, late), w, late)
  {
    var back := Mark(c, w, Abandoned).(pending := if c.pending == Some(w) then None else c.pending);
    ReleaseReleases(back, late);
  }

  lemma ReclaimReclaims(c: Core, late: set<WaiterId>)
    requires QueueWaits(c)
    ensures Queued(c) && Reclaimed(c, Reclaim(c, late), late)
  {
    if DeadPending(c) {
      PassOnGivesUp(c, c.pending.value, late);
    }
  }

  function SkipFirst(c: Core): Core
    requires c.waiters != [] && c.waiters[0] in c.table
  {
    var w, rest := c.waiters[0], c.(waiters := c.waiters[1..]);
    if c.table[w].Dead() then Mark(rest, w, Abandoned) else LoseWake(rest, w)
  }

  lemma SkipTable(c: Core, table: map<WaiterId, Waiter>, k: nat)
    requires c.waiters != [] && c.waiters[0] in c.table && k < |c.waiters| && c.waiters[0] !in c.waiters[1..]
    requires HandedTable(SkipFirst(c), table, k)
    ensures HandedTable(c, table, k + 1)
  {
    var w, rest := c.waiters[0], c.waiters[1..];
    assert c.waiters[..k + 1] == [w] + rest[..k];
    assert forall x :: x in c.waiters[..k + 1] <==> x == w || x in rest[..k];
  }

  lemma SkipOne(c: Core, d: Core, late: set<WaiterId>, k: nat)
    requires c.waiters != [] && c.waiters[0] in c.table
    requires Gone(c, c.waiters[0], late) && c.waiters[0] !in c.waiters[1..]
    requires HandedOff(SkipFirst(c), d, late, k)
    ensures HandedOff(c, d, late, k + 1)
  {
    hide HandedTable;
    var next := SkipFirst(c);
    SkipTable(c, d.table, k);
    assert c.waiters == [c.waiters[0]] + next.waiters;
    assert k < |next.waiters| ==> c.waiters[k + 2..] == next.waiters[k + 1..];
    forall i | 0 <= i < k + 1 ensures Gone(c, c.waiters[i], late) {
      if i > 0 {
        assert Gone(next, next.waiters[i - 1], late);
      }
    }
  }

  /** `d` is `c` with its held, ownerless slot passed on: to the coroutine at place `k`, or unlocked. */
  ghost predicate PassedOn(c: Core, d: Core, k: nat) {
    && Ordered(d) && d.lock == c.lock && d.owner == None && d.syncWaiting == c.syncWaiting
    && d.table.Keys == c.table.Keys
    && k <= |c.waiters| && d.waiters == c.waiters[k..]
    && (forall w :: w in c.table && w !in c.waiters[..k] ==> d.table[w] == c.table[w])
    && (forall w :: w in c.table && w in c.waiters[..k] ==> d.table[w].state == Abandoned || d.pending == Some(w))
    && (if d.pending.Some? then d.locked == c.locked && k > 0 && d.pending.value == c.waiters[k - 1]
        else d.locked == c.locked - {c.lock} && (d.waiters != [] ==> c.syncWaiting != 0))
  }

  lemma HandOffPasses(c: Core, late: set<WaiterId>) returns (k: nat)
    requires Ordered(c) && c.owner.None? && c.pending.None?
    ensures Queued(c) && PassedOn(c, HandOff(c, late), k)
  {
    var n := HandOffShape(c, late);
    var d := HandOff(c, late);
    k := if n < |c.waiters| then n + 1 else n;
    assert n < |c.waiters| ==> c.waiters[..k] == c.waiters[..n] + [c.waiters[n]];
    assert forall w :: w in c.waiters[k..] ==> w in c.waiters && w !in c.waiters[..k];
  }

  lemma ReleasePasses(c: Core, late: set<WaiterId>) returns (k: nat)
    requires Ordered(c) && c.owner.None? && c.pending.None?
    ensures Queued(c) && PassedOn(c, ReleaseLocked(c, late), k)
  {
    if c.waiters != [] && !(c.bargeNext && c.syncWaiting != 0) {
      k := HandOffPasses(c, late);
    } else {
      k := 0;
      assert c.waiters[..0] == [] && c.waiters[0..] == c.waiters;
    }
  }
}
