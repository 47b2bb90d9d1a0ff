/**
 The writer slot among its users: threads that take the native lock without the guard, queued
 coroutines, reserved slots and transactions, and a `close` at any moment. A step is one guarded
 section or one native lock operation; a guarded section that tries the native lock after it may
 have released it is two steps, so a thread can take the lock in between.
 */
module SlotSystem {
  import opened Wrappers
  import opened SlotCore

  type ThreadId = nat
  type TokenId = nat

  /** Where a thread is inside `acquire`. */
  datatype Phase =
    | Idle
    | Looking(lock: Lock)                // read which lock is the slot
    | Refused                            // the native try failed
    | Blocked(lock: Lock)                // counted, and blocked in the native lock
    | Expired(lock: Lock)                // timed out, still counted
    | Rescuing                           // uncounted, under the guard, about to rescue the queue
    | Won(lock: Lock, waited: bool)      // took the native lock, not recorded yet
    | Returning(lock: Lock)              // took a lock that is not the slot any more

  /** Where a coroutine is inside `areserve`. */
  datatype Wait =
    | Starting                           // under the guard, about to try the lock
    | InQueue
    | Stopped(timedOut: bool)            // the wait ended without a wake-up
    | Woken                              // about to record its grant
    | Leaving                            // cancelled with a grant: about to hand it on
    | Finished

  /** A reference to a lock that was acquired: a reserved slot, or a running transaction. */
  datatype TokenState =
    | Held                               // a reserved slot no transaction took
    | Taken(previous: Option<nat>)       // a transaction took the reserved slot
    | Direct                             // a transaction that acquired the lock itself
    | Releasing
    | Released

  datatype Token = Token(lock: Lock, state: TokenState)

  datatype Guard = Free | ByThread(t: ThreadId) | ByWait(w: WaiterId)

  datatype System = System(
    core: Core,
    threads: map<ThreadId, Phase>,
    waits: map<WaiterId, Wait>,
    tokens: map<TokenId, Token>,
    guard: Guard)

  datatype Step =
    | Look(t: ThreadId)
    | TryLock(t: ThreadId)
    | Count(t: ThreadId, late: set<WaiterId>)
    | TakeLock(t: ThreadId)
    | Expire(t: ThreadId)
    | Uncount(t: ThreadId, late: set<WaiterId>)
    | RescueQueue(t: ThreadId, late: set<WaiterId>)
    | Record(t: ThreadId, k: TokenId, late: set<WaiterId>)
    | ReturnLock(t: ThreadId)
    | Begin(w: WaiterId, late: set<WaiterId>)
    | Reserve(w: WaiterId, k: TokenId)
    | WakeUp(w: WaiterId)
    | Stop(w: WaiterId, timedOut: bool)
    | LeaveWait(w: WaiterId)
    | RecordGrant(w: WaiterId, k: TokenId)
    | HandOn(w: WaiterId, late: set<WaiterId>)
    | LoopCloses(w: WaiterId)
    | FutureEnds(w: WaiterId)
    | StartRelease(k: TokenId)
    | FinishRelease(k: TokenId, late: set<WaiterId>)
    | TakeOver(k: TokenId, me: nat)
    | GiveBack(k: TokenId)
    | CloseStorage

  /** When a step can happen. */
  predicate Enabled(s: System, step: Step) {
    Queued(s.core) &&
    match step
    case Look(t) => t in s.threads && s.threads[t].Idle?
    case TryLock(t) => t in s.threads && s.threads[t].Looking?
    case Count(t, _) => t in s.threads && s.threads[t].Refused? && s.guard.Free?
    case TakeLock(t) => t in s.threads && s.threads[t].Blocked? && s.threads[t].lock !in s.core.locked
    case Expire(t) => t in s.threads && s.threads[t].Blocked?
    case Uncount(t, _) => t in s.threads && s.threads[t].Expired? && s.guard.Free?
    case RescueQueue(t, _) => t in s.threads && s.threads[t].Rescuing? && s.guard == ByThread(t)
    case Record(t, k, _) => t in s.threads && s.threads[t].Won? && s.guard.Free? && k !in s.tokens
    case ReturnLock(t) => t in s.threads && s.threads[t].Returning?
    case Begin(w, _) => w !in s.waits && s.guard.Free?
    case Reserve(w, k) => w in s.waits && s.waits[w].Starting? && s.guard == ByWait(w) && k !in s.tokens
    case WakeUp(w) => w in s.waits && s.waits[w].InQueue? && w in s.core.table && s.core.table[w].state != Waiting
    case Stop(w, _) => w in s.waits && s.waits[w].InQueue? && w in s.core.table
    case LeaveWait(w) => w in s.waits && s.waits[w].Stopped? && w in s.core.table && s.guard.Free?
                         && (s.core.table[w].state == Waiting ==> w in s.core.waiters)
    case RecordGrant(w, k) => w in s.waits && s.waits[w].Woken? && w in s.core.table && s.guard.Free? && k !in s.tokens
    case HandOn(w, _) => w in s.waits && s.waits[w].Leaving? && w in s.core.table && s.guard.Free?
    case LoopCloses(w) => w in s.core.table
    case FutureEnds(w) => w in s.core.table
    case StartRelease(k) => k in s.tokens && !s.tokens[k].state.Releasing? && !s.tokens[k].state.Released?
    case FinishRelease(k, _) => k in s.tokens && s.tokens[k].state.Releasing? && s.guard.Free?
    case TakeOver(k, _) => k in s.tokens && s.tokens[k].state.Held? && s.guard.Free?
    case GiveBack(k) => k in s.tokens && s.tokens[k].state.Taken? && s.guard.Free?
    case CloseStorage => s.guard.Free?
  }

  function Flag(c: Core, w: WaiterId, loopClosed: bool): Core
    requires w in c.table
  {
    c.(table := c.table[w := if loopClosed then c.table[w].(loopClosed := true) else c.table[w].(futureDone := true)])
  }

  function Do(s: System, step: Step): System
    requires Enabled(s, step)
  {
    var c := s.core;
    match step
    case Look(t) => s.(threads := s.threads[t := Looking(c.lock)])
    case TryLock(t) =>
      var l := s.threads[t].lock;
      if l in c.locked then s.(threads := s.threads[t := Refused])
      else s.(core := c.(locked := c.locked + {l}), threads := s.threads[t := Won(l, false)])
    case Count(t, late) =>
      var d := Reclaim(c, late);
      s.(core := d.(syncWaiting := d.syncWaiting + 1), threads := s.threads[t := Blocked(d.lock)])
    case TakeLock(t) =>
      var l := s.threads[t].lock;
      s.(core := c.(locked := c.locked + {l}), threads := s.threads[t := Won(l, true)])
    case Expire(t) => s.(threads := s.threads[t := Expired(s.threads[t].lock)])
    case Uncount(t, late) =>
      s.(core := Reclaim(c.(syncWaiting := c.syncWaiting - 1), late), threads := s.threads[t := Rescuing],
          guard := ByThread(t))
    case RescueQueue(t, late) => s.(core := Rescue(c, late), threads := s.threads[t := Idle], guard := Free)
    case Record(t, k, late) =>
      var l := s.threads[t].lock;
      var (d, held) := HeldBy(c, t, l, s.threads[t].waited, late);
      if held then s.(core := d, threads := s.threads[t := Idle], tokens := s.tokens[k := Token(l, Direct)])
      else s.(core := d, threads := s.threads[t := Returning(l)])
    case ReturnLock(t) =>
      s.(core := c.(locked := c.locked - {s.threads[t].lock}), threads := s.threads[t := Idle])
    case Begin(w, late) => s.(core := Reclaim(c, late), waits := s.waits[w := Starting], guard := ByWait(w))
    case Reserve(w, k) =>
      if c.waiters == [] && c.syncWaiting == 0 && c.lock !in c.locked then
        s.(core := c.(locked := c.locked + {c.lock}, owner := Some(w)), waits := s.waits[w := Finished],
           tokens := s.tokens[k := Token(c.lock, Held)], guard := Free)
      else
        s.(core := c.(waiters := c.waiters + [w], table := c.table[w := Waiter(Waiting, None, false, false)]),
           waits := s.waits[w := InQueue], guard := Free)
    case WakeUp(w) => s.(core := Flag(c, w, false), waits := s.waits[w := Woken])
    case Stop(w, timedOut) => s.(core := Flag(c, w, false), waits := s.waits[w := Stopped(timedOut)])
    case LeaveWait(w) =>
      if c.table[w].state == Waiting then s.(core := Leave(c, w), waits := s.waits[w := Finished])
      else if c.table[w].state == Abandoned then s.(waits := s.waits[w := Finished])
      else s.(waits := s.waits[w := if s.waits[w].timedOut then Woken else Leaving])
    case RecordGrant(w, k) =>
      (match TakeGrant(c, w, w)
       case Ok(d) => s.(core := d, waits := s.waits[w := Finished], tokens := s.tokens[k := Token(c.lock, Held)])
       case Err(_) => s.(waits := s.waits[w := Finished]))
    case HandOn(w, late) => s.(core := PassOn(c, w, late), waits := s.waits[w := Finished])
    case LoopCloses(w) => s.(core := Flag(c, w, true))
    case FutureEnds(w) => s.(core := Flag(c, w, false))
    case StartRelease(k) => s.(tokens := s.tokens[k := s.tokens[k].(state := Releasing)])
    case FinishRelease(k, late) =>
      var r := Release(c, Some(s.tokens[k].lock), late);
      s.(core := if r.Ok? then r.value else c, tokens := s.tokens[k := s.tokens[k].(state := Released)])
    case TakeOver(k, me) =>
      if s.tokens[k].lock != c.lock then s.(tokens := s.tokens[k := s.tokens[k].(state := Released)])
      else s.(core := c.(owner := Some(me)), tokens := s.tokens[k := s.tokens[k].(state := Taken(c.owner))])
    case GiveBack(k) =>
      if s.tokens[k].lock != c.lock then s.(tokens := s.tokens[k := s.tokens[k].(state := Released)])
      else s.(core := c.(owner := s.tokens[k].state.previous), tokens := s.tokens[k := s.tokens[k].(state := Held)])
    case CloseStorage => s.(core := Close(c))
  }

  ghost predicate Init(s: System) {
    && s.core == FRESH && s.waits == map[] && s.tokens == map[] && s.guard == Free
    && forall t :: t in s.threads ==> s.threads[t] == Idle
  }

  // ---------------------------------------------------------------------------
  // Invariants
  // ---------------------------------------------------------------------------

  predicate Holds(p: Phase, l: Lock) {
    (p.Won? || p.Returning?) && p.lock == l
  }

  predicate Counted(p: Phase) {
    p.Blocked? || p.Expired? || (p.Won? && p.waited)
  }

  predicate Live(k: Token, l: Lock) {
    k.lock == l && !k.state.Released?
  }

  function Takers(threads: map<ThreadId, Phase>, l: Lock): set<ThreadId> {
    set t | t in threads && Holds(threads[t], l)
  }

  function CountedThreads(threads: map<ThreadId, Phase>): set<ThreadId> {
    set t | t in threads && Counted(threads[t])
  }

  function LiveTokens(tokens: map<TokenId, Token>, l: Lock): set<TokenId> {
    set k | k in tokens && Live(tokens[k], l)
  }

  function Bit(b: bool): nat {
    if b then 1 else 0
  }

  /** The recorded owner and the grant in flight. */
  function Claims(c: Core): nat {
    Bit(c.owner.Some?) + Bit(c.pending.Some?)
  }

  /** A lock is locked exactly while one thread holds it unrecorded or, the current one, one claim stands. */
  ghost predicate LocksCounted(c: Core, threads: map<ThreadId, Phase>) {
    forall l :: |Takers(threads, l)| + (if l == c.lock then Claims(c) else 0) == Bit(l in c.locked)
  }

  /** One live reference to the current lock exactly while an owner is recorded. */
  ghost predicate TokensCounted(c: Core, tokens: map<TokenId, Token>) {
    |LiveTokens(tokens, c.lock)| == Bit(c.owner.Some?)
  }

  ghost predicate SyncCounted(c: Core, threads: map<ThreadId, Phase>) {
    c.syncWaiting == |CountedThreads(threads)|
  }

  /** A queue on a free lock has a counted thread, or a rescue under way. */
  ghost predicate NotStranded(c: Core, guard: Guard) {
    c.waiters != [] && c.lock !in c.locked ==> c.syncWaiting > 0 || guard.ByThread?
  }

  predicate LockOf(p: Phase, bound: Lock) {
    && (p.Looking? || p.Blocked? || p.Expired? || p.Won? ==> p.lock <= bound)
    && (p.Returning? ==> p.lock < bound)
  }

  predicate TokenOf(k: Token, bound: Lock) {
    k.lock <= bound && (k.state.Taken? ==> k.state.previous.Some?)
  }

  /** No lock is newer than the current one. */
  ghost predicate LocksKnown(c: Core, threads: map<ThreadId, Phase>, tokens: map<TokenId, Token>) {
    && (forall t :: t in threads ==> LockOf(threads[t], c.lock))
    && (forall k :: k in tokens ==> TokenOf(tokens[k], c.lock))
  }

  predicate InWait(p: Wait) {
    p.InQueue? || p.Stopped? || p.Woken? || p.Leaving?
  }

  /** What a coroutine's place in `areserve` says about its waiter. */
  ghost predicate WaitMatches(c: Core, w: WaiterId, p: Wait) {
    && (p.Starting? ==> w !in c.table)
    && (InWait(p) ==>
          && w in c.table
          && (c.table[w].state == Granted ==> c.pending == Some(w))
          && (c.table[w].state == Waiting ==> w in c.waiters && (p.InQueue? || p.Stopped?)))
    && (p.Starting? || p.Finished? ==> w !in c.waiters && c.pending != Some(w))
  }

  ghost predicate WaitsMatch(c: Core, waits: map<WaiterId, Wait>) {
    && (forall w :: w in c.table ==> w in waits)
    && (forall w :: w in waits ==> WaitMatches(c, w, waits[w]))
  }

  ghost predicate GuardHeld(s: System) {
    && (s.guard.ByThread? ==> s.guard.t in s.threads && s.threads[s.guard.t].Rescuing?)
    && (s.guard.ByWait? ==> s.guard.w in s.waits && s.waits[s.guard.w].Starting?)
  }

  ghost predicate Inv(s: System) {
    && Ordered(s.core) && LocksCounted(s.core, s.threads) && TokensCounted(s.core, s.tokens)
    && SyncCounted(s.core, s.threads) && NotStranded(s.core, s.guard) && LocksKnown(s.core, s.threads, s.tokens)
    && WaitsMatch(s.core, s.waits) && GuardHeld(s)
  }

  lemma InitInv(s: System)
    requires Init(s)
    ensures Inv(s)
  {
    assert CountedThreads(s.threads) == {} && LiveTokens(s.tokens, 0) == {};
    forall l ensures |Takers(s.threads, l)| == 0 {
      assert Takers(s.threads, l) == {};
    }
  }

  // ---------------------------------------------------------------------------
  // One thread or one reference changes
  // ---------------------------------------------------------------------------

  lemma TakersUpdate(threads: map<ThreadId, Phase>, t: ThreadId, p: Phase, l: Lock)
    requires t in threads
    ensures |Takers(threads[t := p], l)| == |Takers(threads, l)| - Bit(Holds(threads[t], l)) + Bit(Holds(p, l))
  {
    assert Takers(threads[t := p], l) == (Takers(threads, l) - {t}) + (if Holds(p, l) then {t} else {});
  }

  lemma CountedUpdate(threads: map<ThreadId, Phase>, t: ThreadId, p: Phase)
    requires t in threads
    ensures |CountedThreads(threads[t := p])| == |CountedThreads(threads)| - Bit(Counted(threads[t])) + Bit(Counted(p))
  {
    assert CountedThreads(threads[t := p]) == (CountedThreads(threads) - {t}) + (if Counted(p) then {t} else {});
  }

  lemma LiveUpdate(tokens: map<TokenId, Token>, k: TokenId, token: Token, l: Lock)
    ensures |LiveTokens(tokens[k := token], l)|
         == |LiveTokens(tokens, l)| - Bit(k in tokens && Live(tokens[k], l)) + Bit(Live(token, l))
  {
    assert LiveTokens(tokens[k := token], l) == (LiveTokens(tokens, l) - {k}) + (if Live(token, l) then {k} else {});
  }

  /** A thread that moves without taking or giving up any lock, counted or not as before. */
  lemma ThreadMoves(c: Core, threads: map<ThreadId, Phase>, t: ThreadId, p: Phase)
    requires t in threads && LocksCounted(c, threads) && forall l :: Holds(p, l) <==> Holds(threads[t], l)
    ensures LocksCounted(c, threads[t := p])
  {
    forall l ensures |Takers(threads[t := p], l)| == |Takers(threads, l)| {
      TakersUpdate(threads, t, p, l);
    }
  }

  /** A thread takes a free lock. */
  lemma ThreadTakes(c: Core, threads: map<ThreadId, Phase>, t: ThreadId, l: Lock, waited: bool)
    requires t in threads && LocksCounted(c, threads) && l !in c.locked && forall x :: !Holds(threads[t], x)
    ensures LocksCounted(c.(locked := c.locked + {l}), threads[t := Won(l, waited)])
  {
    forall x ensures |Takers(threads[t := Won(l, waited)], x)| == |Takers(threads, x)| + Bit(x == l) {
      TakersUpdate(threads, t, Won(l, waited), x);
    }
  }

  /** A thread gives up a lock that is not the slot. */
  lemma ThreadReturns(c: Core, threads: map<ThreadId, Phase>, t: ThreadId, l: Lock)
    requires t in threads && threads[t] == Returning(l) && LocksCounted(c, threads) && l != c.lock
    ensures l in c.locked && LocksCounted(c.(locked := c.locked - {l}), threads[t := Idle])
  {
    TakersUpdate(threads, t, Idle, l);
    forall x ensures |Takers(threads[t := Idle], x)| == |Takers(threads, x)| - Bit(x == l) {
      TakersUpdate(threads, t, Idle, x);
    }
  }

  /** A thread records itself: its hold on the current lock becomes the owner's claim. */
  lemma ThreadRecords(c: Core, threads: map<ThreadId, Phase>, t: ThreadId, me: nat)
    requires t in threads && Holds(threads[t], c.lock) && LocksCounted(c, threads)
    ensures Claims(c) == 0 && c.lock in c.locked
    ensures LocksCounted(c.(owner := Some(me)), threads[t := Idle])
  {
    TakersUpdate(threads, t, Idle, c.lock);
    assert |Takers(threads, c.lock)| >= 1;
    forall x ensures |Takers(threads[t := Idle], x)| == |Takers(threads, x)| - Bit(x == c.lock) {
      TakersUpdate(threads, t, Idle, x);
    }
  }

  // ---------------------------------------------------------------------------
  // The slot is passed on
  // ---------------------------------------------------------------------------

  ghost predicate CoreInv(c: Core, threads: map<ThreadId, Phase>, waits: map<WaiterId, Wait>) {
    Ordered(c) && LocksCounted(c, threads) && WaitsMatch(c, waits)
  }

  /** A queue on a free lock is left only to counted threads. */
  predicate Settled(c: Core) {
    c.waiters != [] && c.lock !in c.locked ==> c.syncWaiting != 0
  }

  /** Passing the slot on: a queued coroutine holds the claim, or the lock is free. */
  lemma PassKeepsWaits(c: Core, d: Core, k: nat, waits: map<WaiterId, Wait>)
    requires Ordered(c) && c.pending.None? && PassedOn(c, d, k) && WaitsMatch(c, waits)
    ensures WaitsMatch(d, waits)
  {
    assert c.waiters == c.waiters[..k] + c.waiters[k..];
    forall w | w in waits ensures WaitMatches(d, w, waits[w]) {
      assert WaitMatches(c, w, waits[w]);
    }
  }

  lemma PassKeeps(c: Core, d: Core, k: nat, threads: map<ThreadId, Phase>, waits: map<WaiterId, Wait>)
    requires Ordered(c) && c.owner.None? && c.pending.None? && PassedOn(c, d, k)
    requires LocksCounted(c.(owner := Some(0)), threads) && WaitsMatch(c, waits)
    ensures CoreInv(d, threads, waits) && Settled(d)
  {
    PassKeepsWaits(c, d, k, waits);
    var held := c.(owner := Some(0));
    assert |Takers(threads, held.lock)| + Claims(held) == Bit(held.lock in held.locked);
    forall l ensures |Takers(threads, l)| + (if l == d.lock then Claims(d) else 0) == Bit(l in d.locked) {
      assert |Takers(threads, l)| + (if l == held.lock then Claims(held) else 0) == Bit(l in held.locked);
    }
  }

  lemma ReclaimKeeps(c: Core, late: set<WaiterId>, threads: map<ThreadId, Phase>, waits: map<WaiterId, Wait>)
    requires CoreInv(c, threads, waits)
    ensures Queued(c)
    ensures var d := Reclaim(c, late);
            && CoreInv(d, threads, waits) && (Settled(c) ==> Settled(d))
            && d.lock == c.lock && d.owner == c.owner && d.syncWaiting == c.syncWaiting
  {
    if DeadPending(c) {
      var w := c.pending.value;
      var back := Mark(c, w, Abandoned).(pending := None);
      assert |Takers(threads, c.lock)| + Claims(c) == Bit(c.lock in c.locked);
      GiveUpGrant(c, w, threads, waits);
      var k := ReleasePasses(back, late);
      PassKeeps(back, ReleaseLocked(back, late), k, threads, waits);
    }
  }

  /** A grant that nobody will take leaves the slot held and ownerless. */
  lemma GiveUpGrant(c: Core, w: WaiterId, threads: map<ThreadId, Phase>, waits: map<WaiterId, Wait>)
    requires CoreInv(c, threads, waits) && c.pending == Some(w)
    ensures w in c.table && c.owner.None?
    ensures var back := Mark(c, w, Abandoned).(pending := None);
            Ordered(back) && LocksCounted(back.(owner := Some(0)), threads) && WaitsMatch(back, waits)
  {
    var back := Mark(c, w, Abandoned).(pending := None);
    assert |Takers(threads, c.lock)| + Claims(c) == Bit(c.lock in c.locked);
    forall x | x in waits ensures WaitMatches(back, x, waits[x]) {
      assert WaitMatches(c, x, waits[x]);
    }
    forall l ensures |Takers(threads, l)| + (if l == c.lock then 1 else 0) == Bit(l in c.locked) {
      assert |Takers(threads, l)| + (if l == c.lock then Claims(c) else 0) == Bit(l in c.locked);
    }
  }

  lemma RescueKeeps(c: Core, late: set<WaiterId>, threads: map<ThreadId, Phase>, waits: map<WaiterId, Wait>)
    requires CoreInv(c, threads, waits)
    ensures Queued(c)
    ensures var d := Rescue(c, late);
            && CoreInv(d, threads, waits) && (d.waiters == [] || d.lock in d.locked)
            && d.lock == c.lock && d.owner == c.owner && d.syncWaiting == c.syncWaiting
  {
    if c.waiters != [] && c.lock !in c.locked {
      var held := c.(locked := c.locked + {c.lock});
      assert |Takers(threads, c.lock)| + Claims(c) == 0;
      forall l ensures |Takers(threads, l)| + (if l == c.lock then 1 else 0) == Bit(l in held.locked) {
        assert |Takers(threads, l)| + (if l == c.lock then Claims(c) else 0) == Bit(l in c.locked);
      }
      var k := HandOffPasses(held, late);
      WaitsSame(c, held, waits);
      PassKeeps(held, HandOff(held, late), k, threads, waits);
      var n := HandOffShape(held, late);
    }
  }

  /** What coroutines see of the core is its queue, its waiters and its grant. */
  lemma WaitsSame(c: Core, d: Core, waits: map<WaiterId, Wait>)
    requires WaitsMatch(c, waits) && d.waiters == c.waiters && d.table == c.table && d.pending == c.pending
    ensures WaitsMatch(d, waits)
  {
    forall w | w in waits ensures WaitMatches(d, w, waits[w]) {
      assert WaitMatches(c, w, waits[w]);
    }
  }

  /** The owner lets go. */
  lemma ReleaseKeeps(c: Core, late: set<WaiterId>, threads: map<ThreadId, Phase>, waits: map<WaiterId, Wait>)
    requires CoreInv(c, threads, waits) && c.owner.Some?
    ensures Queued(c) && c.lock in c.locked
    ensures var d := ReleaseLocked(c.(owner := None), late);
            CoreInv(d, threads, waits) && Settled(d) && d.lock == c.lock && d.owner.None?
                && d.syncWaiting == c.syncWaiting
  {
    var free := c.(owner := None);
    assert |Takers(threads, c.lock)| + Claims(c) == Bit(c.lock in c.locked);
    forall l ensures |Takers(threads, l)| + (if l == c.lock then 1 else 0) == Bit(l in c.locked) {
      assert |Takers(threads, l)| + (if l == c.lock then Claims(c) else 0) == Bit(l in c.locked);
    }
    WaitsSame(c, free, waits);
    var k := ReleasePasses(free, late);
    PassKeeps(free, ReleaseLocked(free, late), k, threads, waits);
  }

  lemma WaitMoves(c: Core, waits: map<WaiterId, Wait>, w: WaiterId, p: Wait)
    requires WaitsMatch(c, waits) && WaitMatches(c, w, p)
    ensures WaitsMatch(c, waits[w := p])
  {
  }

  /** A coroutine hands its grant on, unless it lost it meanwhile. */
  lemma PassOnKeeps(c: Core, w: WaiterId, late: set<WaiterId>, threads: map<ThreadId, Phase>, waits: map<WaiterId,
                    Wait>)
    requires CoreInv(c, threads, waits) && w in waits && waits[w].Leaving?
    ensures Queued(c) && w in c.table
    ensures var d := PassOn(c, w, late);
            && CoreInv(d, threads, waits[w := Finished]) && (Settled(c) ==> Settled(d))
            && d.lock == c.lock && d.owner == c.owner && d.syncWaiting == c.syncWaiting
  {
    assert WaitMatches(c, w, waits[w]);
    if c.table[w].state == Granted {
      GiveUpGrant(c, w, threads, waits);
      var back := Mark(c, w, Abandoned).(pending := None);
      var k := ReleasePasses(back, late);
      WaitMoves(back, waits, w, Finished);
      PassKeeps(back, ReleaseLocked(back, late), k, threads, waits[w := Finished]);
    } else {
      WaitMoves(c, waits, w, Finished);
    }
  }

  /** Closing ends every claim and every wait on the slot; nothing holds the fresh lock. */
  lemma CloseKeeps(c: Core, threads: map<ThreadId, Phase>, waits: map<WaiterId, Wait>)
    requires CoreInv(c, threads, waits) && forall t :: t in threads ==> LockOf(threads[t], c.lock)
    ensures CoreInv(Close(c), threads, waits)
  {
    var d := Close(c);
    assert Takers(threads, d.lock) == {};
    assert |Takers(threads, c.lock)| + Claims(c) == Bit(c.lock in c.locked);
    assert |Takers(threads, d.lock)| + 0 == Bit(d.lock in c.locked);
    forall l ensures |Takers(threads, l)| == Bit(l in d.locked) {
      assert |Takers(threads, l)| + (if l == c.lock then Claims(c) else 0) == Bit(l in c.locked);
    }
    forall w | w in waits ensures WaitMatches(d, w, waits[w]) {
      assert WaitMatches(c, w, waits[w]);
    }
  }

  // ---------------------------------------------------------------------------
  // Every step keeps the invariant
  // ---------------------------------------------------------------------------

  lemma KnownMoves(c: Core, threads: map<ThreadId, Phase>, tokens: map<TokenId, Token>, t: ThreadId, p: Phase)
    requires LocksKnown(c, threads, tokens) && LockOf(p, c.lock)
    ensures LocksKnown(c, threads[t := p], tokens)
  {
  }

  /** Steps of a thread that leave the core alone. */
  lemma QuietThreadSteps(s: System, step: Step)
    requires Inv(s) && Enabled(s, step) && (step.Look? || step.Expire?)
    ensures Inv(Do(s, step))
  {
    var p := if step.Look? then Looking(s.core.lock) else Expired(s.threads[step.t].lock);
    assert LockOf(s.threads[step.t], s.core.lock);
    ThreadMoves(s.core, s.threads, step.t, p);
    CountedUpdate(s.threads, step.t, p);
  }

  lemma TryLockStep(s: System, step: Step)
    requires Inv(s) && Enabled(s, step) && (step.TryLock? || step.TakeLock?)
    ensures Inv(Do(s, step))
  {
    var t, l := step.t, s.threads[step.t].lock;
    assert LockOf(s.threads[t], s.core.lock);
    if l in s.core.locked {
      ThreadMoves(s.core, s.threads, t, Refused);
      CountedUpdate(s.threads, t, Refused);
    } else {
      var d := s.core.(locked := s.core.locked + {l});
      ThreadTakes(s.core, s.threads, t, l, step.TakeLock?);
      CountedUpdate(s.threads, t, Won(l, step.TakeLock?));
      WaitsSame(s.core, d, s.waits);
    }
  }

  lemma CountStep(s: System, step: Step)
    requires Inv(s) && Enabled(s, step) && step.Count?
    ensures Inv(Do(s, step))
  {
    var d := Reclaim(s.core, step.late);
    ReclaimKeeps(s.core, step.late, s.threads, s.waits);
    ThreadMoves(d, s.threads, step.t, Blocked(d.lock));
    CountedUpdate(s.threads, step.t, Blocked(d.lock));
    ChangeSync(d, s.threads[step.t := Blocked(d.lock)], s.waits, d.syncWaiting + 1);
  }

  /** The count of blocked threads is no part of the lock or the queue. */
  lemma ChangeSync(c: Core, threads: map<ThreadId, Phase>, waits: map<WaiterId, Wait>, n: int)
    requires CoreInv(c, threads, waits)
    ensures CoreInv(c.(syncWaiting := n), threads, waits)
  {
    WaitsSame(c, c.(syncWaiting := n), waits);
  }

  lemma UncountStep(s: System, step: Step)
    requires Inv(s) && Enabled(s, step) && step.Uncount?
    ensures Inv(Do(s, step))
  {
    var c := s.core.(syncWaiting := s.core.syncWaiting - 1);
    ChangeSync(s.core, s.threads, s.waits, s.core.syncWaiting - 1);
    ReclaimKeeps(c, step.late, s.threads, s.waits);
    ThreadMoves(Reclaim(c, step.late), s.threads, step.t, Rescuing);
    CountedUpdate(s.threads, step.t, Rescuing);
  }

  lemma RescueStep(s: System, step: Step)
    requires Inv(s) && Enabled(s, step) && step.RescueQueue?
    ensures Inv(Do(s, step))
  {
    RescueKeeps(s.core, step.late, s.threads, s.waits);
    ThreadMoves(Rescue(s.core, step.late), s.threads, step.t, Idle);
    CountedUpdate(s.threads, step.t, Idle);
  }

  lemma RecordStep(s: System, step: Step)
    requires Inv(s) && Enabled(s, step) && step.Record?
    ensures Inv(Do(s, step))
  {
    assert LockOf(s.threads[step.t], s.core.lock);
    if s.threads[step.t].lock == s.core.lock {
      RecordCurrent(s, step.t, step.k, step.late);
    } else {
      RecordStale(s, step.t, step.k, step.late);
    }
  }

  lemma RecordCurrent(s: System, t: ThreadId, k: TokenId, late: set<WaiterId>)
    requires Inv(s) && Enabled(s, Record(t, k, late)) && s.threads[t].lock == s.core.lock
    ensures Inv(Do(s, Record(t, k, late)))
  {
    var c := s.core.(syncWaiting := s.core.syncWaiting - Bit(s.threads[t].waited));
    ChangeSync(s.core, s.threads, s.waits, c.syncWaiting);
    CountedUpdate(s.threads, t, Idle);
    ThreadRecords(c, s.threads, t, t);
    LiveUpdate(s.tokens, k, Token(c.lock, Direct), c.lock);
    WaitsSame(c, c.(owner := Some(t)), s.waits);
  }

  /** A lock from before a close is recorded by nobody; a counted thread rescues the queue as it leaves. */
  lemma RecordStale(s: System, t: ThreadId, k: TokenId, late: set<WaiterId>)
    requires Inv(s) && Enabled(s, Record(t, k, late)) && s.threads[t].lock < s.core.lock
    ensures Inv(Do(s, Record(t, k, late)))
  {
    var l, waited := s.threads[t].lock, s.threads[t].waited;
    var c := s.core.(syncWaiting := s.core.syncWaiting - Bit(waited));
    var d := HeldBy(s.core, t, l, waited, late).0;
    ChangeSync(s.core, s.threads, s.waits, c.syncWaiting);
    CountedUpdate(s.threads, t, Returning(l));
    RescueKeeps(c, late, s.threads, s.waits);
    assert d == if waited then Rescue(c, late) else c;
    hide LocksCounted, WaitsMatch, Ordered, Rescue, HeldBy;
    ThreadMoves(d, s.threads, t, Returning(l));
    KnownMoves(d, s.threads, s.tokens, t, Returning(l));
  }

  lemma ReturnLockStep(s: System, step: Step)
    requires Inv(s) && Enabled(s, step) && step.ReturnLock?
    ensures s.threads[step.t].lock in s.core.locked && Inv(Do(s, step))
  {
    var l := s.threads[step.t].lock;
    assert LockOf(s.threads[step.t], s.core.lock);
    ThreadReturns(s.core, s.threads, step.t, l);
    CountedUpdate(s.threads, step.t, Idle);
    WaitsSame(s.core, s.core.(locked := s.core.locked - {l}), s.waits);
  }

  lemma ThreadStep(s: System, step: Step)
    requires Inv(s) && Enabled(s, step)
    requires step.Look? || step.TryLock? || step.Count? || step.TakeLock? || step.Expire? || step.Uncount?
          || step.RescueQueue? || step.Record? || step.ReturnLock?
    ensures Inv(Do(s, step))
  {
    hide *;
    if step.Look? || step.Expire? {
      QuietThreadSteps(s, step);
    } else if step.TryLock? || step.TakeLock? {
      TryLockStep(s, step);
    } else if step.Count? {
      CountStep(s, step);
    } else if step.Uncount? {
      UncountStep(s, step);
    } else if step.RescueQueue? {
      RescueStep(s, step);
    } else if step.Record? {
      RecordStep(s, step);
    } else {
      ReturnLockStep(s, step);
    }
  }

  lemma BeginStep(s: System, step: Step)
    requires Inv(s) && Enabled(s, step) && step.Begin?
    ensures Inv(Do(s, step))
  {
    var d := Reclaim(s.core, step.late);
    ReclaimKeeps(s.core, step.late, s.threads, s.waits);
    assert step.w !in d.table;
    WaitMoves(d, s.waits, step.w, Starting);
  }

  lemma ReserveStep(s: System, step: Step)
    requires Inv(s) && Enabled(s, step) && step.Reserve?
    ensures Inv(Do(s, step))
  {
    if s.core.waiters == [] && s.core.syncWaiting == 0 && s.core.lock !in s.core.locked {
      ReserveFree(s, step.w, step.k);
    } else {
      Enqueue(s, step.w, step.k);
    }
  }

  lemma ReserveFree(s: System, w: WaiterId, k: TokenId)
    requires Inv(s) && Enabled(s, Reserve(w, k))
    requires s.core.waiters == [] && s.core.syncWaiting == 0 && s.core.lock !in s.core.locked
    ensures Inv(Do(s, Reserve(w, k)))
  {
    var c := s.core;
    var d := c.(locked := c.locked + {c.lock}, owner := Some(w));
    assert WaitMatches(c, w, Starting);
    assert |Takers(s.threads, c.lock)| + Claims(c) == 0;
    forall l ensures |Takers(s.threads, l)| + (if l == d.lock then Claims(d) else 0) == Bit(l in d.locked) {
      assert |Takers(s.threads, l)| + (if l == c.lock then Claims(c) else 0) == Bit(l in c.locked);
    }
    WaitsSame(c, d, s.waits);
    WaitMoves(d, s.waits, w, Finished);
    LiveUpdate(s.tokens, k, Token(c.lock, Held), c.lock);
  }

  lemma Enqueue(s: System, w: WaiterId, k: TokenId)
    requires Inv(s) && Enabled(s, Reserve(w, k))
    requires !(s.core.waiters == [] && s.core.syncWaiting == 0 && s.core.lock !in s.core.locked)
    ensures Inv(Do(s, Reserve(w, k)))
  {
    var c := s.core;
    var d := c.(waiters := c.waiters + [w], table := c.table[w := Waiter(Waiting, None, false, false)]);
    assert WaitMatches(c, w, Starting);
    forall x | x in s.waits && x != w ensures WaitMatches(d, x, s.waits[x]) {
      assert WaitMatches(c, x, s.waits[x]);
    }
    assert w in d.waiters;
    assert LocksCounted(d, s.threads) by {
      ReplaceCoreLocks(c, d, s.threads);
    }
  }

  /** A flag of a waiter says nothing about the queue, the lock, or its state. */
  lemma FlagKeeps(c: Core, w: WaiterId, loopClosed: bool, threads: map<ThreadId, Phase>, waits: map<WaiterId, Wait>)
    requires CoreInv(c, threads, waits) && w in c.table
    ensures CoreInv(Flag(c, w, loopClosed), threads, waits)
  {
    var d := Flag(c, w, loopClosed);
    forall x | x in waits ensures WaitMatches(d, x, waits[x]) {
      assert WaitMatches(c, x, waits[x]);
    }
    ReplaceCoreLocks(c, d, threads);
  }

  lemma ReplaceCoreLocks(c: Core, d: Core, threads: map<ThreadId, Phase>)
    requires LocksCounted(c, threads) && d.lock == c.lock && d.locked == c.locked && Claims(d) == Claims(c)
    ensures LocksCounted(d, threads)
  {
  }

  lemma WakeStep(s: System, step: Step)
    requires Inv(s) && Enabled(s, step) && (step.WakeUp? || step.Stop? || step.LoopCloses? || step.FutureEnds?)
    ensures Inv(Do(s, step))
  {
    var d := Flag(s.core, step.w, step.LoopCloses?);
    FlagKeeps(s.core, step.w, step.LoopCloses?, s.threads, s.waits);
    if step.WakeUp? || step.Stop? {
      assert WaitMatches(d, step.w, InQueue);
      WaitMoves(d, s.waits, step.w, if step.WakeUp? then Woken else Stopped(step.timedOut));
    }
  }

  lemma LeaveWaitStep(s: System, step: Step)
    requires Inv(s) && Enabled(s, step) && step.LeaveWait?
    ensures Inv(Do(s, step))
  {
    var c, w := s.core, step.w;
    assert WaitMatches(c, w, s.waits[w]);
    if c.table[w].state == Waiting {
      LeaveKeeps(c, w, s.threads, s.waits);
    } else if c.table[w].state == Abandoned {
      WaitMoves(c, s.waits, w, Finished);
    } else {
      WaitMoves(c, s.waits, w, if s.waits[w].timedOut then Woken else Leaving);
    }
  }

  lemma LeaveKeeps(c: Core, w: WaiterId, threads: map<ThreadId, Phase>, waits: map<WaiterId, Wait>)
    requires CoreInv(c, threads, waits) && w in c.waiters
    ensures CoreInv(Leave(c, w), threads, waits[w := Finished])
  {
    var d, i := Leave(c, w), Index(c.waiters, w);
    assert c.waiters == c.waiters[..i] + [w] + c.waiters[i + 1..];
    assert forall x :: x in c.waiters <==> x in d.waiters || x == w;
    assert w !in d.waiters;
    var moved := waits[w := Finished];
    forall x | x in moved ensures WaitMatches(d, x, moved[x]) {
      if x in waits {
        assert WaitMatches(c, x, waits[x]);
      }
    }
    ReplaceCoreLocks(c, d, threads);
  }

  lemma RecordGrantStep(s: System, step: Step)
    requires Inv(s) && Enabled(s, step) && step.RecordGrant?
    ensures Inv(Do(s, step))
  {
    var c, w := s.core, step.w;
    assert WaitMatches(c, w, s.waits[w]);
    if TakeGrant(c, w, w).Ok? {
      var d := c.(pending := None, owner := Some(w));
      assert |Takers(s.threads, c.lock)| + Claims(c) == Bit(c.lock in c.locked);
      assert Claims(c) == Claims(d) == 1;
      ReplaceCoreLocks(c, d, s.threads);
      forall x | x in s.waits && x != w ensures WaitMatches(d, x, s.waits[x]) {
        assert WaitMatches(c, x, s.waits[x]);
      }
      LiveUpdate(s.tokens, step.k, Token(c.lock, Held), c.lock);
    } else {
      WaitMoves(c, s.waits, w, Finished);
    }
  }

  lemma HandOnStep(s: System, step: Step)
    requires Inv(s) && Enabled(s, step) && step.HandOn?
    ensures Inv(Do(s, step))
  {
    PassOnKeeps(s.core, step.w, step.late, s.threads, s.waits);
  }

  lemma WaitStep(s: System, step: Step)
    requires Inv(s) && Enabled(s, step)
    requires step.Begin? || step.Reserve? || step.WakeUp? || step.Stop? || step.LeaveWait? || step.RecordGrant?
          || step.HandOn? || step.LoopCloses? || step.FutureEnds?
    ensures Inv(Do(s, step))
  {
    hide *;
    if step.Begin? {
      BeginStep(s, step);
    } else if step.Reserve? {
      ReserveStep(s, step);
    } else if step.LeaveWait? {
      LeaveWaitStep(s, step);
    } else if step.RecordGrant? {
      RecordGrantStep(s, step);
    } else if step.HandOn? {
      HandOnStep(s, step);
    } else {
      WakeStep(s, step);
    }
  }

  /** A live reference to the current lock has its owner on record. */
  lemma LiveOwned(c: Core, tokens: map<TokenId, Token>, k: TokenId)
    requires TokensCounted(c, tokens) && k in tokens && Live(tokens[k], c.lock)
    ensures c.owner.Some?
  {
    assert k in LiveTokens(tokens, c.lock);
  }

  lemma StartReleaseStep(s: System, step: Step)
    requires Inv(s) && Enabled(s, step) && step.StartRelease?
    ensures Inv(Do(s, step))
  {
    LiveUpdate(s.tokens, step.k, s.tokens[step.k].(state := Releasing), s.core.lock);
  }

  lemma FinishReleaseStep(s: System, step: Step)
    requires Inv(s) && Enabled(s, step) && step.FinishRelease?
    ensures Release(s.core, Some(s.tokens[step.k].lock), step.late).Ok?
    ensures Inv(Do(s, step))
  {
    var c, k := s.core, step.k;
    var done := s.tokens[k].(state := Released);
    LiveUpdate(s.tokens, k, done, c.lock);
    if s.tokens[k].lock == c.lock {
      LiveOwned(c, s.tokens, k);
      ReleaseKeeps(c, step.late, s.threads, s.waits);
    }
  }

  lemma TakeStep(s: System, step: Step)
    requires Inv(s) && Enabled(s, step) && (step.TakeOver? || step.GiveBack?)
    ensures Inv(Do(s, step))
  {
    var c, k := s.core, step.k;
    if s.tokens[k].lock != c.lock {
      LiveUpdate(s.tokens, k, s.tokens[k].(state := Released), c.lock);
    } else {
      LiveOwned(c, s.tokens, k);
      assert TokenOf(s.tokens[k], c.lock);
      var d := if step.TakeOver? then c.(owner := Some(step.me)) else c.(owner := s.tokens[k].state.previous);
      LiveUpdate(s.tokens, k, s.tokens[k].(state := if step.TakeOver? then Taken(c.owner) else Held), c.lock);
      ReplaceCoreLocks(c, d, s.threads);
      WaitsSame(c, d, s.waits);
    }
  }

  lemma CloseStep(s: System)
    requires Inv(s) && Enabled(s, CloseStorage)
    ensures Inv(Do(s, CloseStorage))
  {
    var d := Close(s.core);
    CloseKeeps(s.core, s.threads, s.waits);
    assert LiveTokens(s.tokens, d.lock) == {} by {
      forall k | k in s.tokens ensures !Live(s.tokens[k], d.lock) {
        assert TokenOf(s.tokens[k], s.core.lock);
      }
    }
    forall t | t in s.threads ensures LockOf(s.threads[t], d.lock) {
      assert LockOf(s.threads[t], s.core.lock);
    }
    forall k | k in s.tokens ensures TokenOf(s.tokens[k], d.lock) {
      assert TokenOf(s.tokens[k], s.core.lock);
    }
  }

  /** In every interleaving, every step keeps the invariant. */
  lemma StepKeepsInv(s: System, step: Step)
    requires Inv(s) && Enabled(s, step)
    ensures Inv(Do(s, step))
  {
    hide *;
    if step.StartRelease? {
      StartReleaseStep(s, step);
    } else if step.FinishRelease? {
      FinishReleaseStep(s, step);
    } else if step.TakeOver? || step.GiveBack? {
      TakeStep(s, step);
    } else if step.CloseStorage? {
      CloseStep(s);
    } else if step.Look? || step.TryLock? || step.Count? || step.TakeLock? || step.Expire? || step.Uncount?
           || step.RescueQueue? || step.Record? || step.ReturnLock? {
      ThreadStep(s, step);
    } else {
      WaitStep(s, step);
    }
  }
}
