/**
 What the steps of the publisher do to the thread that makes them, and to one that does not.
 */
module PublisherMoves {
  import opened PublisherLedger
  import opened PublisherSteps

  /** Whose method runs: only the other threads' steps can come between its own. */
  datatype Thread = Worker | Caller(w: nat) | Flusher(id: nat) | Closer

  predicate Belongs(step: Step, me: Thread) {
    match me
    case Worker => IsWorkers(step)
    case Caller(w) => (step.Put? || step.SeesFull? || step.GiveUp?) && step.w == w
    case Flusher(id) => step.PutSentinel? && step.id == id
    case Closer => step.PopLeftover? || step.RecordLeftovers?
  }

  // ---------------------------------------------------------------------------
  // What the steps of other threads leave alone
  // ---------------------------------------------------------------------------

  /** Nothing is taken back, and nothing from the queue. */
  ghost predicate Onward(s: State, t: State) {
    && s.queue <= t.queue && t.maxsize == s.maxsize && t.maxCall == s.maxCall && s.entered <= t.entered
      && s.dropped <= t.dropped
    && (s.stopping ==> t.stopping) && (s.drainFailed ==> t.drainFailed)
  }

  /** The worker's batch and what it settled are as before. */
  ghost predicate Beside(s: State, t: State) {
    && Onward(s, t) && t.left == s.left && t.signalled == s.signalled
    && t.batch == s.batch && t.done == s.done && t.log == s.log && t.sent == s.sent
  }

  /** The worker settled keys at the head of its hand with these entries, and sent `out`. */
  ghost predicate Went(s: State, t: State, entries: seq<Entry>, out: seq<Key>) {
    && Onward(s, t) && t.left == s.left && t.signalled == s.signalled
    && t.batch == s.batch && t.done == s.done + |entries| && t.log == s.log + entries && t.sent == s.sent + out
  }

  lemma WentTwice(s: State, t: State, u: State, a: seq<Entry>, b: seq<Entry>, c: seq<Key>, d: seq<Key>)
    requires Went(s, t, a, c) && Went(t, u, b, d)
    ensures Went(s, u, a + b, c + d)
  {
  }

  /** Other threads leave the worker's fields alone, and count nothing again. */
  lemma OthersBeside(s: State, step: Step)
    requires Enabled(s, step) && !IsWorkers(step)
    ensures var t := Do(s, step);
            && Beside(s, t) && t.phase == s.phase && |t.queue| <= |s.queue| + 1
            && Again(s, step) == 0
  {
  }

  /** What holds of any stretch of a run. */
  ghost predicate GoesOn(s: State, t: State) {
    && Extends(s, t) && (s.stopping ==> t.stopping) && (s.phase.Exited? ==> t.phase.Exited?)
    && |s.writers| <= |t.writers| && MarksStay(s.marks, t.marks)
  }

  ghost predicate MarksStay(a: map<nat, nat>, b: map<nat, nat>) {
    forall id :: id in a ==> id in b && b[id] == a[id]
  }

  lemma GoesOnTwice(s: State, t: State, u: State)
    requires GoesOn(s, t) && GoesOn(t, u)
    ensures GoesOn(s, u)
  {
  }

  lemma StepGoesOn(s: State, step: Step)
    requires Shaped(s) && Enabled(s, step)
    ensures GoesOn(s, Do(s, step))
  {
    StepExtends(s, step);
    StopsStay(s, step);
    WritersGrow(s, step);
    MarksGrowOnly(s, step);
    hide Extends, Do, Enabled;
  }

  lemma StopsStay(s: State, step: Step)
    requires Enabled(s, step)
    ensures s.stopping ==> Do(s, step).stopping
    ensures s.phase.Exited? ==> Do(s, step).phase.Exited?
  {
    if IsWorkers(step) {
      WorkerLeaves(s, step);
      hide Do, Enabled;
    }
  }

  lemma WritersGrow(s: State, step: Step)
    requires Enabled(s, step)
    ensures |s.writers| <= |Do(s, step).writers|
    ensures forall w :: 0 <= w < |s.writers| && !Belongs(step, Caller(w)) ==> Do(s, step).writers[w] == s.writers[w]
  {
    if !IsWriters(step) {
      WritersStay(s, step);
      hide Do, Enabled;
    }
  }

  lemma MarksGrowOnly(s: State, step: Step)
    requires Enabled(s, step)
    ensures MarksStay(s.marks, Do(s, step).marks)
    ensures forall id :: !Belongs(step, Flusher(id)) ==> (id in Do(s, step).marks <==> id in s.marks)
  {
    if IsWorkers(step) {
      WorkerLeaves(s, step);
      hide Do, Enabled;
    }
  }

  /** What another thread's step leaves alone for the thread that runs. */
  ghost predicate Spares(me: Thread, s: State, t: State) {
    match me
    case Worker => Beside(s, t) && t.phase == s.phase
    case Caller(w) => w < |s.writers| ==> w < |t.writers| && t.writers[w] == s.writers[w]
    case Flusher(id) => id in t.marks <==> id in s.marks
    case Closer => true
  }

  lemma SelfSpared(me: Thread, s: State)
    ensures Spares(me, s, s) && GoesOn(s, s)
  {
  }

  /** Only a flush clears the last error. */
  lemma ErrorStays(s: State, step: Step)
    requires Enabled(s, step)
    ensures s.lastError && !Do(s, step).lastError ==> step.RaiseError?
  {
  }

  lemma SparesTwice(me: Thread, s: State, t: State, u: State)
    requires Spares(me, s, t) && Spares(me, t, u)
    ensures Spares(me, s, u)
  {
  }

  lemma StepSpares(me: Thread, s: State, step: Step)
    requires Enabled(s, step) && !Belongs(step, me)
    ensures Spares(me, s, Do(s, step))
    ensures me.Worker? ==> Again(s, step) == 0 && |Do(s, step).queue| <= |s.queue| + 1
  {
    match me
    case Worker => OthersBeside(s, step);
    case Caller(w) =>
      WritersGrow(s, step);
      hide Do, Enabled;
    case Flusher(id) =>
      MarksGrowOnly(s, step);
      hide Do, Enabled;
    case Closer =>
  }

  // ---------------------------------------------------------------------------
  // What each step changes
  // ---------------------------------------------------------------------------

  function NextOf(item: Item): Phase {
    match item
    case KeyItem(_) => Draining
    case Sentinel(id) => Choosing(Signal(id))
    case StopMarker => Choosing(Exit)
  }

  lemma DoBeginCall(s: State, keys: seq<Key>)
    ensures Enabled(s, Begin(keys))
    ensures Do(s, Begin(keys)) == s.(writers := s.writers + [Writer(keys, 0, false, false)],
          notified := s.notified + |keys|)
  {
  }

  lemma DoRefuseAll(s: State, n: nat)
    requires n > 0
    ensures Enabled(s, Offline(n))
    ensures Do(s, Offline(n)) == Counted(s, n).(notified := s.notified + n, refused := s.refused + n)
  {
  }

  lemma DoPutKey(s: State, w: nat)
    requires Busy(s, w) && HasRoom(s)
    ensures Enabled(s, Put(w))
    ensures Do(s, Put(w)) == var writer := s.writers[w];
            s.(queue := s.queue + [KeyItem(writer.keys[writer.placed])],
                entered := s.entered + [writer.keys[writer.placed]],
               writers := s.writers[w := writer.(placed := writer.placed + 1, sawFull := false)])
  {
  }

  lemma DoFindFull(s: State, w: nat)
    requires Busy(s, w) && !HasRoom(s)
    ensures Enabled(s, SeesFull(w))
    ensures Do(s, SeesFull(w)) == s.(writers := s.writers[w := s.writers[w].(sawFull := true)])
  {
  }

  lemma DoDropRest(s: State, w: nat)
    requires Busy(s, w) && s.writers[w].sawFull
    ensures Enabled(s, GiveUp(w))
    ensures Do(s, GiveUp(w)) == var n := |s.writers[w].keys| - s.writers[w].placed;
            Counted(s, n).(stalled := true, refused := s.refused + n,
                writers := s.writers[w := s.writers[w].(gaveUp := true)])
  {
  }

  lemma DoQueueSentinel(s: State, id: nat)
    requires HasRoom(s) && id !in s.marks
    ensures Enabled(s, PutSentinel(id))
    ensures Do(s, PutSentinel(id)) == s.(queue := s.queue + [Sentinel(id)], marks := s.marks[id := |s.entered|])
  {
  }

  lemma DoClearError(s: State)
    ensures Enabled(s, RaiseError)
    ensures Do(s, RaiseError) == s.(lastError := false)
  {
  }

  lemma DoStopSet(s: State)
    ensures Enabled(s, SetStop) && Again(s, SetStop) == 0
    ensures Do(s, SetStop) == s.(stopping := true)
  {
  }

  lemma DoQueueMarker(s: State)
    requires HasRoom(s) && s.stopping
    ensures Enabled(s, PutMarker) && Again(s, PutMarker) == 0
    ensures Do(s, PutMarker) == s.(queue := s.queue + [StopMarker])
  {
  }

  lemma DoTakeItem(s: State)
    requires (s.phase.Idle? || s.phase.Draining?) && s.queue != []
    ensures Enabled(s, Take) && Again(s, Take) == 0
    ensures Do(s, Take) == s.(queue := s.queue[1..], phase := NextOf(s.queue[0]), batch := s.batch + KeyOf(s.queue[0]))
  {
    assert Do(s, Take) == Taken(s);
    TakenParts(s);
    hide Do, Enabled;
  }

  lemma DoFindEmpty(s: State)
    requires s.phase.Draining? && s.queue == []
    ensures Enabled(s, SeesEmpty) && Again(s, SeesEmpty) == 0
    ensures Do(s, SeesEmpty) == s.(phase := Choosing(Rest))
  {
  }

  lemma DoNextChunk(s: State)
    requires s.phase.Choosing? && s.done < |s.batch|
    ensures Enabled(s, Choose)
    ensures Do(s, Choose) == s.(phase := Preparing(s.phase.next, ChunkSize(s), []))
  {
  }

  lemma DoFinishBatch(s: State)
    requires s.phase.Choosing? && s.done == |s.batch|
    ensures Enabled(s, Choose)
    ensures Do(s, Choose) == s.(batch := [], done := 0, phase := Following(s.phase.next))
  {
  }

  lemma DoEncodeKey(s: State)
    requires s.phase.Preparing? && Shaped(s) && |s.phase.flags| < s.phase.m
    ensures Enabled(s, Encode(true)) && InChunk(s)
    ensures Do(s, Encode(true)) == s.(phase := Preparing(s.phase.next, s.phase.m, s.phase.flags + [true]))
  {
  }

  lemma DoSkipKey(s: State)
    requires s.phase.Preparing? && Shaped(s) && |s.phase.flags| < s.phase.m
    ensures Enabled(s, Encode(false)) && InChunk(s)
    ensures Do(s, Encode(false)) == Counted(s, 1).(phase := Preparing(s.phase.next, s.phase.m, s.phase.flags + [false]))
  {
  }

  lemma DoDropRaised(s: State)
    requires s.phase.Preparing? && Shaped(s)
    ensures Enabled(s, PrepareRaises) && InChunk(s)
    ensures Do(s, PrepareRaises) == s.(phase := Choosing(s.phase.next), done := s.done + s.phase.m,
          log := s.log + Lost(Chunk(s)), dropped := s.dropped + s.phase.m, lastError := true)
  {
  }

  lemma DoSettleUnsent(s: State)
    requires s.phase.Preparing? && Shaped(s) && |s.phase.flags| == s.phase.m && Picked(Chunk(s), s.phase.flags) == []
    ensures Enabled(s, Prepared) && InChunk(s)
    ensures Do(s, Prepared) == s.(phase := Choosing(s.phase.next), done := s.done + s.phase.m,
          log := s.log + Lost(Chunk(s)))
  {
  }

  lemma DoDropDraining(s: State)
    requires s.phase.Preparing? && Shaped(s) && |s.phase.flags| == s.phase.m && Picked(Chunk(s), s.phase.flags) != []
          && s.drainFailed && s.stopping
    ensures Enabled(s, Prepared) && InChunk(s)
    ensures Do(s, Prepared) == s.(phase := Choosing(s.phase.next), done := s.done + s.phase.m,
          log := s.log + Lost(Chunk(s)), dropped := s.dropped + |Picked(Chunk(s), s.phase.flags)|, lastError := true)
  {
  }

  lemma DoStartSending(s: State)
    requires s.phase.Preparing? && Shaped(s) && |s.phase.flags| == s.phase.m && Picked(Chunk(s), s.phase.flags) != []
          && !(s.drainFailed && s.stopping)
    ensures Enabled(s, Prepared) && InChunk(s)
    ensures Do(s, Prepared) == s.(phase := Sending(s.phase.next, s.phase.m, s.phase.flags))
  {
  }

  lemma DoSendSucceeds(s: State)
    requires s.phase.Sending? && Shaped(s)
    ensures Enabled(s, SendOk) && InChunk(s)
    ensures Do(s, SendOk) == s.(phase := Choosing(s.phase.next), done := s.done + s.phase.m,
          log := s.log + Fates(Chunk(s), s.phase.flags), sent := s.sent + Picked(Chunk(s), s.phase.flags),
               stalled := false)
  {
  }

  lemma DoSendGivesUp(s: State)
    requires s.phase.Sending? && Shaped(s)
    ensures Enabled(s, SendFails) && InChunk(s)
    ensures Do(s, SendFails) == s.(phase := Choosing(s.phase.next), done := s.done + s.phase.m,
          log := s.log + Lost(Chunk(s)), dropped := s.dropped + |Picked(Chunk(s), s.phase.flags)|, lastError := true,
               drainFailed := s.drainFailed || s.stopping)
  {
  }

  lemma DoDropBatch(s: State)
    requires (s.phase.Preparing? || s.phase.Sending?) && Shaped(s)
    ensures Enabled(s, Crash) && InChunk(s)
    ensures Do(s, Crash) == s.(phase := Choosing(s.phase.next), done := |s.batch|, log := s.log + Lost(Unsettled(s)),
          dropped := s.dropped + |s.batch|,
               lastError := true)
  {
  }

  lemma DoSignalSet(s: State)
    requires s.phase.Signalling?
    ensures Enabled(s, SetSentinel) && Again(s, SetSentinel) == 0
    ensures Do(s, SetSentinel) == s.(phase := Draining, signalled := s.signalled + {s.phase.id})
  {
  }

  lemma DoExitOnStop(s: State)
    requires s.phase.Idle? && s.stopping
    ensures Enabled(s, ExitIdle) && Again(s, ExitIdle) == 0
    ensures Do(s, ExitIdle) == s.(phase := Exited)
  {
  }

  lemma DoPopItem(s: State)
    requires s.phase.Exited? && s.queue != []
    ensures Enabled(s, PopLeftover) && Again(s, PopLeftover) == 0 && Popped(s).queue == s.queue[1..]
    ensures Do(s, PopLeftover) == var t := Popped(s);
            s.(queue := t.queue, left := t.left, log := t.log, signalled := t.signalled)
  {
  }

  lemma DoCountLeftovers(s: State)
    requires s.phase.Exited? && s.left > 0
    ensures Enabled(s, RecordLeftovers) && Again(s, RecordLeftovers) == 0
    ensures Do(s, RecordLeftovers) == Counted(s, s.left).(left := 0)
  {
  }

  // ---------------------------------------------------------------------------
  // A chunk on its way
  // ---------------------------------------------------------------------------

  /** How a hook ended: it returned, raised an `Exception`, or raised something else. */
  datatype Ending = Finished | Raised | Crashing

  /** The chunk is being encoded; nothing else has happened to the worker. */
  ghost predicate Encoding(s: State, t: State) {
    && s.phase.Preparing? && t.phase.Preparing? && t.phase == Preparing(s.phase.next, s.phase.m, t.phase.flags)
    && Beside(s, t) && Shaped(s) && Shaped(t)
  }

  lemma EncodingBegins(s: State)
    requires Shaped(s) && s.phase.Preparing?
    ensures InChunk(s) && Encoding(s, s) && GoesOn(s, s)
  {
  }

  lemma EncodingSame(start: State, s: State)
    requires Encoding(start, s)
    ensures InChunk(s) && Chunk(s) == Chunk(start) && |s.phase.flags| <= s.phase.m
    ensures (start.stopping ==> s.stopping) && (start.drainFailed ==> s.drainFailed)
  {
  }

  lemma EncodingOn(start: State, s: State, t: State)
    requires Encoding(start, s) && Spares(Worker, s, t) && Shaped(t)
    ensures Encoding(start, t) && Chunk(t) == Chunk(start)
    ensures t.phase.flags == s.phase.flags && |t.phase.flags| <= t.phase.m
  {
  }

  lemma EncodingTwice(start: State, s: State, t: State)
    requires Encoding(start, s) && Encoding(s, t)
    ensures Encoding(start, t) && |t.phase.flags| <= t.phase.m
  {
  }

  lemma RaisedFrom(start: State, s: State, t: State)
    requires Encoding(start, s) && Chunk(s) == Chunk(start) && Went(s, t, Lost(Chunk(s)), [])
    ensures Went(start, t, Lost(Chunk(start)), [])
  {
    SentFrom(start, s, t, Lost(Chunk(s)), []);
    hide Went;
  }

  lemma EncodedOn(start: State, s: State, ok: bool)
    requires Encoding(start, s) && |s.phase.flags| < s.phase.m
    ensures Enabled(s, Encode(ok)) && Again(s, Encode(ok)) == 0
    ensures var t := Do(s, Encode(ok));
            Encoding(start, t) && t.queue == s.queue && |t.phase.flags| == |s.phase.flags| + 1
  {
    if ok {
      DoEncodeKey(s);
    } else {
      DoSkipKey(s);
    }
    hide Do, Enabled;
  }

  lemma RaisedWent(start: State, s: State)
    requires Encoding(start, s) && Chunk(s) == Chunk(start)
    ensures Enabled(s, PrepareRaises) && Again(s, PrepareRaises) == Skips(s.phase.flags) <= s.phase.m
    ensures var t := Do(s, PrepareRaises);
            && Went(start, t, Lost(Chunk(start)), []) && t.phase == Choosing(start.phase.next) && t.queue == s.queue
  {
    DoDropRaised(s);
    SkipsWithin(s.phase.flags);
    hide Do, Enabled, Lost, Skips, Chunk;
  }

  /** The chunk, encoded, is being sent. */
  ghost predicate OnTheWay(s: State, t: State) {
    && s.phase.Sending? && t.phase == s.phase && Beside(s, t) && Shaped(s) && Shaped(t)
  }

  lemma SendingBegins(s: State)
    requires Shaped(s) && s.phase.Sending?
    ensures InChunk(s) && |Chunk(s)| == |s.phase.flags| && OnTheWay(s, s) && GoesOn(s, s)
  {
  }

  lemma OnTheWayOn(start: State, s: State, t: State)
    requires OnTheWay(start, s) && Spares(Worker, s, t) && Shaped(t)
    ensures OnTheWay(start, t) && Chunk(t) == Chunk(start)
  {
  }

  lemma SentWent(start: State, s: State)
    requires OnTheWay(start, s) && Chunk(s) == Chunk(start)
    ensures Enabled(s, SendOk) && Again(s, SendOk) == 0
    ensures var t, flags := Do(s, SendOk), start.phase.flags;
            && Went(start, t, Fates(Chunk(start), flags), Picked(Chunk(start), flags))
            && t.phase == Choosing(start.phase.next) && t.queue == s.queue
  {
    DoSendSucceeds(s);
    hide Do, Enabled, Fates, Picked, Chunk;
  }

  lemma FailedWent(start: State, s: State)
    requires OnTheWay(start, s) && Chunk(s) == Chunk(start)
    ensures Enabled(s, SendFails) && Again(s, SendFails) == 0
    ensures var t := Do(s, SendFails);
            && Went(start, t, Lost(Chunk(start)), []) && t.phase == Choosing(start.phase.next) && t.queue == s.queue
  {
    DoSendGivesUp(s);
    hide Do, Enabled, Lost, Picked, Chunk;
  }

  /** The chunk is encoded: it is settled unsent, or about to be sent. */
  lemma ReadyWent(start: State, s: State)
    requires Encoding(start, s) && Chunk(s) == Chunk(start) && |s.phase.flags| == s.phase.m
    ensures Enabled(s, Prepared) && Again(s, Prepared) == 0
    ensures var t, unsent := Do(s, Prepared), Picked(Chunk(s), s.phase.flags) == [] || (s.drainFailed && s.stopping);
            && (unsent ==> Went(start, t, Lost(Chunk(start)), []) && t.phase == Choosing(start.phase.next))
            && (!unsent ==> Beside(start, t) && t.phase == Sending(s.phase.next, s.phase.m, s.phase.flags)
                            && Shaped(t) && Chunk(t) == Chunk(start))
            && t.queue == s.queue
  {
    if Picked(Chunk(s), s.phase.flags) == [] {
      DoSettleUnsent(s);
    } else if s.drainFailed && s.stopping {
      DoDropDraining(s);
    } else {
      DoStartSending(s);
    }
    hide Do, Enabled, Lost, Picked;
  }

  lemma SentFrom(start: State, s: State, t: State, entries: seq<Entry>, out: seq<Key>)
    requires Beside(start, s) && Went(s, t, entries, out)
    ensures Went(start, t, entries, out)
  {
  }

  /** A chunk whose keys were all dropped. */
  lemma LostFates(chunk: seq<Key>)
    ensures Lost(chunk) == Fates(chunk, Never(|chunk|)) && Picked(chunk, Never(|chunk|)) == []
  {
    NeverCount(chunk, |chunk|);
  }

  /** A hook raised what is no `Exception` while the chunk was in hand. */
  ghost predicate Stuck(s: State, t: State) {
    && (s.phase.Preparing? || s.phase.Sending?) && (t.phase.Preparing? || t.phase.Sending?)
    && t.phase.next == s.phase.next && t.phase.m == s.phase.m && Beside(s, t)
  }

  lemma StuckFrom(start: State, s: State, t: State)
    requires Encoding(start, s) || (Beside(start, s) && start.phase.Preparing? && s.phase.Sending?
                                    && s.phase.next == start.phase.next && s.phase.m == start.phase.m)
    requires s == t || OnTheWay(s, t)
    ensures Stuck(start, t)
  {
  }

  /** From the start of a batch, `t.done` keys are settled with these fates. */
  ghost predicate Through(s: State, t: State, flags: seq<bool>) {
    && s.done == 0 && t.batch == s.batch && |flags| == t.done <= |t.batch|
    && Went(s, t, Fates(t.batch[..t.done], flags), Picked(t.batch[..t.done], flags))
  }

  lemma ThroughBegins(s: State)
    requires s.done == 0 && s.phase.Choosing?
    ensures Through(s, s, []) && GoesOn(s, s)
  {
    assert Fates(s.batch[..0], []) == [] && s.log + [] == s.log && s.sent + [] == s.sent;
  }

  lemma ThroughBeside(start: State, s: State, t: State, flags: seq<bool>)
    requires Through(start, s, flags) && Beside(s, t)
    ensures Through(start, t, flags)
  {
    hide Fates, Picked;
  }

  lemma PickedConcat(a: seq<Key>, b: seq<Key>, f: seq<bool>, g: seq<bool>)
    requires |f| == |a| && |g| == |b|
    ensures Fates(a + b, f + g) == Fates(a, f) + Fates(b, g)
    ensures Picked(a + b, f + g) == Picked(a, f) + Picked(b, g)
  {
    assert Fates(a + b, f + g) == Fates(a, f) + Fates(b, g);
    LogConcat(Fates(a, f), Fates(b, g));
    FatesCount(a, f);
    FatesCount(b, g);
    FatesCount(a + b, f + g);
  }

  /** The keys at the head of the hand. */
  predicate AtHead(s: State, keys: seq<Key>) {
    s.done + |keys| <= |s.batch| && s.batch[s.done..s.done + |keys|] == keys
  }

  /** One chunk further. */
  lemma ThroughMore(start: State, s: State, t: State, chunk: seq<Key>, flags: seq<bool>, more: seq<bool>)
    requires Through(start, s, flags) && AtHead(s, chunk) && |more| == |chunk|
    requires Went(s, t, Fates(chunk, more), Picked(chunk, more))
    ensures Through(start, t, flags + more) && t.batch == s.batch && t.done == s.done + |chunk|
  {
    hide Went, Fates, Picked;
    var a := s.batch[..s.done];
    assert s.batch[..s.done + |chunk|] == a + chunk;
    PickedConcat(a, chunk, flags, more);
    WentParts(s, t, Fates(chunk, more), Picked(chunk, more));
    WentTwice(start, s, t, Fates(a, flags), Fates(chunk, more), Picked(a, flags), Picked(chunk, more));
  }

  lemma WentParts(s: State, t: State, entries: seq<Entry>, out: seq<Key>)
    requires Went(s, t, entries, out)
    ensures t.batch == s.batch && t.done == s.done + |entries|
  {
  }

  lemma ChosenChunk(s: State)
    requires s.phase.Choosing? && s.done < |s.batch| && Shaped(s)
    ensures Enabled(s, Choose) && Again(s, Choose) == 0
    ensures var t := Do(s, Choose);
            && Beside(s, t) && t.phase == Preparing(s.phase.next, ChunkSize(s), [])
              && 0 < t.phase.m <= |s.batch| - s.done
            && InChunk(t) && AtHead(t, Chunk(t)) && t.queue == s.queue && t.batch == s.batch && t.done == s.done
  {
    DoNextChunk(s);
    hide Do, Enabled;
  }

  lemma CrashThrough(start: State, s: State, flags: seq<bool>)
    requires Through(start, s, flags) && (s.phase.Preparing? || s.phase.Sending?) && Shaped(s)
    ensures Enabled(s, Crash) && Through(start, Do(s, Crash), flags + Never(|s.batch| - s.done))
  {
    hide Through, Do, Enabled;
    CrashWent(s);
    hide Shaped, InChunk, Unsettled, AtHead, Never;
    ThroughMore(start, s, Do(s, Crash), Unsettled(s), flags, Never(|s.batch| - s.done));
  }

  lemma CrashParts(s: State)
    requires (s.phase.Preparing? || s.phase.Sending?) && Shaped(s)
    ensures Enabled(s, Crash) && Again(s, Crash) == s.done + Skips(s.phase.flags)
    ensures Skips(s.phase.flags) <= s.phase.m <= |s.batch| - s.done
    ensures var t := Do(s, Crash);
            t.done == |s.batch| && t.phase == Choosing(s.phase.next) && t.queue == s.queue && t.batch == s.batch
  {
    DoDropBatch(s);
    SkipsWithin(s.phase.flags);
    hide Do, Enabled, Skips, Lost;
  }

  lemma CrashWent(s: State)
    requires (s.phase.Preparing? || s.phase.Sending?) && Shaped(s)
    ensures Enabled(s, Crash) && AtHead(s, Unsettled(s))
    ensures var flags := Never(|s.batch| - s.done);
            Went(s, Do(s, Crash), Fates(Unsettled(s), flags), Picked(Unsettled(s), flags))
  {
    DoDropBatch(s);
    LostFates(Unsettled(s));
    hide Do, Enabled, Lost, Fates, Picked, Never;
    assert s.sent + [] == s.sent;
  }

  /** The batch is settled with these fates. */
  ghost predicate Published(s: State, t: State, flags: seq<bool>) {
    && Onward(s, t) && t.left == s.left && t.signalled == s.signalled && t.batch == [] && t.done == 0
    && |flags| == |s.batch| && t.log == s.log + Fates(s.batch, flags) && t.sent == s.sent + Picked(s.batch, flags)
  }

  lemma ThroughOn(start: State, s: State, t: State, flags: seq<bool>)
    requires Through(start, s, flags) && Spares(Worker, s, t)
    ensures Through(start, t, flags) && t.phase == s.phase && t.batch == s.batch && t.done == s.done
  {
    ThroughBeside(start, s, t, flags);
    hide Through;
  }

  lemma StuckThrough(start: State, s: State, t: State, flags: seq<bool>)
    requires Through(start, s, flags) && Stuck(s, t)
    ensures Through(start, t, flags) && t.done == s.done && t.batch == s.batch
  {
    ThroughBeside(start, s, t, flags);
    hide Through;
  }

  lemma DoneWithin(s: State)
    requires Shaped(s)
    ensures s.done <= |s.batch|
  {
  }

  lemma ThroughLength(start: State, s: State, flags: seq<bool>)
    requires Through(start, s, flags)
    ensures |flags| == s.done <= |s.batch| && s.batch == start.batch
  {
  }

  lemma WaitedOn(s: State, t: State)
    requires Spares(Worker, s, t)
    ensures t.phase == s.phase && s.queue <= t.queue && t.batch == s.batch && t.done == s.done && t.log == s.log
    ensures StopMarker in s.queue ==> StopMarker in t.queue
  {
  }

  lemma TookItem(s: State)
    requires s.queue != []
    ensures StopMarker in s.queue ==> StopMarker in s.queue[1..] || NextOf(s.queue[0]) == Choosing(Exit)
  {
    assert s.queue == [s.queue[0]] + s.queue[1..];
  }

  lemma WentOnPublished(s: State, t: State, flags: seq<bool>)
    requires Published(s, t, flags)
    ensures |t.log| == |s.log| + |s.batch| && t.batch == [] && t.done == 0 && s.queue <= t.queue
    ensures StopMarker in s.queue ==> StopMarker in t.queue
  {
  }

  lemma EnteredStays(s: State, t: State)
    requires GoesOn(s, t)
    ensures s.entered <= t.entered
  {
  }

  lemma BatchFits(s: State)
    requires Shaped(s) && s.phase.Idle?
    ensures s.batch == [] && s.done == 0
  {
  }

  lemma StopStays(s: State, t: State)
    requires GoesOn(s, t)
    ensures (s.stopping ==> t.stopping) && (s.phase.Exited? ==> t.phase.Exited?)
  {
  }

  lemma MarkStays(s: State, t: State, id: nat)
    requires GoesOn(s, t) && id in s.marks
    ensures id in t.marks && t.marks[id] == s.marks[id]
  {
  }

  lemma QueuedSentinel(start: State, s: State, id: nat)
    requires GoesOn(start, s) && HasRoom(s) && id !in s.marks
    ensures Enabled(s, PutSentinel(id)) && start.entered <= s.entered
    ensures Do(s, PutSentinel(id)).lastError == s.lastError && Do(s, PutSentinel(id)).phase == s.phase
    ensures var t := Do(s, PutSentinel(id)); id in t.marks && t.marks[id] == |s.entered|
  {
    DoQueueSentinel(s, id);
    hide Do, Enabled;
  }

  lemma StuckPhase(s: State, t: State)
    requires Stuck(s, t)
    ensures (t.phase.Preparing? || t.phase.Sending?) && t.phase.next == s.phase.next
  {
  }

  lemma BatchDone(start: State, s: State, flags: seq<bool>)
    requires Through(start, s, flags) && s.done == |s.batch| && s.phase.Choosing? && Shaped(s)
    ensures Enabled(s, Choose) && Again(s, Choose) == 0
    ensures Published(start, Do(s, Choose), flags)
    ensures Do(s, Choose).phase == Following(s.phase.next) && Do(s, Choose).queue == s.queue
  {
    DoFinishBatch(s);
    assert start.batch[..s.done] == start.batch;
    hide Do, Enabled, Fates, Picked;
  }

  /** What became of a batch: keys counted again when encoding raised, and when a hook crashed. */
  datatype Tally = Tally(flags: seq<bool>, raised: nat, crashed: bool, settled: nat, skipped: nat)

  /** A run from a fresh publisher to `s`, and the number of keys it counted again. */
  ghost predicate Recorded(states: seq<State>, steps: seq<Step>, again: nat, s: State) {
    && IsRun(states, steps) && Init(states[0]) && states[|steps|] == s
    && again == AgainIn(states, steps, |steps|)
  }

  lemma RecordedMore(states: seq<State>, steps: seq<Step>, again: nat, s: State, step: Step)
    requires Recorded(states, steps, again, s) && Enabled(s, step)
    ensures Recorded(states + [Do(s, step)], steps + [step], again + Again(s, step), Do(s, step))
  {
    hide Enabled, Do, Again, Init;
    AgainMore(states, steps, step);
  }
}
