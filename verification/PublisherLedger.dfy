/** The account of every key, in every interleaving of writers, flushes, worker and disconnect. */
module PublisherLedger {
  import opened PublisherSteps


  // ---------------------------------------------------------------------------
  // Logs and chunks
  // ---------------------------------------------------------------------------

  lemma {:induction false} KeysConcat(a: seq<Item>, b: seq<Item>)
    ensures Keys(a + b) == Keys(a) + Keys(b)
  {
    if a == [] {
      assert a + b == b && Keys(a) + Keys(b) == Keys(b);
    } else {
      assert (a + b)[1..] == a[1..] + b && (a + b)[0] == a[0];
      KeysConcat(a[1..], b);
      var first := if a[0].KeyItem? then [a[0].key] else [];
      assert first + (Keys(a[1..]) + Keys(b)) == (first + Keys(a[1..])) + Keys(b);
    }
  }

  lemma {:induction false} LogConcat(a: seq<Entry>, b: seq<Entry>)
    ensures SentOf(a + b) == SentOf(a) + SentOf(b)
    ensures Drops(a + b) == Drops(a) + Drops(b)
  {
    if b == [] {
      assert a + b == a && SentOf(a) + SentOf(b) == SentOf(a);
    } else {
      var n := |b| - 1;
      assert (a + b)[..|a| + n] == a + b[..n] && (a + b)[|a| + n] == b[n];
      LogConcat(a, b[..n]);
      var last := if b[n].sent then [b[n].key] else [];
      assert SentOf(a) + (SentOf(b[..n]) + last) == (SentOf(a) + SentOf(b[..n])) + last;
    }
  }

  lemma {:induction false} LogCounts(log: seq<Entry>)
    ensures |SentOf(log)| + Drops(log) == |log|
  {
    if log != [] {
      LogCounts(log[..|log| - 1]);
    }
  }

  /** A chunk's fates: the picked keys are sent, the skipped ones dropped. */
  lemma {:induction false} FatesCount(chunk: seq<Key>, flags: seq<bool>)
    requires |flags| == |chunk|
    ensures SentOf(Fates(chunk, flags)) == Picked(chunk, flags)
    ensures Drops(Fates(chunk, flags)) == Skips(flags)
    ensures |Picked(chunk, flags)| + Skips(flags) == |chunk|
  {
    if chunk != [] {
      var n := |chunk| - 1;
      assert Fates(chunk, flags)[..n] == Fates(chunk[..n], flags[..n]);
      FatesCount(chunk[..n], flags[..n]);
      PickedWithin(chunk, flags[..n], n);
    }
  }

  lemma {:induction false} PickedWithin(chunk: seq<Key>, flags: seq<bool>, n: nat)
    requires |flags| <= n <= |chunk|
    ensures Picked(chunk[..n], flags) == Picked(chunk, flags)
  {
    if flags != [] {
      PickedWithin(chunk, flags[..|flags| - 1], n);
    }
  }

  lemma {:induction false} NeverCount(chunk: seq<Key>, n: nat)
    requires n == |chunk|
    ensures Picked(chunk, Never(n)) == [] && Skips(Never(n)) == n
  {
    if n != 0 {
      assert Never(n)[..n - 1] == Never(n - 1);
      NeverCount(chunk[..n - 1], n - 1);
      PickedWithin(chunk, Never(n - 1), n - 1);
    }
  }

  lemma {:induction false} SkipsWithin(flags: seq<bool>)
    ensures Skips(flags) <= |flags|
  {
    if flags != [] {
      SkipsWithin(flags[..|flags| - 1]);
    }
  }

  lemma SkipsMore(flags: seq<bool>, ok: bool)
    ensures Skips(flags + [ok]) == Skips(flags) + (if ok then 0 else 1)
  {
    assert (flags + [ok])[..|flags|] == flags;
  }

  lemma {:induction false} HeldUpdate(writers: seq<Writer>, w: nat, writer: Writer)
    requires w < |writers|
    ensures Held(writers[w := writer]) == Held(writers) - Remaining(writers[w]) + Remaining(writer)
  {
    var n := |writers| - 1;
    var after := writers[w := writer];
    if w == n {
      assert after[..n] == writers[..n];
    } else {
      HeldUpdate(writers[..n], w, writer);
      assert after[..n] == writers[..n][w := writer];
    }
  }

  lemma HeldMore(writers: seq<Writer>, writer: Writer)
    ensures Held(writers + [writer]) == Held(writers) + Remaining(writer)
  {
    assert (writers + [writer])[..|writers|] == writers;
  }

  // ---------------------------------------------------------------------------
  // What every step keeps
  // ---------------------------------------------------------------------------

  function EntryKeys(log: seq<Entry>): (keys: seq<Key>)
    ensures |keys| == |log| && forall i :: 0 <= i < |log| ==> keys[i] == log[i].key
  {
    seq(|log|, i requires 0 <= i < |log| => log[i].key)
  }

  /** A sentinel in the queue stands behind exactly the keys that entered before it. */
  ghost predicate Marked(q: seq<Item>, marks: map<nat, nat>, entered: nat) {
    forall i :: 0 <= i < |q| && q[i].Sentinel? ==> q[i].id in marks && marks[q[i].id] + |Keys(q[i..])| == entered
  }

  predicate Due(phase: Phase, id: nat) {
    || phase == Signalling(id)
    || ((phase.Choosing? || phase.Preparing? || phase.Sending?) && phase.next == Signal(id))
  }

  predicate NoneDue(phase: Phase) {
    !phase.Signalling? && ((phase.Choosing? || phase.Preparing? || phase.Sending?) ==> !phase.next.Signal?)
  }

  /** Where a sentinel that was put may be: set, due, or still in the queue. */
  ghost predicate Somewhere(q: seq<Item>, signalled: set<nat>, phase: Phase, id: nat) {
    id in signalled || Due(phase, id) || Sentinel(id) in q
  }

  /** A sentinel is set once `settled` keys cover those before it, and due when exactly `reached` keys do. */
  ghost predicate Kept(q: seq<Item>, marks: map<nat, nat>, entered: nat, signalled: set<nat>,
                          phase: Phase, settled: nat, reached: nat) {
    && Marked(q, marks, entered)
    && (forall id :: id in signalled ==> id in marks && marks[id] <= settled)
    && (forall id :: Due(phase, id) ==> id in marks && marks[id] == reached)
    && (forall id :: id in marks ==> Somewhere(q, signalled, phase, id))
  }

  /** The worker's fields fit its phase. */
  predicate Shaped(s: State) {
    && s.done <= |s.batch|
    && (s.phase.Idle? || s.phase.Signalling? || s.phase.Exited? ==> s.batch == [])
    && (s.phase.Draining? ==> s.done == 0)
    && (s.phase.Preparing? || s.phase.Sending? ==> InChunk(s) && s.phase.m > 0)
    && (s.phase.Sending? ==> |s.phase.flags| == s.phase.m)
    && (!s.phase.Exited? ==> s.left == 0)
  }

  /** What was queued is settled, in hand, or queued still, in that order; what was sent was settled so. */
  ghost predicate InOrder(s: State) {
    s.done <= |s.batch| && Lined(s.entered, s.log, Unsettled(s), Keys(s.queue), s.sent)
  }

  ghost predicate Lined(entered: seq<Key>, log: seq<Entry>, hand: seq<Key>, queued: seq<Key>, sent: seq<Key>) {
    entered == EntryKeys(log) + hand + queued && sent == SentOf(log)
  }

  ghost predicate SentinelsKept(s: State) {
    && s.done <= |s.batch|
    && Kept(s.queue, s.marks, |s.entered|, s.signalled, s.phase, |s.log|, |s.log| + |s.batch| - s.done)
  }

  ghost predicate Inv(s: State) {
    Shaped(s) && InOrder(s) && SentinelsKept(s)
  }

  /** Keys of the chunk in hand that were counted when they could not be encoded. */
  function Ahead(s: State): nat {
    if s.phase.Preparing? || s.phase.Sending? then Skips(s.phase.flags) else 0
  }

  /** Keys the worker, or a disconnect, has in hand: neither sent nor counted. */
  function InHand(s: State): int {
    |s.batch| - s.done - Ahead(s) + s.left
  }

  /** By how much the counters exceed the keys notified. */
  function Balance(s: State): int {
    |s.sent| + s.dropped + |Keys(s.queue)| + InHand(s) + Held(s.writers) - s.notified
  }

  /** Every key notified is sent, counted as dropped, queued, in hand, or still with its writer: once. */
  predicate Conserved(s: State) {
    s.notified == |s.sent| + s.dropped + |Keys(s.queue)| + InHand(s) + Held(s.writers)
  }

  /** Keys a step counts that were sent or counted before. */
  function Again(s: State, step: Step): nat {
    if step.PrepareRaises? then Ahead(s) else if step.Crash? then s.done + Ahead(s) else 0
  }

  /**
   When that happens: an encode that raises after it skipped a key, or what is no `Exception` after a
   key of the batch was settled or skipped.
   */
  predicate CountsAgain(s: State, step: Step) {
    || (step.PrepareRaises? && SkippedOne(s))
    || (step.Crash? && (s.done > 0 || SkippedOne(s)))
  }

  predicate SkippedOne(s: State) {
    (s.phase.Preparing? || s.phase.Sending?) && false in s.phase.flags
  }

  lemma {:induction false} SkipsSome(flags: seq<bool>)
    ensures Skips(flags) > 0 <==> false in flags
  {
    if flags != [] {
      var n := |flags| - 1;
      SkipsSome(flags[..n]);
      assert flags == flags[..n] + [flags[n]];
    }
  }

  lemma AgainIff(s: State, step: Step)
    ensures Again(s, step) > 0 <==> CountsAgain(s, step)
  {
    if s.phase.Preparing? || s.phase.Sending? {
      SkipsSome(s.phase.flags);
    }
  }

  // ---------------------------------------------------------------------------
  // Which fields a step leaves alone
  // ---------------------------------------------------------------------------

  /** Steps that may settle a chunk. */
  predicate IsSettling(step: Step) {
    step.PrepareRaises? || step.Prepared? || step.SendOk? || step.SendFails? || step.Crash?
  }

  /** Steps of the worker, or of the disconnect that takes over from it. */
  predicate IsWorkers(step: Step) {
    || IsSettling(step) || step.Take? || step.SeesEmpty? || step.Choose? || step.Encode? || step.SetSentinel?
        || step.ExitIdle?
    || step.PopLeftover? || step.RecordLeftovers?
  }

  /** Steps of the worker that neither take an item nor settle a chunk. */
  predicate IsInner(step: Step) {
    step.SeesEmpty? || step.Choose? || step.Encode? || step.SetSentinel? || step.ExitIdle? || step.RecordLeftovers?
  }

  /** Nothing about writers, queue and history of puts has changed. */
  predicate SamePuts(s: State, t: State) {
    && t.maxsize == s.maxsize && t.maxCall == s.maxCall && t.queue == s.queue && t.writers == s.writers
    && t.notified == s.notified && t.refused == s.refused && t.entered == s.entered && t.marks == s.marks
  }

  /** A chunk may have been settled: as many keys moved to the log as left the hand. */
  ghost predicate Moved(s: State, t: State) {
    && SamePuts(s, t) && t.batch == s.batch && t.left == s.left && t.signalled == s.signalled
      && t.stopping == s.stopping
    && s.done <= t.done <= |s.batch| && |t.log| - |s.log| == t.done - s.done && s.log <= t.log && s.sent <= t.sent
    && (t.phase.Choosing? || (t.phase.Sending? && t.done == s.done && t.log == s.log && InChunk(s)
                              && t.phase.m == s.phase.m && t.phase.flags == s.phase.flags
                                && |s.phase.flags| == s.phase.m))
    && (s.phase.Preparing? || s.phase.Sending?) && t.phase.next == s.phase.next
  }

  /** No key moved. */
  predicate Stayed(s: State, t: State) {
    && SamePuts(s, t) && t.log == s.log && t.sent == s.sent && s.signalled <= t.signalled
    && s.done <= |s.batch| && t.done <= |t.batch| && t.batch[t.done..] == s.batch[s.done..]
  }

  lemma SettlingMoves(s: State, step: Step)
    requires Enabled(s, step) && IsSettling(step)
    ensures Moved(s, Do(s, step))
  {
    hide Picked, Skips, Fates, Never;
    if step.Prepared? {
      ReadyMoves(s);
    }
  }

  lemma ReadyMoves(s: State)
    requires s.phase.Preparing? && InChunk(s) && |s.phase.flags| == s.phase.m
    ensures Moved(s, Ready(s))
  {
    hide Picked, Skips, Fates, Never;
  }

  lemma ChooseStays(s: State, step: Step)
    requires Enabled(s, step) && step.Choose?
    ensures Stayed(s, Do(s, step)) && (Shaped(s) ==> Shaped(Do(s, step)))
  {
    if s.done == |s.batch| {
      assert s.batch[s.done..] == [];
    }
  }

  lemma EncodeStays(s: State, step: Step)
    requires Enabled(s, step) && step.Encode?
    ensures Stayed(s, Do(s, step)) && (Shaped(s) ==> Shaped(Do(s, step)))
  {
  }

  lemma QuietStays(s: State, step: Step)
    requires Shaped(s) && Enabled(s, step)
    requires step.SeesEmpty? || step.SetSentinel? || step.ExitIdle? || step.RecordLeftovers?
    ensures Stayed(s, Do(s, step)) && Shaped(Do(s, step))
  {
  }

  lemma InnerStays(s: State, step: Step)
    requires Shaped(s) && Enabled(s, step) && IsInner(step)
    ensures Stayed(s, Do(s, step)) && Shaped(Do(s, step))
  {
    hide Enabled, Do, Shaped, Stayed;
    if step.Choose? {
      ChooseStays(s, step);
    } else if step.Encode? {
      EncodeStays(s, step);
    } else {
      QuietStays(s, step);
    }
  }

  // ---------------------------------------------------------------------------
  // Balance
  // ---------------------------------------------------------------------------

  lemma ChunkCounts(s: State)
    requires InChunk(s) && |s.phase.flags| == s.phase.m
    ensures |Picked(Chunk(s), s.phase.flags)| + Skips(s.phase.flags) == s.phase.m
  {
    FatesCount(Chunk(s), s.phase.flags);
  }

  lemma QueueMore(q: seq<Item>, item: Item)
    ensures Keys(q + [item]) == Keys(q) + KeyOf(item)
  {
    KeysConcat(q, [item]);
    assert Keys([item]) == KeyOf(item) + Keys([item][1..]);
  }

  function KeyOf(item: Item): seq<Key> {
    if item.KeyItem? then [item.key] else []
  }

  lemma QueueLess(q: seq<Item>)
    requires q != []
    ensures Keys(q) == KeyOf(q[0]) + Keys(q[1..])
  {
  }

  /** No step loses a key, and only a repeated count adds one: the balance moves by exactly that. */
  lemma StepBalance(s: State, step: Step)
    requires Shaped(s) && Enabled(s, step)
    ensures Balance(Do(s, step)) == Balance(s) + Again(s, step)
  {
    hide Enabled, Do, Balance, Again, Shaped;
    if IsWriters(step) {
      WriterBalance(s, step);
    } else if step.PutSentinel? || step.PutMarker? {
      PutBalance(s, step);
    } else if step.Take? {
      TakeBalance(s, step);
    } else if step.PopLeftover? {
      PopBalance(s, step);
    } else if step.Prepared? || step.SendOk? || step.SendFails? {
      ChunkBalance(s, step);
    } else if step.Encode? || step.PrepareRaises? || step.Crash? {
      HookBalance(s, step);
    } else if step.Choose? {
      ChooseBalance(s, step);
    } else if step.RecordLeftovers? {
      RecordBalance(s, step);
    } else {
      QuietBalance(s, step);
    }
  }

  predicate IsWriters(step: Step) {
    step.Begin? || step.Put? || step.SeesFull? || step.GiveUp?
  }

  lemma WriterBalance(s: State, step: Step)
    requires Enabled(s, step) && IsWriters(step)
    ensures Balance(Do(s, step)) == Balance(s) && Again(s, step) == 0
  {
    hide Keys, Held, Skips;
    if step.Begin? {
      HeldMore(s.writers, Writer(step.keys, 0, false, false));
    } else {
      var writer := s.writers[step.w];
      if step.Put? {
        QueueMore(s.queue, KeyItem(writer.keys[writer.placed]));
        HeldUpdate(s.writers, step.w, writer.(placed := writer.placed + 1, sawFull := false));
      } else if step.GiveUp? {
        HeldUpdate(s.writers, step.w, writer.(gaveUp := true));
      } else {
        HeldUpdate(s.writers, step.w, writer.(sawFull := true));
      }
    }
  }

  lemma PutBalance(s: State, step: Step)
    requires Enabled(s, step) && (step.PutSentinel? || step.PutMarker?)
    ensures Balance(Do(s, step)) == Balance(s) && Again(s, step) == 0
  {
    hide Keys, Held, Skips;
    QueueMore(s.queue, if step.PutSentinel? then Sentinel(step.id) else StopMarker);
  }

  lemma TakenParts(s: State)
    requires s.queue != []
    ensures var t := Taken(s);
            && t == s.(queue := s.queue[1..], batch := s.batch + KeyOf(s.queue[0]), phase := t.phase)
            && !t.phase.Preparing? && !t.phase.Sending? && !t.phase.Idle? && !t.phase.Signalling? && !t.phase.Exited?
            && (t.phase.Draining? <==> s.queue[0].KeyItem?)
  {
    assert s.batch + [] == s.batch;
  }

  lemma PoppedParts(s: State)
    requires s.queue != []
    ensures var t, first := Popped(s), KeyOf(s.queue[0]);
            t == s.(queue := s.queue[1..], left := s.left + |first|, log := s.log + Lost(first),
                signalled := t.signalled)
  {
    assert s.log + [] == s.log;
    var first := KeyOf(s.queue[0]);
    assert Lost(first) == if s.queue[0].KeyItem? then [Entry(s.queue[0].key, false)] else [];
  }

  lemma TakeBalance(s: State, step: Step)
    requires Shaped(s) && Enabled(s, step) && step.Take?
    ensures Balance(Do(s, step)) == Balance(s) && Again(s, step) == 0
  {
    QueueLess(s.queue);
    TakenParts(s);
    hide Taken, Keys, Held, Skips, KeyOf, InChunk;
  }

  lemma PopBalance(s: State, step: Step)
    requires Shaped(s) && Enabled(s, step) && step.PopLeftover?
    ensures Balance(Do(s, step)) == Balance(s) && Again(s, step) == 0
  {
    QueueLess(s.queue);
    PoppedParts(s);
    hide Popped, Keys, Held, Skips, KeyOf, InChunk;
  }

  lemma ChosenParts(s: State)
    requires s.phase.Choosing? && s.done <= |s.batch|
    ensures var t := Chosen(s);
            && t == s.(phase := t.phase, batch := t.batch, done := t.done)
            && |t.batch| - t.done == |s.batch| - s.done && Ahead(t) == 0
  {
    assert Skips([]) == 0;
    hide ChunkSize;
  }

  lemma ChooseBalance(s: State, step: Step)
    requires Shaped(s) && Enabled(s, step) && step.Choose?
    ensures Balance(Do(s, step)) == Balance(s) && Again(s, step) == 0
  {
    ChosenParts(s);
    hide Keys, Held, Skips, Chosen;
  }

  lemma RecordBalance(s: State, step: Step)
    requires Shaped(s) && Enabled(s, step) && step.RecordLeftovers?
    ensures Balance(Do(s, step)) == Balance(s) && Again(s, step) == 0
  {
    hide Keys, Held, Skips;
  }

  lemma QuietBalance(s: State, step: Step)
    requires Shaped(s) && Enabled(s, step)
    requires step.Offline? || step.RaiseError? || step.SetStop? || step.SeesEmpty? || step.SetSentinel?
          || step.ExitIdle?
    ensures Balance(Do(s, step)) == Balance(s) && Again(s, step) == 0
  {
    hide Keys, Held, Skips;
  }

  lemma ChunkBalance(s: State, step: Step)
    requires Shaped(s) && Enabled(s, step) && (step.Prepared? || step.SendOk? || step.SendFails?)
    ensures Balance(Do(s, step)) == Balance(s) && Again(s, step) == 0
  {
    hide Keys, Held, Picked, Skips;
    ChunkCounts(s);
  }

  lemma HookBalance(s: State, step: Step)
    requires Shaped(s) && Enabled(s, step) && (step.Encode? || step.PrepareRaises? || step.Crash?)
    ensures Balance(Do(s, step)) == Balance(s) + Again(s, step)
  {
    hide Keys, Held, Skips;
    if step.Encode? {
      SkipsMore(s.phase.flags, step.ok);
    }
  }

  // ---------------------------------------------------------------------------
  // Shape and order
  // ---------------------------------------------------------------------------

  lemma StepShaped(s: State, step: Step)
    requires Shaped(s) && Enabled(s, step)
    ensures Shaped(Do(s, step))
  {
    hide Enabled, Do, Shaped;
    if IsSettling(step) {
      SettleShaped(s, step);
    } else if IsWorkers(step) {
      WorkerShaped(s, step);
    } else {
      OthersShaped(s, step);
    }
  }

  lemma SettleShaped(s: State, step: Step)
    requires Shaped(s) && Enabled(s, step) && IsSettling(step)
    ensures Shaped(Do(s, step))
  {
    SettlingMoves(s, step);
    hide Do, Enabled;
  }

  lemma WorkerShaped(s: State, step: Step)
    requires Shaped(s) && Enabled(s, step) && IsWorkers(step) && !IsSettling(step)
    ensures Shaped(Do(s, step))
  {
    if step.Take? {
      TakenParts(s);
      hide Taken, KeyOf;
    } else if step.PopLeftover? {
      PoppedParts(s);
      hide Popped, KeyOf;
    } else {
      InnerStays(s, step);
    }
  }

  lemma OthersShaped(s: State, step: Step)
    requires Shaped(s) && Enabled(s, step) && !IsWorkers(step)
    ensures Shaped(Do(s, step))
  {
  }

  lemma LinedPut(entered: seq<Key>, log: seq<Entry>, hand: seq<Key>, queued: seq<Key>, sent: seq<Key>, more: seq<Key>)
    requires Lined(entered, log, hand, queued, sent)
    ensures Lined(entered + more, log, hand, queued + more, sent)
  {
    hide SentOf, EntryKeys;
    assert EntryKeys(log) + hand + (queued + more) == (EntryKeys(log) + hand + queued) + more;
  }

  lemma LinedTake(entered: seq<Key>, log: seq<Entry>, hand: seq<Key>, first: seq<Key>, queued: seq<Key>, sent: seq<Key>)
    requires Lined(entered, log, hand, first + queued, sent)
    ensures Lined(entered, log, hand + first, queued, sent)
  {
    hide SentOf, EntryKeys;
    assert EntryKeys(log) + hand + (first + queued) == EntryKeys(log) + (hand + first) + queued;
  }

  /** Settling keys moves them, in their order, from the hand to the log. */
  lemma LinedSettle(entered: seq<Key>, log: seq<Entry>, entries: seq<Entry>, hand: seq<Key>, queued: seq<Key>,
                    sent: seq<Key>)
    requires Lined(entered, log, EntryKeys(entries) + hand, queued, sent)
    ensures Lined(entered, log + entries, hand, queued, sent + SentOf(entries)) && log <= log + entries
  {
    LogConcat(log, entries);
    KeysOfBoth(log, entries);
    hide SentOf, EntryKeys, Drops;
    Regroup(EntryKeys(log), EntryKeys(entries), hand, queued);
  }

  lemma KeysOfBoth(a: seq<Entry>, b: seq<Entry>)
    ensures EntryKeys(a + b) == EntryKeys(a) + EntryKeys(b)
  {
  }

  lemma Regroup(a: seq<Key>, b: seq<Key>, c: seq<Key>, d: seq<Key>)
    ensures a + (b + c) + d == (a + b) + c + d
  {
  }

  /** The keys at the head of the hand get their fates. */
  lemma FatesSettle(entered: seq<Key>, log: seq<Entry>, hand: seq<Key>, queued: seq<Key>, sent: seq<Key>, n: nat,
                    flags: seq<bool>)
    requires |flags| == n <= |hand| && Lined(entered, log, hand, queued, sent)
    ensures Lined(entered, log + Fates(hand[..n], flags), hand[n..], queued, sent + Picked(hand[..n], flags))
  {
    var entries := Fates(hand[..n], flags);
    FatesCount(hand[..n], flags);
    assert EntryKeys(entries) + hand[n..] == hand;
    hide Lined, SentOf, Picked;
    LinedSettle(entered, log, entries, hand[n..], queued, sent);
  }

  lemma LossSettles(entered: seq<Key>, log: seq<Entry>, hand: seq<Key>, queued: seq<Key>, sent: seq<Key>, n: nat)
    requires n <= |hand| && Lined(entered, log, hand, queued, sent)
    ensures Lined(entered, log + Lost(hand[..n]), hand[n..], queued, sent)
  {
    NeverCount(hand[..n], n);
    assert sent + [] == sent;
    hide Lined, SentOf, Picked;
    FatesSettle(entered, log, hand, queued, sent, n, Never(n));
  }

  /** Every step keeps the order. */
  lemma StepOrder(s: State, step: Step)
    requires Shaped(s) && InOrder(s) && Enabled(s, step)
    ensures InOrder(Do(s, step))
  {
    hide Enabled, Do, Shaped, InOrder;
    if step.Put? || step.PutSentinel? || step.PutMarker? {
      PutOrder(s, step);
    } else if step.Take? {
      TakeOrder(s, step);
    } else if step.PopLeftover? {
      PopOrder(s, step);
    } else if step.SendOk? {
      SendOrder(s, step);
    } else if step.Crash? {
      CrashOrder(s, step);
    } else if IsSettling(step) {
      LossOrder(s, step);
    } else if IsWorkers(step) {
      WorkerOrder(s, step);
    } else {
      OthersOrder(s, step);
    }
  }

  lemma WorkerOrder(s: State, step: Step)
    requires Shaped(s) && InOrder(s) && Enabled(s, step) && IsWorkers(step)
    requires !IsSettling(step) && !step.Take? && !step.PopLeftover?
    ensures InOrder(Do(s, step))
  {
    InnerStays(s, step);
    hide Keys, Lined, Do, Enabled;
  }

  lemma OthersOrder(s: State, step: Step)
    requires InOrder(s) && Enabled(s, step) && !IsWorkers(step)
    requires !step.Put? && !step.PutSentinel? && !step.PutMarker?
    ensures InOrder(Do(s, step))
  {
    hide Keys, Lined;
  }

  function ItemOf(s: State, step: Step): Item
    requires Enabled(s, step) && (step.Put? || step.PutSentinel? || step.PutMarker?)
  {
    if step.Put? then KeyItem(s.writers[step.w].keys[s.writers[step.w].placed])
    else if step.PutSentinel? then Sentinel(step.id) else StopMarker
  }

  lemma PutOrder(s: State, step: Step)
    requires InOrder(s) && Enabled(s, step) && (step.Put? || step.PutSentinel? || step.PutMarker?)
    ensures InOrder(Do(s, step))
  {
    var item := ItemOf(s, step);
    QueueMore(s.queue, item);
    LinedPut(s.entered, s.log, Unsettled(s), Keys(s.queue), s.sent, KeyOf(item));
    hide Keys, Lined;
    assert s.entered + [] == s.entered;
  }

  lemma TakeOrder(s: State, step: Step)
    requires Shaped(s) && InOrder(s) && Enabled(s, step) && step.Take?
    ensures InOrder(Do(s, step))
  {
    QueueLess(s.queue);
    TakenParts(s);
    hide Taken, Keys, Lined, KeyOf;
    LinedTake(s.entered, s.log, Unsettled(s), KeyOf(s.queue[0]), Keys(s.queue[1..]), s.sent);
    assert Unsettled(Taken(s)) == Unsettled(s) + KeyOf(s.queue[0]);
  }

  lemma PopOrder(s: State, step: Step)
    requires Shaped(s) && InOrder(s) && Enabled(s, step) && step.PopLeftover?
    ensures InOrder(Do(s, step))
  {
    assert Do(s, step) == Popped(s) && s.batch == [];
    hide Do, Enabled, Shaped, InOrder, Popped;
    PoppedOrder(s);
  }

  lemma PoppedOrder(s: State)
    requires InOrder(s) && s.queue != [] && s.batch == []
    ensures InOrder(Popped(s))
  {
    QueueLess(s.queue);
    PoppedParts(s);
    assert Unsettled(s) == [] && Unsettled(Popped(s)) == [];
    hide Lined, Popped, Keys, KeyOf, Lost, Unsettled;
    LinedPop(s.entered, s.log, KeyOf(s.queue[0]), Keys(s.queue[1..]), s.sent);
  }

  lemma LinedPop(entered: seq<Key>, log: seq<Entry>, first: seq<Key>, rest: seq<Key>, sent: seq<Key>)
    ensures Lined(entered, log, [], first + rest, sent) ==> Lined(entered, log + Lost(first), [], rest, sent)
  {
    if Lined(entered, log, [], first + rest, sent) {
      LinedTake(entered, log, [], first, rest, sent);
      assert [] + first == first && first[..|first|] == first && first[|first|..] == [];
      hide Lined;
      LossSettles(entered, log, first, rest, sent, |first|);
    }
  }

  lemma SendOrder(s: State, step: Step)
    requires Shaped(s) && InOrder(s) && Enabled(s, step) && step.SendOk?
    ensures InOrder(Do(s, step))
  {
    hide Lined, Keys, Picked;
    HandSplits(s);
    FatesSettle(s.entered, s.log, Unsettled(s), Keys(s.queue), s.sent, s.phase.m, s.phase.flags);
  }

  lemma CrashOrder(s: State, step: Step)
    requires Shaped(s) && InOrder(s) && Enabled(s, step) && step.Crash?
    ensures InOrder(Do(s, step))
  {
    hide Lined, Keys;
    var hand := Unsettled(s);
    assert hand[..|hand|] == hand && hand[|hand|..] == s.batch[|s.batch|..];
    LossSettles(s.entered, s.log, hand, Keys(s.queue), s.sent, |hand|);
  }

  lemma LossOrder(s: State, step: Step)
    requires Shaped(s) && InOrder(s) && Enabled(s, step) && (step.PrepareRaises? || step.SendFails? || step.Prepared?)
    ensures InOrder(Do(s, step))
  {
    hide Lined, Keys, Picked;
    HandSplits(s);
    LossSettles(s.entered, s.log, Unsettled(s), Keys(s.queue), s.sent, s.phase.m);
  }

  lemma HandSplits(s: State)
    requires InChunk(s)
    ensures Unsettled(s)[..s.phase.m] == Chunk(s) && Unsettled(s)[s.phase.m..] == s.batch[s.done + s.phase.m..]
  {
  }

  // ---------------------------------------------------------------------------
  // Sentinels
  // ---------------------------------------------------------------------------

  /** Items put at the end of the queue leave every sentinel behind the same keys. */
  lemma MarksGrow(q: seq<Item>, marks: map<nat, nat>, n: nat, item: Item)
    requires Marked(q, marks, n)
    ensures !item.Sentinel? ==> Marked(q + [item], marks, n + |KeyOf(item)|)
    ensures item.Sentinel? && item.id !in marks ==> Marked(q + [item], marks[item.id := n], n)
  {
    hide Keys, KeyOf;
    var more := q + [item];
    forall i | 0 <= i < |q| && q[i].Sentinel?
      ensures |Keys(more[i..])| == |Keys(q[i..])| + |KeyOf(item)| && more[i] == q[i]
    {
      assert more[i..] == q[i..] + [item];
      QueueMore(q[i..], item);
    }
    LastAlone(q, item);
  }

  lemma LastAlone(q: seq<Item>, item: Item)
    ensures Keys((q + [item])[|q|..]) == KeyOf(item) && (item.Sentinel? ==> KeyOf(item) == [])
  {
    assert (q + [item])[|q|..] == [item];
    assert Keys([item]) == KeyOf(item) + Keys([item][1..]);
  }

  /** Taking the first item leaves the others behind the same keys. */
  lemma MarksShrink(q: seq<Item>, marks: map<nat, nat>, n: nat)
    requires q != [] && Marked(q, marks, n)
    ensures Marked(q[1..], marks, n)
    ensures q[0].Sentinel? ==> q[0].id in marks && marks[q[0].id] + |Keys(q)| == n
  {
    assert q[0..] == q;
    forall i | 0 <= i < |q| - 1 ensures q[1..][i..] == q[i + 1..] && q[1..][i] == q[i + 1] {
    }
  }

  lemma SentinelFirst(q: seq<Item>)
    requires q != []
    ensures forall id :: Sentinel(id) in q <==> q[0] == Sentinel(id) || Sentinel(id) in q[1..]
  {
    assert q == [q[0]] + q[1..];
  }

  lemma SentinelLast(q: seq<Item>, item: Item)
    ensures forall id :: Sentinel(id) in q + [item] <==> Sentinel(id) in q || item == Sentinel(id)
  {
  }

  lemma KeptPut(q: seq<Item>, marks: map<nat, nat>, n: nat, signalled: set<nat>, phase: Phase, settled: nat,
                reached: nat,
                item: Item)
    requires Kept(q, marks, n, signalled, phase, settled, reached)
    ensures !item.Sentinel? ==> Kept(q + [item], marks, n + |KeyOf(item)|, signalled, phase, settled, reached)
    ensures item.Sentinel? && item.id !in marks ==>
              Kept(q + [item], marks[item.id := n], n, signalled, phase, settled, reached)
  {
    if item.Sentinel? {
      if item.id !in marks {
        KeptPutSentinel(q, marks, n, signalled, phase, settled, reached, item.id);
      }
    } else {
      MarksGrow(q, marks, n, item);
      SomewhereStill(q, item, signalled, phase);
      hide Marked, Keys, KeyOf, Somewhere, Due;
    }
  }

  lemma KeptPutSentinel(q: seq<Item>, marks: map<nat, nat>, n: nat, signalled: set<nat>, phase: Phase, settled: nat,
                        reached: nat, id: nat)
    requires Kept(q, marks, n, signalled, phase, settled, reached) && id !in marks
    ensures Kept(q + [Sentinel(id)], marks[id := n], n, signalled, phase, settled, reached)
  {
    MarksGrow(q, marks, n, Sentinel(id));
    SomewhereStill(q, Sentinel(id), signalled, phase);
    hide Marked, Keys, KeyOf, Somewhere, Due;
  }

  lemma SomewhereStill(q: seq<Item>, item: Item, signalled: set<nat>, phase: Phase)
    ensures forall id :: Somewhere(q, signalled, phase, id) ==> Somewhere(q + [item], signalled, phase, id)
    ensures item.Sentinel? ==> Somewhere(q + [item], signalled, phase, item.id)
  {
    SentinelLast(q, item);
  }

  lemma KeptTakeAll(q: seq<Item>, marks: map<nat, nat>, signalled: set<nat>, phase: Phase, after: Phase)
    requires q != [] && forall id :: id in marks ==> Somewhere(q, signalled, phase, id)
    requires NoneDue(phase) && forall id :: Due(after, id) <==> q[0] == Sentinel(id)
    ensures forall id :: id in marks ==> Somewhere(q[1..], signalled, after, id)
  {
    SentinelFirst(q);
    forall id | id in marks ensures Somewhere(q[1..], signalled, after, id) {
      assert Somewhere(q, signalled, phase, id);
    }
  }

  /** The first item is taken: a sentinel is due once the keys taken so far are settled. */
  lemma KeptTake(q: seq<Item>, marks: map<nat, nat>, n: nat, signalled: set<nat>, phase: Phase, settled: nat,
                 reached: nat,
                    after: Phase)
    requires Kept(q, marks, n, signalled, phase, settled, reached) && q != [] && reached + |Keys(q)| == n
    requires NoneDue(phase) && forall id :: Due(after, id) <==> q[0] == Sentinel(id)
    ensures Kept(q[1..], marks, n, signalled, after, settled, reached + |KeyOf(q[0])|)
  {
    hide Marked, Keys, Somewhere, Due, NoneDue;
    MarksShrink(q, marks, n);
    KeptTakeAll(q, marks, signalled, phase, after);
  }

  /** The sentinel that is due is set. */
  lemma KeptSet(q: seq<Item>, marks: map<nat, nat>, n: nat, signalled: set<nat>, phase: Phase, settled: nat,
                reached: nat,
                   id: nat, after: Phase)
    requires Kept(q, marks, n, signalled, phase, settled, reached) && Due(phase, id) && reached <= settled
    requires forall x :: !Due(after, x) && (Due(phase, x) ==> x == id)
    ensures Kept(q, marks, n, signalled + {id}, after, settled, reached)
  {
    hide Marked;
    forall x | x in marks ensures Somewhere(q, signalled + {id}, after, x) {
      assert Somewhere(q, signalled, phase, x);
    }
  }

  lemma KeptSettle(q: seq<Item>, marks: map<nat, nat>, n: nat, signalled: set<nat>, phase: Phase, settled: nat,
                   reached: nat,
                      after: Phase, more: nat)
    requires Kept(q, marks, n, signalled, phase, settled, reached) && settled <= more
    requires forall id :: Due(after, id) <==> Due(phase, id)
    ensures Kept(q, marks, n, signalled, after, more, reached)
  {
    hide Marked;
    forall id | id in marks ensures Somewhere(q, signalled, after, id) {
      assert Somewhere(q, signalled, phase, id);
    }
  }

  /** Every step keeps where sentinels are and what stands before them. */
  lemma StepSentinels(s: State, step: Step)
    requires Inv(s) && Enabled(s, step)
    ensures SentinelsKept(Do(s, step))
  {
    hide Enabled, Do, Inv, SentinelsKept;
    if step.Put? || step.PutSentinel? || step.PutMarker? {
      PutSentinels(s, step);
    } else if step.Take? {
      TakeSentinels(s, step);
    } else if step.PopLeftover? {
      PopSentinels(s, step);
    } else if IsSettling(step) {
      SettleSentinels(s, step);
    } else if IsWorkers(step) {
      WorkerSentinels(s, step);
    } else {
      OthersSentinels(s, step);
    }
  }

  lemma PutSentinels(s: State, step: Step)
    requires Inv(s) && Enabled(s, step) && (step.Put? || step.PutSentinel? || step.PutMarker?)
    ensures SentinelsKept(Do(s, step))
  {
    hide Shaped, InOrder, Kept;
    KeptPut(s.queue, s.marks, |s.entered|, s.signalled, s.phase, |s.log|, |s.log| + |s.batch| - s.done,
        ItemOf(s, step));
  }

  /** Every key queued is settled, in hand, or queued still. */
  lemma Placed(s: State)
    requires InOrder(s)
    ensures |s.entered| == |s.log| + |s.batch| - s.done + |Keys(s.queue)|
  {
  }

  lemma TakeSentinels(s: State, step: Step)
    requires Inv(s) && Enabled(s, step) && step.Take?
    ensures SentinelsKept(Do(s, step))
  {
    Placed(s);
    TakenParts(s);
    var t := Taken(s);
    assert forall id :: Due(t.phase, id) <==> s.queue[0] == Sentinel(id);
    hide Taken, Kept, InOrder, KeyOf, Keys;
    KeptTake(s.queue, s.marks, |s.entered|, s.signalled, s.phase, |s.log|, |s.log| + |s.batch| - s.done, t.phase);
  }

  lemma PopSentinels(s: State, step: Step)
    requires Inv(s) && Enabled(s, step) && step.PopLeftover?
    ensures SentinelsKept(Do(s, step))
  {
    hide Marked, Keys, Somewhere, InOrder;
    Placed(s);
    PoppedParts(s);
    var item, rest := s.queue[0], s.queue[1..];
    var n, settled := |s.entered|, |s.log|;
    var due := if item.Sentinel? then Signalling(item.id) else Exited;
    hide Kept;
    KeptTake(s.queue, s.marks, n, s.signalled, Exited, settled, settled, due);
    if item.Sentinel? {
      KeptSet(rest, s.marks, n, s.signalled, due, settled, settled, item.id, Exited);
    } else {
      KeptSettle(rest, s.marks, n, s.signalled, Exited, settled, settled + |KeyOf(item)|, Exited,
          settled + |KeyOf(item)|);
    }
  }

  lemma SettleSentinels(s: State, step: Step)
    requires Inv(s) && Enabled(s, step) && IsSettling(step)
    ensures SentinelsKept(Do(s, step))
  {
    SettlingMoves(s, step);
    hide InOrder, Kept, Do, Enabled, Shaped;
    var t := Do(s, step);
    KeptSettle(s.queue, s.marks, |s.entered|, s.signalled, s.phase, |s.log|, |s.log| + |s.batch| - s.done, t.phase,
        |t.log|);
  }

  lemma InnerDue(s: State, step: Step)
    requires Enabled(s, step) && IsInner(step) && !step.SetSentinel?
    ensures forall id :: Due(Do(s, step).phase, id) <==> Due(s.phase, id)
    ensures Do(s, step).signalled == s.signalled
  {
  }

  lemma WorkerSentinels(s: State, step: Step)
    requires Inv(s) && Enabled(s, step) && IsWorkers(step)
    requires !IsSettling(step) && !step.Take? && !step.PopLeftover?
    ensures SentinelsKept(Do(s, step))
  {
    if step.SetSentinel? {
      SetSentinels(s, step);
    } else {
      InnerStays(s, step);
      InnerDue(s, step);
      hide InOrder, Kept, Do, Enabled, Shaped, IsInner, Due;
      StayedSentinels(s, Do(s, step));
    }
  }

  lemma StayedSentinels(s: State, t: State)
    requires SentinelsKept(s) && Stayed(s, t) && t.signalled == s.signalled
    requires forall id :: Due(t.phase, id) <==> Due(s.phase, id)
    ensures SentinelsKept(t)
  {
    hide Kept, Due;
    assert |t.batch[t.done..]| == |s.batch[s.done..]|;
    KeptSettle(s.queue, s.marks, |s.entered|, s.signalled, s.phase, |s.log|, |s.log| + |s.batch| - s.done, t.phase,
        |s.log|);
  }

  lemma SetSentinels(s: State, step: Step)
    requires Inv(s) && Enabled(s, step) && step.SetSentinel?
    ensures SentinelsKept(Do(s, step))
  {
    hide InOrder, Kept;
    KeptSet(s.queue, s.marks, |s.entered|, s.signalled, s.phase, |s.log|, |s.log| + |s.batch| - s.done, s.phase.id,
        Draining);
  }

  lemma OthersSentinels(s: State, step: Step)
    requires Inv(s) && Enabled(s, step) && !IsWorkers(step) && !step.Put? && !step.PutSentinel? && !step.PutMarker?
    ensures SentinelsKept(Do(s, step))
  {
    hide InOrder, Kept;
  }

  // ---------------------------------------------------------------------------
  // Whole runs
  // ---------------------------------------------------------------------------

  lemma InitKept(s: State)
    requires Init(s)
    ensures Inv(s) && Balance(s) == 0
  {
  }

  /** Every step keeps the order of keys and the place of sentinels, and moves the balance only by a repeated count. */
  lemma StepKeepsAccount(s: State, step: Step)
    requires Inv(s) && Enabled(s, step)
    ensures Inv(Do(s, step)) && Balance(Do(s, step)) == Balance(s) + Again(s, step)
  {
    hide Enabled, Do, Shaped, InOrder, SentinelsKept, Balance, Again;
    StepShaped(s, step);
    StepOrder(s, step);
    StepSentinels(s, step);
    StepBalance(s, step);
  }

  /** How many keys a run counted again in its first `n` steps. */
  ghost function AgainIn(states: seq<State>, steps: seq<Step>, n: nat): nat
    requires IsRun(states, steps) && n <= |steps|
  {
    if n == 0 then 0 else AgainIn(states, steps, n - 1) + Again(states[n - 1], steps[n - 1])
  }

  lemma {:induction false} RunBalance(states: seq<State>, steps: seq<Step>, n: nat)
    requires IsRun(states, steps) && Init(states[0]) && n <= |steps|
    ensures Inv(states[n]) && Balance(states[n]) == AgainIn(states, steps, n)
  {
    hide Inv, Balance, Again, Init, Do, Enabled;
    if n == 0 {
      InitKept(states[0]);
    } else {
      RunBalance(states, steps, n - 1);
      StepKeepsAccount(states[n - 1], steps[n - 1]);
    }
  }

  lemma RunShaped(states: seq<State>, steps: seq<Step>, n: nat)
    requires IsRun(states, steps) && Init(states[0]) && n <= |steps|
    ensures Shaped(states[n])
  {
    RunBalance(states, steps, n);
  }

  /** Some step of the run counted keys again. */
  ghost predicate CountedAgain(states: seq<State>, steps: seq<Step>, n: nat)
    requires IsRun(states, steps) && n <= |steps|
  {
    exists i :: 0 <= i < n && CountsAgain(states[i], steps[i])
  }

  lemma {:induction false} AgainInIff(states: seq<State>, steps: seq<Step>, n: nat)
    requires IsRun(states, steps) && n <= |steps|
    ensures AgainIn(states, steps, n) > 0 <==> CountedAgain(states, steps, n)
  {
    hide Again, CountsAgain, Do, Enabled;
    if n > 0 {
      AgainInIff(states, steps, n - 1);
      AgainIff(states[n - 1], steps[n - 1]);
      if CountsAgain(states[n - 1], steps[n - 1]) {
        assert CountedAgain(states, steps, n);
      }
    }
  }

  lemma RunMore(states: seq<State>, steps: seq<Step>, step: Step)
    requires IsRun(states, steps) && Enabled(states[|steps|], step)
    ensures IsRun(states + [Do(states[|steps|], step)], steps + [step])
  {
    hide Enabled, Do;
  }

  lemma {:induction false} AgainStays(states: seq<State>, steps: seq<Step>, t: State, step: Step, n: nat)
    requires IsRun(states, steps) && IsRun(states + [t], steps + [step]) && n <= |steps|
    ensures AgainIn(states + [t], steps + [step], n) == AgainIn(states, steps, n)
  {
    hide Again, Enabled, Do;
    if n > 0 {
      AgainStays(states, steps, t, step, n - 1);
    }
  }

  /** One step more: the keys it counts again are added. */
  lemma AgainMore(states: seq<State>, steps: seq<Step>, step: Step)
    requires IsRun(states, steps) && Enabled(states[|steps|], step)
    ensures IsRun(states + [Do(states[|steps|], step)], steps + [step])
    ensures AgainIn(states + [Do(states[|steps|], step)], steps + [step], |steps| + 1)
         == AgainIn(states, steps, |steps|) + Again(states[|steps|], step)
  {
    hide Again, Enabled, Do;
    RunMore(states, steps, step);
    AgainStays(states, steps, Do(states[|steps|], step), step, |steps|);
  }

  /**
   Conservation, at every step of every run: the keys notified are those sent, dropped, queued, in the
   worker's hand, and still with their writers, exactly unless a hook failed after keys of its chunk or
   batch had been counted or sent. Then the counters are too high, and never too low.
   */
  lemma Conservation(states: seq<State>, steps: seq<Step>, n: nat)
    requires IsRun(states, steps) && Init(states[0]) && n <= |steps|
    ensures var s := states[n];
            && s.notified + AgainIn(states, steps,
              n) == |s.sent| + s.dropped + |Keys(s.queue)| + InHand(s) + Held(s.writers)
            && (Conserved(s) <==> !CountedAgain(states, steps, n))
            && InHand(s) >= 0
  {
    RunBalance(states, steps, n);
    AgainInIff(states, steps, n);
    HandNatural(states[n]);
    hide AgainIn, CountedAgain, Inv, InHand, IsRun, Init;
    assert Conserved(states[n]) <==> AgainIn(states, steps, n) == 0;
  }

  lemma HandNatural(s: State)
    requires Inv(s)
    ensures InHand(s) >= 0
  {
    if s.phase.Preparing? || s.phase.Sending? {
      SkipsWithin(s.phase.flags);
    }
  }

  /** A worker whose hooks raise nothing but `Exception`, and whose encoding raises nothing it does not count. */
  ghost predicate HooksBehave(steps: seq<Step>) {
    forall i :: 0 <= i < |steps| ==> !steps[i].Crash? && !steps[i].PrepareRaises?
  }

  lemma ConservedIfHooksBehave(states: seq<State>, steps: seq<Step>, n: nat)
    requires IsRun(states, steps) && Init(states[0]) && n <= |steps| && HooksBehave(steps)
    ensures Conserved(states[n])
  {
    Conservation(states, steps, n);
    hide InHand;
  }

  /** What has happened stands. */
  ghost predicate Extends(s: State, d: State) {
    && d.maxsize == s.maxsize && d.maxCall == s.maxCall
    && s.log <= d.log && s.sent <= d.sent && s.entered <= d.entered && s.signalled <= d.signalled
  }

  /** Once a key is settled its fate stands. */
  lemma {:induction false} FatesStand(states: seq<State>, steps: seq<Step>, i: nat, j: nat)
    requires IsRun(states, steps) && Init(states[0]) && i <= j <= |steps|
    ensures Extends(states[i], states[j])
  {
    hide Init, Do, Enabled;
    if i < j {
      FatesStand(states, steps, i, j - 1);
      RunShaped(states, steps, j - 1);
      StepExtends(states[j - 1], steps[j - 1]);
      ExtendsFurther(states[i], states[j - 1], states[j]);
    }
  }

  lemma StepExtends(s: State, step: Step)
    requires Shaped(s) && Enabled(s, step)
    ensures Extends(s, Do(s, step))
  {
    hide Keys, Held, Skips, Picked, Fates, Lost;
    if IsSettling(step) {
      SettleExtends(s, step);
    } else if IsWorkers(step) {
      WorkerExtends(s, step);
    } else {
      OthersExtend(s, step);
    }
  }

  lemma SettleExtends(s: State, step: Step)
    requires Enabled(s, step) && IsSettling(step)
    ensures Extends(s, Do(s, step))
  {
    SettlingMoves(s, step);
    hide Do, Enabled;
  }

  lemma WorkerExtends(s: State, step: Step)
    requires Shaped(s) && Enabled(s, step) && IsWorkers(step) && !IsSettling(step)
    ensures Extends(s, Do(s, step))
  {
    if step.Take? {
      TakenParts(s);
      hide Taken, KeyOf;
    } else if step.PopLeftover? {
      PopExtends(s);
    } else {
      InnerStays(s, step);
      hide Do, Enabled;
    }
  }

  lemma PopExtends(s: State)
    requires s.queue != []
    ensures Extends(s, Popped(s))
  {
  }

  lemma OthersExtend(s: State, step: Step)
    requires Enabled(s, step) && !IsWorkers(step)
    ensures Extends(s, Do(s, step))
  {
  }

  lemma ExtendsFurther(a: State, b: State, c: State)
    requires Extends(a, b) && Extends(b, c)
    ensures Extends(a, c)
  {
  }

  /** Sends go out in queue order, each key at most once: what was sent is what the log of settled keys says. */
  lemma SentInOrder(states: seq<State>, steps: seq<Step>, n: nat)
    requires IsRun(states, steps) && Init(states[0]) && n <= |steps|
    ensures var s := states[n];
            && s.done <= |s.batch| && s.sent == SentOf(s.log)
            && EntryKeys(s.log) + Unsettled(s) + Keys(s.queue) == s.entered
  {
    RunBalance(states, steps, n);
  }

  /** What the counters have when no key is in hand: every key settled or refused is sent or counted. */
  lemma SettledIsCounted(states: seq<State>, steps: seq<Step>, n: nat)
    requires IsRun(states, steps) && Init(states[0]) && n <= |steps|
    ensures var s := states[n]; s.dropped + s.left >= Drops(s.log) + Ahead(s)
  {
    RunBalance(states, steps, n);
    var s := states[n];
    RunRefused(states, steps, n);
    LogCounts(s.log);
    Placed(s);
    hide Inv, IsRun, Init, AgainIn, Keys, Held, Drops, SentOf;
  }

  /** Keys notified were queued, refused, or are still with their writer. */
  lemma {:induction false} RunRefused(states: seq<State>, steps: seq<Step>, n: nat)
    requires IsRun(states, steps) && Init(states[0]) && n <= |steps|
    ensures Pending(states[n]) == 0
  {
    hide Init, Do, Enabled, Pending;
    if n == 0 {
      InitRefused(states[0]);
    } else {
      RunRefused(states, steps, n - 1);
      RunShaped(states, steps, n - 1);
      StepRefused(states[n - 1], steps[n - 1]);
    }
  }

  lemma InitRefused(s: State)
    requires Init(s)
    ensures Pending(s) == 0
  {
  }

  lemma StepRefused(s: State, step: Step)
    requires Shaped(s) && Enabled(s, step)
    ensures Pending(Do(s, step)) == Pending(s)
  {
    hide Enabled, Do, Pending;
    if IsWriters(step) {
      WriterRefused(s, step);
    } else if IsSettling(step) {
      SettleRefused(s, step);
    } else {
      RestRefused(s, step);
    }
  }

  function Pending(s: State): int {
    s.notified - |s.entered| - s.refused - Held(s.writers)
  }

  lemma SettleRefused(s: State, step: Step)
    requires Enabled(s, step) && IsSettling(step)
    ensures Pending(Do(s, step)) == Pending(s)
  {
    SettlingMoves(s, step);
    hide Do, Enabled, Held;
  }

  lemma WorkerRefused(s: State, step: Step)
    requires Shaped(s) && Enabled(s, step) && IsWorkers(step) && !IsSettling(step)
    ensures Pending(Do(s, step)) == Pending(s)
  {
    hide Held;
    if step.Take? {
      TakenParts(s);
      hide Taken, KeyOf;
    } else if step.PopLeftover? {
      PoppedParts(s);
      hide Popped, KeyOf;
    } else {
      InnerStays(s, step);
      hide Do, Enabled;
    }
  }

  lemma RestRefused(s: State, step: Step)
    requires Shaped(s) && Enabled(s, step) && !IsSettling(step) && !IsWriters(step)
    ensures Pending(Do(s, step)) == Pending(s)
  {
    if IsWorkers(step) {
      WorkerRefused(s, step);
    } else {
      hide Held;
    }
  }

  lemma WriterRefused(s: State, step: Step)
    requires Enabled(s, step) && IsWriters(step)
    ensures Pending(Do(s, step)) == Pending(s)
  {
    hide Held;
    if step.Begin? {
      HeldMore(s.writers, Writer(step.keys, 0, false, false));
    } else {
      var writer := s.writers[step.w];
      if step.Put? {
        HeldUpdate(s.writers, step.w, writer.(placed := writer.placed + 1, sawFull := false));
      } else if step.GiveUp? {
        HeldUpdate(s.writers, step.w, writer.(gaveUp := true));
      } else {
        HeldUpdate(s.writers, step.w, writer.(sawFull := true));
      }
    }
  }

  /** A sentinel that is set: every key queued before it is settled, as sent or as dropped. */
  lemma SentinelMeans(states: seq<State>, steps: seq<Step>, n: nat, id: nat)
    requires IsRun(states, steps) && Init(states[0]) && n <= |steps| && id in states[n].signalled
    ensures var s := states[n];
            && id in s.marks && s.marks[id] <= |s.log| && s.marks[id] <= |s.entered|
            && s.entered[..s.marks[id]] == EntryKeys(s.log)[..s.marks[id]]
  {
    RunBalance(states, steps, n);
    SentInOrder(states, steps, n);
  }

  /** A disconnect found the worker gone and emptied the queue. */
  predicate Closed(s: State) {
    s.phase.Exited? && s.queue == [] && s.left == 0
  }

  /**
   Then every key notified was sent or counted but those still with a `notify` that overlaps the
   disconnect, and every sentinel is set.
   */
  lemma AfterDisconnect(states: seq<State>, steps: seq<Step>, n: nat)
    requires IsRun(states, steps) && Init(states[0]) && n <= |steps| && Closed(states[n])
    ensures var s := states[n];
            && s.notified <= |s.sent| + s.dropped + Held(s.writers)
            && (s.notified == |s.sent| + s.dropped + Held(s.writers) <==> !CountedAgain(states, steps, n))
            && EntryKeys(s.log) == s.entered
            && s.signalled == s.marks.Keys
  {
    Conservation(states, steps, n);
    RunBalance(states, steps, n);
    hide CountedAgain, AgainIn, IsRun, Init, Inv;
    ClosedOrder(states[n]);
    ClosedSentinels(states[n]);
  }

  lemma ClosedOrder(s: State)
    requires Inv(s) && Closed(s)
    ensures s.batch == [] && EntryKeys(s.log) == s.entered && InHand(s) == 0
  {
    hide SentinelsKept;
    assert Unsettled(s) == [] && EntryKeys(s.log) + [] + [] == EntryKeys(s.log);
  }

  lemma ClosedSentinels(s: State)
    requires Inv(s) && Closed(s)
    ensures s.signalled == s.marks.Keys
  {
    hide InOrder, Marked;
    forall id | id in s.marks ensures id in s.signalled {
      assert Somewhere(s.queue, s.signalled, s.phase, id);
    }
  }

  // ---------------------------------------------------------------------------
  // Writers
  // ---------------------------------------------------------------------------

  /** The key a step puts on the queue for writer `w`. */
  function PutFor(s: State, step: Step, w: nat): seq<Key>
    requires Enabled(s, step)
  {
    if step == Put(w) then [s.writers[w].keys[s.writers[w].placed]] else []
  }

  /** What writer `w` put on the queue in the first `n` steps. */
  ghost function PutsOf(states: seq<State>, steps: seq<Step>, w: nat, n: nat): seq<Key>
    requires IsRun(states, steps) && n <= |steps|
  {
    if n == 0 then [] else PutsOf(states, steps, w, n - 1) + PutFor(states[n - 1], steps[n - 1], w)
  }

  /** What a writer has placed: nothing before its call. */
  function PlacedOf(s: State, w: nat): seq<Key>
    requires w < |s.writers| ==> s.writers[w].placed <= |s.writers[w].keys|
  {
    if w < |s.writers| then s.writers[w].keys[..s.writers[w].placed] else []
  }

  ghost predicate WritersFit(writers: seq<Writer>) {
    forall w :: 0 <= w < |writers| ==> writers[w].placed <= |writers[w].keys|
  }

  lemma StepPlaces(s: State, step: Step, w: nat)
    requires WritersFit(s.writers) && Enabled(s, step)
    ensures WritersFit(Do(s, step).writers)
    ensures PlacedOf(Do(s, step), w) == PlacedOf(s, w) + PutFor(s, step, w)
  {
    if IsWriters(step) {
    } else {
      WritersStay(s, step);
      hide Enabled, Do;
    }
  }

  lemma WritersStay(s: State, step: Step)
    requires Enabled(s, step) && !IsWriters(step)
    ensures Do(s, step).writers == s.writers
  {
    if IsWorkers(step) {
      WorkerLeaves(s, step);
      hide Do, Enabled;
    }
  }

  /** The worker does not touch what belongs to writers, flushes and stop. */
  lemma WorkerLeaves(s: State, step: Step)
    requires Enabled(s, step) && IsWorkers(step)
    ensures var t := Do(s, step);
            && t.writers == s.writers && t.marks == s.marks && t.stopping == s.stopping
            && (s.phase.Exited? ==> t.phase.Exited?)
  {
    if IsSettling(step) {
      SettlingMoves(s, step);
      hide Do, Enabled;
    } else if step.Take? {
      TakenParts(s);
      hide Taken;
    } else if step.PopLeftover? {
      PoppedParts(s);
      hide Popped;
    } else {
      InnerLeaves(s, step);
      hide Do, Enabled;
    }
  }

  lemma InnerLeaves(s: State, step: Step)
    requires Enabled(s, step) && IsInner(step)
    ensures var t := Do(s, step);
            && t.writers == s.writers && t.marks == s.marks && t.stopping == s.stopping
            && (s.phase.Exited? ==> t.phase.Exited?)
  {
    if step.Choose? {
      assert Do(s, step) == Chosen(s);
      ChosenParts(s);
      hide Do, Chosen;
    }
  }

  /** However calls of `notify` interleave, each queues a prefix of its keys, in their order. */
  lemma {:induction false} WritersKeepOrder(states: seq<State>, steps: seq<Step>, w: nat, n: nat)
    requires IsRun(states, steps) && Init(states[0]) && n <= |steps|
    ensures WritersFit(states[n].writers) && PutsOf(states, steps, w, n) == PlacedOf(states[n], w)
  {
    hide Enabled, Do, PutFor;
    if n > 0 {
      WritersKeepOrder(states, steps, w, n - 1);
      StepPlaces(states[n - 1], steps[n - 1], w);
    }
  }

  // ---------------------------------------------------------------------------
  // Keys per call
  // ---------------------------------------------------------------------------

  /** A chunk in hand is never empty nor above the limit, and below the limit only at the end of its batch. */
  predicate WithinLimit(s: State) {
    s.phase.Preparing? || s.phase.Sending? ==>
      && 0 < s.phase.m && s.done + s.phase.m <= |s.batch|
      && (s.maxCall > 0 ==> s.phase.m <= s.maxCall)
      && (s.phase.m == s.maxCall || s.done + s.phase.m == |s.batch|)
  }

  /** The chunk, its batch and the limit are as they were. */
  predicate SameChunk(s: State, t: State) {
    && t.maxCall == s.maxCall && t.batch == s.batch && t.done == s.done
    && (s.phase.Preparing? || s.phase.Sending?) && (t.phase.Preparing? || t.phase.Sending?) && t.phase.m == s.phase.m
  }

  lemma ChunkOnly(s: State, step: Step)
    requires Enabled(s, step) && !step.Choose?
    ensures var t := Do(s, step);
            (t.phase.Preparing? || t.phase.Sending?) ==> SameChunk(s, t)
  {
    if IsSettling(step) {
      SettlingMoves(s, step);
      hide Do, Enabled;
    } else if step.Take? {
      TakenParts(s);
      hide Taken;
    } else if step.PopLeftover? {
      PoppedParts(s);
      hide Popped;
    }
  }

  lemma ChosenLimit(s: State)
    requires s.phase.Choosing? && s.done <= |s.batch|
    ensures WithinLimit(Chosen(s))
  {
  }

  lemma StepWithinLimit(s: State, step: Step)
    requires WithinLimit(s) && Enabled(s, step)
    ensures WithinLimit(Do(s, step))
  {
    if step.Choose? {
      assert Do(s, step) == Chosen(s);
      ChosenLimit(s);
      hide Chosen, Do;
    } else {
      ChunkOnly(s, step);
      hide Do, Enabled;
    }
  }

  /**
   In every run no call gets more keys than the limit, none is empty, and every chunk of a batch but its
   last has exactly as many keys as the limit.
   */
  lemma {:induction false} CallsWithinLimit(states: seq<State>, steps: seq<Step>, n: nat)
    requires IsRun(states, steps) && Init(states[0]) && n <= |steps|
    ensures WithinLimit(states[n])
  {
    hide Do, Enabled, WithinLimit;
    if n == 0 {
      InitWithinLimit(states[0]);
    } else {
      CallsWithinLimit(states, steps, n - 1);
      StepWithinLimit(states[n - 1], steps[n - 1]);
    }
  }

  lemma InitWithinLimit(s: State)
    requires Init(s)
    ensures WithinLimit(s)
  {
  }
}
