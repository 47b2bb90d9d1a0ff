/**
 The publisher: a bounded queue, one worker that drains it in batches, and an account of every key.
 A method runs on its own thread; between its steps other threads make the moves scheduled in `others`.
 Every move, its own or another thread's, is a step of the system and is recorded.
 */
module Publisher {
  import opened PublisherLedger
  import opened PublisherFlags
  import opened PublisherMoves
  import opened PublisherSteps
  import opened Wrappers

  class Base {
    const maxsize: nat
    const maxCall: nat
    const patient: bool   // no `notify_timeout`: a writer waits for room as long as it takes
    const mayRaise: bool  // `_prepare_chunk` may raise an `Exception`
    const mayCrash: bool  // a hook may raise what is no `Exception`

    var queue: seq<Item>
    var writers: seq<Writer>
    var phase: Phase
    var batch: seq<Key>
    var done: nat
    var left: nat
    var dropped: nat
    var lastError: bool
    var stalled: bool
    var stopping: bool
    var drainFailed: bool
    var signalled: set<nat>

    var notified: nat
    var refused: nat
    var entered: seq<Key>
    var log: seq<Entry>
    var sent: seq<Key>
    var marks: map<nat, nat>

    var others: seq<Step>  // the moves other threads are going to make, the next one last
    ghost var states: seq<State>
    ghost var steps: seq<Step>
    ghost var again: nat

    function View(): State
      reads `queue, `writers, `phase, `batch, `done, `left, `dropped, `lastError, `stalled, `stopping, `drainFailed,
            `signalled, `notified, `refused, `entered, `log, `sent, `marks
    {
      State(maxsize, maxCall, queue, writers, phase, batch, done, left, dropped, lastError, stalled, stopping,
            drainFailed, signalled, notified, refused, entered, log, sent, marks)
    }

    predicate Allowed(step: Step) {
      (step.Crash? ==> mayCrash) && (step.PrepareRaises? ==> mayRaise)
    }

    /** The record is a run from a fresh publisher to `s`, and `again` the keys it counted again. */
    ghost predicate Ran(s: State)
      reads `states, `steps, `again
    {
      Recorded(states, steps, again, s) && forall i :: 0 <= i < |steps| ==> Allowed(steps[i])
    }

    ghost predicate Valid()
      reads this
    {
      Ran(View()) && Shaped(View())
    }

    /** One step was made, and nothing else. */
    twostate predicate Did(step: Step)
      reads this
    {
      && Valid() && others == old(others)
      && Enabled(old(View()), step) && View() == Do(old(View()), step)
      && steps == old(steps) + [step] && states == old(states) + [View()]
      && again == old(again) + Again(old(View()), step) && GoesOn(old(View()), View())
    }

    constructor (maxsize: nat, maxCall: nat, patient: bool, mayRaise: bool, mayCrash: bool, others: seq<Step>)
      ensures Valid() && Init(View()) && this.others == others && steps == [] && again == 0
      ensures this.maxsize == maxsize && this.maxCall == maxCall && this.patient == patient
      ensures this.mayRaise == mayRaise && this.mayCrash == mayCrash
    {
      this.maxsize, this.maxCall, this.patient, this.mayRaise, this.mayCrash := maxsize, maxCall, patient, mayRaise,
          mayCrash;
      queue, writers, phase, batch, done, left := [], [], Idle, [], 0, 0;
      dropped, lastError, stalled, stopping, drainFailed, signalled := 0, false, false, false, false, {};
      notified, refused, entered, log, sent, marks := 0, 0, [], [], [], map[];
      this.others := others;
      again, steps := 0, [];
      states := [State(maxsize, maxCall, [], [], Idle, [], 0, 0, 0, false, false, false, false, {}, 0, 0, [], [], [],
          map[])];
    }

    /** The step just made is recorded. */
    ghost method Record(s: State, step: Step)
      requires Ran(s) && Shaped(s) && Enabled(s, step) && View() == Do(s, step) && Allowed(step)
      modifies `states, `steps, `again
      ensures Valid() && steps == old(steps) + [step] && states == old(states) + [View()]
      ensures again == old(again) + Again(s, step) && GoesOn(s, View())
    {
      hide Enabled, Do, Again, Shaped, Recorded, View, GoesOn;
      StepShaped(s, step);
      StepGoesOn(s, step);
      RecordedMore(states, steps, again, s, step);
      states, steps, again := states + [Do(s, step)], steps + [step], again + Again(s, step);
    }

    // -------------------------------------------------------------------------
    // Single steps
    // -------------------------------------------------------------------------

    method AdoptQueue(t: State)
      modifies `queue, `writers, `notified, `refused, `entered, `marks
      ensures queue == t.queue && writers == t.writers && notified == t.notified && refused == t.refused
      ensures entered == t.entered && marks == t.marks
    {
      queue, writers, notified, refused, entered, marks := t.queue, t.writers, t.notified, t.refused, t.entered,
          t.marks;
    }

    method AdoptCounters(t: State)
      modifies `dropped, `lastError, `stalled, `stopping, `drainFailed, `signalled
      ensures dropped == t.dropped && lastError == t.lastError && stalled == t.stalled && stopping == t.stopping
      ensures drainFailed == t.drainFailed && signalled == t.signalled
    {
      dropped, lastError, stalled, stopping, drainFailed := t.dropped, t.lastError, t.stalled, t.stopping,
          t.drainFailed;
      signalled := t.signalled;
    }

    method AdoptWork(t: State)
      modifies `phase, `batch, `done, `left, `log, `sent
      ensures phase == t.phase && batch == t.batch && done == t.done && left == t.left && log == t.log && sent == t.sent
    {
      phase, batch, done, left, log, sent := t.phase, t.batch, t.done, t.left, t.log, t.sent;
    }

    method Adopt(t: State)
      requires t.maxsize == maxsize && t.maxCall == maxCall
      modifies `queue, `writers, `phase, `batch, `done, `left, `dropped, `lastError, `stalled, `stopping, `drainFailed,
               `signalled, `notified, `refused, `entered, `log, `sent, `marks
      ensures View() == t
    {
      AdoptQueue(t);
      AdoptCounters(t);
      AdoptWork(t);
    }

    /** A move of another thread. */
    method Perform(step: Step)
      requires Valid() && Enabled(View(), step) && Allowed(step)
      modifies this
      ensures Did(step)
    {
      ghost var s := View();
      StepExtends(s, step);
      hide Enabled, Do, Again, Ran;
      Adopt(Do(View(), step));
      Record(s, step);
    }

    method RecordDrop(n: nat)
      modifies `dropped, `lastError
      ensures dropped == old(dropped) + n && lastError
    {
      dropped, lastError := dropped + n, true;
    }

    /** The keys at the head of the hand are settled with these fates. */
    method SettleChunk(entries: seq<Entry>)
      requires phase.Preparing? || phase.Sending?
      modifies `phase, `done, `log
      ensures phase == Choosing(old(phase).next) && done == old(done) + |entries| && log == old(log) + entries
    {
      phase, done, log := Choosing(phase.next), done + |entries|, log + entries;
    }

    /** Count `n` keys as dropped; these keys are settled. */
    method LoseKeys(n: nat, keys: seq<Key>)
      requires phase.Preparing? || phase.Sending?
      modifies `phase, `done, `log, `dropped, `lastError
      ensures phase == Choosing(old(phase).next) && done == old(done) + |keys| && log == old(log) + Lost(keys)
      ensures dropped == old(dropped) + n && lastError
    {
      RecordDrop(n);
      SettleChunk(Lost(keys));
    }

    /** The same, and no more is sent once stop is set. */
    method FailSend(n: nat, keys: seq<Key>)
      requires phase.Preparing? || phase.Sending?
      modifies `phase, `done, `log, `dropped, `lastError, `drainFailed
      ensures phase == Choosing(old(phase).next) && done == old(done) + |keys| && log == old(log) + Lost(keys)
      ensures dropped == old(dropped) + n && lastError && drainFailed == (old(drainFailed) || stopping)
    {
      drainFailed := drainFailed || stopping;
      LoseKeys(n, keys);
    }

    method PassSend(keys: seq<Key>, flags: seq<bool>)
      requires (phase.Preparing? || phase.Sending?) && |flags| == |keys|
      modifies `phase, `done, `log, `sent, `stalled
      ensures phase == Choosing(old(phase).next) && done == old(done) + |keys| && log == old(log) + Fates(keys, flags)
      ensures sent == old(sent) + Picked(keys, flags) && !stalled
    {
      stalled, sent := false, sent + Picked(keys, flags);
      SettleChunk(Fates(keys, flags));
    }

    method RefuseKeys(n: nat)
      modifies `dropped, `lastError, `notified, `refused
      ensures dropped == old(dropped) + n && lastError && notified == old(notified) + n && refused == old(refused) + n
    {
      RecordDrop(n);
      notified, refused := notified + n, refused + n;
    }

    method StallOn(n: nat)
      modifies `dropped, `lastError, `refused, `stalled
      ensures dropped == old(dropped) + n && lastError && refused == old(refused) + n && stalled
    {
      stalled := true;
      RecordDrop(n);
      refused := refused + n;
    }

    method PopFields()
      requires queue != []
      modifies `queue, `left, `log, `signalled
      ensures var s := old(View());
              && queue == Popped(s).queue && left == Popped(s).left && log == Popped(s).log
                && signalled == Popped(s).signalled
    {
      var item := queue[0];
      queue := queue[1..];
      match item {
        case KeyItem(k) => left, log := left + 1, log + [Entry(k, false)];
        case Sentinel(id) => signalled := signalled + {id};
        case StopMarker =>
      }
    }

    method BeginCall(keys: seq<Key>)
      requires Valid()
      modifies this
      ensures Did(Begin(keys))
    {
      hide Ran, Again, Do, Enabled, Shaped;
      ghost var s := View();
      DoBeginCall(s, keys);
      writers, notified := writers + [Writer(keys, 0, false, false)], notified + |keys|;
      Record(s, Begin(keys));
    }

    method RefuseAll(n: nat)
      requires Valid() && n > 0
      modifies this
      ensures Did(Offline(n))
    {
      hide Ran, Again, Do, Enabled, Shaped;
      ghost var s := View();
      DoRefuseAll(s, n);
      RefuseKeys(n);
      Record(s, Offline(n));
    }

    method PutKey(w: nat)
      requires Valid() && Busy(View(), w) && HasRoom(View())
      modifies this
      ensures Did(Put(w))
    {
      hide Ran, Again, Do, Enabled, Shaped;
      ghost var s := View();
      DoPutKey(s, w);
      var writer := writers[w];
      var k := writer.keys[writer.placed];
      queue, entered := queue + [KeyItem(k)], entered + [k];
      writers := writers[w := writer.(placed := writer.placed + 1, sawFull := false)];
      Record(s, Put(w));
    }

    method FindFull(w: nat)
      requires Valid() && Busy(View(), w) && !HasRoom(View())
      modifies this
      ensures Did(SeesFull(w))
    {
      hide Ran, Again, Do, Enabled, Shaped;
      ghost var s := View();
      DoFindFull(s, w);
      writers := writers[w := writers[w].(sawFull := true)];
      Record(s, SeesFull(w));
    }

    method DropRest(w: nat)
      requires Valid() && Busy(View(), w) && writers[w].sawFull
      modifies this
      ensures Did(GiveUp(w))
    {
      hide Ran, Again, Do, Enabled, Shaped;
      ghost var s := View();
      DoDropRest(s, w);
      var n := |writers[w].keys| - writers[w].placed;
      StallOn(n);
      writers := writers[w := writers[w].(gaveUp := true)];
      Record(s, GiveUp(w));
    }

    method QueueSentinel(id: nat)
      requires Valid() && HasRoom(View()) && id !in marks
      modifies this
      ensures Did(PutSentinel(id))
    {
      hide Ran, Again, Do, Enabled, Shaped;
      ghost var s := View();
      DoQueueSentinel(s, id);
      queue, marks := queue + [Sentinel(id)], marks[id := |entered|];
      Record(s, PutSentinel(id));
    }

    method ClearError()
      requires Valid()
      modifies this
      ensures Did(RaiseError)
    {
      hide Ran, Again, Do, Enabled, Shaped;
      ghost var s := View();
      DoClearError(s);
      lastError := false;
      Record(s, RaiseError);
    }

    method StopSet()
      requires Valid()
      modifies this
      ensures Did(SetStop)
    {
      hide Ran, Again, Do, Enabled, Shaped;
      ghost var s := View();
      DoStopSet(s);
      stopping := true;
      Record(s, SetStop);
    }

    method QueueMarker()
      requires Valid() && HasRoom(View()) && stopping
      modifies this
      ensures Did(PutMarker)
    {
      hide Ran, Again, Do, Enabled, Shaped;
      ghost var s := View();
      DoQueueMarker(s);
      queue := queue + [StopMarker];
      Record(s, PutMarker);
    }

    /** Take the next item: a key joins the batch, a sentinel or the stop marker ends it. */
    method TakeItem()
      requires Valid() && (phase.Idle? || phase.Draining?) && queue != []
      modifies this
      ensures Did(Take)
    {
      hide Ran, Again, Do, Enabled, Shaped, KeyOf, NextOf;
      ghost var s := View();
      DoTakeItem(s);
      var item := queue[0];
      queue, phase, batch := queue[1..], NextOf(item), batch + KeyOf(item);
      Record(s, Take);
    }

    method FindEmpty()
      requires Valid() && phase.Draining? && queue == []
      modifies this
      ensures Did(SeesEmpty)
    {
      hide Ran, Again, Do, Enabled, Shaped;
      ghost var s := View();
      DoFindEmpty(s);
      phase := Choosing(Rest);
      Record(s, SeesEmpty);
    }

    /** Start the next chunk of the batch. */
    method NextChunk()
      requires Valid() && phase.Choosing? && done < |batch|
      modifies this
      ensures Did(Choose)
      ensures phase.Preparing? && 0 < phase.m <= |batch| - done
      ensures maxCall > 0 ==> phase.m <= maxCall
      ensures phase.m == maxCall || done + phase.m == |batch|
    {
      hide Ran, Again, Do, Enabled, Shaped;
      ghost var s := View();
      DoNextChunk(s);
      var n := |batch| - done;
      phase := Preparing(phase.next, if 0 < maxCall < n then maxCall else n, []);
      Record(s, Choose);
    }

    /** The batch is settled. */
    method FinishBatch()
      requires Valid() && phase.Choosing? && done == |batch|
      modifies this
      ensures Did(Choose)
    {
      hide Ran, Again, Do, Enabled, Shaped, Following;
      ghost var s := View();
      DoFinishBatch(s);
      batch, done, phase := [], 0, Following(phase.next);
      Record(s, Choose);
    }

    method EncodeKey()
      requires Valid() && phase.Preparing? && |phase.flags| < phase.m
      modifies this
      ensures Did(Encode(true))
    {
      hide Ran, Again, Do, Enabled, Shaped;
      ghost var s := View();
      DoEncodeKey(s);
      phase := Preparing(phase.next, phase.m, phase.flags + [true]);
      Record(s, Encode(true));
    }

    /** A key that cannot be encoded is counted at once. */
    method SkipKey()
      requires Valid() && phase.Preparing? && |phase.flags| < phase.m
      modifies this
      ensures Did(Encode(false))
    {
      hide Ran, Again, Do, Enabled, Shaped;
      ghost var s := View();
      DoSkipKey(s);
      phase := Preparing(phase.next, phase.m, phase.flags + [false]);
      RecordDrop(1);
      Record(s, Encode(false));
    }

    /** Preparing the chunk raised: all of it is counted as dropped. */
    method DropRaised()
      requires Valid() && phase.Preparing? && mayRaise
      modifies this
      ensures Did(PrepareRaises)
    {
      hide Ran, Again, Do, Enabled, Shaped, Lost, InChunk, Chunk, Unsettled;
      ghost var s := View();
      DoDropRaised(s);
      var chunk := Chunk(View());
      LoseKeys(phase.m, chunk);
      Record(s, PrepareRaises);
    }

    /** No key of the chunk could be encoded: there is nothing to send. */
    method SettleUnsent()
      requires Valid() && phase.Preparing? && |phase.flags| == phase.m && Picked(Chunk(View()), phase.flags) == []
      modifies this
      ensures Did(Prepared)
    {
      hide Ran, Again, Do, Enabled, Shaped, Lost, Picked, InChunk, Chunk;
      ghost var s := View();
      DoSettleUnsent(s);
      SettleChunk(Lost(Chunk(View())));
      Record(s, Prepared);
    }

    /** A send has failed since stop was set: the chunk is dropped unsent. */
    method DropDraining()
      requires Valid() && phase.Preparing? && |phase.flags| == phase.m && Picked(Chunk(View()), phase.flags) != []
            && drainFailed && stopping
      modifies this
      ensures Did(Prepared)
    {
      hide Ran, Again, Do, Enabled, Shaped, Lost, Picked, InChunk, Chunk;
      ghost var s := View();
      DoDropDraining(s);
      var chunk := Chunk(View());
      LoseKeys(|Picked(chunk, phase.flags)|, chunk);
      Record(s, Prepared);
    }

    method StartSending()
      requires Valid() && phase.Preparing? && |phase.flags| == phase.m && Picked(Chunk(View()), phase.flags) != []
            && !(drainFailed && stopping)
      modifies this
      ensures Did(Prepared)
    {
      hide Ran, Again, Do, Enabled, Shaped, Picked;
      ghost var s := View();
      DoStartSending(s);
      phase := Sending(phase.next, phase.m, phase.flags);
      Record(s, Prepared);
    }

    /** The keys that could be encoded went out: writers may wait for room again. */
    method SendSucceeds()
      requires Valid() && phase.Sending?
      modifies this
      ensures Did(SendOk)
    {
      hide Ran, Again, Do, Enabled, Shaped, Fates, Picked, InChunk, Chunk;
      ghost var s := View();
      DoSendSucceeds(s);
      var chunk := Chunk(View());
      PassSend(chunk, phase.flags);
      Record(s, SendOk);
    }

    /** The send failed for the last time. */
    method SendGivesUp()
      requires Valid() && phase.Sending?
      modifies this
      ensures Did(SendFails)
    {
      hide Ran, Again, Do, Enabled, Shaped, Lost, Picked, InChunk, Chunk;
      ghost var s := View();
      DoSendGivesUp(s);
      var chunk := Chunk(View());
      FailSend(|Picked(chunk, phase.flags)|, chunk);
      Record(s, SendFails);
    }

    /** A hook raised what is no `Exception`: the whole batch is counted as dropped. */
    method DropBatch()
      requires Valid() && (phase.Preparing? || phase.Sending?) && mayCrash
      modifies this
      ensures Did(Crash)
    {
      hide Ran, Again, Do, Enabled, Shaped, Lost, InChunk, Chunk, Unsettled;
      ghost var s := View();
      DoDropBatch(s);
      var rest := Unsettled(View());
      LoseKeys(|batch|, rest);
      Record(s, Crash);
    }

    method SignalSet()
      requires Valid() && phase.Signalling?
      modifies this
      ensures Did(SetSentinel)
    {
      hide Ran, Again, Do, Enabled, Shaped;
      ghost var s := View();
      DoSignalSet(s);
      signalled := signalled + {phase.id};
      phase := Draining;
      Record(s, SetSentinel);
    }

    method ExitOnStop()
      requires Valid() && phase.Idle? && stopping
      modifies this
      ensures Did(ExitIdle)
    {
      hide Ran, Again, Do, Enabled, Shaped;
      ghost var s := View();
      DoExitOnStop(s);
      phase := Exited;
      Record(s, ExitIdle);
    }

    /** Take an item the worker left. */
    method PopItem()
      requires Valid() && phase.Exited? && queue != []
      modifies this
      ensures Did(PopLeftover)
    {
      hide Ran, Again, Do, Enabled, Shaped, Popped;
      ghost var s := View();
      DoPopItem(s);
      PopFields();
      Record(s, PopLeftover);
    }

    method CountLeftovers()
      requires Valid() && phase.Exited? && left > 0
      modifies this
      ensures Did(RecordLeftovers)
    {
      hide Ran, Again, Do, Enabled, Shaped;
      ghost var s := View();
      DoCountLeftovers(s);
      RecordDrop(left);
      left := 0;
      Record(s, RecordLeftovers);
    }

    // -------------------------------------------------------------------------
    // Other threads
    // -------------------------------------------------------------------------

    /** The record has grown, and moves of other threads were used up in their order. */
    twostate predicate Grew()
      reads this
    {
      Valid() && old(steps) <= steps && old(states) <= states && others <= old(others) && GoesOn(old(View()), View())
    }

    /** The next move scheduled is made, if it is possible then. */
    method OneMove(me: Thread)
      requires Valid() && others != []
      modifies this
      ensures Grew() && |others| == |old(others)| - 1 && Spares(me, old(View()), View())
      ensures me.Worker? ==> again == old(again) && |queue| <= |old(queue)| + 1
      ensures old(lastError) && !lastError ==> RaiseError in steps[|old(steps)|..]
    {
      hide Enabled, Do, Again, Ran, Shaped, Spares, GoesOn, Belongs, IsWorkers;
      ghost var s := View();
      SelfSpared(me, s);
      var last := |others| - 1;
      var step := others[last];
      others := others[..last];
      if !Belongs(step, me) && Allowed(step) && Enabled(View(), step) {
        StepSpares(me, s, step);
        ErrorStays(s, step);
        Perform(step);
      }
    }

    /** Some of the moves scheduled are made. */
    method Interfere(me: Thread)
      requires Valid()
      modifies this
      ensures Grew() && Spares(me, old(View()), View())
      ensures me.Worker? ==> again == old(again) && |queue| + |others| <= |old(queue)| + |old(others)|
      ensures old(lastError) && !lastError ==> RaiseError in steps[|old(steps)|..]
      ensures old(others) == [] ==> View() == old(View()) && again == old(again)
    {
      hide Enabled, Do, Again, Ran, Shaped, Spares, GoesOn;
      ghost var start := View();
      var moves: nat := *;
      SelfSpared(me, start);
      while moves > 0 && others != []
        invariant Grew() && Spares(me, start, View())
        invariant old(lastError) && !lastError ==> RaiseError in steps[|old(steps)|..]
        invariant me.Worker? ==> again == old(again) && |queue| + |others| <= |old(queue)| + |old(others)|
        invariant old(others) == [] ==> View() == start && again == old(again)
        decreases |others|
      {
        ghost var s, before := View(), steps;
        OneMove(me);
        moves := moves - 1;
        assert steps[|old(steps)|..] == before[|old(steps)|..] + steps[|before|..];
        SparesTwice(me, start, s, View());
        GoesOnTwice(start, s, View());
      }
    }

    // -------------------------------------------------------------------------
    // The worker
    // -------------------------------------------------------------------------

    /** One key further in the chunk; or the hook raises, or returns once all keys are done. */
    method EncodeOne() returns (end: Ending, over: bool, ghost skipped: nat)
      requires Valid() && phase.Preparing?
      modifies this
      ensures Grew() && |queue| + |others| <= |old(queue)| + |old(others)|
      ensures again == old(again) + skipped && (end != Finished ==> over)
      ensures end == Raised ==>
                && mayRaise && phase == Choosing(old(phase).next) && skipped <= old(phase).m
                && Went(old(View()), View(), Lost(old(Chunk(View()))), [])
      ensures end != Raised ==> Encoding(old(View()), View()) && skipped == 0
      ensures end == Finished ==> if over then |phase.flags| == phase.m else |phase.flags| == |old(phase).flags| + 1
      ensures end == Crashing ==> mayCrash
    {
      hide Enabled, Do, Again, Ran, GoesOn, Beside, Went, Shaped, InChunk, Spares, Lost, Chunk, Skips;
      ghost var start := View();
      EncodingBegins(start);
      Interfere(Worker);
      ghost var s := View();
      EncodingOn(start, start, s);
      end, over, skipped := Finished, true, 0;
      var raises, crashes, ok := *, *, *;
      if crashes && mayCrash {
        end := Crashing;
      } else if raises && mayRaise {
        end, skipped := Raised, Skips(phase.flags);
        RaisedWent(start, s);
        DropRaised();
        GoesOnTwice(start, s, View());
      } else if |phase.flags| < phase.m {
        over := false;
        EncodedOn(start, s, ok);
        if ok {
          EncodeKey();
        } else {
          SkipKey();
        }
        GoesOnTwice(start, s, View());
      }
    }

    /** Encode the keys of the chunk. An exception part-way drops the whole chunk. */
    method PrepareChunk() returns (end: Ending, ghost skipped: nat)
      requires Valid() && phase.Preparing? && phase.flags == []
      modifies this
      ensures Grew() && |queue| + |others| <= |old(queue)| + |old(others)|
      ensures again == old(again) + skipped
      ensures end == Raised ==>
                && mayRaise && phase == Choosing(old(phase).next) && skipped <= old(phase).m
                && Went(old(View()), View(), Lost(old(Chunk(View()))), [])
      ensures end != Raised ==> Encoding(old(View()), View()) && skipped == 0
      ensures end == Finished ==> |phase.flags| == phase.m
      ensures end == Crashing ==> mayCrash
    {
      hide Enabled, Do, Again, Ran, GoesOn, Beside, Went, Shaped, InChunk, Lost, Chunk;
      ghost var start := View();
      EncodingBegins(start);
      var over := false;
      end, skipped := Finished, 0;
      while !over
        invariant Grew()
        invariant |queue| + |others| <= |old(queue)| + |old(others)|
        invariant again == old(again) + skipped && (end != Finished ==> over)
        invariant end == Raised ==>
                    && mayRaise && phase == Choosing(start.phase.next) && skipped <= start.phase.m
                    && Went(start, View(), Lost(Chunk(start)), [])
        invariant end != Raised ==> Encoding(start, View()) && skipped == 0
        invariant end == Finished && over ==> |phase.flags| == phase.m
        invariant end == Crashing ==> mayCrash
        decreases !over, if over then 0 else start.phase.m - |phase.flags|
      {
        ghost var s := View();
        EncodingSame(start, s);
        end, over, skipped := EncodeOne();
        GoesOnTwice(start, s, View());
        if end == Raised {
          RaisedFrom(start, s, View());
        } else {
          EncodingTwice(start, s, View());
        }
      }
    }

    /**
     Send the chunk until that succeeds, its time is over, stop is set, or a hook raises what is no
     `Exception`.
     */
    method SendLoop() returns (end: Ending, sends: bool)
      requires Valid() && phase.Sending?
      modifies this
      ensures Grew() && |queue| + |others| <= |old(queue)| + |old(others)| && again == old(again)
      ensures end != Raised && (end == Crashing ==> mayCrash && OnTheWay(old(View()), View()))
      ensures end == Finished ==>
                && phase == Choosing(old(phase).next)
                && Went(old(View()), View(),
                        if sends then Fates(old(Chunk(View())), old(phase).flags) else Lost(old(Chunk(View()))),
                        if sends then Picked(old(Chunk(View())), old(phase).flags) else [])
    {
      hide Enabled, Do, Again, Ran, GoesOn, Beside, Went, Shaped, InChunk, Spares, Lost, Fates, Picked, Chunk, Skips;
      ghost var start := View();
      SendingBegins(start);
      sends := false;
      var remaining: nat := *;
      while true
        invariant Grew()
        invariant OnTheWay(start, View()) && again == old(again)
        invariant |queue| + |others| <= |old(queue)| + |old(others)|
        decreases remaining
      {
        ghost var s := View();
        Interfere(Worker);
        ghost var t := View();
        OnTheWayOn(start, s, t);
        GoesOnTwice(start, s, t);
        var crashes;
        sends, crashes := *, *;
        if sends {
          SentWent(start, t);
          SendSucceeds();
          GoesOnTwice(start, t, View());
          return Finished, true;
        }
        if crashes && mayCrash {
          return Crashing, false;
        }
        if remaining == 0 || stopping {
          FailedWent(start, t);
          SendGivesUp();
          GoesOnTwice(start, t, View());
          return Finished, false;
        }
        var less: nat :| less < remaining;
        remaining := less;
      }
    }

    /**
     Publish the chunk: encode it once, then retry the send. It is sent or dropped as a whole, but for
     keys that cannot be encoded. After a crash it is still in hand.
     */
    method PublishWithRetry() returns (end: Ending, ghost flags: seq<bool>, ghost skipped: nat)
      requires Valid() && phase.Preparing? && phase.flags == []
      modifies this
      ensures Grew() && |queue| + |others| <= |old(queue)| + |old(others)|
      ensures end != Crashing ==>
                && |flags| == old(phase).m && phase == Choosing(old(phase).next)
                && Went(old(View()), View(), Fates(old(Chunk(View())), flags), Picked(old(Chunk(View())), flags))
                && (old(stopping) && old(drainFailed) ==> flags == Never(|flags|))
      ensures again == old(again) + skipped && (skipped > 0 ==> end == Raised) && (end == Raised ==> mayRaise)
      ensures end == Raised ==> skipped <= |flags| && flags == Never(|flags|)
      ensures end == Crashing ==> mayCrash && Stuck(old(View()), View())
    {
      hide Enabled, Do, Again, Ran, GoesOn, Beside, Went, Shaped, InChunk, Spares, Lost, Fates, Picked, Chunk, Skips,
          Stuck;
      ghost var start := View();
      EncodingBegins(start);
      LostFates(Chunk(start));
      end, skipped := PrepareChunk();
      flags := Never(start.phase.m);
      ghost var s := View();
      if end == Crashing {
        StuckFrom(start, s, s);
        return;
      }
      if end == Raised {
        return;
      }
      EncodingSame(start, s);
      ReadyWent(start, s);
      var chunk := Chunk(View());
      if Picked(chunk, phase.flags) == [] {
        SettleUnsent();
        GoesOnTwice(start, s, View());
        return;
      }
      if drainFailed && stopping {
        DropDraining();
        GoesOnTwice(start, s, View());
        return;
      }
      StartSending();
      GoesOnTwice(start, s, View());
      ghost var t := View();
      var sends;
      end, sends := SendLoop();
      GoesOnTwice(start, t, View());
      if end == Crashing {
        StuckFrom(start, t, View());
        return;
      }
      SentFrom(start, t, View(), if sends then Fates(Chunk(start), t.phase.flags) else Lost(Chunk(start)),
               if sends then Picked(Chunk(start), t.phase.flags) else []);
      if sends {
        flags := t.phase.flags;
      }
    }

    /** Publish the batch chunk by chunk. After a crash the chunk and those behind it are still in hand. */
    method SafePublish() returns (end: Ending, ghost flags: seq<bool>, ghost raised: nat)
      requires Valid() && phase.Choosing? && done == 0
      modifies this
      ensures Grew() && |queue| + |others| <= |old(queue)| + |old(others)|
      ensures Through(old(View()), View(), flags)
      ensures again == old(again) + raised && (raised > 0 ==> mayRaise)
      ensures end != Raised && (end == Finished ==> phase == old(phase) && done == |batch|)
      ensures end == Crashing ==> mayCrash && (phase.Preparing? || phase.Sending?) && phase.next == old(phase).next
      ensures forall i :: 0 <= i < |states| ==> WithinLimit(states[i])
    {
      hide Enabled, Do, Again, Ran, GoesOn, Beside, Went, Through, Shaped, InChunk, WithinLimit, Spares, Fates, Picked,
          Chunk, ChunkSize;
      ghost var start := View();
      ThroughBegins(start);
      DoneWithin(start);
      end, flags, raised := Finished, [], 0;
      while done < |batch|
        invariant Grew()
        invariant end == Finished && phase == start.phase && batch == start.batch && done <= |batch|
        invariant Through(start, View(), flags)
        invariant again == old(again) + raised && (raised > 0 ==> mayRaise)
        invariant |queue| + |others| <= |old(queue)| + |old(others)|
        decreases |batch| - done
      {
        ghost var s := View();
        Interfere(Worker);
        ghost var t := View();
        GoesOnTwice(start, s, t);
        ThroughOn(start, s, t, flags);
        ChosenChunk(t);
        NextChunk();
        ghost var u := View();
        GoesOnTwice(start, t, u);
        ThroughBeside(start, t, u, flags);
        ghost var more, skipped;
        end, more, skipped := PublishWithRetry();
        GoesOnTwice(start, u, View());
        raised := raised + skipped;
        if end == Crashing {
          StuckThrough(start, u, View(), flags);
          StuckPhase(u, View());
          CallsLimited();
          return;
        }
        end := Finished;
        ThroughMore(start, u, View(), Chunk(u), flags, more);
        flags := flags + more;
      }
      CallsLimited();
    }

    /**
     Publish what is in hand. After a crash the whole batch is counted as dropped: the keys of it that
     were settled before, and those of the chunk that could not be encoded, are counted again.
     */
    method Publish() returns (ghost tally: Tally)
      requires Valid() && phase.Choosing? && done == 0
      modifies this
      ensures Grew() && |queue| + |others| <= |old(queue)| + |old(others)|
      ensures phase == Following(old(phase).next) && Published(old(View()), View(), tally.flags)
      ensures again == old(again) + tally.raised + (if tally.crashed then tally.settled + tally.skipped else 0)
      ensures (tally.raised > 0 ==> mayRaise) && (tally.crashed ==> mayCrash)
      ensures tally.crashed ==>
                && tally.settled + tally.skipped <= |old(batch)|
                && tally.flags[tally.settled..] == Never(|old(batch)| - tally.settled)
    {
      hide Enabled, Do, Again, Ran, GoesOn, Through, Published, Shaped, Skips, Following;
      ghost var start := View();
      var end;
      ghost var flags, raised;
      end, flags, raised := SafePublish();
      ghost var s := View();
      tally := Tally(flags, raised, false, 0, 0);
      if end == Crashing {
        CrashParts(s);
        CrashThrough(start, s, flags);
        ThroughLength(start, s, flags);
        tally := Tally(flags + Never(|batch| - done), raised, true, done, Skips(phase.flags));
        DropBatch();
        GoesOnTwice(start, s, View());
      }
      ghost var t := View();
      BatchDone(start, t, tally.flags);
      FinishBatch();
      GoesOnTwice(start, t, View());
    }

    /** With the queue empty, every key that was queued is settled or in hand. */
    lemma AllInHand()
      requires Valid() && queue == []
      ensures |entered| == |log| + |batch| - done && (phase.Idle? ==> batch == [])
    {
      SentInOrder(states, steps, |steps|);
      PublisherLedger.Placed(View());
    }

    /** Publish the batch before a sentinel, then set it; at the stop marker, publish it and exit. */
    method PublishAndSignal() returns (exits: bool)
      requires Valid() && done == 0 && phase.Choosing? && !phase.next.Rest?
      modifies this
      ensures Grew() && |queue| + |others| <= |old(queue)| + |old(others)|
      ensures exits <==> old(phase) == Choosing(Exit)
      ensures batch == [] && done == 0 && phase == if exits then Exited else Draining
      ensures StopMarker in old(queue) ==> StopMarker in queue
      ensures !mayRaise && !mayCrash ==> again == old(again)
    {
      hide Enabled, Do, Again, Ran, GoesOn, Published, Shaped;
      ghost var start := View();
      exits := phase.next.Exit?;
      ghost var tally := Publish();
      WentOnPublished(start, View(), tally.flags);
      if !exits {
        ghost var s := View();
        DoSignalSet(s);
        SignalSet();
        GoesOnTwice(start, s, View());
      }
    }

    /** Take the next item, or find that there is none for now. */
    method TakeNext()
      requires Valid() && phase.Draining? && done == 0
      modifies this
      ensures Grew() && again == old(again) && done == 0 && (phase.Draining? || phase.Choosing?)
      ensures if phase == Choosing(Rest) then |queue| + |others| <= |old(queue)| + |old(others)|
              else |queue| + |others| < |old(queue)| + |old(others)|
      ensures phase == Choosing(Rest) ==> queue == [] && |entered| == |log| + |batch|
      ensures StopMarker in old(queue) ==> StopMarker in queue || phase == Choosing(Exit)
    {
      hide Enabled, Do, Again, Ran, GoesOn, Beside, Spares, Keys, Shaped;
      ghost var start := View();
      Interfere(Worker);
      ghost var s := View();
      WaitedOn(start, s);
      if queue == [] {
        AllInHand();
        DoFindEmpty(s);
        FindEmpty();
      } else {
        DoTakeItem(s);
        TookItem(s);
        TakeItem();
      }
      GoesOnTwice(start, s, View());
    }

    /** Take items until none is left for now, or the stop marker comes. */
    method Drain() returns (exits: bool)
      requires Valid() && done == 0 && (phase.Draining? || (phase.Choosing? && !phase.next.Rest?))
      modifies this
      ensures Grew() && |queue| + |others| <= |old(queue)| + |old(others)|
      ensures if exits then phase == Exited && batch == []
              else phase == Choosing(Rest) && done == 0 && |entered| == |log| + |batch|
      ensures StopMarker in old(queue) || old(phase) == Choosing(Exit) ==> exits
      ensures !mayRaise && !mayCrash ==> again == old(again)
    {
      hide Enabled, Do, Again, Ran, GoesOn, Shaped;
      ghost var start := View();
      SelfSpared(Worker, start);
      while phase != Choosing(Rest)
        invariant Grew()
        invariant done == 0 && (phase.Draining? || phase.Choosing?)
        invariant phase == Choosing(Rest) ==> queue == [] && |entered| == |log| + |batch|
        invariant StopMarker in start.queue || start.phase == Choosing(Exit) ==>
                    StopMarker in queue || phase == Choosing(Exit)
        invariant !mayRaise && !mayCrash ==> again == old(again)
        invariant |queue| + |others| <= |old(queue)| + |old(others)|
        decreases |queue| + |others|, phase != Choosing(Rest)
      {
        ghost var s := View();
        if phase.Choosing? {
          exits := PublishAndSignal();
          GoesOnTwice(start, s, View());
          if exits {
            return;
          }
          s := View();
        }
        TakeNext();
        GoesOnTwice(start, s, View());
      }
      exits := false;
    }

    /** Wait for a first item. */
    method AwaitItem() returns (found: bool)
      requires Valid() && phase.Idle?
      modifies this
      ensures Grew() && again == old(again) && done == 0 && |queue| + |others| <= |old(queue)| + |old(others)|
      ensures if found then phase.Draining? || (phase.Choosing? && !phase.next.Rest?)
              else phase.Idle? && queue == [] && |entered| == |log|
      ensures batch == [] || found
      ensures StopMarker in old(queue) ==> StopMarker in queue || phase == Choosing(Exit)
    {
      hide Enabled, Do, Again, Ran, GoesOn, Spares, Beside, Keys, Shaped;
      ghost var start := View();
      BatchFits(start);
      Interfere(Worker);
      ghost var s := View();
      WaitedOn(start, s);
      found := queue != [];
      if found {
        DoTakeItem(s);
        TookItem(s);
        TakeItem();
        GoesOnTwice(start, s, View());
      } else {
        AllInHand();
      }
    }

    /**
     One wake of the worker: drain what is queued right now, publish it, and set each sentinel once the
     keys before it are settled. False when the worker exits.
     */
    method Wake() returns (alive: bool)
      requires Valid() && phase.Idle?
      modifies this
      ensures Grew() && |queue| + |others| <= |old(queue)| + |old(others)|
      ensures phase == (if alive then Idle else Exited) && batch == []
      ensures alive ==> |old(entered)| <= |log|
      ensures StopMarker in old(queue) ==> !alive
      ensures !mayRaise && !mayCrash ==> again == old(again)
    {
      hide Enabled, Do, Again, Ran, GoesOn, Published, Shaped;
      ghost var start := View();
      var found := AwaitItem();
      ghost var s := View();
      EnteredStays(start, s);
      if !found {
        if stopping {
          DoExitOnStop(s);
          ExitOnStop();
          GoesOnTwice(start, s, View());
          return false;
        }
        return true;
      }
      var exits := Drain();
      ghost var t := View();
      GoesOnTwice(start, s, t);
      if exits {
        return false;
      }
      EnteredStays(start, t);
      ghost var tally := Publish();
      WentOnPublished(t, View(), tally.flags);
      GoesOnTwice(start, t, View());
      return true;
    }

    // -------------------------------------------------------------------------
    // Notify, flush, disconnect
    // -------------------------------------------------------------------------

    /** Wait for room, as long as other threads still move. */
    method AwaitRoom(me: Thread) returns (room: bool)
      requires Valid()
      modifies this
      ensures Grew() && Spares(me, old(View()), View())
      ensures room == HasRoom(View()) && (!room ==> others == [])
      ensures old(lastError) && !lastError ==> RaiseError in steps[|old(steps)|..]
      ensures old(others) == [] ==> phase == old(phase)
    {
      hide Enabled, Do, Again, Ran, Shaped, Spares, GoesOn;
      ghost var start := View();
      SelfSpared(me, start);
      while !HasRoom(View()) && others != []
        invariant old(others) == [] ==> phase == old(phase)
        invariant Grew() && Spares(me, start, View())
        invariant old(lastError) && !lastError ==> RaiseError in steps[|old(steps)|..]
        decreases |others|
      {
        ghost var s, before := View(), steps;
        OneMove(me);
        assert steps[|old(steps)|..] == before[|old(steps)|..] + steps[|before|..];
        SparesTwice(me, start, s, View());
        GoesOnTwice(start, s, View());
      }
      room := HasRoom(View());
    }

    /** A writer that finds the queue full waits for room, unless it is not patient and a stall was seen. */
    method WaitForRoom(w: nat) returns (room: bool)
      requires Valid() && Busy(View(), w) && !HasRoom(View())
      modifies this
      ensures Grew() && w < |writers| && writers[w] == old(writers)[w].(sawFull := true)
      ensures room == HasRoom(View()) && (!room && patient ==> others == [])
      ensures old(others) == [] ==> phase == old(phase)
    {
      hide Enabled, Do, Again, Ran, Shaped, GoesOn;
      ghost var start := View();
      DoFindFull(start, w);
      FindFull(w);
      ghost var s := View();
      if patient {
        room := AwaitRoom(Caller(w));
      } else if !stalled {
        Interfere(Caller(w));
        room := HasRoom(View());
      } else {
        SelfSpared(Caller(w), s);
        room := false;
      }
      GoesOnTwice(start, s, View());
    }

    /** Queue the writer's next key; give up on the rest of its keys when there is no room in time. */
    method QueueNext(w: nat) returns (queued: bool)
      requires Valid() && Busy(View(), w)
      modifies this
      ensures Grew() && w < |writers|
      ensures queued ==> writers[w] == old(writers)[w].(placed := old(writers)[w].placed + 1, sawFull := false)
      ensures !queued && patient ==> writers[w] == old(writers)[w].(sawFull := true) && others == []
      ensures !queued && !patient ==>
                writers[w] == old(writers)[w].(sawFull := true, gaveUp := true) && stalled && lastError
      ensures old(others) == [] ==> phase == old(phase)
    {
      hide Enabled, Do, Again, Ran, Shaped, GoesOn;
      ghost var start := View();
      Interfere(Caller(w));
      queued := HasRoom(View());
      ghost var s := View();
      if !queued {
        queued := WaitForRoom(w);
        GoesOnTwice(start, s, View());
        s := View();
      }
      if queued {
        DoPutKey(s, w);
        PutKey(w);
        GoesOnTwice(start, s, View());
      } else if !patient {
        DoDropRest(s, w);
        DropRest(w);
        GoesOnTwice(start, s, View());
      }
    }

    /**
     Enqueue keys, in order, waiting for room on a full queue. When not connected, they are all counted
     as dropped. A patient call that still waits when no other thread moves has not returned.
     */
    method Notify(keys: seq<Key>, connected: bool) returns (r: Result<()>, ghost w: nat)
      requires Valid()
      modifies this
      ensures Grew() && (r.Ok? <==> connected)
      ensures !connected ==> View() == Do(old(View()), Offline(|keys|)) && others == old(others)
      ensures connected ==>
                && |old(writers)| <= w < |writers| && writers[w].keys == keys && writers[w].placed <= |keys|
                && PutsOf(states, steps, w, |steps|) == keys[..writers[w].placed]
      ensures connected && writers[w].placed < |keys| ==>
                if patient then !writers[w].gaveUp && others == [] else writers[w].gaveUp && stalled && lastError
      ensures connected && writers[w].placed == |keys| ==> !writers[w].gaveUp
      ensures old(others) == [] ==> phase == old(phase)
    {
      hide Enabled, Again, Ran, Shaped, GoesOn, PutsOf;
      ghost var start := View();
      SelfSpared(Closer, start);
      w := |writers|;
      if !connected {
        if |keys| > 0 {
          RefuseAll(|keys|);
        }
        return Err(ConnectionError), w;
      }
      hide Do;
      DoBeginCall(start, keys);
      BeginCall(keys);
      var me, i := |writers| - 1, 0;
      while i < |keys|
        invariant old(others) == [] ==> phase == old(phase)
        invariant Grew()
        invariant me == w < |writers| && i <= |keys| && writers[w] == Writer(keys, i, false, false)
      {
        ghost var s := View();
        var queued := QueueNext(me);
        GoesOnTwice(start, s, View());
        if !queued {
          Placed(me);
          return Ok(()), w;
        }
        i := i + 1;
      }
      Placed(me);
      return Ok(()), w;
    }

    /** A call has queued its keys up to where it stands, in their order. */
    lemma Placed(w: nat)
      requires Valid() && w < |writers|
      ensures writers[w].placed <= |writers[w].keys|
      ensures PutsOf(states, steps, w, |steps|) == writers[w].keys[..writers[w].placed]
    {
      hide Shaped;
      WritersKeepOrder(states, steps, w, |steps|);
    }

    /** Wait for a sentinel, as long as other threads still move; without patience, some time. */
    method AwaitSentinel(id: nat, untilSet: bool)
      requires Valid() && id in marks
      modifies this
      ensures Grew() && (untilSet ==> id in signalled || others == [])
      ensures old(lastError) && !lastError ==> RaiseError in steps[|old(steps)|..]
      ensures old(others) == [] ==> phase == old(phase)
    {
      hide Enabled, Do, Again, Ran, Shaped, GoesOn;
      ghost var start := View();
      SelfSpared(Closer, start);
      var waits: nat := *;
      while id !in signalled && others != [] && (untilSet || waits > 0)
        invariant old(others) == [] ==> phase == old(phase)
        invariant Grew()
        invariant old(lastError) && !lastError ==> RaiseError in steps[|old(steps)|..]
        decreases |others|
      {
        ghost var s, before := View(), steps;
        OneMove(Flusher(id));
        waits := if waits > 0 then waits - 1 else 0;
        assert steps[|old(steps)|..] == before[|old(steps)|..] + steps[|before|..];
        GoesOnTwice(start, s, View());
      }
    }

    /** Once a sentinel is set, every key queued before it is settled. */
    lemma FlushMeans(id: nat)
      requires Valid() && id in signalled
      ensures id in marks && marks[id] <= |log| && marks[id] <= |entered|
      ensures entered[..marks[id]] == EntryKeys(log)[..marks[id]]
    {
      hide Shaped;
      SentinelMeans(states, steps, |steps|, id);
    }

    /** Queue a sentinel and wait for it. True once it is set: every key queued before the call is settled. */
    method FlushQueue(id: nat, untilSet: bool) returns (seen: bool)
      requires Valid() && id !in marks
      modifies this
      ensures Grew() && (untilSet && !seen ==> others == [])
      ensures seen ==> id in signalled && |old(entered)| <= |log| && EntryKeys(log)[..|old(entered)|] == old(entered)
      ensures old(lastError) && !lastError ==> RaiseError in steps[|old(steps)|..]
      ensures old(others) == [] ==> phase == old(phase)
    {
      hide Enabled, Do, Again, Ran, Shaped, GoesOn, EntryKeys;
      ghost var start := View();
      var room := AwaitRoom(Flusher(id));
      if !room {
        return false;
      }
      ghost var s, before := View(), steps;
      QueuedSentinel(start, s, id);
      QueueSentinel(id);
      GoesOnTwice(start, s, View());
      ghost var t, after := View(), steps;
      assert steps == before + [PutSentinel(id)];
      AwaitSentinel(id, untilSet);
      MarkStays(t, View(), id);
      GoesOnTwice(start, t, View());
      assert steps[|old(steps)|..] == after[|old(steps)|..] + steps[|after|..];
      assert after[|old(steps)|..] == before[|old(steps)|..] + [PutSentinel(id)];
      seen := id in signalled;
      if seen {
        FlushMeans(id);
        EnteredStays(start, View());
        SettledBefore(old(entered), entered, EntryKeys(log), marks[id]);
      }
    }

    static lemma SettledBefore(before: seq<Key>, entered: seq<Key>, settled: seq<Key>, n: nat)
      requires before <= entered && |before| <= n <= |entered| && n <= |settled| && entered[..n] == settled[..n]
      ensures settled[..|before|] == before
    {
      assert settled[..n][..|before|] == settled[..|before|] && entered[..n][..|before|] == entered[..|before|];
    }

    /**
     Wait until what is queued is handled, then raise a drop seen since the last flush, once. When not
     connected there is nothing to wait for.
     */
    method Flush(id: nat, connected: bool, untilSet: bool) returns (r: Result<()>, seen: bool)
      requires Valid() && id !in marks
      modifies this
      ensures Grew() && (connected && untilSet && !seen ==> others == [])
      ensures seen ==> id in signalled && |old(entered)| <= |log| && EntryKeys(log)[..|old(entered)|] == old(entered)
      ensures |steps| > |old(steps)| && steps[|steps| - 1] == RaiseError && !lastError
      ensures r == if states[|steps| - 1].lastError then Err(PublisherOperationError) else Ok(())
      ensures old(lastError) && r.Ok? ==> RaiseError in steps[|old(steps)|..|steps| - 1]
      ensures !connected ==> !seen && View() == Do(old(View()), RaiseError) && (r.Err? <==> old(lastError))
      ensures old(others) == [] ==> phase == old(phase)
    {
      hide Enabled, Do, Again, Ran, Shaped, GoesOn, EntryKeys;
      ghost var start := View();
      SelfSpared(Closer, start);
      seen := false;
      if connected {
        seen := FlushQueue(id, untilSet);
      }
      ghost var s, before := View(), steps;
      assert states[|before|] == s by {
        LastState();
      }
      r := if lastError then Err(PublisherOperationError) else Ok(());
      DoClearError(s);
      ClearError();
      GoesOnTwice(start, s, View());
      assert steps[..|steps| - 1] == before && states[|before|] == s;
      assert steps[|old(steps)|..|steps| - 1] == before[|old(steps)|..];
    }

    lemma LastState()
      requires Valid()
      ensures |states| == |steps| + 1 && states[|steps|] == View()
    {
    }

    /** Ask the worker to stop: set the event, then queue the stop marker behind what is queued. */
    method PutStop() returns (queued: bool)
      requires Valid()
      modifies this
      ensures Grew() && stopping && (queued ==> StopMarker in queue)
      ensures old(others) == [] ==> others == [] && phase == old(phase) && again == old(again)
      ensures old(others) == [] ==> (queued <==> HasRoom(old(View())))
    {
      hide Enabled, Do, Again, Ran, Shaped, GoesOn;
      ghost var start := View();
      DoStopSet(start);
      StopSet();
      ghost var s := View();
      Interfere(Closer);
      GoesOnTwice(start, s, View());
      ghost var t := View();
      StopStays(s, t);
      queued := HasRoom(View());
      if queued {
        DoQueueMarker(t);
        QueueMarker();
        GoesOnTwice(start, t, View());
      }
    }

    /** Once the worker is gone: count every key still queued, set every sentinel. */
    method DropLeftovers()
      requires Valid() && phase.Exited?
      modifies this
      ensures Grew() && Closed(View()) && again == old(again)
    {
      hide Enabled, Do, Again, Ran, Shaped, GoesOn, Beside, Spares, Popped;
      ghost var start := View();
      SelfSpared(Worker, start);
      while true
        invariant Grew()
        invariant phase.Exited? && again == old(again)
        decreases |queue| + |others|
      {
        ghost var s := View();
        Interfere(Worker);
        WaitedOn(s, View());
        GoesOnTwice(start, s, View());
        if queue == [] {
          break;
        }
        s := View();
        DoPopItem(s);
        PopItem();
        GoesOnTwice(start, s, View());
      }
      if left > 0 {
        ghost var s := View();
        DoCountLeftovers(s);
        CountLeftovers();
        GoesOnTwice(start, s, View());
      }
    }

    /**
     Disconnect: stop the worker, wait for it while it wakes, then account for what it left. True when the
     worker is gone: every key notified was sent or counted, but those of calls that still run.
     */
    method Disconnect(wakes: nat) returns (exited: bool)
      requires Valid()
      modifies this
      ensures Grew() && stopping
      ensures exited ==>
                && Closed(View()) && EntryKeys(log) == entered && signalled == marks.Keys
                && notified + again == |sent| + dropped + Held(writers)
      ensures old(phase).Idle? && HasRoom(old(View())) && old(others) == [] && wakes > 0 ==> exited
    {
      hide Enabled, Do, Again, Ran, Shaped, GoesOn, EntryKeys, Held;
      ghost var start := View();
      var queued := PutStop();
      ghost var stopped := View();
      for i := 0 to wakes
        invariant Grew()
        invariant stopping
        invariant i == 0 ==> View() == stopped
        invariant stopped.phase.Idle? && queued && i > 0 ==> phase.Exited?
      {
        if phase.Idle? {
          ghost var s := View();
          var alive := Wake();
          StopStays(s, View());
          GoesOnTwice(start, s, View());
        }
      }
      exited := phase.Exited?;
      if exited {
        ghost var s := View();
        DropLeftovers();
        StopStays(s, View());
        GoesOnTwice(start, s, View());
        AllAccounted();
      }
    }

    // -------------------------------------------------------------------------
    // The account
    // -------------------------------------------------------------------------

    /**
     Conservation: the keys notified are those sent, dropped, queued, in hand and still with their writers,
     each once, exactly unless a step counted keys again; a hook that raises only `Exception`, and that
     only before it has counted a key, never makes one.
     */
    lemma Conserved()
      requires Valid()
      ensures notified + again == |sent| + dropped + |Keys(queue)| + InHand(View()) + Held(writers)
      ensures again == 0 <==> !CountedAgain(states, steps, |steps|)
      ensures !mayRaise && !mayCrash ==> again == 0
    {
      hide Shaped, Keys, Held, InHand;
      Conservation(states, steps, |steps|);
      AgainInIff(states, steps, |steps|);
    }

    /** No call the publisher has prepared or sent broke the limit of keys per call. */
    lemma CallsLimited()
      requires Valid()
      ensures forall i :: 0 <= i < |states| ==> WithinLimit(states[i])
    {
      hide Shaped, WithinLimit, Do, Enabled;
      forall i | 0 <= i < |states| ensures WithinLimit(states[i]) {
        CallsWithinLimit(states, steps, i);
      }
    }

    /** The flags and the queue, told from what was done to the publisher since it was made. */
    lemma FlagsMeant()
      requires Valid()
      ensures lastError <==>
                exists i :: 0 <= i < |steps| && CountsKeys(states, i)
                         && forall k :: i < k < |steps| ==> !steps[k].RaiseError?
      ensures stalled <==>
                exists i :: 0 <= i < |steps| && steps[i].GiveUp? && forall k :: i < k < |steps| ==> !steps[k].SendOk?
      ensures drainFailed <==> exists i, j :: 0 <= i < j < |steps| && steps[i].SetStop? && steps[j].SendFails?
      ensures maxsize > 0 ==> |queue| <= maxsize
    {
      hide Shaped, Do, Enabled;
      ErrorMeans(states, steps, |steps|);
      StallMeans(states, steps, |steps|);
      DrainMeans(states, steps, |steps|);
      QueueBounded(states, steps, |steps|);
    }

    lemma AllAccounted()
      requires Valid() && Closed(View())
      ensures EntryKeys(log) == entered && signalled == marks.Keys
      ensures notified + again == |sent| + dropped + Held(writers)
    {
      hide Held;
      Conserved();
      AfterDisconnect(states, steps, |steps|);
    }
  }
}
