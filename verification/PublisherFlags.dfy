/**
 What the shared flags of the publisher mean in every run: the error a flush raises, the stall, the failed
 drain and the bound of the queue, told from the steps that were made.
 */
module PublisherFlags {
  import opened PublisherSteps
  import opened PublisherLedger

  // ---------------------------------------------------------------------------
  // Single steps
  // ---------------------------------------------------------------------------

  /** The four flags after a step, from the flags before it and the step. */
  predicate FlagsFollow(s: State, step: Step, t: State) {
    && t.dropped >= s.dropped
    && (t.lastError <==> t.dropped > s.dropped || (s.lastError && !step.RaiseError?))
    && (t.stalled <==> step.GiveUp? || (s.stalled && !step.SendOk?))
    && (t.stopping <==> step.SetStop? || s.stopping)
    && (t.drainFailed <==> (step.SendFails? && s.stopping) || s.drainFailed)
  }

  /** A key is counted only for one of these reasons. */
  predicate HasCause(s: State, step: Step) {
    || step.Offline? || step.GiveUp? || (step.Encode? && !step.ok) || step.PrepareRaises? || step.SendFails?
    || step.Crash? || step.RecordLeftovers?
    || (step.Prepared? && s.drainFailed && s.stopping)
  }

  /** What is encoded is sent, unless nothing is sent any more. */
  predicate SendsNext(s: State, step: Step, t: State) {
    && (t.phase.Sending? && !s.phase.Sending? ==> step.Prepared? && !(s.drainFailed && s.stopping))
    && (step.Prepared? && s.phase.Preparing? && !(s.drainFailed && s.stopping) && true in s.phase.flags ==>
          t.phase.Sending?)
    && (step.SendFails? || step.SendOk? ==> !t.phase.Sending?)
  }

  predicate FlagsLaw(s: State, step: Step, t: State) {
    FlagsFollow(s, step, t) && (t.dropped > s.dropped ==> HasCause(s, step)) && SendsNext(s, step, t)
  }

  /** What is being sent holds a key, and the fields fit. */
  predicate Loaded(s: State) {
    Shaped(s) && (s.phase.Sending? ==> true in s.phase.flags)
  }

  lemma {:induction false} PickedSome(chunk: seq<Key>, flags: seq<bool>)
    requires |flags| <= |chunk|
    ensures Picked(chunk, flags) != [] <==> true in flags
  {
    if flags != [] {
      var n := |flags| - 1;
      PickedSome(chunk, flags[..n]);
      assert flags == flags[..n] + [flags[n]];
    }
  }

  lemma SettlingFlags(s: State, step: Step)
    requires Loaded(s) && Enabled(s, step) && IsSettling(step) && !step.Prepared?
    ensures FlagsLaw(s, step, Do(s, step)) && (Do(s, step).phase.Sending? ==> true in Do(s, step).phase.flags)
  {
    hide Fates, Never, Picked, Skips;
    if step.SendFails? {
      PickedSome(Chunk(s), s.phase.flags);
    }
  }

  lemma PreparedFlags(s: State)
    requires Loaded(s) && Enabled(s, Prepared)
    ensures FlagsLaw(s, Prepared, Do(s, Prepared))
    ensures Do(s, Prepared).phase.Sending? ==> true in Do(s, Prepared).phase.flags
  {
    PickedSome(Chunk(s), s.phase.flags);
    hide Fates, Never, Picked, Skips;
  }

  lemma WorkerFlags(s: State, step: Step)
    requires Loaded(s) && Enabled(s, step) && IsWorkers(step) && !IsSettling(step)
    ensures FlagsLaw(s, step, Do(s, step)) && (Do(s, step).phase.Sending? ==> true in Do(s, step).phase.flags)
  {
    hide Fates, Never;
    if step.Take? {
      TakenParts(s);
      hide Taken, KeyOf;
    } else if step.PopLeftover? {
      PoppedParts(s);
      hide Popped, KeyOf;
    }
  }

  lemma CallerFlags(s: State, step: Step)
    requires Loaded(s) && Enabled(s, step) && !IsWorkers(step)
    ensures FlagsLaw(s, step, Do(s, step)) && (Do(s, step).phase.Sending? ==> true in Do(s, step).phase.flags)
  {
  }

  /** What a step does to the flags. */
  lemma StepFlags(s: State, step: Step)
    requires Loaded(s) && Enabled(s, step)
    ensures FlagsLaw(s, step, Do(s, step)) && (Do(s, step).phase.Sending? ==> true in Do(s, step).phase.flags)
  {
    hide *;
    if step.Prepared? {
      PreparedFlags(s);
    } else if IsSettling(step) {
      SettlingFlags(s, step);
    } else if IsWorkers(step) {
      WorkerFlags(s, step);
    } else {
      CallerFlags(s, step);
    }
  }

  /** The queue of a bounded publisher. */
  predicate WithinBound(s: State) {
    s.maxsize > 0 ==> |s.queue| <= s.maxsize
  }

  /** The queue is bounded and has no room. */
  predicate IsFull(s: State) {
    s.maxsize > 0 && |s.queue| >= s.maxsize
  }

  /** The step leaves the queue within its bound, and marks a writer as held up only on a full queue. */
  predicate QueueFollows(s: State, step: Step, t: State, w: nat) {
    && t.maxsize == s.maxsize && (WithinBound(s) ==> WithinBound(t))
    && (w < |t.writers| && t.writers[w].sawFull ==> (w < |s.writers| && s.writers[w].sawFull) || IsFull(s))
    && (w < |t.writers| && t.writers[w].sawFull && w < |s.writers| ==> t.writers[w].placed == s.writers[w].placed)
    && (step == GiveUp(w) ==> w < |s.writers| && s.writers[w].sawFull)
  }

  lemma StepQueue(s: State, step: Step, w: nat)
    requires Shaped(s) && Enabled(s, step)
    ensures QueueFollows(s, step, Do(s, step), w)
  {
    if IsSettling(step) {
      SettlingMoves(s, step);
      hide Do, Enabled;
    } else if IsInner(step) {
      InnerStays(s, step);
      hide Do, Enabled, Shaped;
    } else if step.Take? {
      TakenParts(s);
      hide Taken, KeyOf;
    } else if step.PopLeftover? {
      PoppedParts(s);
      hide Popped, KeyOf;
    } else {
      hide Shaped;
    }
  }

  // ---------------------------------------------------------------------------
  // Whole runs
  // ---------------------------------------------------------------------------

  lemma {:induction false} RunLoaded(states: seq<State>, steps: seq<Step>, n: nat)
    requires IsRun(states, steps) && Init(states[0]) && n <= |steps|
    ensures Loaded(states[n])
  {
    hide Do, Enabled, Shaped, FlagsLaw;
    RunShaped(states, steps, n);
    if n > 0 {
      RunLoaded(states, steps, n - 1);
      StepFlags(states[n - 1], steps[n - 1]);
    }
  }

  /** Step `i` of the run counts keys. */
  predicate CountsKeys(states: seq<State>, i: nat)
    requires i + 1 < |states|
  {
    states[i + 1].dropped > states[i].dropped
  }

  /** The last error is set exactly if a key was counted since a flush last raised, or cleared, it. */
  lemma {:induction false} ErrorMeans(states: seq<State>, steps: seq<Step>, n: nat)
    requires IsRun(states, steps) && Init(states[0]) && n <= |steps|
    ensures states[n].lastError <==>
              exists i :: 0 <= i < n && CountsKeys(states, i)
                       && forall k :: i < k < n ==> !steps[k].RaiseError?
  {
    hide Do, Enabled, Loaded;
    if n > 0 {
      ErrorMeans(states, steps, n - 1);
      RunLoaded(states, steps, n - 1);
      StepFlags(states[n - 1], steps[n - 1]);
      assert CountsKeys(states, n - 1) <==> states[n].dropped > states[n - 1].dropped;
      hide HasCause, SendsNext;
    }
  }

  /** Writers drop at once exactly while a writer has given up and nothing has gone out since. */
  lemma {:induction false} StallMeans(states: seq<State>, steps: seq<Step>, n: nat)
    requires IsRun(states, steps) && Init(states[0]) && n <= |steps|
    ensures states[n].stalled <==>
              exists i :: 0 <= i < n && steps[i].GiveUp? && forall k :: i < k < n ==> !steps[k].SendOk?
  {
    hide Do, Enabled, Loaded;
    if n > 0 {
      StallMeans(states, steps, n - 1);
      RunLoaded(states, steps, n - 1);
      StepFlags(states[n - 1], steps[n - 1]);
    }
  }

  /** The drain has failed exactly if a send failed for good after stop was set. */
  lemma {:induction false} DrainMeans(states: seq<State>, steps: seq<Step>, n: nat)
    requires IsRun(states, steps) && Init(states[0]) && n <= |steps|
    ensures states[n].stopping <==> exists i :: 0 <= i < n && steps[i].SetStop?
    ensures states[n].drainFailed <==>
              exists i, j :: 0 <= i < j < n && steps[i].SetStop? && steps[j].SendFails?
  {
    hide Do, Enabled, Loaded;
    if n > 0 {
      DrainMeans(states, steps, n - 1);
      RunLoaded(states, steps, n - 1);
      StepFlags(states[n - 1], steps[n - 1]);
    }
  }

  /** Once the drain has failed no send is under way. */
  lemma {:induction false} NoneSending(states: seq<State>, steps: seq<Step>, n: nat)
    requires IsRun(states, steps) && Init(states[0]) && n <= |steps|
    ensures states[n].drainFailed ==> states[n].stopping && !states[n].phase.Sending?
  {
    hide Do, Enabled, Loaded;
    if n > 0 {
      NoneSending(states, steps, n - 1);
      RunLoaded(states, steps, n - 1);
      StepFlags(states[n - 1], steps[n - 1]);
    }
  }

  /** A drain is bounded: after one failed send with stop set nothing more is sent or even tried. */
  lemma NothingAfterFailedDrain(states: seq<State>, steps: seq<Step>, i: nat, j: nat, k: nat)
    requires IsRun(states, steps) && Init(states[0]) && i < j < k < |steps|
    requires steps[i].SetStop? && steps[j].SendFails?
    ensures !steps[k].SendOk? && !steps[k].SendFails?
  {
    hide Do, Loaded;
    DrainMeans(states, steps, k);
    NoneSending(states, steps, k);
    assert Enabled(states[k], steps[k]);
  }

  /** What could be encoded is tried until then, and no key is counted without a cause. */
  lemma TriedUntilThen(states: seq<State>, steps: seq<Step>, n: nat)
    requires IsRun(states, steps) && Init(states[0]) && n < |steps|
    ensures states[n + 1].dropped > states[n].dropped ==> HasCause(states[n], steps[n])
    ensures steps[n].Prepared? && true in states[n].phase.flags ==>
              (states[n + 1].phase.Sending? <==>
                 !exists i, j :: 0 <= i < j < n && steps[i].SetStop? && steps[j].SendFails?)
  {
    hide Do, Loaded;
    RunLoaded(states, steps, n);
    DrainMeans(states, steps, n);
    NoneSending(states, steps, n);
    StepFlags(states[n], steps[n]);
    assert Enabled(states[n], steps[n]);
  }

  /** In every run a bounded queue stays within its bound. */
  lemma {:induction false} QueueBounded(states: seq<State>, steps: seq<Step>, n: nat)
    requires IsRun(states, steps) && Init(states[0]) && n <= |steps|
    ensures states[n].maxsize == states[0].maxsize && WithinBound(states[n])
  {
    hide Do, Enabled, Shaped;
    if n > 0 {
      QueueBounded(states, steps, n - 1);
      RunShaped(states, steps, n - 1);
      StepQueue(states[n - 1], steps[n - 1], 0);
    }
  }

  lemma {:induction false} FullSeen(states: seq<State>, steps: seq<Step>, w: nat, n: nat)
    requires IsRun(states, steps) && Init(states[0]) && n <= |steps|
    requires w < |states[n].writers| && states[n].writers[w].sawFull
    ensures exists i :: 0 <= i < n && IsFull(states[i]) && w < |states[i].writers|
                     && states[i].writers[w].placed == states[n].writers[w].placed
  {
    hide Do, Enabled, Shaped, IsFull;
    var s := states[n - 1];
    RunShaped(states, steps, n - 1);
    StepQueue(s, steps[n - 1], w);
    if w < |s.writers| {
      if s.writers[w].sawFull {
        FullSeen(states, steps, w, n - 1);
      }
    } else {
      BornUnheld(s, steps[n - 1], w);
    }
  }

  lemma BornUnheld(s: State, step: Step, w: nat)
    requires Shaped(s) && Enabled(s, step) && |s.writers| <= w < |Do(s, step).writers|
    ensures !Do(s, step).writers[w].sawFull
  {
    if IsWorkers(step) {
      WorkerLeaves(s, step);
      hide Do;
    }
  }

  /** A writer gives up only if it found the queue full since it last queued a key. */
  lemma GivesUpOnFull(states: seq<State>, steps: seq<Step>, w: nat, n: nat)
    requires IsRun(states, steps) && Init(states[0]) && n < |steps| && steps[n] == GiveUp(w)
    ensures w < |states[n].writers|
    ensures exists i :: 0 <= i < n && IsFull(states[i]) && w < |states[i].writers|
                     && states[i].writers[w].placed == states[n].writers[w].placed
  {
    hide Do, Shaped, IsFull;
    RunShaped(states, steps, n);
    StepQueue(states[n], steps[n], w);
    FullSeen(states, steps, w, n);
  }
}
