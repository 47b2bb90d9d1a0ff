/** Three runs of the publisher, step by step, that a counter or a queue gets wrong. */
module PublisherRuns {
  import opened PublisherLedger
  import opened PublisherSteps
  import Segments

  const A: Key := Key([Segments.Int(1)])
  const B: Key := Key([Segments.Int(2)])

  /** A publisher of chunks of `maxCall` keys, just connected. */
  function Fresh(maxCall: nat): State {
    State(0, maxCall, [], [], Idle, [], 0, 0, 0, false, false, false, false, {}, 0, 0, [], [], [], map[])
  }

  /** `d` follows from `s` in one step. */
  ghost predicate Follows(s: State, step: Step, d: State) {
    Enabled(s, step) && Do(s, step) == d
  }

  /** A run given by its states. */
  ghost predicate IsPath(states: seq<State>, steps: seq<Step>) {
    |states| == |steps| + 1 && forall i :: 0 <= i < |steps| ==> Follows(states[i], steps[i], states[i + 1])
  }

  lemma PathRuns(states: seq<State>, steps: seq<Step>)
    requires IsPath(states, steps)
    ensures IsRun(states, steps)
  {
    hide Enabled, Do;
    forall i | 0 <= i < |steps| ensures Enabled(states[i], steps[i]) && states[i + 1] == Do(states[i], steps[i]) {
      assert Follows(states[i], steps[i], states[i + 1]);
    }
  }

  lemma PathOn(states: seq<State>, steps: seq<Step>, step: Step, d: State)
    returns (states': seq<State>, steps': seq<Step>)
    requires IsPath(states, steps) && Follows(states[|steps|], step, d)
    ensures IsPath(states', steps') && steps' == steps + [step]
    ensures states'[0] == states[0] && states'[|steps'|] == d
  {
    hide Follows;
    states', steps' := states + [d], steps + [step];
  }

  /** Both keys are queued and taken. */
  function TwoTaken(maxCall: nat, phase: Phase, done: nat): State {
    Fresh(maxCall).(writers := [Writer([A, B], 2, false, false)], notified := 2, entered := [A, B],
                    batch := [A, B], phase := phase, done := done)
  }

  function OneQueued(maxCall: nat): State {
    Fresh(maxCall).(writers := [Writer([A, B], 1, false, false)], notified := 2, queue := [KeyItem(A)], entered := [A])
  }

  function TwoQueued(maxCall: nat): State {
    Fresh(maxCall).(writers := [Writer([A, B], 2, false, false)], notified := 2, queue := [KeyItem(A), KeyItem(B)],
                    entered := [A, B])
  }

  lemma PutTwo(maxCall: nat)
    ensures var begun := Fresh(maxCall).(writers := [Writer([A, B], 0, false, false)], notified := 2);
            && Follows(Fresh(maxCall), Begin([A, B]), begun)
            && Follows(begun, Put(0), OneQueued(maxCall)) && Follows(OneQueued(maxCall), Put(0), TwoQueued(maxCall))
  {
  }

  lemma TakeTwo(maxCall: nat)
    ensures var one := TwoQueued(maxCall).(queue := [KeyItem(B)], batch := [A], phase := Draining);
            && Follows(TwoQueued(maxCall), Take, one) && Follows(one, Take, TwoTaken(maxCall, Draining, 0))
            && Follows(TwoTaken(maxCall, Draining, 0), SeesEmpty, TwoTaken(maxCall, Choosing(Rest), 0))
  {
  }

  lemma TwoAreTaken(maxCall: nat) returns (states: seq<State>, steps: seq<Step>)
    ensures IsPath(states, steps) && states[0] == Fresh(maxCall)
          && states[|steps|] == TwoTaken(maxCall, Choosing(Rest), 0)
  {
    PutTwo(maxCall);
    TakeTwo(maxCall);
    hide Follows;
    states, steps := [Fresh(maxCall)], [];
    var begun := Fresh(maxCall).(writers := [Writer([A, B], 0, false, false)], notified := 2);
    states, steps := PathOn(states, steps, Begin([A, B]), begun);
    states, steps := PathOn(states, steps, Put(0), OneQueued(maxCall));
    states, steps := PathOn(states, steps, Put(0), TwoQueued(maxCall));
    var one := TwoQueued(maxCall).(queue := [KeyItem(B)], batch := [A], phase := Draining);
    states, steps := PathOn(states, steps, Take, one);
    states, steps := PathOn(states, steps, Take, TwoTaken(maxCall, Draining, 0));
    states, steps := PathOn(states, steps, SeesEmpty, TwoTaken(maxCall, Choosing(Rest), 0));
  }

  /** The first key's chunk went out. */
  function OneSent(phase: Phase): State {
    TwoTaken(1, phase, 1).(log := [Entry(A, true)], sent := [A])
  }

  lemma FirstChunkPrepared()
    ensures Follows(TwoTaken(1, Choosing(Rest), 0), Choose, TwoTaken(1, Preparing(Rest, 1, []), 0))
    ensures Follows(TwoTaken(1, Preparing(Rest, 1, []), 0), Encode(true), TwoTaken(1, Preparing(Rest, 1, [true]), 0))
  {
    assert [] + [true] == [true];
  }

  lemma OnePicked()
    ensures Picked([A], [true]) == [A]
  {
    assert [true][..0] == [];
  }

  lemma FirstChunkReady()
    ensures Follows(TwoTaken(1, Preparing(Rest, 1, [true]), 0), Prepared, TwoTaken(1, Sending(Rest, 1, [true]), 0))
  {
    assert Chunk(TwoTaken(1, Preparing(Rest, 1, [true]), 0)) == [A];
    OnePicked();
    hide Picked;
  }

  lemma FirstChunkSent()
    ensures Follows(TwoTaken(1, Sending(Rest, 1, [true]), 0), SendOk, OneSent(Choosing(Rest)))
  {
    assert Chunk(TwoTaken(1, Sending(Rest, 1, [true]), 0)) == [A];
    OnePicked();
    assert Fates([A], [true]) == [Entry(A, true)];
    hide Picked, Fates;
  }

  function CrashedLate(): State {
    OneSent(Choosing(Rest)).(done := 2, dropped := 2, lastError := true, log := [Entry(A, true), Entry(B, false)])
  }

  lemma SecondChunkCrashes()
    ensures Follows(OneSent(Choosing(Rest)), Choose, OneSent(Preparing(Rest, 1, [])))
    ensures Follows(OneSent(Preparing(Rest, 1, [])), Crash, CrashedLate())
    ensures Follows(CrashedLate(), Choose, CrashedLate().(phase := Idle, batch := [], done := 0))
  {
    var s := OneSent(Preparing(Rest, 1, []));
    assert Unsettled(s) == [B];
    assert Lost([B]) == [Entry(B, false)];
  }

  lemma NoneHeld()
    ensures Held([Writer([A, B], 2, false, false)]) == 0
  {
    assert [Writer([A, B], 2, false, false)][..0] == [];
  }

  /**
   Two keys in chunks of one: the first is sent, the hook crashes on the second. Both are counted as
   dropped, so the publisher is idle with two keys notified and three accounted for.
   */
  lemma CrashCountsSent() returns (states: seq<State>, steps: seq<Step>)
    ensures IsRun(states, steps) && Init(states[0])
    ensures var s := states[|steps|];
            && s.phase == Idle && s.queue == [] && Held(s.writers) == 0 && s.batch == [] && s.left == 0
            && s.notified == 2 && s.sent == [A] && s.dropped == 2
  {
    hide Follows;
    states, steps := TwoAreTaken(1);
    FirstChunkPrepared();
    FirstChunkReady();
    FirstChunkSent();
    SecondChunkCrashes();
    states, steps := PathOn(states, steps, Choose, TwoTaken(1, Preparing(Rest, 1, []), 0));
    states, steps := PathOn(states, steps, Encode(true), TwoTaken(1, Preparing(Rest, 1, [true]), 0));
    states, steps := PathOn(states, steps, Prepared, TwoTaken(1, Sending(Rest, 1, [true]), 0));
    states, steps := PathOn(states, steps, SendOk, OneSent(Choosing(Rest)));
    states, steps := PathOn(states, steps, Choose, OneSent(Preparing(Rest, 1, [])));
    states, steps := PathOn(states, steps, Crash, CrashedLate());
    states, steps := PathOn(states, steps, Choose, CrashedLate().(phase := Idle, batch := [], done := 0));
    PathRuns(states, steps);
    NoneHeld();
  }

  function Skipped(phase: Phase): State {
    TwoTaken(0, phase, 0).(dropped := 1, lastError := true)
  }

  function RaisedLate(): State {
    Skipped(Choosing(Rest)).(done := 2, dropped := 3, log := [Entry(A, false), Entry(B, false)])
  }

  lemma FirstKeySkipped()
    ensures Follows(TwoTaken(0, Choosing(Rest), 0), Choose, TwoTaken(0, Preparing(Rest, 2, []), 0))
    ensures Follows(TwoTaken(0, Preparing(Rest, 2, []), 0), Encode(false), Skipped(Preparing(Rest, 2, [false])))
  {
    assert [] + [false] == [false];
  }

  lemma SecondKeyRaises()
    ensures Follows(Skipped(Preparing(Rest, 2, [false])), PrepareRaises, RaisedLate())
    ensures Follows(RaisedLate(), Choose, RaisedLate().(phase := Idle, batch := [], done := 0))
  {
    var s := Skipped(Preparing(Rest, 2, [false]));
    assert Chunk(s) == [A, B];
    assert Lost([A, B]) == [Entry(A, false), Entry(B, false)];
  }

  /** A key that cannot be encoded is counted, then encoding raises: the whole chunk is counted on top. */
  lemma RaiseCountsSkipped() returns (states: seq<State>, steps: seq<Step>)
    ensures IsRun(states, steps) && Init(states[0])
    ensures var s := states[|steps|];
            && s.phase == Idle && s.queue == [] && Held(s.writers) == 0 && s.batch == [] && s.left == 0
            && s.notified == 2 && s.sent == [] && s.dropped == 3
  {
    hide Follows;
    states, steps := TwoAreTaken(0);
    FirstKeySkipped();
    SecondKeyRaises();
    states, steps := PathOn(states, steps, Choose, TwoTaken(0, Preparing(Rest, 2, []), 0));
    states, steps := PathOn(states, steps, Encode(false), Skipped(Preparing(Rest, 2, [false])));
    states, steps := PathOn(states, steps, PrepareRaises, RaisedLate());
    states, steps := PathOn(states, steps, Choose, RaisedLate().(phase := Idle, batch := [], done := 0));
    PathRuns(states, steps);
    NoneHeld();
  }

  function Stopped(phase: Phase): State {
    Fresh(0).(writers := [Writer([A], 0, false, false)], notified := 1, stopping := true, phase := phase)
  }

  lemma WorkerStops()
    ensures Follows(Stopped(Idle), PutMarker, Stopped(Idle).(queue := [StopMarker]))
    ensures Follows(Stopped(Idle).(queue := [StopMarker]), Take, Stopped(Choosing(Exit)))
    ensures Follows(Stopped(Choosing(Exit)), Choose, Stopped(Exited))
  {
  }

  function LateKey(): State {
    Stopped(Exited).(writers := [Writer([A], 1, false, false)], queue := [KeyItem(A)], entered := [A])
  }

  lemma LateKeyComes()
    ensures Follows(Stopped(Exited), RecordLeftovers, Stopped(Exited))
    ensures Follows(Stopped(Exited), Put(0), LateKey())
  {
  }

  /**
   A `notify` that found the publisher connected queues its key after `disconnect` has emptied the queue:
   the worker is gone, the key is neither sent nor counted, and the next connection starts a fresh queue.
   */
  lemma LateKeyStays() returns (states: seq<State>, steps: seq<Step>)
    ensures IsRun(states, steps) && Init(states[0])
    ensures steps == [Begin([A]), SetStop, PutMarker, Take, Choose, RecordLeftovers, Put(0)]
    ensures var s := states[|steps|];
            s.phase == Exited && s.queue == [KeyItem(A)] && s.notified == 1 && s.sent == [] && s.dropped == 0
  {
    var begun := Stopped(Idle).(stopping := false);
    states, steps := [Fresh(0), begun, Stopped(Idle)], [Begin([A]), SetStop];
    assert Follows(Fresh(0), Begin([A]), begun);
    assert Follows(begun, SetStop, Stopped(Idle));
    WorkerStops();
    LateKeyComes();
    hide Follows;
    states, steps := PathOn(states, steps, PutMarker, Stopped(Idle).(queue := [StopMarker]));
    states, steps := PathOn(states, steps, Take, Stopped(Choosing(Exit)));
    states, steps := PathOn(states, steps, Choose, Stopped(Exited));
    states, steps := PathOn(states, steps, RecordLeftovers, Stopped(Exited));
    states, steps := PathOn(states, steps, Put(0), LateKey());
    PathRuns(states, steps);
  }
}
