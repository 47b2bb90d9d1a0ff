/** A run of the observer in which a queued re-registration marks a later registration ready too early. */
module EarlyMark {
  import opened Wrappers
  import opened Readiness

  /** A table with one hash, in generation `gen`, registered for the `epoch`-th time under readiness `r`. */
  function OneHash(r: ReadyId, flags: map<ReadyId, ReadyFlag>, gen: nat, acks: map<AckId, Ack>, commands: set<AckId>,
                   epoch: nat): Table {
    Table({}, map[1 := 1], {1}, map[1 := r], flags, gen, commands, acks, map[], map[1 := epoch])
  }

  const EMPTY := System(Table({}, map[], {}, map[], map[], 0, {}, map[], map[], map[]), map[], map[], {})

  /** One filter subscribed and routed. */
  function Subscribed(): System {
    System(OneHash(0, map[0 := ReadyFlag(true, false)], 0, map[0 := Ack(1, true, false, 0)], {}, 1),
           map[0 := Registrant(1, 0, 1, Ended, Some(0))], map[], {(1, 0, 1)})
  }

  /** `d` follows from `s` in one step. */
  ghost predicate Follows(s: System, step: Step, d: System) {
    Enabled(s, step) && Do(s, step) == d
  }

  function FirstFlag(isSet: bool): map<ReadyId, ReadyFlag> {
    map[0 := ReadyFlag(isSet, false)]
  }

  function FirstAck(isSet: bool): map<AckId, Ack> {
    map[0 := Ack(1, isSet, false, 0)]
  }

  function FirstAt(phase: Phase): map<RegId, Registrant> {
    map[0 := Registrant(1, 0, 1, phase, if phase.Indexed? || phase.Finishing? || phase.Ended? then Some(0) else None)]
  }

  function FirstBegun(): System {
    System(Table({}, map[1 := 1], {}, map[1 := 0], FirstFlag(false), 0, {}, map[], map[], map[1 := 1]),
        FirstAt(Begun), map[], {})
  }

  function FirstSent(): System {
    System(OneHash(0, FirstFlag(false), 0, FirstAck(false), {0}, 1), FirstAt(Sent(0)), map[], {})
  }

  function FirstPending(): System {
    FirstSent().(t := FirstSent().t.(commands := {}, pending := map[1 := [[0]]]))
  }

  function FirstConfirmed(phase: Phase): System {
    System(OneHash(0, FirstFlag(false), 0, FirstAck(true), {}, 1), FirstAt(phase), map[], {})
  }

  function FirstIndexed(isSet: bool, phase: Phase): System {
    System(OneHash(0, FirstFlag(isSet), 0, FirstAck(true), {}, 1), FirstAt(phase), map[], {(1, 0, 1)})
  }

  lemma FirstBegins()
    ensures Follows(EMPTY, RegisterFirst(0, 1, 0), FirstBegun())
  {
  }

  lemma FirstSends()
    ensures Follows(FirstBegun(), SendSubscribe(0, 0), FirstSent())
  {
    assert FirstBegun().regs[0 := Registrant(1, 0, 1, Sent(0), None)] == FirstAt(Sent(0));
  }

  lemma FirstQueues()
    ensures Follows(FirstSent(), RunSubscribe(0, true), FirstPending())
  {
    var t := FirstSent().t;
    assert Waiting(t, 1) + [[0]] == [[0]] && t.commands - {0} == {};
  }

  lemma FirstIsConfirmed()
    ensures Follows(FirstPending(), Confirmation(1, 0), FirstConfirmed(Sent(0)))
  {
    var t := FirstPending().t;
    assert t.pending[1] == [[0]];
    assert Release(FirstAck(false), [0], 0) == FirstAck(true);
    assert t.pending - {1} == map[];
  }

  lemma FirstSees()
    ensures Follows(FirstConfirmed(Sent(0)), SeeAck(0), FirstConfirmed(Confirmed(0)))
  {
    assert FirstAt(Sent(0))[0 := Registrant(1, 0, 1, Confirmed(0), None)] == FirstAt(Confirmed(0));
  }

  lemma FirstIndexes()
    ensures Follows(FirstConfirmed(Confirmed(0)), IndexHash(0), FirstIndexed(false, Indexed(0)))
  {
    assert FirstAt(Confirmed(0))[0 := Registrant(1, 0, 1, Indexed(0), Some(0))] == FirstAt(Indexed(0));
    assert {} + {(1, 0, 1)} == {(1, 0, 1)};
  }

  lemma FirstChecks()
    ensures Follows(FirstIndexed(false, Indexed(0)), CheckGeneration(0), FirstIndexed(true, Finishing))
  {
    assert FirstAt(Indexed(0))[0 := Registrant(1, 0, 1, Finishing, Some(0))] == FirstAt(Finishing);
    assert FirstFlag(false)[0 := ReadyFlag(true, false)] == FirstFlag(true);
  }

  lemma FirstFinishes()
    ensures Follows(FirstIndexed(true, Finishing), Finish(0), Subscribed())
  {
    assert FirstAt(Finishing)[0 := Registrant(1, 0, 1, Ended, Some(0))] == FirstAt(Ended);
    assert FirstFlag(true)[0 := ReadyFlag(true, false)] == FirstFlag(true);
  }

  /** A first subscription: SUBSCRIBE confirmed, hash indexed, generation unchanged. */
  lemma SubscribedReachable() returns (states: seq<System>, steps: seq<Step>)
    ensures IsRun(states, steps) && Init(states[0]) && states[|steps|] == Subscribed()
  {
    FirstBegins();
    FirstSends();
    FirstQueues();
    FirstIsConfirmed();
    FirstSees();
    FirstIndexes();
    FirstChecks();
    FirstFinishes();
    states := [EMPTY, FirstBegun(), FirstSent(), FirstPending(), FirstConfirmed(Sent(0)), FirstConfirmed(Confirmed(0)),
               FirstIndexed(false, Indexed(0)), FirstIndexed(true, Finishing), Subscribed()];
    steps := [RegisterFirst(0, 1, 0), SendSubscribe(0, 0), RunSubscribe(0, true), Confirmation(1, 0), SeeAck(0),
        IndexHash(0),
              CheckGeneration(0), Finish(0)];
    assert Init(EMPTY);
    hide Do, Enabled;
  }

  /** The states of that run, one function a step: reconnected, queued, left, registered, sent, indexed, marked. */
  function TwoFlags(): map<ReadyId, ReadyFlag> {
    map[0 := ReadyFlag(true, false), 1 := ReadyFlag(false, false)]
  }

  function ThreeFlags(last: bool): map<ReadyId, ReadyFlag> {
    map[0 := ReadyFlag(true, false), 1 := ReadyFlag(false, false), 2 := ReadyFlag(last, false)]
  }

  const FIRST := Registrant(1, 0, 1, Ended, Some(0))
  const ACKED: map<AckId, Ack> := map[0 := Ack(1, true, false, 0)]

  function Reconnected(): System {
    System(OneHash(1, TwoFlags(), 1, ACKED, {}, 1), map[0 := FIRST], map[], {(1, 0, 1)})
  }

  function ReregQueued(): System {
    Reconnected().(reregs := map[0 := Rereg(1, 1, 1, false)])
  }

  function SubscriberLeft(): System {
    ReregQueued().(t := Table({}, map[], {}, map[], TwoFlags(), 1, {}, ACKED, map[], map[1 := 1]))
  }

  function Registered(): System {
    ReregQueued().(t := Table({}, map[1 := 1], {}, map[1 := 2], ThreeFlags(false), 1, {}, ACKED, map[], map[1 := 2]),
                   regs := map[0 := FIRST, 1 := Registrant(1, 2, 2, Begun, None)])
  }

  function SubscribeQueued(): System {
    var acks := map[0 := Ack(1, true, false, 0), 1 := Ack(1, false, false, 0)];
    Registered().(t := OneHash(2, ThreeFlags(false), 1, acks, {1}, 2),
                  regs := map[0 := FIRST, 1 := Registrant(1, 2, 2, Sent(1), None)])
  }

  function IndexedAgain(): System {
    SubscribeQueued().(reregs := map[0 := Rereg(1, 1, 1, true)], indexed := {(1, 0, 1), (1, 1, 1)})
  }

  function MarkedEarly(): System {
    IndexedAgain().(t := IndexedAgain().t.(flags := ThreeFlags(true)))
  }

  lemma Reconnects()
    ensures Follows(Subscribed(), Reconnect(map[1 := 1], {1}), Reconnected())
  {
    var t, names := Subscribed().t, map[1 := 1];
    assert Stale(t, 1) && Fresh(t, names);
    var d := Invalidate(t, names);
    assert names.Values == {1};
    assert d.ready == map[1 := 1] && d.flags == TwoFlags();
    assert Collapse(d, {1}).pending == map[];
  }

  lemma QueuesRereg()
    ensures Follows(Reconnected(), Confirmation(1, 0), ReregQueued())
  {
  }

  lemma Leaves()
    ensures Follows(ReregQueued(), Step.Leave(1), SubscriberLeft())
  {
    var t := ReregQueued().t;
    assert t.refcount - {1} == map[] && t.ready - {1} == map[] && t.local - {1} == {};
  }

  lemma RegistersAgain()
    ensures Follows(SubscriberLeft(), RegisterFirst(1, 1, 2), Registered())
  {
    assert TwoFlags()[2 := ReadyFlag(false, false)] == ThreeFlags(false);
  }

  lemma QueuesSubscribe()
    ensures Follows(Registered(), SendSubscribe(1, 1), SubscribeQueued())
  {
    var s := Registered();
    assert {} + {1} == {1};
    assert s.t.acks[1 := Ack(1, false, false, 0)] == SubscribeQueued().t.acks;
    assert s.regs[1 := Registrant(1, 2, 2, Sent(1), None)] == SubscribeQueued().regs;
  }

  lemma IndexesAgain()
    ensures Follows(SubscribeQueued(), IndexAgain(0), IndexedAgain())
  {
    assert {(1, 0, 1)} + {(1, 1, 1)} == {(1, 0, 1), (1, 1, 1)};
  }

  lemma MarksEarly()
    ensures Follows(IndexedAgain(), Mark(0), MarkedEarly()) && MarksForAnother(IndexedAgain(), Mark(0))
  {
    assert ThreeFlags(false)[2 := ReadyFlag(true, false)] == ThreeFlags(true);
    var s := IndexedAgain();
    assert forall g :: !RegLanded(s, g, 1, 1, 2);
    assert forall q :: !ReregLanded(s, q, 1, 1, 2);
  }

  /**
   A reconnect queues a re-registration, the subscriber leaves, another registers the same filter:
   the queued re-registration marks the new registration ready before its SUBSCRIBE is even sent.
   */
  lemma MarkedForAnother() returns (states: seq<System>, steps: seq<Step>)
    ensures IsRun(states, steps) && states[0] == Subscribed()
    ensures var d := states[|steps|];
            IsRouted(d.t, 1) && 1 in d.t.commands && 1 in d.t.acks && !d.t.acks[1].isSet && !RoutedAnew(d)
  {
    Reconnects();
    QueuesRereg();
    Leaves();
    RegistersAgain();
    QueuesSubscribe();
    IndexesAgain();
    MarksEarly();
    states := [Subscribed(), Reconnected(), ReregQueued(), SubscriberLeft(), Registered(), SubscribeQueued(),
        IndexedAgain(),
               MarkedEarly()];
    steps := [Reconnect(map[1 := 1], {1}), Confirmation(1, 0), Step.Leave(1), RegisterFirst(1, 1, 2),
        SendSubscribe(1, 1),
              IndexAgain(0), Mark(0)];
    var d := MarkedEarly();
    assert IsRouted(d.t, 1) && (1, d.t.gen, Epoch(d.t, 1)) !in d.indexed;
    hide Do, Enabled;
  }
}
