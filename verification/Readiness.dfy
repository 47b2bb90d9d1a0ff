/**
 When a subscribed filter counts as routed. Registrants, the listener and the maintenance thread take
 steps under the state lock; the network confirms subscriptions, loses and replaces the connection
 at any moment.
 */
module Readiness {
  import opened Wrappers

  type Hash = nat
  type ReadyId = nat
  type AckId = nat
  type RegId = nat

  datatype ReadyFlag = ReadyFlag(isSet: bool, error: bool)
  datatype Ack = Ack(hash: Hash, isSet: bool, error: bool, gen: nat)

  /** Fields guarded by the state lock or owned by the listener; `empties` are filters that match nothing. */
  datatype Table = Table(
    empties: set<Hash>,
    refcount: map<Hash, nat>,
    local: set<Hash>,
    ready: map<Hash, ReadyId>,
    flags: map<ReadyId, ReadyFlag>,
    gen: nat,
    commands: set<AckId>,
    acks: map<AckId, Ack>,
    pending: map<Hash, seq<seq<AckId>>>,
    epoch: map<Hash, nat>)

  /** A first registrant's progress. */
  datatype Phase =
    | Begun | Sent(ack: AckId) | Confirmed(ack: AckId) | Indexed(ack: AckId) | Outdated | Finishing | Failing | Ended

  /** `landed` is the generation of the confirmation its index call followed, once that call has landed. */
  datatype Registrant = Registrant(hash: Hash, ready: ReadyId, epoch: nat, phase: Phase, landed: Option<nat>)

  /** A queued re-registration; `landed` once the server has indexed the hash again. */
  datatype Rereg = Rereg(hash: Hash, gen: nat, epoch: nat, landed: bool)

  /** `indexed` records (hash, generation, epoch): indexed after a confirmation read in that generation. */
  datatype System = System(
    t: Table,
    regs: map<RegId, Registrant>,
    reregs: map<nat, Rereg>,
    indexed: set<(Hash, nat, nat)>)

  function Epoch(t: Table, h: Hash): nat {
    if h in t.epoch then t.epoch[h] else 0
  }

  /** The groups of acks that await a confirmation of the channel. */
  function Waiting(t: Table, h: Hash): seq<seq<AckId>> {
    if h in t.pending then t.pending[h] else []
  }

  function SetFlag(t: Table, r: ReadyId): Table
    requires r in t.flags
  {
    t.(flags := t.flags[r := t.flags[r].(isSet := true)])
  }

  /** The readiness that an invalidation replaces: registered, set, and without error. */
  predicate Stale(t: Table, h: Hash) {
    h in t.local && h in t.ready && t.ready[h] in t.flags && t.flags[t.ready[h]].isSet && !t.flags[t.ready[h]].error
  }

  /** A fresh unset readiness for every hash that was routed; `names` are the new objects. */
  function Invalidate(t: Table, names: map<Hash, ReadyId>): Table {
    t.(gen := t.gen + 1,
       ready := map h | h in t.ready :: if Stale(t, h) && h in names then names[h] else t.ready[h],
       flags := map r | r in t.flags.Keys + names.Values :: if r in t.flags then t.flags[r] else ReadyFlag(false,
           false))
  }

  /** New names for exactly the hashes that need one, none used before, none twice. */
  predicate Fresh(t: Table, names: map<Hash, ReadyId>) {
    && (forall h :: h in names ==> names[h] !in t.flags)
    && (forall h :: h in t.ready && Stale(t, h) ==> h in names)
    && (forall g, h :: g in names && h in names && names[g] == names[h] ==> g == h)
  }

  function Flatten(groups: seq<seq<AckId>>): seq<AckId> {
    if groups == [] then [] else groups[0] + Flatten(groups[1..])
  }

  /** Collapsing groups loses no waiting ack and brings in none. */
  lemma {:induction false} FlattenKeeps(groups: seq<seq<AckId>>)
    ensures forall a :: a in Flatten(groups) <==> exists i :: 0 <= i < |groups| && a in groups[i]
  {
    if groups != [] {
      FlattenKeeps(groups[1..]);
      forall a ensures a in Flatten(groups) <==> exists i :: 0 <= i < |groups| && a in groups[i] {
        if i :| 0 <= i < |groups| && a in groups[i] {
          assert i > 0 ==> a in groups[1..][i - 1];
        }
        if a in Flatten(groups[1..]) {
          var i :| 0 <= i < |groups| - 1 && a in groups[1..][i];
          assert a in groups[i + 1];
        }
      }
    }
  }

  /** After a reconnect each live channel is confirmed once: its groups are collapsed into one. */
  function Collapse(t: Table, channels: set<Hash>): Table {
    t.(pending := map h | h in t.pending && h in channels :: [Flatten(t.pending[h])])
  }

  function Release(acks: map<AckId, Ack>, group: seq<AckId>, gen: nat): map<AckId, Ack> {
    map a | a in acks :: if a in group then acks[a].(isSet := true, gen := gen) else acks[a]
  }

  /** A confirmation releases the oldest waiting group of its channel. */
  function Confirm(t: Table, h: Hash): Table
    requires h in t.pending && t.pending[h] != []
  {
    var groups := t.pending[h];
    t.(acks := Release(t.acks, groups[0], t.gen),
       pending := if |groups| == 1 then t.pending - {h} else t.pending[h := groups[1..]])
  }

  /** The SUBSCRIBE went out and its ack waits for a confirmation, or the ack ends as an error. */
  function SubscribeRun(t: Table, a: AckId, ok: bool): Table
    requires a in t.acks
  {
    var h := t.acks[a].hash;
    if ok then t.(commands := t.commands - {a}, pending := t.pending[h := Waiting(t, h) + [[a]]])
    else t.(commands := t.commands - {a}, acks := t.acks[a := t.acks[a].(isSet := true, error := true)])
  }

  /** A landed re-registration counts only if nothing was lost since its confirmation. */
  predicate Counts(t: Table, h: Hash, gen: nat) {
    h in t.ready && t.ready[h] in t.flags && gen == t.gen && h in t.local && !t.flags[t.ready[h]].error
  }

  function MarkReady(t: Table, h: Hash, gen: nat): Table {
    if Counts(t, h, gen) then SetFlag(t, t.ready[h]) else t
  }

  function Forget(t: Table, h: Hash): Table {
    t.(refcount := t.refcount - {h}, ready := t.ready - {h}, local := t.local - {h})
  }

  function Unregister(t: Table, h: Hash): Table {
    var prior := if h in t.refcount then t.refcount[h] else 0;
    if prior > 1 then t.(refcount := t.refcount[h := prior - 1]) else Forget(t, h)
  }

  function RollBack(t: Table, h: Hash, r: ReadyId): Table
    requires r in t.flags
  {
    var d := if h in t.ready && t.ready[h] == r then Forget(t, h) else t;
    d.(flags := d.flags[r := d.flags[r].(isSet := true, error := true)])
  }

  // ---------------------------------------------------------------------------
  // Steps
  // ---------------------------------------------------------------------------

  datatype Step =
    | RegisterFirst(g: RegId, h: Hash, r: ReadyId)   // nobody is registered for the hash
    | RegisterMore(h: Hash)                          // a later registrant waits for the same readiness
    | FinishEmpty(g: RegId)                          // the filter matches nothing: no routing needed
    | SendSubscribe(g: RegId, a: AckId)              // made local, SUBSCRIBE queued
    | RunSubscribe(a: AckId, ok: bool)               // the listener sends it, or fails to
    | Confirmation(h: Hash, q: nat)                  // the listener reads a SUBSCRIBE confirmation
    | SeeAck(g: RegId)
    | IndexHash(g: RegId)                            // the registrant's index call lands
    | CheckGeneration(g: RegId)
    | SeeReady(g: RegId)                             // an outdated registrant sees its readiness set
    | Finish(g: RegId)
    | Fail(g: RegId)                                 // any error or timeout
    | Rollback(g: RegId)
    | Lose(names: map<Hash, ReadyId>)                // connection lost
    | Reconnect(names: map<Hash, ReadyId>, channels: set<Hash>)
    | IndexAgain(q: nat)                             // a queued re-registration's index call lands
    | Mark(q: nat)                                   // and is marked
    | Leave(h: Hash)                                 // a subscriber leaves

  predicate Enabled(s: System, step: Step) {
    var t := s.t;
    match step
    case RegisterFirst(g, h, r) => g !in s.regs && h !in t.refcount && r !in t.flags
    case RegisterMore(h) => h in t.refcount
    case FinishEmpty(g) => g in s.regs && s.regs[g].phase == Begun && s.regs[g].hash in t.empties
        && s.regs[g].ready in t.flags
    case SendSubscribe(g, a) => g in s.regs && s.regs[g].phase == Begun && s.regs[g].hash !in t.empties && a !in t.acks
    case RunSubscribe(a, _) => a in t.commands && a in t.acks
    case Confirmation(h, q) => q !in s.reregs
    case SeeAck(g) => g in s.regs && s.regs[g].phase.Sent? && s.regs[g].phase.ack in t.acks
                      && t.acks[s.regs[g].phase.ack].isSet && !t.acks[s.regs[g].phase.ack].error
    case IndexHash(g) => g in s.regs && s.regs[g].phase.Confirmed? && s.regs[g].phase.ack in t.acks
    case CheckGeneration(g) => g in s.regs && s.regs[g].phase.Indexed? && s.regs[g].phase.ack in t.acks
        && s.regs[g].ready in t.flags
    case SeeReady(g) => g in s.regs && s.regs[g].phase.Outdated? && s.regs[g].ready in t.flags
        && t.flags[s.regs[g].ready].isSet
    case Finish(g) => g in s.regs && s.regs[g].phase.Finishing? && s.regs[g].ready in t.flags
    case Fail(g) => g in s.regs && !s.regs[g].phase.Finishing? && !s.regs[g].phase.Ended?
    case Rollback(g) => g in s.regs && s.regs[g].phase.Failing? && s.regs[g].ready in t.flags
    case Lose(names) => Fresh(t, names)
    case Reconnect(names, _) => Fresh(t, names)
    case IndexAgain(q) => q in s.reregs && s.reregs[q].hash in t.local
    case Mark(q) => q in s.reregs && s.reregs[q].landed
    case Leave(h) => h in t.refcount
  }

  function Move(s: System, g: RegId, phase: Phase): System
    requires g in s.regs
  {
    s.(regs := s.regs[g := s.regs[g].(phase := phase)])
  }

  function Do(s: System, step: Step): System
    requires Enabled(s, step)
  {
    var t := s.t;
    match step
    case RegisterFirst(g, h, r) =>
      var e := Epoch(t, h) + 1;
      s.(t := t.(refcount := t.refcount[h := 1], ready := t.ready[h := r],
          flags := t.flags[r := ReadyFlag(false, false)],
                 epoch := t.epoch[h := e]),
         regs := s.regs[g := Registrant(h, r, e, Begun, None)])
    case RegisterMore(h) => s.(t := t.(refcount := t.refcount[h := t.refcount[h] + 1]))
    case FinishEmpty(g) => Move(s, g, Ended).(t := SetFlag(t, s.regs[g].ready))
    case SendSubscribe(g, a) =>
      Move(s, g,
          Sent(a)).(t := t.(local := t.local + {s.regs[g].hash},
              acks := t.acks[a := Ack(s.regs[g].hash, false, false, 0)],
                                   commands := t.commands + {a}))
    case RunSubscribe(a, ok) => s.(t := SubscribeRun(t, a, ok))
    case Confirmation(h, q) =>
      if h in t.pending && t.pending[h] != [] then s.(t := Confirm(t, h))
      else if h in t.local then s.(reregs := s.reregs[q := Rereg(h, t.gen, Epoch(t, h), false)])
      else s
    case SeeAck(g) => Move(s, g, Confirmed(s.regs[g].phase.ack))
    case IndexHash(g) =>
      var reg, gen := s.regs[g], t.acks[s.regs[g].phase.ack].gen;
      s.(regs := s.regs[g := reg.(phase := Indexed(reg.phase.ack), landed := Some(gen))],
         indexed := s.indexed + {(reg.hash, gen, reg.epoch)})
    case CheckGeneration(g) =>
      if t.gen == t.acks[s.regs[g].phase.ack].gen then Move(s, g, Finishing).(t := SetFlag(t, s.regs[g].ready))
      else Move(s, g, Outdated)
    case SeeReady(g) => Move(s, g, Finishing)
    case Finish(g) => Move(s, g, Ended).(t := SetFlag(t, s.regs[g].ready))
    case Fail(g) => Move(s, g, Failing)
    case Rollback(g) => Move(s, g, Ended).(t := RollBack(t, s.regs[g].hash, s.regs[g].ready))
    case Lose(names) => s.(t := Invalidate(t, names))
    case Reconnect(names, channels) => s.(t := Collapse(Invalidate(t, names), channels))
    case IndexAgain(q) =>
      var w := s.reregs[q];
      s.(reregs := s.reregs[q := w.(landed := true)], indexed := s.indexed + {(w.hash, w.gen, w.epoch)})
    case Mark(q) => s.(t := MarkReady(t, s.reregs[q].hash, s.reregs[q].gen))
    case Leave(h) => s.(t := Unregister(t, h))
  }

  ghost predicate Init(s: System) {
    && s.t.refcount == map[] && s.t.local == {} && s.t.ready == map[] && s.t.flags == map[] && s.t.acks == map[]
    && s.t.pending == map[] && s.t.commands == {} && s.t.epoch == map[] && s.regs == map[] && s.reregs == map[]
      && s.indexed == {}
  }

  // ---------------------------------------------------------------------------
  // Invariants
  // ---------------------------------------------------------------------------

  /** Indexed after a confirmation read in this generation. */
  ghost predicate RoutedIn(s: System, h: Hash, gen: nat) {
    exists e :: (h, gen, e) in s.indexed
  }

  predicate IsRouted(t: Table, h: Hash) {
    h in t.ready && t.ready[h] in t.flags && t.flags[t.ready[h]].isSet && !t.flags[t.ready[h]].error
  }

  /** Whenever a hash counts as ready it was indexed after a confirmation read in the current generation. */
  ghost predicate ReadyMeansRouted(s: System) {
    forall h :: h !in s.t.empties && IsRouted(s.t, h) ==> RoutedIn(s, h, s.t.gen)
  }

  /** A hash that counts as ready is registered, so an invalidation reaches it. */
  ghost predicate RoutedIsLocal(s: System) {
    && (forall h :: h !in s.t.empties && IsRouted(s.t, h) ==> h in s.t.local)
    && (forall h :: h in s.t.ready ==> s.t.ready[h] in s.t.flags)
  }

  /** No two hashes share a readiness, and a registrant's readiness is its own hash's. */
  ghost predicate ReadyOwned(s: System) {
    NoneShared(s.t) && RegsOwn(s.t, s.regs)
  }

  ghost predicate NoneShared(t: Table) {
    forall g, h :: g in t.ready && h in t.ready && t.ready[g] == t.ready[h] ==> g == h
  }

  ghost predicate RegsOwn(t: Table, regs: map<RegId, Registrant>) {
    forall g, h :: g in regs && h in t.ready && t.ready[h] == regs[g].ready ==>
      h == regs[g].hash && regs[g].epoch == Epoch(t, h)
  }

  predicate NoRepeats(q: seq<AckId>) {
    forall i, j :: 0 <= i < j < |q| ==> q[i] != q[j]
  }

  /** An ack waits in one place only, and until then it is not set. */
  ghost predicate AcksOk(t: Table) {
    && (forall a :: a in t.commands ==> a in t.acks && !t.acks[a].isSet)
    && (forall h :: h in t.pending ==> NoRepeats(Flatten(t.pending[h])))
    && (forall h, a :: h in t.pending && a in Flatten(t.pending[h]) ==>
          a in t.acks && !t.acks[a].isSet && t.acks[a].hash == h && a !in t.commands)
  }

  /** What a registrant's phase says about its ack, the index, and its readiness. */
  ghost predicate RegOk(s: System, reg: Registrant) {
    && reg.ready in s.t.flags
    && (reg.phase.Sent? || reg.phase.Confirmed? || reg.phase.Indexed? ==> reg.phase.ack in s.t.acks)
    && (reg.phase.Confirmed? || reg.phase.Indexed? ==> s.t.acks[reg.phase.ack].isSet)
    && (reg.phase.Indexed? ==> (reg.hash, s.t.acks[reg.phase.ack].gen, reg.epoch) in s.indexed)
    && (reg.phase.Finishing? ==> s.t.flags[reg.ready].isSet)
    && (reg.phase.Sent? || reg.phase.Confirmed? || reg.phase.Indexed? || reg.phase.Outdated? || reg.phase.Finishing? ==>
          (reg.hash in s.t.ready && s.t.ready[reg.hash] == reg.ready ==> reg.hash in s.t.local))
  }

  ghost predicate RegsOk(s: System) {
    forall g :: g in s.regs ==> RegOk(s, s.regs[g])
  }

  ghost predicate ReregsOk(s: System) {
    forall q :: q in s.reregs && s.reregs[q].landed ==>
        (s.reregs[q].hash, s.reregs[q].gen, s.reregs[q].epoch) in s.indexed
  }

  ghost predicate Inv(s: System) {
    ReadyMeansRouted(s) && RoutedIsLocal(s) && ReadyOwned(s) && AcksOk(s.t) && RegsOk(s) && ReregsOk(s)
  }

  lemma InitInv(s: System)
    requires Init(s)
    ensures Inv(s)
  {
  }

  lemma {:induction false} FlattenConcat(a: seq<seq<AckId>>, b: seq<seq<AckId>>)
    ensures Flatten(a + b) == Flatten(a) + Flatten(b)
  {
    if a == [] {
      assert a + b == b;
    } else {
      assert (a + b)[1..] == a[1..] + b;
      FlattenConcat(a[1..], b);
    }
  }

  // ---------------------------------------------------------------------------
  // Registrants
  // ---------------------------------------------------------------------------

  /** Steps that touch neither the table nor the index: only one registrant's phase moves. */
  lemma PhaseStep(s: System, step: Step)
    requires Inv(s) && Enabled(s, step) && (step.SeeAck? || step.SeeReady? || step.Fail?)
    ensures Inv(Do(s, step))
  {
    var d := Do(s, step);
    assert RegOk(s, s.regs[step.g]);
    forall g | g in d.regs ensures RegOk(d, d.regs[g]) {
      if g != step.g {
        assert RegOk(s, s.regs[g]);
      }
    }
  }

  lemma RegisterStep(s: System, step: Step)
    requires Inv(s) && Enabled(s, step) && step.RegisterFirst?
    ensures Inv(Do(s, step))
  {
    RegisterOwned(s, step);
    hide ReadyOwned, Flatten;
    var d := Do(s, step);
    forall g | g in d.regs ensures RegOk(d, d.regs[g]) {
      if g != step.g {
        assert RegOk(s, s.regs[g]);
      }
    }
    forall h | h !in d.t.empties && IsRouted(d.t, h) ensures h in d.t.local && RoutedIn(d, h, d.t.gen) {
      assert IsRouted(s.t, h);
      assert RoutedIn(s, h, s.t.gen);
    }
  }

  lemma RegisterOwned(s: System, step: Step)
    requires Inv(s) && Enabled(s, step) && step.RegisterFirst?
    ensures ReadyOwned(Do(s, step))
  {
    RegsKnown(s);
    hide AcksOk, RegsOk, ReregsOk, ReadyMeansRouted, RoutedIsLocal, RegOk;
  }

  lemma SendStep(s: System, step: Step)
    requires Inv(s) && Enabled(s, step) && step.SendSubscribe?
    ensures Inv(Do(s, step))
  {
    SendAcks(s, step);
    hide AcksOk, Flatten;
    var d := Do(s, step);
    assert RegOk(s, s.regs[step.g]);
    forall g | g in d.regs ensures RegOk(d, d.regs[g]) {
      if g != step.g {
        assert RegOk(s, s.regs[g]);
      }
    }
    forall h | h !in d.t.empties && IsRouted(d.t, h) ensures h in d.t.local && RoutedIn(d, h, d.t.gen) {
      assert IsRouted(s.t, h);
      assert RoutedIn(s, h, s.t.gen);
    }
  }

  lemma SendAcks(s: System, step: Step)
    requires Inv(s) && Enabled(s, step) && step.SendSubscribe?
    ensures AcksOk(Do(s, step).t)
  {
    hide RegsOk, ReregsOk, ReadyMeansRouted, RoutedIsLocal, RegOk, ReadyOwned, Flatten, NoRepeats;
  }

  lemma IndexStep(s: System, step: Step)
    requires Inv(s) && Enabled(s, step) && (step.IndexHash? || step.IndexAgain?)
    ensures Inv(Do(s, step))
  {
    var d := Do(s, step);
    assert s.indexed <= d.indexed;
    forall g | g in d.regs ensures RegOk(d, d.regs[g]) {
      assert RegOk(s, s.regs[g]);
    }
    forall h | h !in d.t.empties && IsRouted(d.t, h) ensures RoutedIn(d, h, d.t.gen) {
      assert IsRouted(s.t, h);
      var e :| (h, s.t.gen, e) in s.indexed;
      assert (h, d.t.gen, e) in d.indexed;
    }
  }

  /** Steps that set a readiness flag: only the hash that owns it can start to count as routed. */
  lemma SetKeeps(s: System, r: ReadyId, h: Hash)
    requires Inv(s) && r in s.t.flags && (forall g :: g in s.t.ready && s.t.ready[g] == r ==> g == h)
    requires h in s.t.ready && s.t.ready[h] == r && h !in s.t.empties && !s.t.flags[r].error ==>
               h in s.t.local && RoutedIn(s, h, s.t.gen)
    ensures Inv(s.(t := SetFlag(s.t, r)))
  {
    var d := s.(t := SetFlag(s.t, r));
    forall g | g in d.regs ensures RegOk(d, d.regs[g]) {
      assert RegOk(s, s.regs[g]);
    }
    forall x | x !in d.t.empties && IsRouted(d.t, x) ensures x in d.t.local && RoutedIn(d, x, d.t.gen) {
      if d.t.ready[x] != r {
        assert IsRouted(s.t, x);
      }
      assert RoutedIn(s, x, s.t.gen);
    }
  }

  lemma PhaseKeeps(s: System, g: RegId, phase: Phase)
    requires Inv(s) && g in s.regs && RegOk(s, s.regs[g].(phase := phase))
    ensures Inv(Move(s, g, phase))
  {
    var d := Move(s, g, phase);
    forall x | x in d.regs ensures RegOk(d, d.regs[x]) {
      if x != g {
        assert RegOk(s, s.regs[x]);
      }
    }
  }

  lemma CheckStep(s: System, step: Step)
    requires Inv(s) && Enabled(s, step) && step.CheckGeneration?
    ensures Inv(Do(s, step))
  {
    var reg, t := s.regs[step.g], s.t;
    assert RegOk(s, reg);
    if t.gen == t.acks[reg.phase.ack].gen {
      assert RoutedIn(s, reg.hash, t.gen);
      SetKeeps(s, reg.ready, reg.hash);
      PhaseKeeps(s.(t := SetFlag(t, reg.ready)), step.g, Finishing);
    } else {
      PhaseKeeps(s, step.g, Outdated);
    }
  }

  lemma FinishStep(s: System, step: Step)
    requires Inv(s) && Enabled(s, step) && (step.Finish? || step.FinishEmpty?)
    ensures Inv(Do(s, step))
  {
    var reg := s.regs[step.g];
    assert RegOk(s, reg);
    if step.Finish? {
      assert s.t.flags[reg.ready].isSet;
      if reg.hash in s.t.ready && s.t.ready[reg.hash] == reg.ready && reg.hash !in s.t.empties
          && !s.t.flags[reg.ready].error {
        assert IsRouted(s.t, reg.hash);
      }
    }
    SetKeeps(s, reg.ready, reg.hash);
    PhaseKeeps(s.(t := SetFlag(s.t, reg.ready)), step.g, Ended);
  }

  lemma MarkStep(s: System, step: Step)
    requires Inv(s) && Enabled(s, step) && step.Mark?
    ensures Inv(Do(s, step))
  {
    var w := s.reregs[step.q];
    if Counts(s.t, w.hash, w.gen) {
      assert (w.hash, s.t.gen, w.epoch) in s.indexed;
      assert RoutedIn(s, w.hash, s.t.gen);
      SetKeeps(s, s.t.ready[w.hash], w.hash);
    }
  }

  /** Forgetting a hash, or a count: nothing starts to count as routed. */
  lemma ForgetKeeps(s: System, d: System)
    requires Inv(s) && d == s.(t := d.t)
    requires d.t == s.t.(refcount := d.t.refcount, ready := d.t.ready, local := d.t.local)
    requires forall h :: h in d.t.ready ==> h in s.t.ready && s.t.ready[h] == d.t.ready[h]
    requires forall h :: h in d.t.ready && h in s.t.local ==> h in d.t.local
    ensures Inv(d)
  {
    forall g | g in d.regs ensures RegOk(d, d.regs[g]) {
      assert RegOk(s, s.regs[g]);
    }
    forall h | h !in d.t.empties && IsRouted(d.t, h) ensures h in d.t.local && RoutedIn(d, h, d.t.gen) {
      assert IsRouted(s.t, h);
      assert RoutedIn(s, h, s.t.gen);
    }
  }

  lemma LeaveStep(s: System, step: Step)
    requires Inv(s) && Enabled(s, step) && (step.Leave? || step.RegisterMore?)
    ensures Inv(Do(s, step))
  {
    ForgetKeeps(s, Do(s, step));
  }

  lemma RollbackStep(s: System, step: Step)
    requires Inv(s) && Enabled(s, step) && step.Rollback?
    ensures Inv(Do(s, step))
  {
    var reg := s.regs[step.g];
    var h, r := reg.hash, reg.ready;
    var f := if h in s.t.ready && s.t.ready[h] == r then s.(t := Forget(s.t, h)) else s;
    ForgetKeeps(s, f);
    FailFlagKeeps(f, r);
    assert RegOk(f, reg);
    PhaseKeeps(f.(t := f.t.(flags := f.t.flags[r := f.t.flags[r].(isSet := true, error := true)])), step.g, Ended);
  }

  lemma FailFlagKeeps(s: System, r: ReadyId)
    requires Inv(s) && r in s.t.flags
    ensures Inv(s.(t := s.t.(flags := s.t.flags[r := s.t.flags[r].(isSet := true, error := true)])))
  {
    var d := s.(t := s.t.(flags := s.t.flags[r := s.t.flags[r].(isSet := true, error := true)]));
    forall g | g in d.regs ensures RegOk(d, d.regs[g]) {
      assert RegOk(s, s.regs[g]);
    }
    forall h | h !in d.t.empties && IsRouted(d.t, h) ensures h in d.t.local && RoutedIn(d, h, d.t.gen) {
      assert IsRouted(s.t, h);
      assert RoutedIn(s, h, s.t.gen);
    }
  }

  // ---------------------------------------------------------------------------
  // The listener
  // ---------------------------------------------------------------------------

  /** Acks that change only where no registrant relies on them. */
  lemma AcksKeep(s: System, d: System)
    requires Inv(s) && d == s.(t := s.t.(acks := d.t.acks, pending := d.t.pending, commands := d.t.commands))
    requires AcksOk(d.t) && d.t.acks.Keys == s.t.acks.Keys
    requires forall a :: a in s.t.acks && s.t.acks[a].isSet ==> d.t.acks[a] == s.t.acks[a]
    ensures Inv(d)
  {
    forall g | g in d.regs ensures RegOk(d, d.regs[g]) {
      assert RegOk(s, s.regs[g]);
    }
    forall h | h !in d.t.empties && IsRouted(d.t, h) ensures h in d.t.local && RoutedIn(d, h, d.t.gen) {
      assert IsRouted(s.t, h);
      assert RoutedIn(s, h, s.t.gen);
    }
  }

  lemma RunSubscribeStep(s: System, step: Step)
    requires Inv(s) && Enabled(s, step) && step.RunSubscribe?
    ensures Inv(Do(s, step))
  {
    RunAcks(s.t, step.a, step.ok);
    hide AcksOk, Inv;
    AcksKeep(s, Do(s, step));
  }

  lemma RunAcks(t: Table, a: AckId, ok: bool)
    requires AcksOk(t) && a in t.commands && a in t.acks
    ensures AcksOk(SubscribeRun(t, a, ok))
  {
    if ok {
      var h := t.acks[a].hash;
      var before := Waiting(t, h);
      FlattenConcat(before, [[a]]);
      assert Flatten([[a]]) == [a] + Flatten([]);
      assert a !in Flatten(before);
      assert Flatten(before + [[a]]) == Flatten(before) + [a];
    }
  }

  lemma PartsApart(p: seq<AckId>, q: seq<AckId>)
    requires NoRepeats(p + q)
    ensures forall a :: a in p ==> a in p + q && a !in q
  {
    forall i, j | 0 <= i < |p| && 0 <= j < |q| ensures p[i] != q[j] {
      assert (p + q)[i] != (p + q)[|p| + j];
    }
  }

  lemma ConfirmationStep(s: System, step: Step)
    requires Inv(s) && Enabled(s, step) && step.Confirmation?
    ensures Inv(Do(s, step))
  {
    var d, t, h := Do(s, step), s.t, step.h;
    if h in t.pending && t.pending[h] != [] {
      var groups := t.pending[h];
      assert Flatten(groups) == groups[0] + Flatten(groups[1..]);
      PartsApart(groups[0], Flatten(groups[1..]));
      ConfirmedAcks(t, h);
      AcksKeep(s, d);
    } else {
      forall g | g in d.regs ensures RegOk(d, d.regs[g]) {
        assert RegOk(s, s.regs[g]);
      }
      forall x | x !in d.t.empties && IsRouted(d.t, x) ensures RoutedIn(d, x, d.t.gen) {
        assert RoutedIn(s, x, s.t.gen);
      }
    }
  }

  lemma ConfirmedAcks(t: Table, h: Hash)
    requires AcksOk(t) && h in t.pending && t.pending[h] != []
    requires forall a :: a in t.pending[h][0] ==> a in Flatten(t.pending[h]) && a !in Flatten(t.pending[h][1..])
    ensures AcksOk(Confirm(t, h))
  {
    var groups, d := t.pending[h], Confirm(t, h);
    assert Flatten(groups) == groups[0] + Flatten(groups[1..]);
    forall x | x in d.pending ensures NoRepeats(Flatten(d.pending[x])) {
      if x == h {
        forall i, j | 0 <= i < j < |Flatten(groups[1..])| ensures Flatten(groups[1..])[i] != Flatten(groups[1..])[j] {
          assert Flatten(groups)[|groups[0]| + i] != Flatten(groups)[|groups[0]| + j];
        }
      }
    }
    forall x, a | x in d.pending && a in Flatten(d.pending[x])
      ensures a in d.acks && !d.acks[a].isSet && d.acks[a].hash == x && a !in d.commands
    {
      assert x == h ==> a in Flatten(groups);
      assert a !in groups[0];
    }
  }

  /** A loss leaves nothing counting as routed: every routed hash was registered, so it was reset. */
  lemma LoseStep(s: System, names: map<Hash, ReadyId>)
    requires Inv(s) && Fresh(s.t, names)
    ensures Inv(s.(t := Invalidate(s.t, names)))
    ensures forall h :: h !in s.t.empties ==> !IsRouted(Invalidate(s.t, names), h)
  {
    var t := s.t;
    var d := s.(t := Invalidate(t, names));
    assert d.t.ready.Keys == t.ready.Keys;
    forall h | h !in t.empties && IsRouted(t, h) ensures h in names && d.t.ready[h] == names[h] {
      assert h in t.local && Stale(t, h);
    }
    RoutedIsNew(t, names);
    forall g | g in d.regs ensures RegOk(d, d.regs[g]) {
      assert RegOk(s, s.regs[g]);
    }
    LostOwned(s, names);
  }

  /** What counts as routed after a loss did so before, under the same readiness. */
  lemma RoutedIsNew(t: Table, names: map<Hash, ReadyId>)
    requires Fresh(t, names) && forall h :: h in t.ready ==> t.ready[h] in t.flags
    ensures var d := Invalidate(t, names);
            forall h :: IsRouted(d, h) ==>
              IsRouted(t, h) && d.ready[h] == t.ready[h] && (h in names ==> d.ready[h] != names[h])
  {
    hide Stale;
  }

  lemma LostOwned(s: System, names: map<Hash, ReadyId>)
    requires Inv(s) && Fresh(s.t, names)
    ensures ReadyOwned(s.(t := Invalidate(s.t, names)))
    ensures forall h :: h in Invalidate(s.t, names).ready ==>
          Invalidate(s.t, names).ready[h] in Invalidate(s.t, names).flags
  {
    RegsKnown(s);
    OldOrNew(s.t, names);
    LostShared(s.t, names);
    LostRegs(s.t, names, s.regs);
    hide Invalidate, AcksOk, RegsOk, ReregsOk, ReadyMeansRouted, RoutedIsLocal, NoneShared, RegsOwn;
  }

  lemma LostShared(t: Table, names: map<Hash, ReadyId>)
    requires NoneShared(t) && Fresh(t, names) && forall h :: h in t.ready ==> t.ready[h] in t.flags
    ensures NoneShared(Invalidate(t, names))
  {
    OldOrNew(t, names);
    hide Invalidate, Stale;
  }

  lemma LostRegs(t: Table, names: map<Hash, ReadyId>, regs: map<RegId, Registrant>)
    requires RegsOwn(t, regs) && Fresh(t, names) && forall h :: h in t.ready ==> t.ready[h] in t.flags
    requires forall g :: g in regs ==> regs[g].ready in t.flags
    ensures RegsOwn(Invalidate(t, names), regs)
  {
    OldOrNew(t, names);
    hide Invalidate, Stale;
  }

  lemma OldOrNew(t: Table, names: map<Hash, ReadyId>)
    requires forall h :: h in t.ready ==> t.ready[h] in t.flags
    ensures var d := Invalidate(t, names);
            && d.epoch == t.epoch && d.ready.Keys == t.ready.Keys
            && forall h :: h in d.ready ==>
                 && d.ready[h] in d.flags
                 && (d.ready[h] == t.ready[h] || (h in names && d.ready[h] == names[h]))
  {
  }

  lemma RegsKnown(s: System)
    requires Inv(s)
    ensures forall g :: g in s.regs ==> s.regs[g].ready in s.t.flags
    ensures forall h :: h in s.t.ready ==> s.t.ready[h] in s.t.flags
  {
    forall g | g in s.regs ensures s.regs[g].ready in s.t.flags {
      assert RegOk(s, s.regs[g]);
    }
  }

  lemma ReconnectStep(s: System, step: Step)
    requires Inv(s) && Enabled(s, step) && (step.Lose? || step.Reconnect?)
    ensures Inv(Do(s, step))
    ensures forall h :: h !in s.t.empties ==> !IsRouted(Do(s, step).t, h)
  {
    LoseStep(s, step.names);
    if step.Reconnect? {
      var d := s.(t := Invalidate(s.t, step.names));
      CollapsedAcks(d.t, step.channels);
      AcksKeep(d, Do(s, step));
    }
  }

  lemma CollapsedAcks(t: Table, channels: set<Hash>)
    requires AcksOk(t)
    ensures AcksOk(Collapse(t, channels))
  {
    forall h | h in t.pending ensures Flatten([Flatten(t.pending[h])]) == Flatten(t.pending[h]) {
      assert Flatten([Flatten(t.pending[h])]) == Flatten(t.pending[h]) + Flatten([]);
    }
  }

  /** In every run every step keeps the invariant. */
  lemma StepKeepsInv(s: System, step: Step)
    requires Inv(s) && Enabled(s, step)
    ensures Inv(Do(s, step))
  {
    hide *;
    match step
    case RegisterFirst(_, _, _) => RegisterStep(s, step);
    case RegisterMore(_) => LeaveStep(s, step);
    case FinishEmpty(_) => FinishStep(s, step);
    case SendSubscribe(_, _) => SendStep(s, step);
    case RunSubscribe(_, _) => RunSubscribeStep(s, step);
    case Confirmation(_, _) => ConfirmationStep(s, step);
    case SeeAck(_) => PhaseStep(s, step);
    case IndexHash(_) => IndexStep(s, step);
    case CheckGeneration(_) => CheckStep(s, step);
    case SeeReady(_) => PhaseStep(s, step);
    case Finish(_) => FinishStep(s, step);
    case Fail(_) => PhaseStep(s, step);
    case Rollback(_) => RollbackStep(s, step);
    case Lose(_) => ReconnectStep(s, step);
    case Reconnect(_, _) => ReconnectStep(s, step);
    case IndexAgain(_) => IndexStep(s, step);
    case Mark(_) => MarkStep(s, step);
    case Leave(_) => LeaveStep(s, step);
  }

  // ---------------------------------------------------------------------------
  // Runs
  // ---------------------------------------------------------------------------

  ghost predicate IsRun(states: seq<System>, steps: seq<Step>) {
    && |states| == |steps| + 1
    && forall i :: 0 <= i < |steps| ==> Enabled(states[i], steps[i]) && states[i + 1] == Do(states[i], steps[i])
  }

  /** In every run, losses and reconnects included: what counts as ready is routed in this generation. */
  lemma {:induction false} ReadyInEveryRun(states: seq<System>, steps: seq<Step>, i: nat, h: Hash)
    requires IsRun(states, steps) && Init(states[0]) && i < |states|
    ensures Inv(states[i])
    ensures h in states[i].t.local && h !in states[i].t.empties && IsRouted(states[i].t, h) ==>
              RoutedIn(states[i], h, states[i].t.gen)
  {
    if i == 0 {
      InitInv(states[0]);
    } else {
      ReadyInEveryRun(states, steps, i - 1, h);
      StepKeepsInv(states[i - 1], steps[i - 1]);
    }
  }

  // ---------------------------------------------------------------------------
  // Who indexed a hash
  // ---------------------------------------------------------------------------

  /** The index call of registrant `g` landed for this hash, generation and registration. */
  predicate RegLanded(s: System, g: RegId, h: Hash, gen: nat, e: nat) {
    g in s.regs && s.regs[g].hash == h && s.regs[g].epoch == e && s.regs[g].landed == Some(gen)
  }

  predicate ReregLanded(s: System, q: nat, h: Hash, gen: nat, e: nat) {
    q in s.reregs && s.reregs[q] == Rereg(h, gen, e, true)
  }

  /** An index call of registration `e`, the registrant's or a queued one, landed in this generation. */
  ghost predicate Landed(s: System, h: Hash, gen: nat, e: nat) {
    (exists g :: RegLanded(s, g, h, gen, e)) || (exists q :: ReregLanded(s, q, h, gen, e))
  }

  /** What was indexed is what these calls indexed; a queued one belongs to no later registration. */
  ghost predicate History(s: System) {
    && (forall h: Hash, gen: nat, e: nat :: (h, gen, e) in s.indexed <==> Landed(s, h, gen, e))
    && (forall g :: g in s.regs && (s.regs[g].phase.Begun? || s.regs[g].phase.Sent? || s.regs[g].phase.Confirmed?) ==>
          s.regs[g].landed.None?)
    && (forall q :: q in s.reregs ==> s.reregs[q].epoch <= Epoch(s.t, s.reregs[q].hash))
  }

  /** Only phases past the index call, and the table but for its epochs, may differ. */
  ghost predicate SameCalls(s: System, d: System) {
    && d.regs.Keys == s.regs.Keys && d.reregs == s.reregs && d.indexed == s.indexed && d.t.epoch == s.t.epoch
    && (forall g :: g in s.regs ==>
          && d.regs[g].hash == s.regs[g].hash && d.regs[g].epoch == s.regs[g].epoch
            && d.regs[g].landed == s.regs[g].landed
          && (d.regs[g].phase == s.regs[g].phase || (s.regs[g].phase.Begun? && d.regs[g].phase.Sent?)
              || (s.regs[g].phase.Sent? && d.regs[g].phase.Confirmed?)
              || !(d.regs[g].phase.Begun? || d.regs[g].phase.Sent? || d.regs[g].phase.Confirmed?)))
  }

  lemma SameHistory(s: System, d: System)
    requires History(s) && SameCalls(s, d)
    ensures History(d)
  {
    forall h: Hash, gen: nat, e: nat ensures Landed(d, h, gen, e) <==> Landed(s, h, gen, e) {
      assert forall g :: RegLanded(d, g, h, gen, e) <==> RegLanded(s, g, h, gen, e);
      assert forall q :: ReregLanded(d, q, h, gen, e) <==> ReregLanded(s, q, h, gen, e);
    }
  }

  lemma MoveSame(s: System, step: Step)
    requires Enabled(s, step) && !step.RegisterFirst? && !step.IndexHash? && !step.Confirmation? && !step.IndexAgain?
    ensures SameCalls(s, Do(s, step))
  {
    if step.Lose? || step.Reconnect? || step.Leave? || step.RegisterMore? || step.RunSubscribe? || step.Mark? {
      TableSame(s, step);
      hide Do, Enabled;
    }
  }

  lemma TableSame(s: System, step: Step)
    requires Enabled(s, step)
    requires step.Lose? || step.Reconnect? || step.Leave? || step.RegisterMore? || step.RunSubscribe? || step.Mark?
    ensures var d := Do(s, step);
            d.regs == s.regs && d.reregs == s.reregs && d.indexed == s.indexed && d.t.epoch == s.t.epoch
  {
  }

  lemma RegisterHistory(s: System, step: Step)
    requires History(s) && Enabled(s, step) && step.RegisterFirst?
    ensures History(Do(s, step))
  {
    var d := Do(s, step);
    forall h: Hash, gen: nat, e: nat ensures Landed(d, h, gen, e) <==> Landed(s, h, gen, e) {
      assert forall g :: RegLanded(d, g, h, gen, e) <==> RegLanded(s, g, h, gen, e);
      assert forall q :: ReregLanded(d, q, h, gen, e) <==> ReregLanded(s, q, h, gen, e);
    }
  }

  lemma IndexHistory(s: System, step: Step)
    requires History(s) && Enabled(s, step) && step.IndexHash?
    ensures History(Do(s, step))
  {
    var d, reg := Do(s, step), s.regs[step.g];
    var gen' := s.t.acks[reg.phase.ack].gen;
    forall h: Hash, gen: nat, e: nat
      ensures Landed(d, h, gen, e) <==> Landed(s, h, gen, e) || (h, gen, e) == (reg.hash, gen', reg.epoch)
    {
      assert forall g :: g != step.g ==> (RegLanded(d, g, h, gen, e) <==> RegLanded(s, g, h, gen, e));
      assert RegLanded(d, step.g, h, gen, e) <==> (h, gen, e) == (reg.hash, gen', reg.epoch);
      assert !RegLanded(s, step.g, h, gen, e);
      assert forall q :: ReregLanded(d, q, h, gen, e) <==> ReregLanded(s, q, h, gen, e);
    }
  }

  lemma IndexAgainHistory(s: System, step: Step)
    requires History(s) && Enabled(s, step) && step.IndexAgain?
    ensures History(Do(s, step))
  {
    var d, w := Do(s, step), s.reregs[step.q];
    forall h: Hash, gen: nat, e: nat
      ensures Landed(d, h, gen, e) <==> Landed(s, h, gen, e) || (h, gen, e) == (w.hash, w.gen, w.epoch)
    {
      assert forall g :: RegLanded(d, g, h, gen, e) <==> RegLanded(s, g, h, gen, e);
      assert forall q :: q != step.q ==> (ReregLanded(d, q, h, gen, e) <==> ReregLanded(s, q, h, gen, e));
      assert ReregLanded(d, step.q, h, gen, e) <==> (h, gen, e) == (w.hash, w.gen, w.epoch);
    }
  }

  lemma ConfirmationHistory(s: System, step: Step)
    requires History(s) && Enabled(s, step) && step.Confirmation?
    ensures History(Do(s, step))
  {
    var d := Do(s, step);
    forall h: Hash, gen: nat, e: nat ensures Landed(d, h, gen, e) <==> Landed(s, h, gen, e) {
      assert forall g :: RegLanded(d, g, h, gen, e) <==> RegLanded(s, g, h, gen, e);
      assert forall q :: ReregLanded(d, q, h, gen, e) <==> ReregLanded(s, q, h, gen, e);
    }
  }

  lemma StepKeepsHistory(s: System, step: Step)
    requires History(s) && Enabled(s, step)
    ensures History(Do(s, step))
  {
    hide Do, Enabled, History, SameCalls;
    if step.RegisterFirst? {
      RegisterHistory(s, step);
    } else if step.IndexHash? {
      IndexHistory(s, step);
    } else if step.IndexAgain? {
      IndexAgainHistory(s, step);
    } else if step.Confirmation? {
      ConfirmationHistory(s, step);
    } else {
      MoveSame(s, step);
      SameHistory(s, Do(s, step));
    }
  }

  // ---------------------------------------------------------------------------
  // Routed for this registration
  // ---------------------------------------------------------------------------

  /** Ready hashes were indexed on behalf of their present registration, not of one that left. */
  ghost predicate RoutedAnew(s: System) {
    forall h :: h !in s.t.empties && IsRouted(s.t, h) ==> (h, s.t.gen, Epoch(s.t, h)) in s.indexed
  }

  /**
   A re-registration queued for an earlier registration is about to mark the present one, none of whose own
   index calls has landed in this generation.
   */
  ghost predicate MarksForAnother(s: System, step: Step)
    requires Enabled(s, step)
  {
    step.Mark? &&
    var w := s.reregs[step.q];
    && Counts(s.t, w.hash, w.gen) && w.hash !in s.t.empties
    && w.epoch < Epoch(s.t, w.hash) && !Landed(s, w.hash, s.t.gen, Epoch(s.t, w.hash))
  }

  /** Such a mark is exactly one by which a hash not indexed for its present registration counts as ready. */
  lemma MarkIff(s: System, q: nat)
    requires Inv(s) && History(s) && Enabled(s, Mark(q)) && Counts(s.t, s.reregs[q].hash, s.reregs[q].gen)
    requires s.reregs[q].hash !in s.t.empties
    ensures MarksForAnother(s, Mark(q)) <==> (s.reregs[q].hash, s.t.gen, Epoch(s.t, s.reregs[q].hash)) !in s.indexed
  {
    hide Landed, ReadyMeansRouted, RoutedIsLocal, ReadyOwned, AcksOk, RegsOk;
  }

  /** Readiness is that of the present registration, except through such a mark: exactly then it is not. */
  lemma RoutedAnewUnlessMarked(s: System, step: Step)
    requires Inv(s) && History(s) && Enabled(s, step) && RoutedAnew(s)
    ensures RoutedAnew(Do(s, step)) <==> !MarksForAnother(s, step)
  {
    var d := Do(s, step);
    if MarksForAnother(s, step) {
      MarkIff(s, step.q);
      hide MarksForAnother, Inv, History;
      assert IsRouted(d.t, s.reregs[step.q].hash);
    } else if step.Lose? || step.Reconnect? {
      ReconnectStep(s, step);
    } else {
      forall h | h !in d.t.empties && IsRouted(d.t, h) ensures (h, d.t.gen, Epoch(d.t, h)) in d.indexed {
        AnewKept(s, step, h);
      }
    }
  }

  lemma AnewKept(s: System, step: Step, h: Hash)
    requires Inv(s) && History(s) && Enabled(s, step) && RoutedAnew(s) && !MarksForAnother(s, step)
    requires !step.Lose? && !step.Reconnect?
    requires h !in s.t.empties && IsRouted(Do(s, step).t, h)
    ensures var d := Do(s, step); (h, d.t.gen, Epoch(d.t, h)) in d.indexed
  {
    hide *;
    if step.CheckGeneration? {
      CheckedAnew(s, step.g, h);
    } else if step.Finish? || step.FinishEmpty? {
      FinishedAnew(s, step, h);
    } else if step.Mark? {
      MarkedAnew(s, step.q, h);
    } else if step.RegisterFirst? || step.Leave? || step.Rollback? {
      RegisteredAnew(s, step, h);
    } else {
      OthersAnew(s, step, h);
    }
  }

  lemma CheckedAnew(s: System, g: RegId, h: Hash)
    requires Inv(s) && Enabled(s, CheckGeneration(g)) && RoutedAnew(s)
    requires h !in s.t.empties && IsRouted(Do(s, CheckGeneration(g)).t, h)
    ensures var d := Do(s, CheckGeneration(g)); (h, d.t.gen, Epoch(d.t, h)) in d.indexed
  {
    assert RegOk(s, s.regs[g]);
    if s.t.ready[h] != s.regs[g].ready {
      assert IsRouted(s.t, h);
    }
  }

  lemma FinishedAnew(s: System, step: Step, h: Hash)
    requires Inv(s) && Enabled(s, step) && (step.Finish? || step.FinishEmpty?) && RoutedAnew(s)
    requires h !in s.t.empties && IsRouted(Do(s, step).t, h)
    ensures var d := Do(s, step); (h, d.t.gen, Epoch(d.t, h)) in d.indexed
  {
    assert RegOk(s, s.regs[step.g]);
    assert IsRouted(s.t, h);
  }

  lemma MarkedAnew(s: System, q: nat, h: Hash)
    requires Inv(s) && History(s) && Enabled(s, Mark(q)) && RoutedAnew(s) && !MarksForAnother(s, Mark(q))
    requires h !in s.t.empties && IsRouted(Do(s, Mark(q)).t, h)
    ensures var d := Do(s, Mark(q)); (h, d.t.gen, Epoch(d.t, h)) in d.indexed
  {
    var w := s.reregs[q];
    if Counts(s.t, w.hash, w.gen) && h == w.hash {
      MarkIff(s, q);
    } else {
      assert IsRouted(s.t, h);
    }
    hide Inv, History, MarksForAnother;
  }

  lemma RegisteredAnew(s: System, step: Step, h: Hash)
    requires Inv(s) && Enabled(s, step) && (step.RegisterFirst? || step.Leave? || step.Rollback?) && RoutedAnew(s)
    requires h !in s.t.empties && IsRouted(Do(s, step).t, h)
    ensures var d := Do(s, step); (h, d.t.gen, Epoch(d.t, h)) in d.indexed
  {
    hide AcksOk, RegsOk, ReregsOk, ReadyMeansRouted, RoutedIsLocal, ReadyOwned, Flatten;
    assert IsRouted(s.t, h);
  }

  lemma OthersAnew(s: System, step: Step, h: Hash)
    requires Enabled(s, step) && RoutedAnew(s) && h !in s.t.empties && IsRouted(Do(s, step).t, h)
    requires step.RegisterMore? || step.SendSubscribe? || step.RunSubscribe? || step.Confirmation? || step.SeeAck?
          || step.IndexHash?
          || step.SeeReady? || step.Fail? || step.IndexAgain?
    ensures var d := Do(s, step); (h, d.t.gen, Epoch(d.t, h)) in d.indexed
  {
    OthersLeave(s, step);
    hide Do, Enabled;
    assert IsRouted(s.t, h);
  }

  lemma OthersLeave(s: System, step: Step)
    requires Enabled(s, step)
    requires step.RegisterMore? || step.SendSubscribe? || step.RunSubscribe? || step.Confirmation? || step.SeeAck?
          || step.IndexHash?
          || step.SeeReady? || step.Fail? || step.IndexAgain?
    ensures var d := Do(s, step);
            && d.t.ready == s.t.ready && d.t.flags == s.t.flags && d.t.gen == s.t.gen && d.t.epoch == s.t.epoch
            && s.indexed <= d.indexed
  {
  }

  /** In every state of the run up to `n`. */
  ghost predicate AnewThrough(states: seq<System>, n: nat)
    requires n < |states|
  {
    forall i :: 0 <= i <= n ==> RoutedAnew(states[i])
  }

  ghost predicate MarkedWithin(states: seq<System>, steps: seq<Step>, n: nat)
    requires IsRun(states, steps) && n <= |steps|
  {
    exists i :: 0 <= i < n && MarksForAnother(states[i], steps[i])
  }

  /** Over every run: readiness is always that of the present registration, exactly if no such mark is made. */
  lemma {:induction false} AnewInEveryRun(states: seq<System>, steps: seq<Step>, n: nat)
    requires IsRun(states, steps) && Init(states[0]) && n <= |steps|
    ensures Inv(states[n]) && History(states[n])
    ensures AnewThrough(states, n) <==> !MarkedWithin(states, steps, n)
  {
    hide Inv, History, RoutedAnew, MarksForAnother, Do, Enabled;
    if n == 0 {
      InitAnew(states[0]);
    } else {
      AnewInEveryRun(states, steps, n - 1);
      StepKeepsInv(states[n - 1], steps[n - 1]);
      StepKeepsHistory(states[n - 1], steps[n - 1]);
      if RoutedAnew(states[n - 1]) {
        RoutedAnewUnlessMarked(states[n - 1], steps[n - 1]);
      }
    }
  }

  lemma InitAnew(s: System)
    requires Init(s)
    ensures Inv(s) && History(s) && RoutedAnew(s)
  {
  }
}
