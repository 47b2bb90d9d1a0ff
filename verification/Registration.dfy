/** How long the observer holds a hash: its subscribers, counted over any run, against what its table says. */
module Registration {
  import opened Readiness

  /** The first registrant of a hash gives up while the hash is still its own; it takes the hash with it. */
  predicate FailsOwn(s: System, step: Step, h: Hash) {
    && step.Rollback? && step.g in s.regs && s.regs[step.g].hash == h
    && h in s.t.ready && s.t.ready[h] == s.regs[step.g].ready
  }

  /** The subscribers of a hash in the first `n` steps: come and not left, unless the hash failed with its first. */
  ghost function Subscribers(states: seq<System>, steps: seq<Step>, h: Hash, n: nat): int
    requires IsRun(states, steps) && n <= |steps|
  {
    if n == 0 then 0
    else
      var before, step := Subscribers(states, steps, h, n - 1), steps[n - 1];
      if (step.RegisterFirst? || step.RegisterMore?) && step.h == h then before + 1
      else if step.Leave? && step.h == h then before - 1
      else if FailsOwn(states[n - 1], step, h) then 0
      else before
  }

  /** The table holds a hash exactly while it has subscribers, and counts them. */
  predicate HeldFor(t: Table, h: Hash, count: int) {
    && count >= 0 && (h in t.refcount <==> count > 0) && (h in t.refcount ==> t.refcount[h] == count)
    && (h in t.ready <==> h in t.refcount)
  }

  lemma StepHolds(s: System, step: Step, h: Hash, count: int)
    requires Enabled(s, step) && HeldFor(s.t, h, count)
    ensures var d := Do(s, step).t;
            && ((step.RegisterFirst? || step.RegisterMore?) && step.h == h ==> HeldFor(d, h, count + 1))
            && (step.Leave? && step.h == h ==> HeldFor(d, h, count - 1))
            && (FailsOwn(s, step, h) ==> HeldFor(d, h, 0))
            && (((step.RegisterFirst? || step.RegisterMore? || step.Leave?) && step.h == h) || FailsOwn(s, step, h)
                || HeldFor(d, h, count))
  {
    if step.RegisterFirst? || step.RegisterMore? {
      ComeHolds(s, step, h, count);
      hide Do, Enabled;
    } else if step.Leave? || step.Rollback? {
      GoHolds(s, step, h, count);
      hide Do, Enabled;
    } else {
      CountsKept(s, step);
      hide Do, Enabled;
    }
  }

  lemma ComeHolds(s: System, step: Step, h: Hash, count: int)
    requires Enabled(s, step) && HeldFor(s.t, h, count) && (step.RegisterFirst? || step.RegisterMore?)
    ensures HeldFor(Do(s, step).t, h, if step.h == h then count + 1 else count)
  {
  }

  lemma GoHolds(s: System, step: Step, h: Hash, count: int)
    requires Enabled(s, step) && HeldFor(s.t, h, count) && (step.Leave? || step.Rollback?)
    ensures HeldFor(Do(s, step).t, h, if step.Leave? && step.h == h then count - 1
                                      else if FailsOwn(s, step, h) then 0 else count)
  {
  }

  lemma CountsKept(s: System, step: Step)
    requires Enabled(s, step) && !step.RegisterFirst? && !step.RegisterMore? && !step.Leave? && !step.Rollback?
    ensures var d := Do(s, step).t;
            d.refcount == s.t.refcount && d.ready.Keys == s.t.ready.Keys && s.t.local <= d.local
  {
    if step.Lose? || step.Reconnect? {
      LossKeeps(s, step);
      hide Do, Enabled;
    } else {
      hide Invalidate, Collapse, Flatten, Release, Unregister, RollBack;
    }
  }

  lemma LossKeeps(s: System, step: Step)
    requires Enabled(s, step) && (step.Lose? || step.Reconnect?)
    ensures var d := Do(s, step).t;
            d.refcount == s.t.refcount && d.ready.Keys == s.t.ready.Keys && d.local == s.t.local
  {
    hide Stale, Flatten;
  }

  /**
   However registrations, losses and reconnects interleave, a hash is held exactly while it has a
   subscriber that came and neither left nor failed with it, and the count is theirs.
   */
  lemma {:induction false} HeldWhileSubscribed(states: seq<System>, steps: seq<Step>, h: Hash, n: nat)
    requires IsRun(states, steps) && Init(states[0]) && n <= |steps|
    ensures HeldFor(states[n].t, h, Subscribers(states, steps, h, n))
  {
    hide Do, Enabled, HeldFor, FailsOwn;
    if n == 0 {
      NoneHeld(states[0], h);
    } else {
      HeldWhileSubscribed(states, steps, h, n - 1);
      StepHolds(states[n - 1], steps[n - 1], h, Subscribers(states, steps, h, n - 1));
    }
  }

  lemma NoneHeld(s: System, h: Hash)
    requires Init(s)
    ensures HeldFor(s.t, h, 0)
  {
  }

  /** A hash goes only with its last subscriber, or with its own failed first registrant. */
  lemma GoesOnlyWithTheLast(states: seq<System>, steps: seq<Step>, h: Hash, n: nat)
    requires IsRun(states, steps) && Init(states[0]) && n < |steps|
    requires h in states[n].t.refcount && h !in states[n + 1].t.refcount
    ensures (steps[n] == Step.Leave(h) && Subscribers(states, steps, h, n) == 1) || FailsOwn(states[n], steps[n], h)
  {
    hide Do, Enabled, FailsOwn;
    HeldWhileSubscribed(states, steps, h, n);
    HeldWhileSubscribed(states, steps, h, n + 1);
  }

  lemma LocalStep(s: System, step: Step, h: Hash)
    requires Enabled(s, step) && h in s.t.local && h in s.t.refcount
    requires !FailsOwn(s, step, h) && !(step == Step.Leave(h) && s.t.refcount[h] <= 1)
    ensures h in Do(s, step).t.local
  {
    if !step.RegisterFirst? && !step.RegisterMore? && !step.Leave? && !step.Rollback? {
      CountsKept(s, step);
      hide Do, Enabled;
    }
  }

  /** Once made local a hash stays local as long as it has a subscriber. */
  lemma {:induction false} LocalWhileSubscribed(states: seq<System>, steps: seq<Step>, h: Hash, i: nat, n: nat)
    requires IsRun(states, steps) && Init(states[0]) && i <= n <= |steps| && h in states[i].t.local
    requires forall k :: i <= k <= n ==> Subscribers(states, steps, h, k) > 0
    ensures h in states[n].t.local && h in states[n].t.refcount && h in states[n].t.ready
  {
    hide Do, Enabled, Init;
    HeldWhileSubscribed(states, steps, h, n);
    if i < n {
      LocalWhileSubscribed(states, steps, h, i, n - 1);
      HeldWhileSubscribed(states, steps, h, n - 1);
      assert Subscribers(states, steps, h, n) > 0;
      LocalStep(states[n - 1], steps[n - 1], h);
    }
  }
}
