/** `halt` against a running processor (src/disruptor/event_processor.rs): when it takes effect,
    what it then bounds, and when the alert it raises stays set. */
module Halting {
  import opened Wrappers
  import opened Lifecycle

  predicate BeforeRecheck(pc: Pc) {
    pc.RunReset? || pc.RunClear? || pc.RunStart? || pc.RunInStart? || pc.RunStarted? || pc.RunRecheck?
  }

  predicate InRun(pc: Pc) {
    match pc
    case LoopTop(_) | LoopGuard(_) | LoopArmed(_) | LoopWaiting(_) => true
    case LoopHeard(_, _) | LoopResolve(_, _) => true
    case RunLock | RunUnlocked | RunInShutdown | RunExit => true
    case Starting(_, _, probe) => !probe
    case Batch(_, _, probe) => !probe
    case InEvent(_, _, probe) => !probe
    case Failed(probe) => !probe
    case Release(probe) => !probe
    case _ => BeforeRecheck(pc)
  }

  /** Thread d is inside `run` and a halt has taken effect. */
  ghost predicate Halted(st: State, d: nat) {
    && DrivesAlone(st, d) && !st.shared.running
    && (st.shared.alerted || BeforeRecheck(st.threads[d]) || Leaving(st.threads[d]))
  }

  /** Past the loop, or never entered it. */
  predicate Leaving(pc: Pc) {
    pc.RunUnlocked? || pc.RunInShutdown? || pc.RunExit?
  }

  /** Events of the batch the thread holds, or is past the alert check to resolve, that are not
      completed yet. */
  function EventsLeft(pc: Pc): nat {
    match pc
    case LoopResolve(next, available) => if next <= available then available - next + 1 else 0
    case Starting(next, available, _) => if next <= available then available - next + 1 else 0
    case Batch(next, available, _) => if next <= available then available - next + 1 else 0
    case InEvent(next, available, _) => if next <= available then available - next + 1 else 0
    case _ => 0
  }

  /** Thread d is inside `run`, nobody else drives. */
  ghost predicate DrivesAlone(st: State, d: nat) {
    && d < |st.threads| && InRun(st.threads[d])
    && forall i :: 0 <= i < |st.threads| && i != d ==> Bystander(st.threads[i])
  }

  /** How many own steps the halted driver can still take: bounded by the batch it holds. */
  function StepsLeft(pc: Pc): nat {
    match pc
    case RunReset => 12
    case RunClear => 11
    case RunStart => 10
    case RunInStart => 9
    case RunStarted(_) => 8
    case RunRecheck => 7
    case RunLock => 8
    case LoopWaiting(_) => 10
    case LoopHeard(_, _) => 9
    case LoopResolve(next, available) => if next <= available then 2 * (available - next) + 12 else 8
    case LoopArmed(_) => 8
    case LoopGuard(_) => 8
    case LoopTop(_) => 7
    case Starting(next, available, _) => if next <= available then 2 * (available - next) + 11 else 9
    case Batch(next, available, _) => if next <= available then 2 * (available - next) + 10 else 8
    case InEvent(next, available, _) => if next <= available then 2 * (available - next) + 9 else 9
    case Failed(_) => 6
    case Release(_) => 5
    case RunUnlocked => 4
    case RunInShutdown => 3
    case RunExit => 2
    case _ => 0
  }

  /** One step after a halt: `running` stays false, the driver's own steps bring it closer to
      the end of `run`, and bystanders cannot undo the halt. */
  lemma HaltIsNotLost(st: State, st': State, i: nat, c: Choice, d: nat)
    requires Halted(st, d) && LocalOk(st.threads[d], st.shared) && Next(st, st', i, c)
    requires i == d || !(c.CallRun? || c.CallProbe?)
    ensures Halted(st', d) || (i == d && st'.threads[d] == Out && !st'.shared.running)
    ensures StepsLeft(st'.threads[d]) + (if i == d then 1 else 0) <= StepsLeft(st.threads[d])
    ensures |st'.shared.completed| + EventsLeft(st'.threads[d]) <= |st.shared.completed| + EventsLeft(st.threads[d])
  {
    hide ThreadNext, StepsLeft, EventsLeft, InRun, Bystander, LocalOk;
    if i == d {
      HaltedDriverStep(st.shared, st'.shared, i, st.threads[i], st'.threads[i], c);
      HaltedDriverLeaves(st.shared, st'.shared, i, st.threads[i], st'.threads[i], c);
    } else {
      BystanderStep(st.shared, st'.shared, i, st.threads[i], st'.threads[i], c);
    }
  }

  lemma HaltedDriverStep(g: Shared, g': Shared, me: nat, pc: Pc, pc': Pc, c: Choice)
    requires ThreadNext(g, g', me, pc, pc', c) && LocalOk(pc, g) && InRun(pc) && !g.running
    requires g.alerted || BeforeRecheck(pc) || Leaving(pc)
    ensures !g'.running
    ensures pc' == Out || (InRun(pc') && (g'.alerted || BeforeRecheck(pc') || Leaving(pc')))
  {
  }

  lemma HaltedDriverLeaves(g: Shared, g': Shared, me: nat, pc: Pc, pc': Pc, c: Choice)
    requires ThreadNext(g, g', me, pc, pc', c) && LocalOk(pc, g) && InRun(pc) && !g.running
    requires g.alerted || BeforeRecheck(pc) || Leaving(pc)
    ensures StepsLeft(pc') < StepsLeft(pc)
    ensures |g'.completed| + EventsLeft(pc') <= |g.completed| + EventsLeft(pc)
  {
  }

  lemma BystanderStep(g: Shared, g': Shared, me: nat, pc: Pc, pc': Pc, c: Choice)
    requires ThreadNext(g, g', me, pc, pc', c) && Bystander(pc) && !(c.CallRun? || c.CallProbe?) && !g.running
    ensures !g'.running && (g.alerted ==> g'.alerted) && g'.completed == g.completed && Bystander(pc')
  {
  }

  function DriverTurns(r: Run, t: nat, t': nat, d: nat): nat
    requires t <= t' <= |r.turns|
  {
    if t == t' then 0
    else DriverTurns(r, t, t' - 1, d) + (if r.turns[t' - 1].thread == d then 1 else 0)
  }

  /** Thread d is inside a call and no other thread starts driving in turn u. */
  ghost predicate AloneAt(r: Run, u: nat, d: nat)
    requires u < |r.turns| < |r.states|
  {
    && d < |r.states[u].threads| && r.states[u].threads[d] != Out
    && (r.turns[u].thread == d || !(r.turns[u].choice.CallRun? || r.turns[u].choice.CallProbe?))
  }

  /** No lost halt. From a halt that took effect until the driver returns, with nobody else
      driving: `running` is false, the driver takes no more steps of its own than its position
      allows, and no more events are completed than were left in the batch it held. */
  lemma {:induction false} HaltedUntilReturn(r: Run, t: nat, t': nat, d: nat)
    requires IsRun(r) && t <= t' < |r.states| && Halted(r.states[t], d)
    requires forall u :: t <= u < t' ==> AloneAt(r, u, d)
    ensures d < |r.states[t'].threads| && !r.states[t'].shared.running
    ensures Halted(r.states[t'], d) || r.states[t'].threads[d] == Out
    ensures DriverTurns(r, t, t', d) + StepsLeft(r.states[t'].threads[d]) <= StepsLeft(r.states[t].threads[d])
    ensures |r.states[t'].shared.completed| + EventsLeft(r.states[t'].threads[d]) <=
            |r.states[t].shared.completed| + EventsLeft(r.states[t].threads[d])
    decreases t'
  {
    if t == t' {
    } else {
      HaltedUntilReturn(r, t, t' - 1, d);
      RunInv(r, t' - 1);
      assert TurnAt(r, t' - 1) && AloneAt(r, t' - 1, d);
      var turn := r.turns[t' - 1];
      assert LocalOk(r.states[t' - 1].threads[d], r.states[t' - 1].shared);
      HaltIsNotLost(r.states[t' - 1], r.states[t'], turn.thread, turn.choice, d);
    }
  }

  /** `running` stays false between the two stores of a halt. */
  lemma StoppedDriverStep(g: Shared, g': Shared, me: nat, pc: Pc, pc': Pc, c: Choice)
    requires ThreadNext(g, g', me, pc, pc', c) && InRun(pc) && !g.running
    ensures !g'.running && (InRun(pc') || pc' == Out)
  {
  }

  lemma StoppedStep(st: State, st': State, i: nat, c: Choice, d: nat)
    requires DrivesAlone(st, d) && !st.shared.running && Next(st, st', i, c)
    requires i == d || !(c.CallRun? || c.CallProbe?)
    ensures !st'.shared.running && (DrivesAlone(st', d) || st'.threads[d] == Out)
  {
    hide ThreadNext, InRun, Bystander;
    if i == d {
      StoppedDriverStep(st.shared, st'.shared, i, st.threads[i], st'.threads[i], c);
    } else {
      BystanderStep(st.shared, st'.shared, i, st.threads[i], st'.threads[i], c);
    }
  }

  /** Thread h called `halt` in turn t and takes no other turn before turn u. */
  ghost predicate HaltCalled(r: Run, t: nat, u: nat, h: nat, d: nat)
    requires |r.states| == |r.turns| + 1
  {
    && t < u <= |r.turns| && h != d && DrivesAlone(r.states[t], d)
    && h < |r.states[t].threads| && r.states[t].threads[h] == Out && r.turns[t] == Turn(h, CallHalt)
    && (forall v :: t < v < u ==> r.turns[v].thread != h)
    && (forall v :: t <= v < u ==> AloneAt(r, v, d))
  }

  lemma {:induction false} HaltInProgress(r: Run, t: nat, u: nat, h: nat, d: nat)
    requires IsRun(r) && HaltCalled(r, t, u, h, d)
    ensures !r.states[u].shared.running && d < |r.states[u].threads| && h < |r.states[u].threads|
    ensures DrivesAlone(r.states[u], d) || r.states[u].threads[d] == Out
    ensures r.states[u].threads[h] == HaltAlert
    decreases u
  {
    var turn := r.turns[u - 1];
    assert TurnAt(r, u - 1) && AloneAt(r, u - 1, d);
    if u == t + 1 {
      assert r.states[u].threads[d] == r.states[t].threads[d];
    } else {
      HaltInProgress(r, t, u - 1, h, d);
      StoppedStep(r.states[u - 1], r.states[u], turn.thread, turn.choice, d);
    }
  }

  /** A `halt` called anywhere inside `run` has taken effect when it returns, even if it falls
      before `run` clears the alert: nothing sets `running` again between its two stores. */
  lemma HaltTakesEffect(r: Run, t: nat, u: nat, h: nat, d: nat)
    requires IsRun(r) && HaltCalled(r, t, u, h, d) && u < |r.turns|
    requires r.turns[u] == Turn(h, Step) && AloneAt(r, u, d)
    ensures Halted(r.states[u + 1], d)
  {
    HaltInProgress(r, t, u, h, d);
    assert TurnAt(r, u);
  }

  /** No lost halt, from the call on: once `halt` has returned, and until `run` returns, `running`
      is false, the driver takes boundedly many more steps of its own, and it completes no more
      events than were left in the batch it held when `halt` returned. */
  lemma NoLostHalt(r: Run, t: nat, u: nat, t': nat, h: nat, d: nat)
    requires IsRun(r) && HaltCalled(r, t, u, h, d) && u < t' < |r.states|
    requires r.turns[u] == Turn(h, Step) && forall v :: u <= v < t' ==> AloneAt(r, v, d)
    ensures d < |r.states[u + 1].threads| && d < |r.states[t'].threads| && !r.states[t'].shared.running
    ensures Halted(r.states[t'], d) || r.states[t'].threads[d] == Out
    ensures DriverTurns(r, u + 1, t', d) <= StepsLeft(r.states[u + 1].threads[d])
    ensures |r.states[t'].shared.completed| <=
          |r.states[u + 1].shared.completed| + EventsLeft(r.states[u + 1].threads[d])
  {
    assert AloneAt(r, u, d);
    HaltTakesEffect(r, t, u, h, d);
    HaltedUntilReturn(r, u + 1, t', d);
  }

  /** A thread inside `on_shutdown` until its last step. */
  lemma {:induction false} InsideShutdown(r: Run, t: nat, u: nat, h: nat)
    requires IsRun(r) && t < u < |r.states| && r.turns[t] == Turn(h, CallCallback(true))
    requires forall v :: t < v <= u ==> h < |r.states[v].threads| && r.states[v].threads[h] != Out
    requires h < |r.states[t].threads| && r.states[t].threads[h] == Out
    ensures r.states[u].threads[h] == InCallback(true) || r.states[u].threads[h] == ShutdownStore
    decreases u
  {
    assert TurnAt(r, u - 1);
    if u == t + 1 {
    } else {
      InsideShutdown(r, t, u - 1, h);
    }
  }

  /** `on_shutdown` called in turn t returns in turn u only by storing `running := false`, whether or
      not it got the handler lock. */
  lemma ShutdownStores(r: Run, t: nat, u: nat, h: nat)
    requires IsRun(r) && t < u < |r.turns| && r.turns[t] == Turn(h, CallCallback(true))
    requires forall v :: t < v <= u ==> h < |r.states[v].threads| && r.states[v].threads[h] != Out
    requires h < |r.states[t].threads| && r.states[t].threads[h] == Out
    requires h < |r.states[u + 1].threads| && r.states[u + 1].threads[h] == Out
    ensures r.turns[u] == Turn(h, Step) && r.states[u].threads[h] == ShutdownStore && !r.states[u + 1].shared.running
  {
    InsideShutdown(r, t, u, h);
    assert TurnAt(r, u);
  }

  /** A shutdown callback stops the processor too: once it returns, in turn u, `running` stays false
      until the driver has returned, whether or not it got the handler lock. */
  lemma {:induction false} ShutdownTakesEffect(r: Run, u: nat, t': nat, h: nat, d: nat)
    requires IsRun(r) && u < t' < |r.states| && h != d && DrivesAlone(r.states[u], d) && h < |r.states[u].threads|
    requires r.states[u].threads[h] == ShutdownStore && r.turns[u] == Turn(h, Step)
    requires forall v :: u <= v < t' ==> AloneAt(r, v, d)
    ensures d < |r.states[t'].threads| && !r.states[t'].shared.running
    ensures DrivesAlone(r.states[t'], d) || r.states[t'].threads[d] == Out
    decreases t'
  {
    assert TurnAt(r, t' - 1) && AloneAt(r, t' - 1, d);
    if t' == u + 1 {
      assert r.states[t'].threads[d] == r.states[u].threads[d];
    } else {
      ShutdownTakesEffect(r, u, t' - 1, h, d);
      StoppedStep(r.states[t' - 1], r.states[t'], r.turns[t' - 1].thread, r.turns[t' - 1].choice, d);
    }
  }

  /** The condition on other drivers cannot be dropped: from any halted state, a thread that
      calls `run` wins the flag the halt freed and clears the alert, and the halted driver,
      wherever it was, then sees neither. */
  lemma SecondDriverUndoesHalt(st: State, d: nat, i: nat) returns (s1: State, s2: State, s3: State)
    requires Halted(st, d) && i < |st.threads| && i != d && st.threads[i] == Out
    ensures Next(st, s1, i, CallRun) && Next(s1, s2, i, Step) && Next(s2, s3, i, Step)
    ensures s3.shared.running && !s3.shared.alerted && s3.threads[d] == st.threads[d] && !Halted(s3, d)
  {
    s1 := State(st.shared.(running := true), st.threads[i := RunReset]);
    s2 := State(s1.shared, st.threads[i := RunClear]);
    s3 := State(s1.shared.(alerted := false), st.threads[i := RunStart]);
    assert s2.threads == s1.threads[i := RunClear] && s3.threads == s2.threads[i := RunStart];
  }

  // ---------------------------------------------------------------- how long the alert stays set

  predicate BeforeClear(pc: Pc) {
    pc.RunReset? || pc.RunClear?
  }

  ghost predicate NobodyHalting(st: State) {
    forall i :: 0 <= i < |st.threads| ==> st.threads[i] != HaltAlert
  }

  /** A driver touches the alert only by clearing it on its way in. */
  lemma DriverAlert(g: Shared, g': Shared, me: nat, pc: Pc, pc': Pc, c: Choice)
    requires ThreadNext(g, g', me, pc, pc', c) && InRun(pc)
    ensures g'.alerted == (g.alerted && pc != RunClear) && pc' != HaltAlert
    ensures BeforeClear(pc') <==> pc == RunReset
  {
  }

  lemma BystanderAlert(g: Shared, g': Shared, me: nat, pc: Pc, pc': Pc, c: Choice)
    requires ThreadNext(g, g', me, pc, pc', c) && Bystander(pc) && pc != HaltAlert
    requires !(c.CallRun? || c.CallProbe? || c.CallHalt?)
    ensures g'.alerted == g.alerted && pc' != HaltAlert
  {
  }

  lemma AlertStep(st: State, st': State, i: nat, c: Choice, d: nat)
    requires DrivesAlone(st, d) && NobodyHalting(st) && Next(st, st', i, c)
    requires i == d || !(c.CallRun? || c.CallProbe? || c.CallHalt?)
    ensures NobodyHalting(st')
    ensures st'.shared.alerted == (st.shared.alerted && !(i == d && st.threads[d] == RunClear))
    ensures BeforeClear(st'.threads[d]) == (if i == d then st.threads[d] == RunReset else BeforeClear(st.threads[d]))
  {
    hide ThreadNext, InRun, Bystander;
    if i == d {
      DriverAlert(st.shared, st'.shared, i, st.threads[i], st'.threads[i], c);
    } else {
      BystanderAlert(st.shared, st'.shared, i, st.threads[i], st'.threads[i], c);
    }
  }

  /** From a halt on, with no other halt and no other driver, the alert is set at t' exactly when
      the driver had already cleared alerts when the halt raised this one, or has not done so yet. */
  lemma {:induction false} AlertStaysExactly(r: Run, t: nat, t': nat, d: nat)
    requires IsRun(r) && t <= t' < |r.states| && Halted(r.states[t], d)
    requires r.states[t].shared.alerted && NobodyHalting(r.states[t])
    requires forall u :: t <= u < t' ==> AloneAt(r, u, d) && !r.turns[u].choice.CallHalt?
    ensures d < |r.states[t'].threads| && NobodyHalting(r.states[t'])
    ensures BeforeClear(r.states[t'].threads[d]) ==> BeforeClear(r.states[t].threads[d])
    ensures r.states[t'].shared.alerted <==>
              !BeforeClear(r.states[t].threads[d]) || BeforeClear(r.states[t'].threads[d])
    decreases t'
  {
    if t == t' {
    } else {
      AlertStaysExactly(r, t, t' - 1, d);
      HaltedUntilReturn(r, t, t' - 1, d);
      assert TurnAt(r, t' - 1) && AloneAt(r, t' - 1, d);
      AlertStep(r.states[t' - 1], r.states[t'], r.turns[t' - 1].thread, r.turns[t' - 1].choice, d);
    }
  }

  /** The same from the call of `halt` in turn t, which stores the alert in turn u. */
  lemma AlertAfterHalt(r: Run, t: nat, u: nat, t': nat, h: nat, d: nat)
    requires IsRun(r) && HaltCalled(r, t, u, h, d) && u < t' < |r.states|
    requires r.turns[u] == Turn(h, Step) && NobodyHalting(r.states[u + 1])
    requires forall v :: u <= v < t' ==> AloneAt(r, v, d) && !r.turns[v].choice.CallHalt?
    ensures d < |r.states[u].threads| && d < |r.states[t'].threads|
    ensures r.states[t'].shared.alerted <==>
              !BeforeClear(r.states[u].threads[d]) || BeforeClear(r.states[t'].threads[d])
  {
    assert AloneAt(r, u, d) && TurnAt(r, u);
    HaltInProgress(r, t, u, h, d);
    HaltTakesEffect(r, t, u, h, d);
    AlertStaysExactly(r, u + 1, t', d);
  }

  /** A halt that falls before `clear_alert`: the driver leaves after its re-check, and on the way
      out the alert is not set although the halt took effect. */
  lemma HaltBeforeClear() returns (r: Run)
    ensures IsRun(r) && |Last(r).threads| == 2
    ensures Turn(1, CallHalt) in r.turns && !Last(r).shared.running && !Last(r).shared.alerted
    ensures InRun(Last(r).threads[0]) && !BeforeRecheck(Last(r).threads[0])
  {
    hide IsRun, Effect;
    r := HaltAtStart();
    var called := r.turns;
    r := StartsUp(r, 0);
    r := SeesHalt(r);
    assert r.turns[1] == called[1];
  }

  lemma HaltAtStart() returns (r: Run)
    ensures IsRun(r) && Last(r) == State(Shared(false, true, None, -1, [], false), [RunReset, Out])
    ensures |r.turns| == 3 && r.turns[1] == Turn(1, CallHalt)
  {
    hide IsRun;
    r := Started(2);
    assert Init(2).threads == [Out, Out];
    r := Extend(r, 0, CallRun);
    r := Extend(r, 1, CallHalt);
    r := Extend(r, 1, Step);
  }

  lemma SeesHalt(r: Run) returns (r': Run)
    requires IsRun(r) && |Last(r).threads| == 2 && Last(r).threads[0] == RunRecheck && !Last(r).shared.running
    ensures IsRun(r') && r.turns <= r'.turns
    ensures Last(r') == Last(r).(threads := Last(r).threads[0 := RunUnlocked])
  {
    hide IsRun;
    r' := Extend(r, 0, Step);
  }
}
