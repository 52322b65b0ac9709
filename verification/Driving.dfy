/** What calls on a processor achieve (src/disruptor/event_processor.rs): a driver that returns has
    released the running flag, and one that is let in completes the batch it is offered. */
module Driving {
  import opened Wrappers
  import opened Lifecycle

  // ---------------------------------------------------------------- the running flag is released

  /** Somebody is inside `run` or `try_run_once`. */
  ghost predicate Driven(st: State) {
    exists i :: 0 <= i < |st.threads| && !Bystander(st.threads[i])
  }

  /** Only a driver that stays leaves the flag set. */
  lemma DriverReleases(g: Shared, g': Shared, me: nat, pc: Pc, pc': Pc, c: Choice)
    requires ThreadNext(g, g', me, pc, pc', c) && g'.running && Bystander(pc')
    ensures g.running && Bystander(pc)
  {
  }

  lemma DrivenStep(st: State, st': State, i: nat, c: Choice)
    requires (st.shared.running ==> Driven(st)) && Next(st, st', i, c)
    ensures st'.shared.running ==> Driven(st')
  {
    hide ThreadNext, Bystander;
    if st'.shared.running {
      if Bystander(st'.threads[i]) {
        DriverReleases(st.shared, st'.shared, i, st.threads[i], st'.threads[i], c);
        var j :| 0 <= j < |st.threads| && !Bystander(st.threads[j]);
        assert !Bystander(st'.threads[j]);
      }
    }
  }

  /** In every state of every run, a processor that says it is running is being driven. */
  lemma {:induction false} RunningIsDriven(r: Run, t: nat)
    requires IsRun(r) && t < |r.states|
    ensures r.states[t].shared.running ==> Driven(r.states[t])
  {
    hide Next;
    if t == 0 {
    } else {
      RunningIsDriven(r, t - 1);
      assert TurnAt(r, t - 1);
      DrivenStep(r.states[t - 1], r.states[t], r.turns[t - 1].thread, r.turns[t - 1].choice);
    }
  }

  predicate Idle(st: State) {
    forall i :: 0 <= i < |st.threads| ==> st.threads[i] == Out
  }

  /** When every call has returned, flag and lock are free and the sequence is the last completed
      event: the next call is let in. */
  lemma IdleIsReleased(r: Run, t: nat)
    requires IsRun(r) && t < |r.states| && Idle(r.states[t])
    ensures !r.states[t].shared.running && r.states[t].shared.holder.None?
    ensures r.states[t].shared.sequence == |r.states[t].shared.completed| - 1
  {
    RunInv(r, t);
    RunningIsDriven(r, t);
    var st := r.states[t];
  }

  /** A thread inside a call always has a next step, unless it waits for a lock somebody holds. */
  lemma NeverStuck(st: State, i: nat) returns (c: Choice)
    requires i < |st.threads| && st.threads[i] != Out && !(st.threads[i] == RunLock && st.shared.holder.Some?)
    ensures Enabled(st, i, c)
  {
    match st.threads[i]
    case RunInStart => c := UserCode(true);
    case LoopWaiting(next) => c := Available(next);
    case LoopResolve(_, available) => c := Available(available);
    case ProbeRead(next) => c := Available(next);
    case Starting(_, _, _) => c := UserCode(true);
    case InEvent(_, _, _) => c := EventCode(true);
    case _ => c := Step;
  }

  // ---------------------------------------------------------------- one driver at a time

  /** Neither a halt, a shutdown callback nor a failure. */
  predicate Undisturbed(c: Choice) {
    c != CallHalt && c != CallCallback(true) && c != UserCode(false) && c != EventCode(false)
  }

  /** Positions that only a halt, a shutdown callback or a failure leads to. */
  predicate Disturbed(pc: Pc) {
    || pc == RunStarted(false) || pc.Failed? || pc.HaltAlert? || pc.ShutdownStore? || pc == InCallback(true)
  }

  /** The flag is set exactly while somebody drives, and only one thread does. */
  ghost predicate OneDriver(st: State) {
    && (forall i :: 0 <= i < |st.threads| ==> !Disturbed(st.threads[i]))
    && (forall i, j :: 0 <= i < j < |st.threads| ==> Bystander(st.threads[i]) || Bystander(st.threads[j]))
    && (st.shared.running <==> Driven(st))
  }

  /** Undisturbed, a thread gets in only if the flag is clear, and clears it as it leaves. */
  lemma FlagFollowsDriver(g: Shared, g': Shared, me: nat, pc: Pc, pc': Pc, c: Choice)
    requires ThreadNext(g, g', me, pc, pc', c) && Undisturbed(c) && !Disturbed(pc) && (!Bystander(pc) ==> g.running)
    ensures !Disturbed(pc')
    ensures Bystander(pc) && Bystander(pc') ==> g'.running == g.running
    ensures Bystander(pc) && !Bystander(pc') ==> !g.running && g'.running
    ensures !Bystander(pc) ==> g'.running == !Bystander(pc')
  {
  }

  lemma OneDriverStep(st: State, st': State, i: nat, c: Choice)
    requires OneDriver(st) && Next(st, st', i, c) && Undisturbed(c)
    ensures OneDriver(st')
  {
    hide ThreadNext, Bystander, Disturbed;
    FlagFollowsDriver(st.shared, st'.shared, i, st.threads[i], st'.threads[i], c);
    assert forall j :: 0 <= j < |st.threads| && j != i ==> st'.threads[j] == st.threads[j];
    if Bystander(st.threads[i]) && Driven(st) {
      var j :| 0 <= j < |st.threads| && !Bystander(st.threads[j]);
      assert !Bystander(st'.threads[j]);
    }
    if !Bystander(st'.threads[i]) { assert Driven(st'); }
  }

  /** Without halts, shutdown callbacks and failures, the running flag is a lock: in every state of
      every run at most one thread is inside `run` or `try_run_once`, and the flag says whether. */
  lemma {:induction false} OneDriverAtATime(r: Run, t: nat)
    requires IsRun(r) && t < |r.states| && forall u :: 0 <= u < t ==> Undisturbed(r.turns[u].choice)
    ensures OneDriver(r.states[t])
  {
    hide Next;
    if t == 0 {
    } else {
      OneDriverAtATime(r, t - 1);
      assert TurnAt(r, t - 1);
      OneDriverStep(r.states[t - 1], r.states[t], r.turns[t - 1].thread, r.turns[t - 1].choice);
    }
  }

  /** A call made while the flag is set is refused and changes nothing, whoever set it. */
  lemma RefusedWhileRunning(r: Run, t: nat)
    requires IsRun(r) && t < |r.turns| && r.states[t].shared.running
    requires r.turns[t].choice == CallRun || r.turns[t].choice == CallProbe
    ensures r.states[t + 1] == r.states[t]
  {
    assert TurnAt(r, t);
  }

  /** A wait that fails for any reason but an alert is tried again, as long as nobody has stopped the
      processor; then the driver leaves, and either way nothing else has changed. */
  lemma WaitErrorIsRetried(r: Run, t: nat, i: nat, next: int)
    requires IsRun(r) && t < |r.turns| && r.turns[t] == Turn(i, WaitError)
    requires i < |r.states[t].threads| && r.states[t].threads[i] == LoopWaiting(next)
    ensures r.states[t + 1].shared == r.states[t].shared && i < |r.states[t + 1].threads|
    ensures r.states[t + 1].threads[i] == LoopTop(next) <==> r.states[t].shared.running
    ensures !r.states[t].shared.running ==> r.states[t + 1].threads[i] == Release(false)
  {
    assert TurnAt(r, t);
  }

  // ---------------------------------------------------------------- an offered batch is completed

  /** The completed events, continued through `available`. */
  function Through(completed: seq<int>, available: int): seq<int> {
    completed + seq(if |completed| <= available then available + 1 - |completed| else 0, j => |completed| + j)
  }

  /** A thread between two events of a batch gets through the rest of it. */
  lemma {:induction false} EventsPass(r: Run, i: nat, next: int, available: int, probe: bool) returns (r': Run)
    requires IsRun(r) && i < |Last(r).threads| && Last(r).threads[i] == Batch(next, available, probe)
    requires next == |Last(r).shared.completed| && next <= available + 1
    ensures IsRun(r')
    ensures Last(r') == State(Last(r).shared.(completed := Through(Last(r).shared.completed, available)),
                              Last(r).threads[i := Batch(available + 1, available, probe)])
    decreases available - next
  {
    var completed := Last(r).shared.completed;
    if next > available {
      r' := r;
      assert Through(completed, available) == completed;
    } else {
      var threads := Last(r).threads;
      r' := EventPasses(r, i, next, available, probe);
      assert Through(completed + [next], available) == Through(completed, available);
      r' := EventsPass(r', i, next + 1, available, probe);
    }
  }

  lemma EventPasses(r: Run, i: nat, next: int, available: int, probe: bool) returns (r': Run)
    requires IsRun(r) && i < |Last(r).threads| && Last(r).threads[i] == Batch(next, available, probe)
    requires next <= available
    ensures IsRun(r')
    ensures Last(r') == State(Last(r).shared.(completed := Last(r).shared.completed + [next]),
                              Last(r).threads[i := Batch(next + 1, available, probe)])
  {
    hide IsRun;
    r' := Extend(r, i, Step);
    r' := Extend(r', i, EventCode(true));
  }

  /** From the start of a batch to its stored sequence. */
  lemma BatchPasses(r: Run, i: nat, next: int, available: int, probe: bool) returns (r': Run)
    requires IsRun(r) && i < |Last(r).threads| && Last(r).threads[i] == Starting(next, available, probe)
    requires next == |Last(r).shared.completed| <= available
    ensures IsRun(r')
    ensures var g := Last(r).shared.(completed := Through(Last(r).shared.completed, available), sequence := available);
            Last(r') == State(g, Last(r).threads[i := if probe then Release(true) else LoopTop(available + 1)])
  {
    hide IsRun;
    r' := Extend(r, i, UserCode(true));
    r' := EventsPass(r', i, next, available, probe);
    r' := Extend(r', i, Step);
  }

  /** A loop at its head that is answered `available` completes all of it and is at its head again. */
  lemma LoopCompletesBatch(r: Run, i: nat, available: int) returns (r': Run)
    requires IsRun(r) && i < |Last(r).threads| && Last(r).threads[i] == LoopTop(|Last(r).shared.completed|)
    requires Last(r).shared.running && !Last(r).shared.alerted && |Last(r).shared.completed| <= available
    ensures IsRun(r')
    ensures var g := Last(r).shared.(completed := Through(Last(r).shared.completed, available), sequence := available);
            Last(r') == State(g, Last(r).threads[i := LoopTop(available + 1)])
  {
    var n := |Last(r).shared.completed|;
    hide IsRun;
    r' := LoopIsAnswered(r, i, n, available);
    r' := BatchPasses(r', i, n, available, false);
  }

  lemma LoopIsAnswered(r: Run, i: nat, n: int, available: int) returns (r': Run)
    requires IsRun(r) && i < |Last(r).threads| && Last(r).threads[i] == LoopTop(n) && n <= available
    requires Last(r).shared.running && !Last(r).shared.alerted
    ensures IsRun(r') && Last(r') == Last(r).(threads := Last(r).threads[i := Starting(n, available, false)])
  {
    hide IsRun;
    r' := Extend(r, i, Step);
    r' := Extend(r', i, Step);
    r' := Extend(r', i, Step);
    r' := Extend(r', i, Available(available));
    r' := Extend(r', i, Step);
    r' := Extend(r', i, Available(available));
  }

  /** `run` on an idle processor gets to its loop head. */
  lemma RunGetsGoing(r: Run, i: nat) returns (r': Run)
    requires IsRun(r) && Idle(Last(r)) && i < |Last(r).threads|
    ensures IsRun(r')
    ensures var g := Last(r).shared.(running := true, alerted := false, holder := Some(i));
            Last(r') == State(g, Last(r).threads[i := LoopTop(|g.completed|)])
  {
    IdleIsReleased(r, |r.states| - 1);
    hide IsRun, Idle;
    r' := Extend(r, i, CallRun);
    r' := StartsUp(r', i);
    r' := Extend(r', i, Step);
    r' := Extend(r', i, Step);
  }

  /** `try_run_once` on an idle processor completes exactly what the barrier offers and returns with
      flag and lock released, so that it can be called again; if nothing is offered it only returns. */
  lemma ProbeCompletesBatch(r: Run, i: nat, available: int) returns (r': Run)
    requires IsRun(r) && Idle(Last(r)) && i < |Last(r).threads| && !Last(r).shared.alerted
    ensures IsRun(r') && Last(r').threads == Last(r).threads
    ensures var g := Last(r).shared;
            Last(r').shared == if available <= g.sequence then g
                               else g.(completed := Through(g.completed, available), sequence := available)
  {
    IdleIsReleased(r, |r.states| - 1);
    var n := |Last(r).shared.completed|;
    var g, threads := Last(r).shared, Last(r).threads;
    assert threads[i] == Out && threads[i := Out] == threads;
    hide IsRun, Idle;
    r' := ProbeIsAnswered(r, i, available);
    if n <= available {
      r' := Extend(r', i, Step);
      r' := BatchPasses(r', i, n, available, true);
    } else {
      r' := Extend(r', i, Step);
    }
    r' := ProbeLeaves(r', i);
    assert Last(r').threads == threads;
  }

  lemma ProbeIsAnswered(r: Run, i: nat, available: int) returns (r': Run)
    requires IsRun(r) && i < |Last(r).threads| && Last(r).threads[i] == Out
    requires !Last(r).shared.running && !Last(r).shared.alerted && Last(r).shared.holder.None?
    ensures IsRun(r')
    ensures Last(r') == State(Last(r).shared.(running := true, holder := Some(i)),
                              Last(r).threads[i := ProbeCheck(Last(r).shared.sequence + 1, available)])
  {
    hide IsRun;
    r' := Extend(r, i, CallProbe);
    r' := Extend(r', i, Step);
    r' := Extend(r', i, Available(available));
  }

  lemma ProbeLeaves(r: Run, i: nat) returns (r': Run)
    requires IsRun(r) && i < |Last(r).threads| && Last(r).threads[i] == Release(true)
    ensures IsRun(r')
    ensures Last(r') == State(Last(r).shared.(running := false, holder := None), Last(r).threads[i := Out])
  {
    hide IsRun;
    r' := Extend(r, i, Step);
    r' := Extend(r', i, Step);
  }
}
