/** `BatchEventProcessor` under concurrent drivers (src/disruptor/event_processor.rs): any number
    of threads call `run`, `try_run_once`, `halt` and the lifecycle callbacks on one processor.
    Each access to the running flag, the alert flag, the handler lock or the sequence is a step. */
module Lifecycle {
  import opened Wrappers

  datatype Pc =
    | Out
    // run()
    | RunReset                      // CAS won; `startup_complete` not yet reset
    | RunClear                      // about to clear the alert
    | RunStart                      // about to try the lock for `on_start`
    | RunInStart                    // in `on_start`, holding the lock
    | RunStarted(ok: bool)          // about to store `startup_complete`
    | RunRecheck                    // about to re-check `running`
    | RunLock                       // blocked on the handler lock
    | LoopTop(next: int)            // loop head, about to check `running`
    | LoopGuard(next: int)          // about to check `running` once more before waiting
    | LoopArmed(next: int)          // about to check the alert
    | LoopWaiting(next: int)        // inside the wait strategy
    | LoopHeard(next: int, available: int)    // wait returned; about to check the alert again
    | LoopResolve(next: int, available: int)  // alert not seen; resolving what is published
    | RunUnlocked                   // loop left, lock released, `on_shutdown` next
    | RunInShutdown                 // in `on_shutdown`, holding the lock
    | RunExit                       // about to store running := false
    // try_run_once()
    | ProbeLock                     // CAS won; about to try the lock
    | ProbeRead(next: int)          // lock held; about to read availability
    | ProbeCheck(next: int, available: int)  // about to re-check `running`
    | ProbeUnlocked                 // guard drop: about to store running := false
    // a batch, taken by either driver
    | Starting(next: int, available: int, probe: bool)  // in `on_batch_start`
    | Batch(next: int, available: int, probe: bool)
    | InEvent(next: int, available: int, probe: bool)
    | Failed(probe: bool)           // fatal; a probe is about to store running := false
    | Release(probe: bool)          // about to release the lock
    // halt() and the public lifecycle callbacks
    | HaltAlert                     // running stored; alert not yet raised
    | InCallback(shutdown: bool)    // holding the lock
    | ShutdownStore                 // `on_shutdown`: about to store running := false

  /** The processor's shared state. `completed` and `spoiled` are history: the sequences whose
      event was completed, in order, and whether a handler has failed fatally on an event. */
  datatype Shared = Shared(
    running: bool,
    alerted: bool,
    holder: Option<nat>,
    sequence: int,
    completed: seq<int>,
    spoiled: bool)

  datatype State = State(shared: Shared, threads: seq<Pc>)

  /** What the environment decides in a step: which call a thread starts, what user code
      returns, what the barrier answers. */
  datatype Choice =
    | CallRun | CallProbe | CallHalt | CallCallback(shutdown: bool)
    | Step
    | UserCode(ok: bool)            // on_start / on_batch_start
    | EventCode(keepGoing: bool)    // on_event Ok, or an error the policy skips
    | Available(available: int)     // what a wait, a read or a resolution answers
    | WaitError                     // an error other than Alert

  predicate HoldsLock(pc: Pc) {
    match pc
    case RunInStart | RunInShutdown | LoopTop(_) | LoopGuard(_) | LoopArmed(_) | LoopWaiting(_) => true
    case LoopHeard(_, _) | LoopResolve(_, _) => true
    case ProbeRead(_) | ProbeCheck(_, _) | Starting(_, _, _) | Batch(_, _, _) | InEvent(_, _, _) => true
    case Failed(_) | Release(_) | InCallback(_) => true
    case _ => false
  }

  /** A thread that does not drive: it is outside, halts the processor or calls a lifecycle callback. */
  predicate Bystander(pc: Pc) {
    pc.Out? || pc.HaltAlert? || pc.InCallback? || pc.ShutdownStore?
  }

  function Init(threads: nat): State {
    State(Shared(false, false, None, -1, [], false), seq(threads, _ => Out))
  }

  /** What a step of thread `me` at pc does to the shared state and its position; None if it
      cannot take that step now. */
  function Effect(g: Shared, me: nat, pc: Pc, c: Choice): Option<(Shared, Pc)> {
    match (pc, c)
    // starting a call
    case (Out, CallRun) => Some(if g.running then (g, Out) else (g.(running := true), RunReset))
    case (Out, CallProbe) => Some(if g.running then (g, Out) else (g.(running := true), ProbeLock))
    case (Out, CallHalt) => Some((g.(running := false), HaltAlert))
    case (Out, CallCallback(shutdown)) =>
      Some(if g.holder.Some? then (g, if shutdown then ShutdownStore else Out)
           else (g.(holder := Some(me)), InCallback(shutdown)))
    // run(): start-up
    case (RunReset, Step) => Some((g, RunClear))
    case (RunClear, Step) => Some((g.(alerted := false), RunStart))
    case (RunStart, Step) =>
      Some(if g.holder.Some? then (g, RunStarted(true)) else (g.(holder := Some(me)), RunInStart))
    case (RunInStart, UserCode(ok)) => Some((g.(holder := None), RunStarted(ok)))
    case (RunStarted(ok), Step) => Some(if ok then (g, RunRecheck) else (g.(running := false), RunExit))
    case (RunRecheck, Step) => Some((g, if g.running then RunLock else RunUnlocked))
    case (RunLock, Step) =>
      if g.holder.Some? then None else Some((g.(holder := Some(me)), LoopTop(g.sequence + 1)))
    // run(): the loop
    case (LoopTop(next), Step) => Some((g, if g.running then LoopGuard(next) else Release(false)))
    case (LoopGuard(next), Step) => Some((g, if g.running then LoopArmed(next) else Release(false)))
    case (LoopArmed(next), Step) => Some((g, if g.alerted then Release(false) else LoopWaiting(next)))
    case (LoopWaiting(_), Step) => if g.alerted then Some((g, Release(false))) else None
    case (LoopWaiting(next), Available(available)) => Some((g, LoopHeard(next, available)))
    case (LoopWaiting(next), WaitError) => Some((g, if g.running then LoopTop(next) else Release(false)))
    case (LoopHeard(next, available), Step) =>
      Some((g, if g.alerted then Release(false) else LoopResolve(next, available)))
    case (LoopResolve(next, heard), Available(available)) =>
      if available > heard then None
      else Some((g, if available < next then LoopTop(next) else Starting(next, available, false)))
    // a batch
    case (Starting(next, available, probe), UserCode(ok)) =>
      Some((g, if ok then Batch(next, available, probe) else Failed(probe)))
    case (Batch(next, available, probe), Step) =>
      Some(if next <= available then (g, InEvent(next, available, probe))
           else (g.(sequence := available), if probe then Release(true) else LoopTop(next)))
    case (InEvent(next, available, probe), EventCode(keepGoing)) =>
      Some(if keepGoing then (g.(completed := g.completed + [next]), Batch(next + 1, available, probe))
           else (g.(sequence := next - 1, spoiled := true), Failed(probe)))
    case (Failed(probe), Step) => Some((g.(running := if probe then false else g.running), Release(probe)))
    case (Release(probe), Step) => Some((g.(holder := None), if probe then ProbeUnlocked else RunUnlocked))
    // run(): the end
    case (RunUnlocked, Step) =>
      Some(if g.holder.Some? then (g, RunExit) else (g.(holder := Some(me)), RunInShutdown))
    case (RunInShutdown, Step) => Some((g.(holder := None), RunExit))
    case (RunExit, Step) => Some((g.(running := false), Out))
    // try_run_once()
    case (ProbeLock, Step) =>
      Some(if g.holder.Some? then (g, ProbeUnlocked) else (g.(holder := Some(me)), ProbeRead(g.sequence + 1)))
    case (ProbeRead(next), Available(available)) =>
      Some((g, if g.alerted then Release(true) else ProbeCheck(next, available)))
    case (ProbeRead(_), WaitError) => Some((g, Release(true)))
    case (ProbeCheck(next, available), Step) =>
      Some((g, if g.running && next <= available then Starting(next, available, true) else Release(true)))
    case (ProbeUnlocked, Step) => Some((g.(running := false), Out))
    // halt() and the callbacks
    case (HaltAlert, Step) => Some((g.(alerted := true), Out))
    case (InCallback(shutdown), Step) => Some((g.(holder := None), if shutdown then ShutdownStore else Out))
    case (ShutdownStore, Step) => Some((g.(running := false), Out))
    case _ => None
  }

  ghost predicate ThreadNext(g: Shared, g': Shared, me: nat, pc: Pc, pc': Pc, c: Choice) {
    Effect(g, me, pc, c) == Some((g', pc'))
  }

  ghost predicate Next(st: State, st': State, i: nat, c: Choice) {
    && i < |st.threads| == |st'.threads|
    && st'.threads == st.threads[i := st'.threads[i]]
    && ThreadNext(st.shared, st'.shared, i, st.threads[i], st'.threads[i], c)
  }

  // ---------------------------------------------------------------- exclusive, in order, once

  /** The thread's local view of the sequence, which only lock holders have. */
  ghost predicate LocalOk(pc: Pc, g: Shared) {
    match pc
    case LoopTop(next) => next == |g.completed| == g.sequence + 1
    case LoopGuard(next) => next == |g.completed| == g.sequence + 1
    case LoopArmed(next) => next == |g.completed| == g.sequence + 1
    case LoopWaiting(next) => next == |g.completed| == g.sequence + 1
    case LoopHeard(next, _) => next == |g.completed| == g.sequence + 1
    case LoopResolve(next, _) => next == |g.completed| == g.sequence + 1
    case ProbeRead(next) => next == |g.completed| == g.sequence + 1
    case ProbeCheck(next, _) => next == |g.completed| == g.sequence + 1
    case Starting(next, available, _) => next == |g.completed| == g.sequence + 1 && next <= available
    case Batch(next, available, _) => next == |g.completed| && g.sequence < next <= available + 1
    case InEvent(next, available, _) => next == |g.completed| && g.sequence < next <= available
    case _ => true
  }

  predicate MidBatch(pc: Pc) {
    pc.Batch? || pc.InEvent?
  }

  ghost predicate SharedOk(g: Shared) {
    && (forall j :: 0 <= j < |g.completed| ==> g.completed[j] == j)
    && -1 <= g.sequence < |g.completed|
  }

  ghost predicate LockOk(st: State) {
    && (forall i :: 0 <= i < |st.threads| ==> (HoldsLock(st.threads[i]) <==> st.shared.holder == Some(i)))
    && (st.shared.holder.Some? ==> st.shared.holder.value < |st.threads|)
  }

  ghost predicate Inv(st: State) {
    && LockOk(st)
    && SharedOk(st.shared)
    && (forall i :: 0 <= i < |st.threads| ==> LocalOk(st.threads[i], st.shared))
    && ((forall i :: 0 <= i < |st.threads| ==> !MidBatch(st.threads[i])) ==>
          st.shared.sequence == |st.shared.completed| - 1)
  }

  lemma InitInv(threads: nat)
    ensures Inv(Init(threads))
  {
  }

  /** A step takes or drops the lock only for its own thread, and only when it is free or held
      by that thread. */
  lemma ThreadKeepsLock(g: Shared, g': Shared, me: nat, pc: Pc, pc': Pc, c: Choice)
    requires ThreadNext(g, g', me, pc, pc', c) && (HoldsLock(pc) <==> g.holder == Some(me))
    ensures HoldsLock(pc') <==> g'.holder == Some(me)
    ensures g'.holder == g.holder || (g.holder.None? && g'.holder == Some(me)) || (g.holder == Some(me) &&
          g'.holder.None?)
  {
    hide ThreadNext;
    if HoldsLock(pc) { HolderKeepsLock(g, g', me, pc, pc', c); } else { OthersKeepLock(g, g', me, pc, pc', c); }
  }

  lemma HolderKeepsLock(g: Shared, g': Shared, me: nat, pc: Pc, pc': Pc, c: Choice)
    requires ThreadNext(g, g', me, pc, pc', c) && HoldsLock(pc)
    ensures g'.holder == if HoldsLock(pc') then g.holder else None
  {
  }

  lemma OthersKeepLock(g: Shared, g': Shared, me: nat, pc: Pc, pc': Pc, c: Choice)
    requires ThreadNext(g, g', me, pc, pc', c) && !HoldsLock(pc)
    ensures g'.holder == if HoldsLock(pc') then Some(me) else g.holder
    ensures HoldsLock(pc') ==> g.holder.None?
  {
  }

  /** Only a lock holder touches the sequence or completes events. */
  lemma ThreadKeepsSequence(g: Shared, g': Shared, me: nat, pc: Pc, pc': Pc, c: Choice)
    requires ThreadNext(g, g', me, pc, pc', c) && LocalOk(pc, g) && SharedOk(g)
    requires HoldsLock(pc) || g.holder.Some? || g.sequence == |g.completed| - 1
    ensures LocalOk(pc', g') && SharedOk(g')
    ensures g.sequence <= g'.sequence && g.completed <= g'.completed
    ensures !HoldsLock(pc) ==> g'.sequence == g.sequence && g'.completed == g.completed
  {
    if HoldsLock(pc) { HolderKeepsSequence(g, g', me, pc, pc', c); }
  }

  lemma HolderKeepsSequence(g: Shared, g': Shared, me: nat, pc: Pc, pc': Pc, c: Choice)
    requires ThreadNext(g, g', me, pc, pc', c) && LocalOk(pc, g) && SharedOk(g) && HoldsLock(pc)
    ensures LocalOk(pc', g') && SharedOk(g')
    ensures g.sequence <= g'.sequence && g.completed <= g'.completed
  {
  }

  /** With the batch closed, the sequence is the last completed event. */
  lemma ThreadClosesBatch(g: Shared, g': Shared, me: nat, pc: Pc, pc': Pc, c: Choice)
    requires ThreadNext(g, g', me, pc, pc', c) && LocalOk(pc, g) && !MidBatch(pc')
    requires MidBatch(pc) || g.sequence == |g.completed| - 1
    ensures g'.sequence == |g'.completed| - 1
  {
  }

  lemma StepKeepsLock(st: State, st': State, i: nat, c: Choice)
    requires LockOk(st) && Next(st, st', i, c)
    ensures LockOk(st')
  {
    hide HoldsLock;
    assert HoldsLock(st.threads[i]) <==> st.shared.holder == Some(i);
    ThreadKeepsLock(st.shared, st'.shared, i, st.threads[i], st'.threads[i], c);
    hide ThreadNext;
    forall j | 0 <= j < |st'.threads| ensures HoldsLock(st'.threads[j]) <==> st'.shared.holder == Some(j) {
      assert HoldsLock(st.threads[j]) <==> st.shared.holder == Some(j);
    }
  }

  lemma WithoutLockNothingLocal(pc: Pc, g: Shared)
    requires !HoldsLock(pc)
    ensures LocalOk(pc, g) && !MidBatch(pc)
  {
  }

  /** One step of any thread keeps: at most one thread inside, completions exactly 0, 1, 2, ...
      in order, and a sequence that is the last completed event whenever no batch is open. */
  lemma StepKeeps(st: State, st': State, i: nat, c: Choice)
    requires Inv(st) && Next(st, st', i, c)
    ensures Inv(st')
    ensures st.shared.sequence <= st'.shared.sequence && st.shared.completed <= st'.shared.completed
  {
    hide ThreadNext;
    hide LocalOk;
    hide HoldsLock;
    var g, g', pc, pc' := st.shared, st'.shared, st.threads[i], st'.threads[i];
    assert LocalOk(pc, g);
    assert HoldsLock(pc) <==> g.holder == Some(i);
    forall j | 0 <= j < |st.threads| && g.holder != Some(j)
        ensures LocalOk(st.threads[j], g') && !MidBatch(st.threads[j]) {
      assert HoldsLock(st.threads[j]) <==> g.holder == Some(j);
      WithoutLockNothingLocal(st.threads[j], g');
    }
    ThreadKeepsSequence(g, g', i, pc, pc', c);
    StepKeepsLock(st, st', i, c);
    forall j | 0 <= j < |st'.threads| ensures LocalOk(st'.threads[j], g') {
      if j != i && g.holder == Some(j) {
        assert g'.completed == g.completed && g'.sequence == g.sequence;
        LocalDependsOnProgress(st.threads[j], g, g');
      }
    }
    if forall j :: 0 <= j < |st'.threads| ==> !MidBatch(st'.threads[j]) {
      assert !MidBatch(pc');
      if !MidBatch(pc) {
        assert forall j :: 0 <= j < |st.threads| ==> j == i || st'.threads[j] == st.threads[j];
      }
      ThreadClosesBatch(g, g', i, pc, pc', c);
    }
  }

  lemma LocalDependsOnProgress(pc: Pc, g: Shared, g': Shared)
    requires LocalOk(pc, g) && g'.completed == g.completed && g'.sequence == g.sequence
    ensures LocalOk(pc, g')
  {
  }

  // ---------------------------------------------------------------- whole runs

  datatype Turn = Turn(thread: nat, choice: Choice)

  datatype Run = Run(states: seq<State>, turns: seq<Turn>)

  ghost predicate IsRun(r: Run) {
    && |r.states| == |r.turns| + 1
    && r.states[0] == Init(|r.states[0].threads|)
    && forall t :: 0 <= t < |r.turns| ==> TurnAt(r, t)
  }

  ghost predicate TurnAt(r: Run, t: nat)
    requires |r.states| == |r.turns| + 1 && t < |r.turns|
  {
    Next(r.states[t], r.states[t + 1], r.turns[t].thread, r.turns[t].choice)
  }

  lemma {:induction false} RunInv(r: Run, t: nat)
    requires IsRun(r) && t < |r.states|
    ensures Inv(r.states[t])
  {
    hide Next;
    if t == 0 {
      InitInv(|r.states[0].threads|);
    } else {
      RunInv(r, t - 1);
      assert TurnAt(r, t - 1);
      StepKeeps(r.states[t - 1], r.states[t], r.turns[t - 1].thread, r.turns[t - 1].choice);
    }
  }

  /** However many threads drive, halt and probe the processor, and even where a halt lets a
      second driver win the running flag while the first is still inside: the completed events
      are 0, 1, 2, ... each once and in order, the sequence never goes back, and it never
      exceeds the last completed event. */
  lemma {:induction false} CompletedOnceInOrder(r: Run, t: nat, t': nat)
    requires IsRun(r) && t <= t' < |r.states|
    ensures r.states[t].shared.completed <= r.states[t'].shared.completed
    ensures r.states[t].shared.sequence <= r.states[t'].shared.sequence < |r.states[t'].shared.completed|
    ensures forall j :: 0 <= j < |r.states[t'].shared.completed| ==> r.states[t'].shared.completed[j] == j
    decreases t'
  {
    hide Next;
    RunInv(r, t');
    if t == t' {
    } else {
      CompletedOnceInOrder(r, t, t' - 1);
      RunInv(r, t' - 1);
      assert TurnAt(r, t' - 1);
      StepKeeps(r.states[t' - 1], r.states[t'], r.turns[t' - 1].thread, r.turns[t' - 1].choice);
    }
  }

  // ---------------------------------------------------------------- building runs

  function Last(r: Run): State
    requires r.states != []
  {
    r.states[|r.states| - 1]
  }

  predicate Enabled(st: State, i: nat, c: Choice) {
    i < |st.threads| && Effect(st.shared, i, st.threads[i], c).Some?
  }

  function After(st: State, i: nat, c: Choice): State
    requires Enabled(st, i, c)
  {
    var effect := Effect(st.shared, i, st.threads[i], c).value;
    State(effect.0, st.threads[i := effect.1])
  }

  lemma Started(threads: nat) returns (r: Run)
    ensures IsRun(r) && Last(r) == Init(threads) && r.turns == []
  {
    r := Run([Init(threads)], []);
  }

  /** One more turn. */
  lemma Extend(r: Run, i: nat, c: Choice) returns (r': Run)
    requires IsRun(r) && Enabled(Last(r), i, c)
    ensures IsRun(r') && Last(r') == After(Last(r), i, c) && r'.turns == r.turns + [Turn(i, c)]
  {
    r' := Run(r.states + [After(Last(r), i, c)], r.turns + [Turn(i, c)]);
    hide Effect;
    forall t | 0 <= t < |r'.turns| ensures TurnAt(r', t) {
      if t < |r.turns| { assert TurnAt(r, t); }
    }
  }

  /** Starting up with nobody in the way. */
  lemma StartsUp(r: Run, i: nat) returns (r': Run)
    requires IsRun(r) && i < |Last(r).threads| && Last(r).threads[i] == RunReset && Last(r).shared.holder.None?
    ensures IsRun(r') && Last(r') == State(Last(r).shared.(alerted := false), Last(r).threads[i := RunRecheck])
    ensures r'.turns == r.turns + [Turn(i, Step), Turn(i, Step), Turn(i, Step), Turn(i, UserCode(true)), Turn(i, Step)]
  {
    hide IsRun;
    r' := Extend(r, i, Step);
    r' := Extend(r', i, Step);
    r' := Extend(r', i, Step);
    r' := Extend(r', i, UserCode(true));
    r' := Extend(r', i, Step);
  }
}
