/** A `BatchEventProcessor` as a stage of a pipeline (src/disruptor/event_processor.rs): it keeps
    the contract of an exclusive stage however many threads drive it, as long as no driver is left
    inside, and none is let in, when a handler fails fatally. */
module ProcessorStage {
  import opened Wrappers
  import opened StageContract
  import opened Lifecycle
  import Halting
  import Driving
  import Sequences

  /** The position of the thread that holds the handler lock. */
  function Held(st: State): Pc {
    if st.shared.holder.Some? && st.shared.holder.value < |st.threads| then st.threads[st.shared.holder.value] else Out
  }

  function AsView(st: State): View {
    var n := |st.shared.completed|;
    View(st.shared.sequence, Sequences.Upto(n),
         if st.shared.spoiled || Held(st).InEvent? then {n} else {},
         if Held(st).InEvent? then {Access(st.shared.holder.value, n)} else {})
  }

  function EventOf(st: State, i: nat, c: Choice): Event
    requires i < |st.threads|
  {
    match (st.threads[i], c)
    case (Batch(next, available, _), Step) => if next <= available then Enter(i, next) else Quiet
    case (InEvent(next, _, _), EventCode(keepGoing)) => if keepGoing then Leave(i, next) else Fail(i, next)
    case _ => Quiet
  }

  /** What a resolution or a read answers it vouches for; a wait alone vouches for nothing. */
  ghost predicate Vouched(pc: Pc, c: Choice, ready: set<int>) {
    c.Available? && (pc.LoopResolve? || pc.ProbeRead?) ==>
      forall s :: pc.next <= s <= c.available ==> s in ready
  }

  /** Not driving, or on the way out without touching another event. */
  predicate Spent(pc: Pc) {
    || Bystander(pc) || Halting.Leaving(pc) || pc == RunStarted(false)
    || pc.Failed? || pc.Release? || pc.ProbeUnlocked?
  }

  /** The condition on callers: when a handler fails fatally no other driver is inside, and from
      then on nobody calls `run` or `try_run_once`. */
  ghost predicate Allowed(st: State, i: nat, c: Choice)
    requires i < |st.threads|
  {
    && (st.shared.spoiled ==> !(c.CallRun? || c.CallProbe?))
    && (st.threads[i].InEvent? && c == EventCode(false) ==>
          forall j :: 0 <= j < |st.threads| && j != i ==> Spent(st.threads[j]))
  }

  /** A step of a processor in a pipeline. */
  ghost predicate StageNext(st: State, st': State, i: nat, c: Choice, ready: set<int>) {
    Lifecycle.Next(st, st', i, c) && Vouched(st.threads[i], c, ready) && Allowed(st, i, c)
  }

  /** The batch a thread holds is ready. */
  ghost predicate BatchReady(pc: Pc, ready: set<int>) {
    pc.ProbeCheck? || pc.Starting? || pc.Batch? || pc.InEvent? ==>
      forall s :: pc.next <= s <= pc.available ==> s in ready
  }

  ghost predicate StageInv(st: State, ready: set<int>) {
    && Inv(st)
    && (forall s :: 0 <= s < |st.shared.completed| ==> s in ready)
    && (forall i :: 0 <= i < |st.threads| ==> BatchReady(st.threads[i], ready))
    && (st.shared.spoiled ==> |st.shared.completed| in ready && !Held(st).InEvent?)
  }

  lemma InitStageInv(threads: nat, ready: set<int>)
    ensures StageInv(Init(threads), ready) && AsView(Init(threads)) == View(-1, {}, {}, {})
  {
    InitInv(threads);
  }

  lemma ReadyGrows(st: State, ready: set<int>, ready': set<int>)
    requires StageInv(st, ready) && ready <= ready'
    ensures StageInv(st, ready')
  {
    hide Inv;
    forall i | 0 <= i < |st.threads| ensures BatchReady(st.threads[i], ready') {
      assert BatchReady(st.threads[i], ready);
    }
  }

  /** Only what lies from the awaited sequence up matters to a step. */
  lemma AnswerSuffices(st: State, st': State, i: nat, c: Choice, answered: set<int>, ready: set<int>)
    requires StageNext(st, st', i, c, answered)
    requires st.threads[i].LoopResolve? || st.threads[i].ProbeRead? ==>
               forall s <- answered :: st.threads[i].next <= s ==> s in ready
    ensures StageNext(st, st', i, c, ready)
  {
  }

  lemma ViewOk(st: State, ready: set<int>)
    requires StageInv(st, ready)
    ensures Ok(AsView(st), ready, true)
  {
    HeldIsLocal(st);
    if Held(st).InEvent? { assert BatchReady(Held(st), ready); }
  }

  /** What the holder's position says, and that nobody else is in a batch. */
  lemma HeldIsLocal(st: State)
    requires Inv(st)
    ensures LocalOk(Held(st), st.shared) && SharedOk(st.shared)
    ensures forall i :: 0 <= i < |st.threads| && MidBatch(st.threads[i]) ==> st.shared.holder == Some(i)
  {
    forall i | 0 <= i < |st.threads| && MidBatch(st.threads[i]) ensures st.shared.holder == Some(i) {
      assert HoldsLock(st.threads[i]) <==> st.shared.holder == Some(i);
    }
  }

  /** The effect of one thread's step on what the pipeline sees. */
  lemma ThreadEvent(g: Shared, g': Shared, me: nat, pc: Pc, pc': Pc, c: Choice)
    requires ThreadNext(g, g', me, pc, pc', c) && LocalOk(pc, g)
    ensures pc'.InEvent? ==>
              && pc.Batch? && c == Step && g' == g && pc.next <= pc.available
              && pc' == InEvent(pc.next, pc.available, pc.probe)
    ensures pc.InEvent? ==>
              && c.EventCode? && !pc'.InEvent?
              && g'.spoiled == (g.spoiled || !c.keepGoing)
              && g'.completed == (if c.keepGoing then g.completed + [pc.next] else g.completed)
    ensures !pc.InEvent? ==> g'.completed == g.completed && g'.spoiled == g.spoiled
  {
  }

  lemma BatchStaysReady(g: Shared, g': Shared, me: nat, pc: Pc, pc': Pc, c: Choice, ready: set<int>)
    requires ThreadNext(g, g', me, pc, pc', c) && BatchReady(pc, ready) && Vouched(pc, c, ready)
    ensures BatchReady(pc', ready)
  {
  }

  /** The holder after a step: the thread that moved, if it holds the lock, or whoever held it. */
  lemma HeldAfter(st: State, st': State, i: nat, c: Choice)
    requires Inv(st) && Inv(st') && Lifecycle.Next(st, st', i, c)
    ensures HoldsLock(st'.threads[i]) ==> Held(st') == st'.threads[i] && st'.shared.holder == Some(i)
    ensures HoldsLock(st.threads[i]) ==> Held(st) == st.threads[i] && st.shared.holder == Some(i)
    ensures !HoldsLock(st.threads[i]) && HoldsLock(st'.threads[i]) ==> st.shared.holder.None?
    ensures HoldsLock(st.threads[i]) && !HoldsLock(st'.threads[i]) ==> st'.shared.holder.None?
    ensures !HoldsLock(st.threads[i]) && !HoldsLock(st'.threads[i]) ==>
          Held(st') == Held(st) && st'.shared.holder == st.shared.holder
  {
    assert HoldsLock(st.threads[i]) <==> st.shared.holder == Some(i);
    assert HoldsLock(st'.threads[i]) <==> st'.shared.holder == Some(i);
    hide HoldsLock;
    ThreadKeepsLock(st.shared, st'.shared, i, st.threads[i], st'.threads[i], c);
  }

  /** However many threads drive, probe and halt it, every step of a processor is a step of an
      exclusive stage, except entering an event while one has failed. */
  lemma RefinesStage(st: State, st': State, i: nat, c: Choice, ready: set<int>)
    requires StageInv(st, ready) && Lifecycle.Next(st, st', i, c) && Vouched(st.threads[i], c, ready)
    requires !(st.shared.spoiled && EventOf(st, i, c).Enter?)
    ensures StageInv(st', ready) && Ok(AsView(st'), ready, true)
    ensures StageContract.Next(AsView(st), AsView(st'), ready, true, EventOf(st, i, c))
  {
    StageInvKept(st, st', i, c, ready);
    HeldAfter(st, st', i, c);
    assert LocalOk(st.threads[i], st.shared);
    ThreadEvent(st.shared, st'.shared, i, st.threads[i], st'.threads[i], c);
    StepKeeps(st, st', i, c);
    ViewOk(st, ready);
    ViewOk(st', ready);
    hide ThreadNext, Inv, LocalOk, StageInv;
  }

  /** That exception is exact. */
  lemma RefinesExactly(st: State, st': State, i: nat, c: Choice, ready: set<int>)
    requires StageInv(st, ready) && Lifecycle.Next(st, st', i, c) && Vouched(st.threads[i], c, ready)
    ensures StageContract.Next(AsView(st), AsView(st'), ready, true, EventOf(st, i, c)) <==>
              !(st.shared.spoiled && EventOf(st, i, c).Enter?)
  {
    if st.shared.spoiled && EventOf(st, i, c).Enter? {
      assert LocalOk(st.threads[i], st.shared);
    } else {
      RefinesStage(st, st', i, c, ready);
    }
  }

  lemma StageInvKept(st: State, st': State, i: nat, c: Choice, ready: set<int>)
    requires StageInv(st, ready) && Lifecycle.Next(st, st', i, c) && Vouched(st.threads[i], c, ready)
    requires !(st.shared.spoiled && EventOf(st, i, c).Enter?)
    ensures StageInv(st', ready)
  {
    StepKeeps(st, st', i, c);
    HeldAfter(st, st', i, c);
    assert LocalOk(st.threads[i], st.shared) && BatchReady(st.threads[i], ready);
    ThreadEvent(st.shared, st'.shared, i, st.threads[i], st'.threads[i], c);
    BatchStaysReady(st.shared, st'.shared, i, st.threads[i], st'.threads[i], c, ready);
    hide ThreadNext, Inv, LocalOk, BatchReady;
    forall j | 0 <= j < |st'.threads| ensures BatchReady(st'.threads[j], ready) {
      assert BatchReady(st.threads[j], ready);
    }
    if st.threads[i].InEvent? { InEventIsReady(st.threads[i], ready); }
  }

  lemma InEventIsReady(pc: Pc, ready: set<int>)
    requires pc.InEvent? && BatchReady(pc, ready) && pc.next <= pc.available
    ensures pc.next in ready
  {
  }

  // ---------------------------------------------------------------- the condition on callers

  /** Once a handler has failed fatally nobody is left inside. */
  ghost predicate Retired(st: State) {
    st.shared.spoiled ==> forall i :: 0 <= i < |st.threads| ==> Spent(st.threads[i])
  }

  lemma SpentStep(g: Shared, g': Shared, me: nat, pc: Pc, pc': Pc, c: Choice)
    requires ThreadNext(g, g', me, pc, pc', c) && Spent(pc) && !(c.CallRun? || c.CallProbe?)
    ensures Spent(pc') && g'.spoiled == g.spoiled && g'.completed == g.completed
  {
  }

  lemma FatalStep(g: Shared, g': Shared, me: nat, pc: Pc, pc': Pc, c: Choice)
    requires ThreadNext(g, g', me, pc, pc', c) && !g.spoiled && g'.spoiled
    ensures pc.InEvent? && c == EventCode(false) && Spent(pc')
  {
  }

  /** Callers that keep the condition never make a processor enter an event after a failure. */
  lemma RetiredStays(st: State, st': State, i: nat, c: Choice)
    requires Retired(st) && Lifecycle.Next(st, st', i, c) && Allowed(st, i, c)
    ensures Retired(st') && !(st.shared.spoiled && EventOf(st, i, c).Enter?)
  {
    hide ThreadNext, Spent;
    if st.shared.spoiled {
      SpentStep(st.shared, st'.shared, i, st.threads[i], st'.threads[i], c);
      SpentNeverEnters(st, i, c);
    } else if st'.shared.spoiled {
      FatalStep(st.shared, st'.shared, i, st.threads[i], st'.threads[i], c);
    }
  }

  lemma SpentNeverEnters(st: State, i: nat, c: Choice)
    requires i < |st.threads| && Spent(st.threads[i])
    ensures EventOf(st, i, c) == Quiet
  {
  }

  /** Over runs: if everybody is spent once a handler has failed, and nobody calls `run` or
      `try_run_once` from then on, no step ever enters or completes an event again. */
  lemma {:induction false} SpentForever(r: Run, t: nat, t': nat)
    requires IsRun(r) && t <= t' < |r.states| && r.states[t].shared.spoiled && Retired(r.states[t])
    requires forall u :: t <= u < t' ==> !(r.turns[u].choice.CallRun? || r.turns[u].choice.CallProbe?)
    ensures r.states[t'].shared.spoiled && Retired(r.states[t'])
    ensures r.states[t'].shared.completed == r.states[t].shared.completed
    ensures t' < |r.turns| && !(r.turns[t'].choice.CallRun? || r.turns[t'].choice.CallProbe?) ==>
              r.turns[t'].thread < |r.states[t'].threads| &&
              EventOf(r.states[t'], r.turns[t'].thread, r.turns[t'].choice) == Quiet
    decreases t'
  {
    hide ThreadNext, Spent, EventOf;
    if t == t' {
    } else {
      SpentForever(r, t, t' - 1);
      assert TurnAt(r, t' - 1);
      var st, turn := r.states[t' - 1], r.turns[t' - 1];
      SpentStep(st.shared, r.states[t'].shared, turn.thread, st.threads[turn.thread],
          r.states[t'].threads[turn.thread], turn.choice);
    }
    if t' < |r.turns| {
      assert TurnAt(r, t');
      SpentNeverEnters(r.states[t'], r.turns[t'].thread, r.turns[t'].choice);
    }
  }

  /** `on_start`, `on_batch_start` or `on_event` has failed and nobody says to skip it. */
  predicate FailsFatally(pc: Pc, c: Choice) {
    || ((pc.RunInStart? || pc.Starting?) && c == UserCode(false))
    || (pc.InEvent? && c == EventCode(false))
  }

  lemma FatalFreezes(g: Shared, g': Shared, me: nat, pc: Pc, pc': Pc, c: Choice)
    requires ThreadNext(g, g', me, pc, pc', c) && FailsFatally(pc, c) && LocalOk(pc, g)
    ensures Spent(pc') && g'.completed == g.completed
    ensures !pc.RunInStart? ==> g'.sequence == |g.completed| - 1
  {
  }

  /** Over runs: a driver whose user code fails fatally in turn t completes nothing more and only
      leaves, unless it calls again. */
  lemma {:induction false} FailedDriverLeaves(r: Run, t: nat, t': nat, i: nat)
    requires IsRun(r) && t < t' < |r.states| && i < |r.states[t].threads|
    requires r.turns[t].thread == i && FailsFatally(r.states[t].threads[i], r.turns[t].choice)
    requires forall u :: t < u < t' && r.turns[u].thread == i ==>
               !(r.turns[u].choice.CallRun? || r.turns[u].choice.CallProbe?)
    ensures i < |r.states[t'].threads| && Spent(r.states[t'].threads[i])
    decreases t'
  {
    hide ThreadNext, Spent;
    RunInv(r, t' - 1);
    assert TurnAt(r, t' - 1);
    var st, turn := r.states[t' - 1], r.turns[t' - 1];
    if t' == t + 1 {
      assert LocalOk(st.threads[i], st.shared);
      FatalFreezes(st.shared, r.states[t'].shared, i, st.threads[i], r.states[t'].threads[i], turn.choice);
    } else {
      FailedDriverLeaves(r, t, t' - 1, i);
      if turn.thread == i {
        SpentStep(st.shared, r.states[t'].shared, i, st.threads[i], r.states[t'].threads[i], turn.choice);
      }
    }
  }

  /** One thread per processor, as the DSL starts them, keeps the condition: if nobody but d ever
      drives, and d does not come back after a failure, every step is allowed. */
  lemma OneDriverIsAllowed(st: State, st': State, i: nat, c: Choice, d: nat)
    requires Lifecycle.Next(st, st', i, c) && forall j :: 0 <= j < |st.threads| && j != d ==>
          Bystander(st.threads[j])
    requires c.CallRun? || c.CallProbe? ==> i == d && !st.shared.spoiled
    ensures Allowed(st, i, c) && forall j :: 0 <= j < |st'.threads| && j != d ==> Bystander(st'.threads[j])
  {
    hide ThreadNext;
    if i != d { BystanderStays(st.shared, st'.shared, i, st.threads[i], st'.threads[i], c); }
  }

  lemma BystanderStays(g: Shared, g': Shared, me: nat, pc: Pc, pc': Pc, c: Choice)
    requires ThreadNext(g, g', me, pc, pc', c) && Bystander(pc) && !(c.CallRun? || c.CallProbe?)
    ensures Bystander(pc')
  {
  }

  /** The event a handler failed on is not completed later. */
  lemma SpoiledStays(st: State, st': State, i: nat, c: Choice, ready: set<int>)
    requires StageInv(st, ready) && Lifecycle.Next(st, st', i, c) && st.shared.spoiled
    ensures st'.shared.spoiled && st'.shared.completed == st.shared.completed
  {
    HeldIsLocal(st);
    assert LocalOk(st.threads[i], st.shared);
    ThreadEvent(st.shared, st'.shared, i, st.threads[i], st'.threads[i], c);
  }

  // ---------------------------------------------------------------- why the condition is needed

  /** From its loop head, a driver that is offered one event enters it. */
  lemma EntersEvent(r: Run, i: nat, n: int) returns (r': Run)
    requires IsRun(r) && i < |Last(r).threads| && Last(r).threads[i] == LoopTop(n)
    requires Last(r).shared.running && !Last(r).shared.alerted
    ensures IsRun(r') && Last(r') == Last(r).(threads := Last(r).threads[i := InEvent(n, n, false)])
    ensures NoCalls(r.turns, r'.turns)
  {
    hide IsRun;
    r' := Hears(r, i, n);
    r' := Extend(r', i, Step);
    r' := Extend(r', i, Available(n));
    r' := Extend(r', i, UserCode(true));
    r' := Extend(r', i, Step);
  }

  lemma Hears(r: Run, i: nat, n: int) returns (r': Run)
    requires IsRun(r) && i < |Last(r).threads| && Last(r).threads[i] == LoopTop(n)
    requires Last(r).shared.running && !Last(r).shared.alerted
    ensures IsRun(r') && Last(r') == Last(r).(threads := Last(r).threads[i := LoopHeard(n, n)])
    ensures NoCalls(r.turns, r'.turns)
  {
    hide IsRun;
    r' := Extend(r, i, Step);
    r' := Extend(r', i, Step);
    r' := Extend(r', i, Step);
    r' := Extend(r', i, Available(n));
  }

  /** The later turns start no call. */
  ghost predicate NoCalls(turns: seq<Turn>, turns': seq<Turn>) {
    turns <= turns' &&
    forall u :: |turns| <= u < |turns'| ==>
      turns'[u].choice.Step? || turns'[u].choice.UserCode? || turns'[u].choice.EventCode? || turns'[u].choice.Available?
  }

  /** Thread 0 drives and is inside the handler of event 0; thread 2 halts; thread 1 calls `run`,
      wins the flag the halt freed, clears the alert and blocks on the handler lock. */
  lemma SecondDriverBlocks() returns (r: Run)
    ensures IsRun(r) && Last(r) ==
          State(Shared(true, false, Some(0), -1, [], false), [InEvent(0, 0, false), RunLock, Out])
  {
    hide IsRun;
    r := Started(3);
    assert Init(3).threads == [Out, Out, Out];
    r := Extend(r, 0, CallRun);
    r := StartsUp(r, 0);
    r := Extend(r, 0, Step);
    r := Extend(r, 0, Step);
    r := EntersEvent(r, 0, 0);
    r := HaltAndRun(r);
  }

  lemma HaltAndRun(r: Run) returns (r': Run)
    requires IsRun(r) && Last(r) == State(Shared(true, false, Some(0), -1, [], false), [InEvent(0, 0, false), Out, Out])
    ensures IsRun(r') && Last(r') ==
          State(Shared(true, false, Some(0), -1, [], false), [InEvent(0, 0, false), RunLock, Out])
  {
    hide IsRun;
    r' := Extend(r, 2, CallHalt);
    r' := Extend(r', 2, Step);
    r' := Extend(r', 1, CallRun);
    r' := StartsUpBehind(r', 1);
  }

  /** Starting up while another thread holds the handler lock. */
  lemma StartsUpBehind(r: Run, i: nat) returns (r': Run)
    requires IsRun(r) && i < |Last(r).threads| && Last(r).threads[i] == RunReset
    requires Last(r).shared.holder.Some? && Last(r).shared.running
    ensures IsRun(r') && Last(r') == State(Last(r).shared.(alerted := false), Last(r).threads[i := RunLock])
  {
    hide IsRun;
    r' := Extend(r, i, Step);
    r' := Extend(r', i, Step);
    r' := Extend(r', i, Step);
    r' := Extend(r', i, Step);
    r' := Extend(r', i, Step);
  }

  /** Not calling again after the failure is not enough: if thread 0's handler now fails, the driver
      that is blocked on the lock gets it and enters the failed event, and nobody has called. */
  lemma BlockedDriverReenters() returns (r: Run, t: nat)
    ensures IsRun(r) && t < |r.turns| && r.turns[t] == Turn(0, EventCode(false))
    ensures forall u :: t < u < |r.turns| ==> !(r.turns[u].choice.CallRun? || r.turns[u].choice.CallProbe?)
    ensures Last(r).shared.spoiled && |Last(r).threads| == 3 && Last(r).threads[1] == InEvent(0, 0, false)
  {
    hide IsRun;
    r := SecondDriverBlocks();
    t := |r.turns|;
    r := Extend(r, 0, EventCode(false));
    var failed := r.turns;
    r := Extend(r, 0, Step);
    r := Extend(r, 0, Step);
    r := Extend(r, 1, Step);
    r := EntersEvent(r, 1, 0);
    assert failed <= r.turns && r.turns[t] == failed[t];
  }

  /** And a driver that does call again is let in: from any run whose processor has failed and is
      idle, a probe enters the very event the handler failed on. */
  lemma ProbeReentersFailedEvent(r: Run, i: nat) returns (r': Run)
    requires IsRun(r) && Last(r).shared.spoiled && !Last(r).shared.running && !Last(r).shared.alerted
    requires Last(r).shared.holder.None? && i < |Last(r).threads| && Last(r).threads[i] == Out
    ensures IsRun(r') && Last(r').shared.spoiled && |Last(r').threads| == |Last(r).threads|
    ensures Last(r').threads[i].InEvent? && Last(r').threads[i].next in AsView(Last(r)).dirty
  {
    var n := |Last(r).shared.completed|;
    RunInv(r, |r.states| - 1);
    NobodyMidBatch(Last(r));
    hide IsRun, Inv, Effect;
    r' := Driving.ProbeIsAnswered(r, i, n);
    r' := ProbeEnters(r', i, n);
  }

  lemma ProbeEnters(r: Run, i: nat, n: int) returns (r': Run)
    requires IsRun(r) && i < |Last(r).threads| && Last(r).threads[i] == ProbeCheck(n, n) && Last(r).shared.running
    ensures IsRun(r') && Last(r') == Last(r).(threads := Last(r).threads[i := InEvent(n, n, true)])
  {
    hide IsRun;
    r' := Extend(r, i, Step);
    r' := Extend(r', i, UserCode(true));
    r' := Extend(r', i, Step);
  }

  lemma NobodyMidBatch(st: State)
    requires Inv(st) && st.shared.holder.None?
    ensures st.shared.sequence == |st.shared.completed| - 1
  {
    HeldIsLocal(st);
  }
}
