/** Scans of moving consumer sequences inside a running disruptor: why a producer may trust a
    gating scan, and what a draining shutdown that returns Ok has waited for. */
module Gating {
  import opened StageContract
  import opened Disruptor
  import opened Guarantees
  import Sequences
  import SequentialLoop
  import WorkerPool
  import Lifecycle
  import ProcessorStage
  import Pipeline

  /** The consumer sequences of a stage, one per thread. */
  function Values(stage: Stage): seq<int> {
    match stage
    case Sequential(l) => [l.sequence]
    case Pool(p) => seq(|p.workers|, i requires 0 <= i < |p.workers| => p.workers[i].sequence)
    case FanOut(ls) => SequentialLoop.Values(ls)
    case Processor(p) => [p.shared.sequence]
  }

  lemma WatermarkIsMin(stage: Stage)
    ensures AsView(stage).watermark == Sequences.Min(Values(stage))
  {
  }

  lemma HasValues(stage: Stage, ready: set<int>)
    requires StageInv(stage, ready)
    ensures Values(stage) != []
  {
  }

  lemma ValuesRise<E>(sys: System<E>, sys': System<E>, act: Act<E>, k: nat)
    requires Inv(sys) && Disruptor.Next(sys, sys', act) && k < |sys.stages|
    ensures k < |sys'.stages| == |sys.stages| && Sequences.Below(Values(sys.stages[k]), Values(sys'.stages[k]))
  {
    assert StageInvAt(sys, k);
    hide AsView, Abs, Pipeline.Inv, Values, Disruptor.Next, StageInv, StageAct;
    StageActs(sys, sys', act, k);
    if sys'.stages[k] != sys.stages[k] {
      ActRises(sys.stages[k], sys'.stages[k], act, Released(sys, k), Pipeline.Ready(Abs(sys), k));
    }
  }

  lemma ActRises<E>(s: Stage, s': Stage, act: Act<E>, released: set<int>, ready: set<int>)
    requires StageInv(s, ready) && StageAct(s, s', act, released)
    ensures Sequences.Below(Values(s), Values(s'))
  {
    match act
    case LoopAct(_, a) => LoopRises(s.loop, s'.loop, a, released, ready);
    case PoolAct(_, i, a) => PoolRises(s.pool, s'.pool, i, a, released, ready);
    case FanOutAct(_, i, a) => LoopRises(s.loops[i], s'.loops[i], a, released, ready);
    case ProcessorAct(_, i, c) => Lifecycle.StepKeeps(s.proc, s'.proc, i, c);
  }

  lemma LoopRises(l: SequentialLoop.Loop, l': SequentialLoop.Loop, a: SequentialLoop.Action, released: set<int>,
        ready: set<int>)
    requires SequentialLoop.Inv(l, ready) && SequentialLoop.Next(l, l', a, released)
    ensures l.sequence <= l'.sequence
  {
  }

  lemma PoolRises(p: WorkerPool.Pool, p': WorkerPool.Pool, i: nat, a: WorkerPool.Action, released: set<int>,
        ready: set<int>)
    requires WorkerPool.Inv(p, ready) && WorkerPool.Next(p, p', i, a, released)
    ensures |p'.workers| == |p.workers|
    ensures forall j :: 0 <= j < |p.workers| ==> p.workers[j].sequence <= p'.workers[j].sequence
  {
  }

  lemma {:induction false} ValuesNeverGoBack<E>(r: Run<E>, t: nat, t': nat, k: nat)
    requires IsRun(r) && t <= t' < |r.states| && k < |r.states[t].stages|
    ensures k < |r.states[t'].stages| == |r.states[t].stages|
    ensures Sequences.Below(Values(r.states[t].stages[k]), Values(r.states[t'].stages[k]))
    decreases t'
  {
    hide AsView, Disruptor.Next, Values;
    if t == t' {
    } else {
      ValuesNeverGoBack(r, t, t' - 1, k);
      RunInv(r, t' - 1);
      assert StepAt(r, t' - 1);
      ValuesRise(r.states[t' - 1], r.states[t'], r.acts[t' - 1], k);
    }
  }

  // ---------------------------------------------------------------- gating scans

  /** The sequences of the last stage (what the builder gates on and drains), or of every stage
      of the chain (what the classic DSL gates on and drains). */
  function Watched<E>(sys: System<E>, wholeChain: bool): seq<int> {
    if wholeChain then Chained(sys.stages)
    else if sys.stages == [] then []
    else Values(sys.stages[|sys.stages| - 1])
  }

  function Chained(stages: seq<Stage>): seq<int> {
    if stages == [] then []
    else Chained(stages[..|stages| - 1]) + Values(stages[|stages| - 1])
  }

  lemma {:induction false} ChainedRise(u: seq<Stage>, v: seq<Stage>)
    requires |u| == |v| && forall k :: 0 <= k < |u| ==> Sequences.Below(Values(u[k]), Values(v[k]))
    ensures Sequences.Below(Chained(u), Chained(v))
  {
    hide Values;
    if u == [] {
    } else {
      var n := |u| - 1;
      ChainedRise(u[..n], v[..n]);
      assert Sequences.Below(Values(u[n]), Values(v[n]));
    }
  }

  lemma WatchedRise<E>(r: Run<E>, t: nat, t': nat, wholeChain: bool)
    requires IsRun(r) && t <= t' < |r.states|
    ensures Sequences.Below(Watched(r.states[t], wholeChain), Watched(r.states[t'], wholeChain))
  {
    hide AsView, IsRun, Values;
    var u, v := r.states[t].stages, r.states[t'].stages;
    HasStages(r, t);
    ValuesNeverGoBack(r, t, t', 0);
    forall k | 0 <= k < |u| ensures Sequences.Below(Values(u[k]), Values(v[k])) {
      ValuesNeverGoBack(r, t, t', k);
    }
    ChainedRise(u, v);
  }

  lemma HasStages<E>(r: Run<E>, t: nat)
    requires IsRun(r) && t < |r.states|
    ensures |r.states[t].stages| > 0
  {
    RunInv(r, t);
  }

  /** The watched sequences as they move through the run. */
  function History<E>(r: Run<E>, wholeChain: bool): seq<seq<int>> {
    seq(|r.states|, t requires 0 <= t < |r.states| => Watched(r.states[t], wholeChain))
  }

  lemma HistoryRises<E>(r: Run<E>, wholeChain: bool)
    requires IsRun(r)
    ensures Sequences.Rising(History(r, wholeChain))
  {
    hide Watched;
    var h := History(r, wholeChain);
    forall t, t' | 0 <= t <= t' < |h| ensures Sequences.Below(h[t], h[t']) {
      WatchedRise(r, t, t', wholeChain);
    }
  }

  /** The least watched sequence never exceeds the gate: either way of gating is safe. */
  lemma WatchedBelowGate<E>(sys: System<E>, wholeChain: bool)
    requires Inv(sys)
    ensures Watched(sys, wholeChain) != [] && Sequences.Min(Watched(sys, wholeChain)) <= Gate(sys)
  {
    hide AsView, Values;
    var n := |sys.stages| - 1;
    assert StageInvAt(sys, n);
    WatermarkIsMin(sys.stages[n]);
    HasValues(sys.stages[n], Pipeline.Ready(Abs(sys), n));
    TailOfChain(sys.stages);
  }

  lemma TailOfChain(stages: seq<Stage>)
    requires stages != [] && Values(stages[|stages| - 1]) != []
    ensures Chained(stages) != [] && Sequences.Min(Chained(stages)) <= Sequences.Min(Values(stages[|stages| - 1]))
  {
    hide Values;
    var last, w := Values(stages[|stages| - 1]), Chained(stages);
    var i :| 0 <= i < |last| && last[i] == Sequences.Min(last);
    assert w[|w| - |last| + i] == last[i];
  }

  /** A gating scan made while the consumers run returns a value the gate has already reached,
      so granting a claim on its word is safe at once and ever after. */
  method GatingScan<E>(ghost r: Run<E>, h: seq<seq<int>>, times: seq<nat>, position: int, wholeChain: bool)
      returns (minimum: int)
    requires IsRun(r) && h == History(r, wholeChain)
    requires times != [] && Sequences.ScanTimes(h, times)
    ensures var done := times[|times| - 1];
            forall t :: done <= t < |r.states| ==>
              |r.states[t].stages| > 0 && minimum <= Gate(r.states[t]) && minimum <= position
    ensures Sequences.Least(position, Sequences.Min(h[times[0]])) <= minimum
  {
    HistoryRises(r, wholeChain);
    minimum := Sequences.GetMinimumSequenceWithDefault(h, times, position);
    ghost var done := times[|times| - 1];
    forall t | done <= t < |r.states|
      ensures |r.states[t].stages| > 0 && minimum <= Gate(r.states[t])
    {
      RunInv(r, t);
      WatchedBelowGate(r.states[t], wholeChain);
      WatchedRise(r, done, t, wholeChain);
      MinRises(h[done], h[t]);
    }
  }

  lemma MinRises(u: seq<int>, v: seq<int>)
    requires Sequences.Below(u, v) && u != []
    ensures Sequences.Min(u) <= Sequences.Min(v)
  {
  }

  // ---------------------------------------------------------------- no stage overtakes the one before

  /** Stage k keeps its invariant on nothing but what the minimum of the stage before releases. */
  ghost predicate Behind<E>(sys: System<E>, k: nat) {
    0 < k < |sys.stages| ==> StageInv(sys.stages[k], Sequences.Upto(AsView(sys.stages[k - 1]).watermark + 1))
  }

  lemma ActKeeps<E>(s: Stage, s': Stage, act: Act<E>, released: set<int>)
    requires StageInv(s, released) && StageAct(s, s', act, released)
    ensures StageInv(s', released)
  {
    match act
    case LoopAct(_, a) => SequentialLoop.StepKeeps(s.loop, s'.loop, a, released);
    case PoolAct(_, i, a) => WorkerPool.StepKeeps(s.pool, s'.pool, i, a, released);
    case FanOutAct(_, i, a) => SequentialLoop.StepKeeps(s.loops[i], s'.loops[i], a, released);
    case ProcessorAct(_, i, c) =>
      ProcessorStage.RetiredStays(s.proc, s'.proc, i, c);
      ProcessorStage.RefinesStage(s.proc, s'.proc, i, c, released);
  }

  lemma BehindStep<E>(sys: System<E>, sys': System<E>, act: Act<E>, k: nat)
    requires Inv(sys) && Disruptor.Next(sys, sys', act) && Behind(sys, k) && 0 < k < |sys.stages|
    ensures Behind(sys', k)
  {
    hide AsView, Abs, Disruptor.Next, StageInv, StageAct, Values;
    StageActs(sys, sys', act, k);
    var w, w' := AsView(sys.stages[k - 1]).watermark, AsView(sys'.stages[k - 1]).watermark;
    var released := Sequences.Upto(w + 1);
    if sys'.stages[k] != sys.stages[k] {
      ActKeeps(sys.stages[k], sys'.stages[k], act, released);
    }
    WatermarkRises(sys, sys', act, k - 1);
    StageReadyGrows(sys'.stages[k], released, Sequences.Upto(w' + 1));
  }

  lemma WatermarkRises<E>(sys: System<E>, sys': System<E>, act: Act<E>, k: nat)
    requires Inv(sys) && Disruptor.Next(sys, sys', act) && k < |sys.stages|
    ensures k < |sys'.stages| && AsView(sys.stages[k]).watermark <= AsView(sys'.stages[k]).watermark
  {
    hide AsView, Disruptor.Next, StageInv, Values;
    ValuesRise(sys, sys', act, k);
    assert StageInvAt(sys, k);
    HasValues(sys.stages[k], Pipeline.Ready(Abs(sys), k));
    MinRises(Values(sys.stages[k]), Values(sys'.stages[k]));
    WatermarkIsMin(sys.stages[k]);
    WatermarkIsMin(sys'.stages[k]);
  }

  lemma {:induction false} RunBehind<E>(r: Run<E>, t: nat, k: nat)
    requires IsRun(r) && t < |r.states|
    ensures Behind(r.states[t], k)
  {
    hide AsView, Abs, Disruptor.Next, StageInv, Inv;
    if !(0 < k < |r.states[t].stages|) {
    } else if t == 0 {
      StartsFresh(r, k);
      FreshView(r.states[0].stages[k], Sequences.Upto(AsView(r.states[0].stages[k - 1]).watermark + 1));
    } else {
      KindsStay(r, t);
      KindsStay(r, t - 1);
      RunBehind(r, t - 1, k);
      RunInv(r, t - 1);
      assert StepAt(r, t - 1);
      BehindStep(r.states[t - 1], r.states[t], r.acts[t - 1], k);
    }
  }

  lemma StartsFresh<E>(r: Run<E>, k: nat)
    requires IsRun(r) && k < |r.states[0].stages|
    ensures FreshStage(r.states[0].stages[k])
  {
  }

  lemma StageViewOk(s: Stage, ready: set<int>)
    requires StageInv(s, ready)
    ensures Ok(AsView(s), ready, Exclusive(s))
  {
    match s
    case Sequential(l) => SequentialLoop.ViewOk(l, ready);
    case Pool(p) => WorkerPool.ViewOk(p, ready);
    case FanOut(ls) => SequentialLoop.FanOutViewOk(ls, ready);
    case Processor(p) => ProcessorStage.ViewOk(p, ready);
  }

  /** Whatever stage k has completed, entered or is working on lies at or below the minimum of the
      stage before it, in every state of every run. */
  lemma NeverOvertakes<E>(r: Run<E>, t: nat, k: nat, s: int)
    requires IsRun(r) && t < |r.states| && 0 < k < |r.states[t].stages|
    requires var v := AsView(r.states[t].stages[k]);
             s in v.handled || s in v.dirty || exists a <- v.active :: a.at == s
    ensures 0 <= s <= AsView(r.states[t].stages[k - 1]).watermark
  {
    hide AsView;
    RunBehind(r, t, k);
    StageViewOk(r.states[t].stages[k], Sequences.Upto(AsView(r.states[t].stages[k - 1]).watermark + 1));
  }

  // ---------------------------------------------------------------- barriers of later stages

  /** The consumer sequences of stage j as they move through the run. */
  ghost predicate StageHistory<E>(r: Run<E>, j: nat, h: seq<seq<int>>) {
    && |h| == |r.states|
    && forall t :: 0 <= t < |h| ==> j < |r.states[t].stages| && h[t] == Values(r.states[t].stages[j])
  }

  lemma StageHistoryRises<E>(r: Run<E>, j: nat, h: seq<seq<int>>)
    requires IsRun(r) && StageHistory(r, j, h)
    ensures Sequences.Rising(h)
  {
    hide Values, AsView;
    forall t, t' | 0 <= t <= t' < |h| ensures Sequences.Below(h[t], h[t']) {
      ValuesNeverGoBack(r, t, t', j);
    }
  }

  /** The barrier of stage k loads the sequences of stage k - 1 one after the other while they
      move. What it answers is released to stage k when the scan ends, and from then on. */
  method DependentScan<E>(ghost r: Run<E>, k: nat, h: seq<seq<int>>, times: seq<nat>) returns (available: int)
    requires IsRun(r) && k > 0 && StageHistory(r, k - 1, h)
    requires times != [] && Sequences.ScanTimes(h, times)
    ensures Sequences.Min(h[times[0]]) <= available <= Sequences.Min(h[times[|times| - 1]])
    ensures forall t, s :: times[|times| - 1] <= t < |r.states| && 0 <= s <= available ==> ReleasedAt(r, t, k, s)
  {
    hide Values, AsView, IsRun, ReleasedAt;
    StageHistoryRises(r, k - 1, h);
    available := Sequences.GetMinimumSequence(h, times);
    ghost var done := times[|times| - 1];
    forall t, s | done <= t < |r.states| && 0 <= s <= available ensures ReleasedAt(r, t, k, s) {
      assert Sequences.Below(h[done], h[t]);
      MinRises(h[done], h[t]);
      BelowMinimumIsReleased(r, t, k, s);
    }
  }

  lemma BelowMinimumIsReleased<E>(r: Run<E>, t: nat, k: nat, s: int)
    requires IsRun(r) && t < |r.states| && 0 < k <= |r.states[t].stages|
    requires 0 <= s <= Sequences.Min(Values(r.states[t].stages[k - 1]))
    ensures ReleasedAt(r, t, k, s)
  {
    hide AsView;
    RunInv(r, t);
    WatermarkIsMin(r.states[t].stages[k - 1]);
  }

  // ---------------------------------------------------------------- draining shutdown

  datatype Outcome = Drained | Poisoned | ConsumerExited | TimedOut | StillWaiting

  /** One turn of the drain loop: the poison flag it reads at time `at`, whether it finds a
      consumer thread finished, when it loads each sequence, and whether time is up. */
  datatype Poll = Poll(at: nat, poisoned: bool, consumerExited: bool, loads: seq<nat>, deadlinePassed: bool)

  ghost predicate PollOk<E>(p: Poll, r: Run<E>, h: seq<seq<int>>, closedAt: nat) {
    && closedAt <= p.at < |r.states| && p.poisoned == IsPoisoned(r.states[p.at].producers)
    && p.loads != [] && Sequences.ScanTimes(h, p.loads) && p.at <= p.loads[0]
  }

  function Cursor(p: ProducerSide): int {
    match p
    case Single(one) => one.cursor
    case Multi(many) => many.cursor
  }

  lemma {:induction false} HandledForever<E>(r: Run<E>, t: nat, t': nat, k: nat, s: int)
    requires IsRun(r) && t <= t' < |r.states| && k < |r.states[t].stages| && s in AsView(r.states[t].stages[k]).handled
    ensures k < |r.states[t'].stages| && s in AsView(r.states[t'].stages[k]).handled
    decreases t'
  {
    hide AsView;
    hide Disruptor.Next;
    if t == t' {
    } else {
      HandledForever(r, t, t' - 1, k, s);
      RunStep(r, t' - 1);
      HandledStays(Abs(r.states[t' - 1]), Abs(r.states[t']), StepOf(r.states[t' - 1], r.states[t'], r.acts[t' - 1]),
          k, s);
    }
  }

  lemma HandledStays<E>(st: Pipeline.State<E>, st': Pipeline.State<E>, step: Pipeline.Step<E>, k: nat, s: int)
    requires Pipeline.Inv(st) && Pipeline.Next(st, st', step) && k < |st.stages| && s in st.stages[k].handled
    ensures k < |st'.stages| && s in st'.stages[k].handled
  {
  }

  lemma GateReached<E>(sys: System<E>, k: nat, s: int)
    requires Inv(sys) && k < |sys.stages| && 0 <= s <= Gate(sys)
    ensures s in AsView(sys.stages[k]).handled
  {
    hide AsView;
    var st := Abs(sys);
    assert Pipeline.StageOk(st, |st.stages| - 1);
    Pipeline.HandledChain(st, k);
  }

  lemma WatchedReached<E>(sys: System<E>, wholeChain: bool, cursor: int)
    requires Inv(sys) && cursor <= Sequences.Min(Watched(sys, wholeChain))
    ensures forall k, s :: 0 <= k < |sys.stages| && 0 <= s <= cursor ==> s in AsView(sys.stages[k]).handled
  {
    hide AsView, Abs, Values;
    WatchedBelowGate(sys, wholeChain);
    forall k, s | 0 <= k < |sys.stages| && 0 <= s <= cursor ensures s in AsView(sys.stages[k]).handled {
      GateReached(sys, k, s);
    }
  }

  /** No stage freezes, at any time of the run, on an event at or below the cursor. */
  ghost predicate FailsOnlyAbove<E>(r: Run<E>, cursor: int) {
    forall t, k, s :: 0 <= t < |r.states| && 0 <= k < |r.states[t].stages| && Stuck(r.states[t].stages[k], s) ==>
        cursor < s
  }

  lemma DrainedFailsOnlyAbove<E>(r: Run<E>, drainedAt: nat, cursor: int)
    requires IsRun(r) && drainedAt < |r.states|
    requires forall k, s :: 0 <= k < |r.states[drainedAt].stages| && 0 <= s <= cursor ==>
               s in AsView(r.states[drainedAt].stages[k]).handled
    ensures FailsOnlyAbove(r, cursor)
  {
    hide AsView, Stuck;
    forall t, k, s | 0 <= t < |r.states| && 0 <= k < |r.states[t].stages| && Stuck(r.states[t].stages[k], s)
        ensures cursor < s {
      KindsStay(r, t);
      KindsStay(r, drainedAt);
      DrainedMeansNoFailure(r, drainedAt, t, k, s);
      RunInv(r, t);
      StuckIsUnhandled(r.states[t], k, s);
    }
  }

  /** Every watched sequence had reached the cursor when the poll began to load them. */
  ghost predicate SeenDrained(p: Poll, h: seq<seq<int>>, cursor: int) {
    p.loads != [] && p.loads[0] < |h| && cursor <= Sequences.Min(h[p.loads[0]])
  }

  /** The poll gives the loop no reason to stop. */
  ghost predicate KeepsWaiting(p: Poll, h: seq<seq<int>>, cursor: int) {
    !p.poisoned && !p.consumerExited && !p.deadlinePassed && !SeenDrained(p, h, cursor)
  }

  /** `drain_backlog` (and the builder's `drain`): poll until every watched sequence has reached
      the cursor read after claims were closed. When it reports success, every stage has
      completed every sequence up to that cursor, and none of them fails on one, before or after.
      It waits through the first `waited` polls, because nothing in them told it to stop, and its
      answer is what the next poll says, in this order: poison, a finished consumer, a drained
      backlog, the deadline; the last only if the backlog was not already drained. */
  method DrainBacklog<E>(ghost r: Run<E>, h: seq<seq<int>>, closedAt: nat, cursor: int, polls: seq<Poll>,
                         wholeChain: bool)
      returns (outcome: Outcome, drainedAt: nat, ghost waited: nat)
    requires IsRun(r) && h == History(r, wholeChain)
    requires closedAt < |r.states| && cursor == Cursor(r.states[closedAt].producers)
    requires forall p <- polls :: PollOk(p, r, h, closedAt)
    ensures waited <= |polls| && forall i :: 0 <= i < waited ==> KeepsWaiting(polls[i], h, cursor)
    ensures outcome == StillWaiting <==> waited == |polls|
    ensures waited < |polls| ==> Explains(polls[waited], r, h, cursor, outcome)
    ensures outcome == Drained ==> CompletedAt(r, drainedAt, cursor) && FailsOnlyAbove(r, cursor)
  {
    hide AsView, Abs, IsRun, Watched, CompletedAt, FailsOnlyAbove, Sequences.Min;
    HistoryRises(r, wholeChain);
    drainedAt, waited := closedAt, 0;
    for i := 0 to |polls|
      invariant waited == i && forall j :: 0 <= j < i ==> KeepsWaiting(polls[j], h, cursor)
    {
      var p := polls[i];
      assert p in polls;
      if p.poisoned {
        return Poisoned, drainedAt, waited;
      }
      if p.consumerExited {
        return ConsumerExited, drainedAt, waited;
      }
      var consumed := Sequences.GetMinimumSequenceWithDefault(h, p.loads, cursor);
      if consumed >= cursor {
        drainedAt := p.loads[|p.loads| - 1];
        DrainIsComplete(r, drainedAt, wholeChain, cursor);
        return Drained, drainedAt, waited;
      }
      if p.deadlinePassed {
        return TimedOut, drainedAt, waited;
      }
      waited := waited + 1;
    }
    return StillWaiting, drainedAt, waited;
  }

  /** What the deciding poll shows for each answer. */
  ghost predicate Explains<E>(p: Poll, r: Run<E>, h: seq<seq<int>>, cursor: int, outcome: Outcome) {
    match outcome
    case Poisoned => p.poisoned && p.at < |r.states| && IsPoisoned(r.states[p.at].producers)
    case ConsumerExited => !p.poisoned && p.consumerExited
    case Drained => !p.poisoned && !p.consumerExited
    case TimedOut => !p.poisoned && !p.consumerExited && p.deadlinePassed && !SeenDrained(p, h, cursor)
    case StillWaiting => KeepsWaiting(p, h, cursor)
  }

  /** At this moment every stage has completed everything up to the cursor. */
  ghost predicate CompletedAt<E>(r: Run<E>, t: nat, cursor: int) {
    t < |r.states| &&
    forall k, s :: 0 <= k < |r.states[t].stages| && 0 <= s <= cursor ==> s in AsView(r.states[t].stages[k]).handled
  }

  lemma DrainIsComplete<E>(r: Run<E>, t: nat, wholeChain: bool, cursor: int)
    requires IsRun(r) && t < |r.states| && cursor <= Sequences.Min(Watched(r.states[t], wholeChain))
    ensures CompletedAt(r, t, cursor) && FailsOnlyAbove(r, cursor)
  {
    hide AsView, Abs, Values, FailsOnlyAbove;
    RunInv(r, t);
    WatchedReached(r.states[t], wholeChain, cursor);
    DrainedFailsOnlyAbove(r, t, cursor);
  }

  /** If a drain has seen everything up to the cursor completed, no stage has failed, or ever
      fails, on an event at or below that cursor. */
  lemma DrainedMeansNoFailure<E>(r: Run<E>, drainedAt: nat, t: nat, k: nat, s: int)
    requires IsRun(r) && drainedAt < |r.states| && t < |r.states|
    requires k < |r.states[t].stages| && Stuck(r.states[t].stages[k], s)
    requires k < |r.states[drainedAt].stages|
    ensures s !in AsView(r.states[drainedAt].stages[k]).handled
  {
    hide AsView;
    var later := if drainedAt < t then t else drainedAt;
    StuckForever(r, t, later, k, s);
    RunInv(r, later);
    StuckIsUnhandled(r.states[later], k, s);
    if s in AsView(r.states[drainedAt].stages[k]).handled {
      HandledForever(r, drainedAt, later, k, s);
    }
  }
}
