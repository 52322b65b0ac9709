/** The whole disruptor: one ring, single- or multi-producer side, and a chain of stages each of
    which is a sequential loop, a WorkerPool, a read-only fan-out or a processor, wired as in
    src/disruptor/builder/core.rs and src/disruptor/disruptor.rs. All steps interleave freely. */
module Disruptor {
  import opened StageContract
  import Sequences
  import SequentialLoop
  import WorkerPool
  import Lifecycle
  import ProcessorStage
  import SingleProducer
  import MultiProducer
  import Pipeline

  datatype Stage =
    | Sequential(loop: SequentialLoop.Loop)
    | Pool(pool: WorkerPool.Pool)
    | FanOut(loops: seq<SequentialLoop.Loop>)
    | Processor(proc: Lifecycle.State)  // a batch processor that any number of threads drive

  datatype ProducerSide =
    | Single(one: SingleProducer.Producer)
    | Multi(many: MultiProducer.Producers)

  /** `trail` is history, as in `Pipeline`. */
  datatype System<E> = System(
    size: nat,
    slots: seq<E>,
    producers: ProducerSide,
    stages: seq<Stage>,
    trail: map<(nat, int), E>)

  datatype Act<E> =
    | SingleAct(single: SingleProducer.Action)
    | MultiAct(handle: nat, multi: MultiProducer.Action)
    | Fill(at: int, value: E)
    | LoopAct(stage: nat, loopAction: SequentialLoop.Action)
    | PoolAct(stage: nat, worker: nat, poolAction: WorkerPool.Action)
    | FanOutAct(stage: nat, reader: nat, readAction: SequentialLoop.Action)
    | ProcessorAct(stage: nat, thread: nat, choice: Lifecycle.Choice)
    | Mutate(stage: nat, who: nat, at: int, value: E)

  function AsView(s: Stage): View {
    match s
    case Sequential(l) => SequentialLoop.AsView(l)
    case Pool(p) => WorkerPool.AsView(p)
    case FanOut(ls) => SequentialLoop.FanOutView(ls)
    case Processor(p) => ProcessorStage.AsView(p)
  }

  predicate Exclusive(s: Stage) {
    !s.FanOut?
  }

  function Claimed(p: ProducerSide): int {
    match p
    case Single(one) => one.nextValue
    case Multi(many) => many.cursor
  }

  function Published(p: ProducerSide): set<int> {
    match p
    case Single(one) => SingleProducer.Visible(one)
    case Multi(many) => many.published
  }

  function Finished(p: ProducerSide): set<int> {
    match p
    case Single(one) => one.finished
    case Multi(many) => many.finished
  }

  predicate IsPoisoned(p: ProducerSide) {
    match p
    case Single(one) => one.poisoned
    case Multi(many) => many.poisoned
  }

  predicate IsClosed(p: ProducerSide) {
    match p
    case Single(one) => one.closed
    case Multi(many) => many.closed
  }

  /** The system seen as a pipeline of stage views. */
  ghost function Abs<E>(sys: System<E>): Pipeline.State<E> {
    Pipeline.State(
      sys.size, sys.slots, Claimed(sys.producers), Published(sys.producers),
      seq(|sys.stages|, k requires 0 <= k < |sys.stages| => AsView(sys.stages[k])),
      seq(|sys.stages|, k requires 0 <= k < |sys.stages| => Exclusive(sys.stages[k])),
      sys.trail)
  }

  /** The gating minimum: the least sequence of the last stage. */
  function Gate<E>(sys: System<E>): int
    requires |sys.stages| > 0
  {
    AsView(sys.stages[|sys.stages| - 1]).watermark
  }

  /** The sequences the barrier of stage k vouches for at this moment. The first stage looks at
      the producer side: the cursor in single-producer mode, the claimed sequences whose
      availability flag is set in multi-producer mode. Later stages look only at the minimum
      sequence of the stage before. */
  function Released<E>(sys: System<E>, k: nat): set<int>
    requires k < |sys.stages|
    requires sys.producers.Multi? ==> |sys.producers.many.flags| == sys.size > 0
  {
    if k > 0 then Sequences.Upto(AsView(sys.stages[k - 1]).watermark + 1)
    else
      match sys.producers
      case Single(one) => SingleProducer.Visible(one)
      case Multi(many) =>
        set s | s in Sequences.Upto(many.cursor + 1) && MultiProducer.IsAvailable(many.flags, s, sys.size)
  }

  ghost predicate MayFill(p: ProducerSide, at: int) {
    match p
    case Single(one) => one.phase.Filling? && one.phase.lo <= at <= one.phase.hi
    case Multi(many) =>
      exists i :: 0 <= i < |many.handles| && many.handles[i].Filling? && many.handles[i].lo <= at <= many.handles[i].hi
  }

  ghost predicate Shaped<E>(sys: System<E>) {
    && sys.size > 0 && |sys.slots| == sys.size && |sys.stages| > 0
    && (sys.producers.Multi? ==> |sys.producers.many.flags| == sys.size)
  }

  /** The history after stage k's event, and after the producer side moved from p to p'. */
  ghost function TrailAfter<E>(sys: System<E>, k: nat, e: Event, stage': Stage): map<(nat, int), E>
    requires Shaped(sys)
  {
    if e.Leave? && e.at in AsView(stage').handled then sys.trail[(k + 1, e.at) := sys.slots[e.at % sys.size]]
        else sys.trail
  }

  ghost function TrailPublished<E>(sys: System<E>, p': ProducerSide): map<(nat, int), E>
    requires Shaped(sys)
  {
    sys.trail + Pipeline.Log(Abs(sys), Published(p') - Published(sys.producers))
  }

  ghost predicate SingleNext<E>(sys: System<E>, sys': System<E>, a: SingleProducer.Action)
    requires Shaped(sys)
  {
    && sys.producers.Single? && sys'.producers.Single?
    && (a.Grant? || a.GiveUp? ==> a.scan <= Gate(sys))
    && SingleProducer.Next(sys.producers.one, sys'.producers.one, a, sys.size)
    && sys' == sys.(producers := sys'.producers, trail := TrailPublished(sys, sys'.producers))
  }

  ghost predicate MultiNext<E>(sys: System<E>, sys': System<E>, i: nat, a: MultiProducer.Action)
    requires Shaped(sys)
  {
    && sys.producers.Multi? && sys'.producers.Multi?
    && (a.CheckCapacity? || a.GiveUp? ==> a.scan <= Gate(sys))
    && MultiProducer.Next(sys.producers.many, sys'.producers.many, i, a, sys.size)
    && sys' == sys.(producers := sys'.producers, trail := TrailPublished(sys, sys'.producers))
  }

  ghost predicate LoopNext<E>(sys: System<E>, sys': System<E>, k: nat, a: SequentialLoop.Action)
    requires Shaped(sys)
  {
    && k < |sys.stages| == |sys'.stages| && sys.stages[k].Sequential? && sys'.stages[k].Sequential?
    && SequentialLoop.Next(sys.stages[k].loop, sys'.stages[k].loop, a, Released(sys, k))
    && sys' == sys.(stages := sys.stages[k := sys'.stages[k]],
                    trail := TrailAfter(sys, k, SequentialLoop.EventOf(sys.stages[k].loop, a, 0), sys'.stages[k]))
  }

  ghost predicate PoolNext<E>(sys: System<E>, sys': System<E>, k: nat, i: nat, a: WorkerPool.Action)
    requires Shaped(sys)
  {
    && k < |sys.stages| == |sys'.stages| && sys.stages[k].Pool? && sys'.stages[k].Pool?
    && WorkerPool.Next(sys.stages[k].pool, sys'.stages[k].pool, i, a, Released(sys, k))
    && sys' == sys.(stages := sys.stages[k := sys'.stages[k]],
                    trail := TrailAfter(sys, k, WorkerPool.EventOf(sys.stages[k].pool, i, a), sys'.stages[k]))
  }

  ghost predicate FanOutNext<E>(sys: System<E>, sys': System<E>, k: nat, i: nat, a: SequentialLoop.Action)
    requires Shaped(sys)
  {
    && k < |sys.stages| == |sys'.stages| && sys.stages[k].FanOut? && sys'.stages[k].FanOut?
    && SequentialLoop.FanOutNext(sys.stages[k].loops, sys'.stages[k].loops, i, a, Released(sys, k))
    && sys' == sys.(stages := sys.stages[k := sys'.stages[k]],
                    trail := TrailAfter(sys, k, SequentialLoop.EventOf(sys.stages[k].loops[i], a, i), sys'.stages[k]))
  }

  ghost predicate ProcessorNext<E>(sys: System<E>, sys': System<E>, k: nat, i: nat, c: Lifecycle.Choice)
    requires Shaped(sys)
  {
    && k < |sys.stages| == |sys'.stages| && sys.stages[k].Processor? && sys'.stages[k].Processor?
    && ProcessorStage.StageNext(sys.stages[k].proc, sys'.stages[k].proc, i, c, Released(sys, k))
    && sys' == sys.(stages := sys.stages[k := sys'.stages[k]],
                    trail := TrailAfter(sys, k, ProcessorStage.EventOf(sys.stages[k].proc, i, c), sys'.stages[k]))
  }

  ghost predicate Next<E>(sys: System<E>, sys': System<E>, act: Act<E>)
    requires Shaped(sys)
  {
    match act
    case SingleAct(a) => SingleNext(sys, sys', a)
    case MultiAct(i, a) => MultiNext(sys, sys', i, a)
    case Fill(at, e) =>
      MayFill(sys.producers, at) && sys' == sys.(slots := sys.slots[at % sys.size := e])
    case LoopAct(k, a) => LoopNext(sys, sys', k, a)
    case PoolAct(k, i, a) => PoolNext(sys, sys', k, i, a)
    case FanOutAct(k, i, a) => FanOutNext(sys, sys', k, i, a)
    case ProcessorAct(k, i, c) => ProcessorNext(sys, sys', k, i, c)
    case Mutate(k, w, at, e) =>
      && k < |sys.stages| && Exclusive(sys.stages[k])
      && Access(w, at) in AsView(sys.stages[k]).active
      && sys' == sys.(slots := sys.slots[at % sys.size := e])
  }

  // ---------------------------------------------------------------- the invariant

  ghost predicate StageInv(s: Stage, ready: set<int>) {
    match s
    case Sequential(l) => SequentialLoop.Inv(l, ready)
    case Pool(p) => WorkerPool.Inv(p, ready)
    case FanOut(ls) => SequentialLoop.FanOutInv(ls, ready)
    case Processor(p) => ProcessorStage.StageInv(p, ready) && ProcessorStage.Retired(p)
  }

  ghost predicate ProducerInv(p: ProducerSide, size: nat, gate: int) {
    match p
    case Single(one) => SingleProducer.Inv(one) && one.cachedValue <= gate
    case Multi(many) =>
      && MultiProducer.Inv(many) && MultiProducer.FlagInv(many, size) && many.cachedGating <= gate
      && forall i :: 0 <= i < |many.handles| && many.handles[i].Checked? ==>
           many.handles[i].n <= size && many.handles[i].current + many.handles[i].n - size <= gate
  }

  ghost predicate StagesInv<E>(sys: System<E>) {
    forall k :: 0 <= k < |sys.stages| ==> StageInvAt(sys, k)
  }

  ghost predicate StageInvAt<E>(sys: System<E>, k: nat)
    requires k < |sys.stages|
  {
    StageInv(sys.stages[k], Pipeline.Ready(Abs(sys), k))
  }

  ghost predicate Inv<E>(sys: System<E>) {
    && Shaped(sys)
    && Pipeline.Inv(Abs(sys))
    && StagesInv(sys)
    && ProducerInv(sys.producers, sys.size, Gate(sys))
  }

  predicate FreshStage(s: Stage) {
    match s
    case Sequential(l) => l == SequentialLoop.INIT
    case Pool(p) => |p.workers| > 0 && p == WorkerPool.Init(|p.workers|)
    case FanOut(ls) => |ls| > 0 && forall l <- ls :: l == SequentialLoop.INIT
    case Processor(p) => p == Lifecycle.Init(|p.threads|)
  }

  /** Any size, any non-empty chain of stages, any number of workers, readers and producers. */
  ghost predicate Init<E>(sys: System<E>) {
    && sys.size > 0 && |sys.slots| == sys.size && |sys.stages| > 0 && sys.trail == map[]
    && (forall s <- sys.stages :: FreshStage(s))
    && match sys.producers
       case Single(one) => one == SingleProducer.INIT
       case Multi(many) => many == MultiProducer.Init(sys.size, |many.handles|)
  }

  lemma FreshView(s: Stage, ready: set<int>)
    requires FreshStage(s)
    ensures AsView(s) == View(-1, {}, {}, {}) && StageInv(s, ready)
  {
    match s
    case Sequential(l) =>
    case Pool(p) =>
      WorkerPool.InitInv(|p.workers|, ready);
      WorkerPool.WatermarkIsMinimum(p);
    case FanOut(ls) =>
      assert forall i :: 0 <= i < |ls| ==> ls[i] in ls && ls[i] == SequentialLoop.INIT;
      assert SequentialLoop.Values(ls)[0] == -1 && SequentialLoop.Nexts(ls)[0] == 0;
    case Processor(p) => ProcessorStage.InitStageInv(|p.threads|, ready);
  }

  lemma InitInv<E>(sys: System<E>)
    requires Init(sys)
    ensures Inv(sys)
  {
    forall k | 0 <= k < |sys.stages|
      ensures AsView(sys.stages[k]) == View(-1, {}, {}, {}) && StageInvAt(sys, k)
    {
      assert sys.stages[k] in sys.stages;
      FreshView(sys.stages[k], Pipeline.Ready(Abs(sys), k));
    }
    Pipeline.InitInv(Abs(sys));
    match sys.producers {
      case Single(one) =>
      case Multi(many) => MultiProducer.InitInv(sys.size, |many.handles|);
    }
  }

  // ---------------------------------------------------------------- barriers tell the truth

  lemma PublishedBelowGate<E>(sys: System<E>, s: int)
    requires Inv(sys) && 0 <= s <= Gate(sys)
    ensures s in Published(sys.producers)
  {
    hide AsView;
    var st := Abs(sys);
    var n := |st.stages| - 1;
    assert Pipeline.StageOk(st, n);
    Pipeline.HandledChain(st, n);
  }

  /** Whatever a barrier vouches for from a pending sequence up has really been released by the
      stage before, or published: in multi-producer mode the availability flags cannot be
      confused with those of another round of the ring. */
  lemma ReleasedIsReady<E>(sys: System<E>, k: nat, lo: int, s: int)
    requires Inv(sys) && k < |sys.stages| && 0 <= lo <= s
    requires lo !in AsView(sys.stages[k]).handled
    requires s in Released(sys, k)
    ensures s in Pipeline.Ready(Abs(sys), k)
  {
    hide AsView;
    var st := Abs(sys);
    if k > 0 {
      assert Pipeline.StageOk(st, k - 1);
    } else if sys.producers.Multi? {
      Pipeline.HandledChain(st, 0);
      Pipeline.UnfinishedIsAboveGate(st, lo);
      assert MultiProducer.FlagTells(sys.producers.many, s, sys.size);
    }
  }

  // ---------------------------------------------------------------- a stage moves

  lemma StageReadyGrows(s: Stage, ready: set<int>, ready': set<int>)
    requires StageInv(s, ready) && ready <= ready'
    ensures StageInv(s, ready')
  {
  }

  ghost predicate StageMoved<E>(sys: System<E>, sys': System<E>, k: nat, e: Event)
    requires Shaped(sys) && k < |sys.stages|
  {
    && |sys'.stages| == |sys.stages|
    && Exclusive(sys'.stages[k]) == Exclusive(sys.stages[k])
    && sys' == sys.(stages := sys.stages[k := sys'.stages[k]], trail := TrailAfter(sys, k, e, sys'.stages[k]))
  }

  lemma StageMoveRefines<E>(sys: System<E>, sys': System<E>, k: nat, e: Event)
    requires Inv(sys) && k < |sys.stages| && StageMoved(sys, sys', k, e)
    requires var ready, ex := Pipeline.Ready(Abs(sys), k), Exclusive(sys.stages[k]);
             && Ok(AsView(sys'.stages[k]), ready, ex)
             && StageContract.Next(AsView(sys.stages[k]), AsView(sys'.stages[k]), ready, ex, e)
    ensures Pipeline.Next(Abs(sys), Abs(sys'), Pipeline.Consume(k, e))
  {
    hide AsView;
    var st, st' := Abs(sys), Abs(sys');
    assert st'.exclusive == st.exclusive;
    assert st'.stages == st.stages[k := st'.stages[k]];
  }

  lemma StageMoveKeepsOther<E>(sys: System<E>, sys': System<E>, k: nat, e: Event, j: nat)
    requires Inv(sys) && k < |sys.stages| && StageMoved(sys, sys', k, e)
    requires StageContract.Next(AsView(sys.stages[k]), AsView(sys'.stages[k]), Pipeline.Ready(Abs(sys), k),
          Exclusive(sys.stages[k]), e)
    requires j < |sys.stages| && j != k
    ensures StageInvAt(sys', j)
  {
    assert StageInvAt(sys, j);
    var ready, ready' := Pipeline.Ready(Abs(sys), j), Pipeline.Ready(Abs(sys'), j);
    assert ready <= ready';
    StageReadyGrows(sys.stages[j], ready, ready');
  }

  lemma GateMayRise(p: ProducerSide, size: nat, gate: int, gate': int)
    requires ProducerInv(p, size, gate) && gate <= gate'
    ensures ProducerInv(p, size, gate')
  {
  }

  lemma StageMoveAbs<E>(sys: System<E>, sys': System<E>, k: nat, e: Event)
    requires |sys.stages| == |sys'.stages| > 0
    requires Pipeline.Inv(Abs(sys)) && Pipeline.Next(Abs(sys), Abs(sys'), Pipeline.Consume(k, e))
    ensures Pipeline.Inv(Abs(sys')) && Gate(sys) <= Gate(sys')
  {
    hide AsView;
    Pipeline.StepKeeps(Abs(sys), Abs(sys'), Pipeline.Consume(k, e));
  }

  lemma StageMoveStages<E>(sys: System<E>, sys': System<E>, k: nat, e: Event)
    requires Inv(sys) && k < |sys.stages| && StageMoved(sys, sys', k, e)
    requires Pipeline.Next(Abs(sys), Abs(sys'), Pipeline.Consume(k, e))
    requires StageInv(sys'.stages[k], Pipeline.Ready(Abs(sys), k))
    ensures StagesInv(sys')
  {
    var st, st' := Abs(sys), Abs(sys');
    assert st.stages[k] == AsView(sys.stages[k]) && st'.stages[k] == AsView(sys'.stages[k]);
    assert Pipeline.Ready(st', k) == Pipeline.Ready(st, k);
    forall j | 0 <= j < |sys'.stages| ensures StageInvAt(sys', j) {
      if j != k {
        StageMoveKeepsOther(sys, sys', k, e, j);
      }
    }
  }

  lemma StageMoveKeeps<E>(sys: System<E>, sys': System<E>, k: nat, e: Event)
    requires Inv(sys) && k < |sys.stages| && StageMoved(sys, sys', k, e)
    requires Pipeline.Next(Abs(sys), Abs(sys'), Pipeline.Consume(k, e))
    requires StageInv(sys'.stages[k], Pipeline.Ready(Abs(sys), k))
    ensures Inv(sys') && Gate(sys) <= Gate(sys')
  {
    hide AsView;
    StageMoveAbs(sys, sys', k, e);
    StageMoveStages(sys, sys', k, e);
    GateMayRise(sys.producers, sys.size, Gate(sys), Gate(sys'));
  }

  lemma LoopStep<E>(sys: System<E>, sys': System<E>, k: nat, a: SequentialLoop.Action)
    requires Inv(sys) && LoopNext(sys, sys', k, a)
    ensures Inv(sys')
    ensures Pipeline.Next(Abs(sys), Abs(sys'), Pipeline.Consume(k, SequentialLoop.EventOf(sys.stages[k].loop, a, 0)))
  {
    var l, l', ready := sys.stages[k].loop, sys'.stages[k].loop, Pipeline.Ready(Abs(sys), k);
    assert StageInvAt(sys, k);
    forall s | s in Released(sys, k) && l.next <= s ensures s in ready {
      ReleasedIsReady(sys, k, l.next, s);
    }
    SequentialLoop.AnswerSuffices(l, l', a, Released(sys, k), ready);
    SequentialLoop.RefinesStage(l, l', a, ready);
    StageMoveRefines(sys, sys', k, SequentialLoop.EventOf(l, a, 0));
    StageMoveKeeps(sys, sys', k, SequentialLoop.EventOf(l, a, 0));
  }

  lemma PoolStep<E>(sys: System<E>, sys': System<E>, k: nat, i: nat, a: WorkerPool.Action)
    requires Inv(sys) && PoolNext(sys, sys', k, i, a)
    ensures Inv(sys')
    ensures Pipeline.Next(Abs(sys), Abs(sys'), Pipeline.Consume(k, WorkerPool.EventOf(sys.stages[k].pool, i, a)))
  {
    var p, p', ready := sys.stages[k].pool, sys'.stages[k].pool, Pipeline.Ready(Abs(sys), k);
    assert StageInvAt(sys, k);
    assert WorkerPool.WorkerOk(p.workers[i], p.work, p.handled, ready);
    if p.workers[i].phase.Claimed? {
      var c := p.workers[i].phase.claimed;
      forall s | s in Released(sys, k) && c <= s ensures s in ready {
        ReleasedIsReady(sys, k, c, s);
      }
    }
    WorkerPool.AnswerSuffices(p, p', i, a, Released(sys, k), ready);
    WorkerPool.RefinesStage(p, p', i, a, ready);
    StageMoveRefines(sys, sys', k, WorkerPool.EventOf(p, i, a));
    StageMoveKeeps(sys, sys', k, WorkerPool.EventOf(p, i, a));
  }

  lemma FanOutStep<E>(sys: System<E>, sys': System<E>, k: nat, i: nat, a: SequentialLoop.Action)
    requires Inv(sys) && FanOutNext(sys, sys', k, i, a)
    ensures Inv(sys')
    ensures Pipeline.Next(Abs(sys), Abs(sys'),
          Pipeline.Consume(k, SequentialLoop.EventOf(sys.stages[k].loops[i], a, i)))
  {
    var ls, ls', ready := sys.stages[k].loops, sys'.stages[k].loops, Pipeline.Ready(Abs(sys), k);
    assert StageInvAt(sys, k);
    assert SequentialLoop.Inv(ls[i], ready);
    assert Sequences.Min(SequentialLoop.Nexts(ls)) <= SequentialLoop.Nexts(ls)[i];
    forall s | s in Released(sys, k) && ls[i].next <= s ensures s in ready {
      ReleasedIsReady(sys, k, ls[i].next, s);
    }
    SequentialLoop.AnswerSuffices(ls[i], ls'[i], a, Released(sys, k), ready);
    SequentialLoop.FanOutRefinesStage(ls, ls', i, a, ready);
    StageMoveRefines(sys, sys', k, SequentialLoop.EventOf(ls[i], a, i));
    StageMoveKeeps(sys, sys', k, SequentialLoop.EventOf(ls[i], a, i));
  }

  lemma ProcessorStep<E>(sys: System<E>, sys': System<E>, k: nat, i: nat, c: Lifecycle.Choice)
    requires Inv(sys) && ProcessorNext(sys, sys', k, i, c)
    ensures Inv(sys')
    ensures Pipeline.Next(Abs(sys), Abs(sys'), Pipeline.Consume(k, ProcessorStage.EventOf(sys.stages[k].proc, i, c)))
  {
    var p, p', ready := sys.stages[k].proc, sys'.stages[k].proc, Pipeline.Ready(Abs(sys), k);
    assert StageInvAt(sys, k);
    var pc, n := p.threads[i], |p.shared.completed|;
    if pc.LoopResolve? || pc.ProbeRead? {
      assert Lifecycle.LocalOk(pc, p.shared);
      forall s | s in Released(sys, k) && n <= s ensures s in ready {
        ReleasedIsReady(sys, k, n, s);
      }
    }
    ProcessorStage.AnswerSuffices(p, p', i, c, Released(sys, k), ready);
    ProcessorStage.RetiredStays(p, p', i, c);
    ProcessorStage.RefinesStage(p, p', i, c, ready);
    StageMoveRefines(sys, sys', k, ProcessorStage.EventOf(p, i, c));
    StageMoveKeeps(sys, sys', k, ProcessorStage.EventOf(p, i, c));
  }

  // ---------------------------------------------------------------- the producer side moves

  /** A producer step is a claim of n more sequences, a publication, or invisible. */
  function ProducerStepOf<E>(p: ProducerSide, p': ProducerSide): Pipeline.Step<E> {
    if Claimed(p') > Claimed(p) then Pipeline.Claim(Claimed(p') - Claimed(p))
    else if Published(p') != Published(p) then Pipeline.Publish(Published(p') - Published(p))
    else Pipeline.Stutter
  }

  lemma ProducerMoveKeeps<E>(sys: System<E>, sys': System<E>, step: Pipeline.Step<E>)
    requires Inv(sys) && Pipeline.Next(Abs(sys), Abs(sys'), step)
    requires sys' == sys.(producers := sys'.producers, trail := TrailPublished(sys, sys'.producers))
    requires ProducerInv(sys'.producers, sys.size, Gate(sys)) && Published(sys.producers) <= Published(sys'.producers)
    ensures Inv(sys')
  {
    hide AsView;
    Pipeline.StepKeeps(Abs(sys), Abs(sys'), step);
    forall j | 0 <= j < |sys'.stages| ensures StageInvAt(sys', j) {
      assert StageInvAt(sys, j);
      StageReadyGrows(sys.stages[j], Pipeline.Ready(Abs(sys), j), Pipeline.Ready(Abs(sys'), j));
    }
  }

  lemma SingleStep<E>(sys: System<E>, sys': System<E>, a: SingleProducer.Action)
    requires Inv(sys) && SingleNext(sys, sys', a)
    ensures Inv(sys')
    ensures Pipeline.Next(Abs(sys), Abs(sys'), ProducerStepOf(sys.producers, sys'.producers))
  {
    hide AsView;
    var p, p' := sys.producers.one, sys'.producers.one;
    SingleProducer.StepKeeps(p, p', a, sys.size);
    SingleRefines(sys, sys', a);
    ProducerMoveKeeps(sys, sys', ProducerStepOf(sys.producers, sys'.producers));
  }

  lemma SingleRefines<E>(sys: System<E>, sys': System<E>, a: SingleProducer.Action)
    requires Inv(sys) && SingleNext(sys, sys', a)
    ensures Pipeline.Next(Abs(sys), Abs(sys'), ProducerStepOf(sys.producers, sys'.producers))
    ensures sys'.producers.one.cachedValue <= Gate(sys)
  {
    hide AsView;
    var p, p' := sys.producers.one, sys'.producers.one;
    SingleProducer.StepKeeps(p, p', a, sys.size);
    if a.Publish? {
      assert p'.cursor in SingleProducer.Visible(p') - SingleProducer.Visible(p);
      assert SingleProducer.Visible(p) + (SingleProducer.Visible(p') - SingleProducer.Visible(p)) ==
          SingleProducer.Visible(p');
    } else {
      assert TrailPublished(sys, sys'.producers) == sys.trail;
    }
  }

  lemma MultiRefines<E>(sys: System<E>, sys': System<E>, i: nat, a: MultiProducer.Action)
    requires Inv(sys) && MultiNext(sys, sys', i, a)
    ensures Pipeline.Next(Abs(sys), Abs(sys'), ProducerStepOf(sys.producers, sys'.producers))
  {
    hide AsView, Pipeline.StageOk, Pipeline.Recorded, Pipeline.HoldsTrail, Pipeline.Resting, StagesInv,
        MultiProducer.FlagTells;
    var p, p' := sys.producers.many, sys'.producers.many;
    MultiProducer.StepKeeps(p, p', i, a, sys.size);
    assert MultiProducer.HandleOk(p.handles[i], p);
    if a.PublishOne? {
      assert p.handles[i].lo in p'.published - p.published;
      assert p.published + (p'.published - p.published) == p'.published;
    } else {
      assert p'.published - p.published == {};
      assert TrailPublished(sys, sys'.producers) == sys.trail;
    }
  }

  lemma MultiKeepsFlags<E>(sys: System<E>, sys': System<E>, i: nat, a: MultiProducer.Action)
    requires Inv(sys) && MultiNext(sys, sys', i, a)
    ensures MultiProducer.FlagInv(sys'.producers.many, sys.size)
  {
    hide AsView, Pipeline.StageOk, Pipeline.Recorded, Pipeline.HoldsTrail, Pipeline.Resting, StagesInv;
    var p, p', size := sys.producers.many, sys'.producers.many, sys.size;
    assert MultiProducer.HandleOk(p.handles[i], p);
    if a.CompareExchange? && p'.cursor != p.cursor {
      var n := p.handles[i].n;
      forall s | 0 <= s <= p.cursor + n - size ensures s in p.published {
        PublishedBelowGate(sys, s);
      }
      MultiProducer.ClaimKeepsFlags(p, p', size, n);
    } else if a.PublishOne? {
      Pipeline.UnpublishedIsLive(Abs(sys), p.handles[i].lo);
      MultiProducer.PublishKeepsFlags(p, p', size, p.handles[i].lo);
    } else {
      assert forall s :: MultiProducer.FlagTells(p', s, size) == MultiProducer.FlagTells(p, s, size);
    }
  }

  lemma MultiStep<E>(sys: System<E>, sys': System<E>, i: nat, a: MultiProducer.Action)
    requires Inv(sys) && MultiNext(sys, sys', i, a)
    ensures Inv(sys')
    ensures Pipeline.Next(Abs(sys), Abs(sys'), ProducerStepOf(sys.producers, sys'.producers))
  {
    hide AsView;
    MultiProducer.StepKeeps(sys.producers.many, sys'.producers.many, i, a, sys.size);
    MultiKeepsFlags(sys, sys', i, a);
    MultiRefines(sys, sys', i, a);
    ProducerMoveKeeps(sys, sys', ProducerStepOf(sys.producers, sys'.producers));
  }

  // ---------------------------------------------------------------- every step

  /** The pipeline step a system step amounts to. */
  ghost function StepOf<E>(sys: System<E>, sys': System<E>, act: Act<E>): Pipeline.Step<E>
    requires Shaped(sys) && Next(sys, sys', act)
  {
    match act
    case SingleAct(_) => ProducerStepOf(sys.producers, sys'.producers)
    case MultiAct(_, _) => ProducerStepOf(sys.producers, sys'.producers)
    case Fill(at, e) => Pipeline.Write(at, e)
    case LoopAct(k, a) => Pipeline.Consume(k, SequentialLoop.EventOf(sys.stages[k].loop, a, 0))
    case PoolAct(k, i, a) => Pipeline.Consume(k, WorkerPool.EventOf(sys.stages[k].pool, i, a))
    case FanOutAct(k, i, a) => Pipeline.Consume(k, SequentialLoop.EventOf(sys.stages[k].loops[i], a, i))
    case ProcessorAct(k, i, c) => Pipeline.Consume(k, ProcessorStage.EventOf(sys.stages[k].proc, i, c))
    case Mutate(k, w, at, e) => Pipeline.Mutate(k, w, at, e)
  }

  lemma FillIsUnpublished(p: ProducerSide, size: nat, gate: int, at: int)
    requires ProducerInv(p, size, gate) && MayFill(p, at)
    ensures 0 <= at <= Claimed(p) && at !in Published(p) && at !in Finished(p)
  {
  }

  lemma SlotsStep<E>(sys: System<E>, sys': System<E>, act: Act<E>)
    requires Inv(sys) && (act.Fill? || act.Mutate?) && Next(sys, sys', act)
    ensures Inv(sys') && Pipeline.Next(Abs(sys), Abs(sys'), StepOf(sys, sys', act))
  {
    hide AsView;
    if act.Fill? {
      FillIsUnpublished(sys.producers, sys.size, Gate(sys), act.at);
    }
    assert Abs(sys') == Abs(sys).(slots := sys'.slots);
    Pipeline.StepKeeps(Abs(sys), Abs(sys'), StepOf(sys, sys', act));
    forall j | 0 <= j < |sys'.stages| ensures StageInvAt(sys', j) {
      assert StageInvAt(sys, j);
    }
  }

  /** Every step of the system, whatever it is, keeps the invariant and is a pipeline step. */
  lemma StepRefines<E>(sys: System<E>, sys': System<E>, act: Act<E>)
    requires Inv(sys) && Next(sys, sys', act)
    ensures Inv(sys') && Pipeline.Next(Abs(sys), Abs(sys'), StepOf(sys, sys', act))
  {
    hide AsView;
    match act
    case SingleAct(a) => SingleStep(sys, sys', a);
    case MultiAct(i, a) => MultiStep(sys, sys', i, a);
    case Fill(_, _) => SlotsStep(sys, sys', act);
    case LoopAct(k, a) => LoopStep(sys, sys', k, a);
    case PoolAct(k, i, a) => PoolStep(sys, sys', k, i, a);
    case FanOutAct(k, i, a) => FanOutStep(sys, sys', k, i, a);
    case ProcessorAct(k, i, c) => ProcessorStep(sys, sys', k, i, c);
    case Mutate(_, _, _, _) => SlotsStep(sys, sys', act);
  }

  /** How an act moves one stage. */
  ghost predicate StageAct<E>(s: Stage, s': Stage, act: Act<E>, released: set<int>) {
    match act
    case LoopAct(_, a) => s.Sequential? && s'.Sequential? && SequentialLoop.Next(s.loop, s'.loop, a, released)
    case PoolAct(_, i, a) => s.Pool? && s'.Pool? && WorkerPool.Next(s.pool, s'.pool, i, a, released)
    case FanOutAct(_, i, a) => s.FanOut? && s'.FanOut? && SequentialLoop.FanOutNext(s.loops, s'.loops, i, a, released)
    case ProcessorAct(_, i, c) =>
          s.Processor? && s'.Processor? && ProcessorStage.StageNext(s.proc, s'.proc, i, c, released)
    case _ => false
  }

  lemma StageActs<E>(sys: System<E>, sys': System<E>, act: Act<E>, k: nat)
    requires Shaped(sys) && Next(sys, sys', act) && k < |sys.stages|
    ensures |sys'.stages| == |sys.stages|
    ensures sys'.stages[k] == sys.stages[k] || StageAct(sys.stages[k], sys'.stages[k], act, Released(sys, k))
  {
    hide AsView, Released, TrailAfter, SingleProducer.Next, MultiProducer.Next, SequentialLoop.Next,
         WorkerPool.Next, SequentialLoop.FanOutNext, ProcessorStage.StageNext;
  }
}
