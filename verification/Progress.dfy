/** What a running disruptor can always still do: stages catch up with what is released to them, and
    producers get what fits. */
module Progress {
  import opened StageContract
  import opened Disruptor
  import opened Guarantees
  import Sequences
  import SequentialLoop
  import WorkerPool
  import ProcessorStage
  import SingleProducer
  import MultiProducer
  import Pipeline

  function Last<E>(r: Run<E>): System<E>
    requires r.states != []
  {
    r.states[|r.states| - 1]
  }

  /** Stage k alone moves through these loop steps; the result is again a run. */
  lemma {:induction false} LoopExtendsRun<E>(r: Run<E>, k: nat,
                                             l: SequentialLoop.Loop, l': SequentialLoop.Loop,
                                             actions: seq<SequentialLoop.Action>) returns (r': Run<E>)
    requires IsRun(r) && Shaped(Last(r)) && k < |Last(r).stages| &&
          Last(r).stages[k] == Sequential(l)
    requires SequentialLoop.Reaches(l, l', actions, Released(Last(r), k))
    ensures IsRun(r') && r.states <= r'.states && r.acts <= r'.acts
    ensures Last(r').stages == Last(r).stages[k := Sequential(l')]
    ensures Last(r').slots == Last(r).slots && Last(r').producers == Last(r).producers
    decreases |actions|
  {
    hide SequentialLoop.Next, AsView, Init;
    var sys := Last(r);
    if actions == [] {
      r' := r;
    } else {
      var a, released := actions[0], Released(sys, k);
      var mid :| SequentialLoop.Next(l, mid, a, released) && SequentialLoop.Reaches(mid, l', actions[1..], released);
      var next := Sequential(mid);
      var sys' := sys.(stages := sys.stages[k := next],
                       trail := TrailAfter(sys, k, SequentialLoop.EventOf(l, a, 0), next));
      var r1 := OneActLonger(r, sys', LoopAct(k, a));
      assert Released(sys', k) == released;
      r' := LoopExtendsRun(r1, k, mid, l', actions[1..]);
    }
  }

  lemma OneActLonger<E>(r: Run<E>, sys': System<E>, act: Act<E>)
        returns (r': Run<E>)
    requires IsRun(r) && Shaped(Last(r)) && Disruptor.Next(Last(r), sys', act)
    ensures IsRun(r') && r.states <= r'.states && r.acts <= r'.acts && Last(r') == sys'
  {
    hide Disruptor.Next, Init;
    r' := Run(r.states + [sys'], r.acts + [act]);
    forall t | 0 <= t < |r'.acts| ensures StepAt(r', t) {
      if t < |r.acts| { assert StepAt(r, t); }
    }
  }

  // ---------------------------------------------------------------- the parts move as they can alone

  /** Every step a stage's own machine allows on what its barrier releases is a step of the system. */
  lemma StageStepExtendsRun<E>(r: Run<E>, k: nat, stage: Stage, act: Act<E>) returns (r': Run<E>)
    requires IsRun(r) && Shaped(Last(r)) && k < |Last(r).stages|
    requires act.LoopAct? || act.PoolAct? || act.FanOutAct? || act.ProcessorAct?
    requires act.stage == k && StageAct(Last(r).stages[k], stage, act, Released(Last(r), k))
    ensures IsRun(r') && r.states <= r'.states && Last(r').producers == Last(r).producers
    ensures Last(r').stages == Last(r).stages[k := stage] && Last(r').slots == Last(r).slots
  {
    hide AsView, Released, SequentialLoop.Next, WorkerPool.Next, SequentialLoop.FanOutNext, ProcessorStage.StageNext;
    var sys := Last(r);
    ActorExists(sys.stages[k], stage, act, Released(sys, k));
    var e := match act
             case LoopAct(_, a) => SequentialLoop.EventOf(sys.stages[k].loop, a, 0)
             case PoolAct(_, i, a) => WorkerPool.EventOf(sys.stages[k].pool, i, a)
             case FanOutAct(_, i, a) => SequentialLoop.EventOf(sys.stages[k].loops[i], a, i)
             case ProcessorAct(_, i, c) => ProcessorStage.EventOf(sys.stages[k].proc, i, c);
    var sys' := sys.(stages := sys.stages[k := stage], trail := TrailAfter(sys, k, e, stage));
    r' := OneActLonger(r, sys', act);
  }

  lemma ActorExists<E>(s: Stage, s': Stage, act: Act<E>, released: set<int>)
    requires StageAct(s, s', act, released)
    ensures match act
            case PoolAct(_, i, _) => i < |s.pool.workers|
            case FanOutAct(_, i, _) => i < |s.loops|
            case ProcessorAct(_, i, _) => i < |s.proc.threads|
            case _ => true
  {
  }

  /** A handler of a mutating stage may change the event it is on, and a closure the slots of its claim. */
  lemma HolderMayWrite<E>(r: Run<E>, x: Accessor, s: int, e: E) returns (r': Run<E>)
    requires IsRun(r) && Shaped(Last(r)) && Touches(Last(r), x, s)
    requires x.Consumer? ==> Exclusive(Last(r).stages[x.stage])
    ensures IsRun(r') && r.states <= r'.states
    ensures Last(r') == Last(r).(slots := Last(r).slots[s % Last(r).size := e])
  {
    hide AsView;
    var sys := Last(r);
    var sys' := sys.(slots := sys.slots[s % sys.size := e]);
    match x
    case Consumer(k, w) => r' := OneActLonger(r, sys', Mutate(k, w, s, e));
    case Handle(i) =>
      FillsWhatItHolds(sys, s);
      r' := OneActLonger(r, sys', Fill(s, e));
  }

  // ---------------------------------------------------------------- a chain catches up

  /** A sequential stage at its loop head can bring its sequence to whatever is released to it. */
  lemma StageCatchesUp<E>(r: Run<E>, k: nat, available: int) returns (r': Run<E>)
    requires IsRun(r) && Shaped(Last(r)) && k < |Last(r).stages| && Last(r).stages[k].Sequential?
    requires Last(r).stages[k].loop.phase == SequentialLoop.Top && Last(r).stages[k].loop.next <= available + 1
    requires forall s :: 0 <= s <= available ==> s in Released(Last(r), k)
    ensures IsRun(r') && r.states <= r'.states && Last(r').producers == Last(r).producers
    ensures Last(r').stages ==
              Last(r).stages[k := Sequential(SequentialLoop.Loop(available, available + 1, SequentialLoop.Top))]
  {
    var l := Last(r).stages[k].loop;
    HeadIsSettled(r, k);
    if l.next <= available {
      SequentialLoop.BatchCompletes(l, available, Released(Last(r), k));
      r' := LoopExtendsRun(r, k, l, SequentialLoop.Loop(available, available + 1, SequentialLoop.Top),
                           SequentialLoop.WholeBatch(l.next, available));
    } else {
      r' := r;
    }
  }

  lemma HeadIsSettled<E>(r: Run<E>, k: nat)
    requires IsRun(r) && k < |Last(r).stages| && Last(r).stages[k].Sequential?
    requires Last(r).stages[k].loop.phase == SequentialLoop.Top
    ensures Last(r).stages[k].loop.sequence == Last(r).stages[k].loop.next - 1 && 0 <= Last(r).stages[k].loop.next
  {
    hide AsView;
    RunInv(r, |r.states| - 1);
    assert StageInvAt(Last(r), k);
  }

  /** A single-producer disruptor whose stages are sequential loops at their heads. */
  predicate AtRest<E>(sys: System<E>) {
    && sys.producers.Single?
    && forall k :: 0 <= k < |sys.stages| ==> StageAtRest(sys.stages[k])
  }

  predicate StageAtRest(s: Stage) {
    s.Sequential? && s.loop.phase == SequentialLoop.Top
  }

  /** No stage has gone past the cursor. */
  lemma StageWithinCursor<E>(r: Run<E>, k: nat)
    requires IsRun(r) && k < |Last(r).stages| && Last(r).producers.Single? && Last(r).stages[k].Sequential?
    requires Last(r).stages[k].loop.phase == SequentialLoop.Top
    ensures Last(r).stages[k].loop.next <= Last(r).producers.one.cursor + 1
  {
    var sys := Last(r);
    RunInv(r, |r.states| - 1);
    assert StageInvAt(sys, k);
    var next := sys.stages[k].loop.next;
    if next > 0 {
      assert next - 1 in AsView(sys.stages[k]).handled;
      hide AsView;
      Pipeline.HandledChain(Abs(sys), k);
    }
  }

  /** The first n stages catch up with the cursor, one after the other. */
  lemma {:induction false} ChainCatchesUp<E>(r: Run<E>, n: nat) returns (r': Run<E>)
    requires IsRun(r) && AtRest(Last(r)) && n <= |Last(r).stages|
    ensures IsRun(r') && r.states <= r'.states && Last(r').producers == Last(r).producers
    ensures |Last(r').stages| == |Last(r).stages| && AtRest(Last(r'))
    ensures var c := Last(r).producers.one.cursor;
            forall k :: 0 <= k < n ==>
                Last(r').stages[k] == Sequential(SequentialLoop.Loop(c, c + 1, SequentialLoop.Top))
  {
    if n == 0 {
      r' := r;
    } else {
      hide IsRun, AsView, Released;
      var r1 := ChainCatchesUp(r, n - 1);
      var c := Last(r).producers.one.cursor;
      EndsShaped(r1);
      assert StageAtRest(Last(r1).stages[n - 1]);
      StageWithinCursor(r1, n - 1);
      CursorIsReleased(r1, n - 1);
      r' := StageCatchesUp(r1, n - 1, c);
    }
  }

  lemma EndsShaped<E>(r: Run<E>)
    requires IsRun(r)
    ensures r.states != [] && Shaped(Last(r))
  {
    RunInv(r, |r.states| - 1);
  }

  lemma CursorIsReleased<E>(r: Run<E>, k: nat)
    requires IsRun(r) && Shaped(Last(r)) && k < |Last(r).stages| && Last(r).producers.Single?
    requires var c := Last(r).producers.one.cursor;
             k > 0 ==> Last(r).stages[k - 1] == Sequential(SequentialLoop.Loop(c, c + 1, SequentialLoop.Top))
    ensures forall s :: 0 <= s <= Last(r).producers.one.cursor ==> s in Released(Last(r), k)
  {
  }

  /** Whatever has been published, the chain can complete all of it: the gate reaches the cursor. */
  lemma ChainDrains<E>(r: Run<E>) returns (r': Run<E>)
    requires IsRun(r) && AtRest(Last(r))
    ensures IsRun(r') && r.states <= r'.states && Last(r').producers == Last(r).producers && AtRest(Last(r'))
    ensures |Last(r').stages| > 0 && Gate(Last(r')) == Last(r).producers.one.cursor
  {
    EndsShaped(r);
    r' := ChainCatchesUp(r, |Last(r).stages|);
  }

  // ---------------------------------------------------------------- what fits is claimed

  lemma SingleExtendsRun<E>(r: Run<E>, p: SingleProducer.Producer, a: SingleProducer.Action) returns (r': Run<E>)
    requires IsRun(r) && Shaped(Last(r)) && Last(r).producers.Single?
    requires SingleProducer.Next(Last(r).producers.one, p, a, Last(r).size)
    requires a.Grant? || a.GiveUp? ==> a.scan <= Gate(Last(r))
    ensures IsRun(r') && r.states <= r'.states && Shaped(Last(r'))
    ensures Last(r').producers == Single(p) && Last(r').stages == Last(r).stages && Last(r').size == Last(r).size
  {
    hide AsView, SingleProducer.Next;
    var sys := Last(r);
    var sys' := sys.(producers := Single(p), trail := TrailPublished(sys, Single(p)));
    r' := OneActLonger(r, sys', SingleAct(a));
  }

  /** An idle producer that is neither closed nor poisoned gets every claim that fits below the gate. */
  lemma FittingClaimIsGranted<E>(r: Run<E>, n: nat) returns (r': Run<E>)
    requires IsRun(r) && Shaped(Last(r)) && Last(r).producers.Single? && 1 <= n <= Last(r).size
    requires var p := Last(r).producers.one;
             p.phase == SingleProducer.Idle && !p.closed && !p.poisoned &&
                 p.nextValue + n - Last(r).size <= Gate(Last(r))
    ensures IsRun(r') && r.states <= r'.states && Last(r').stages == Last(r).stages && Shaped(Last(r'))
    ensures var c := Last(r).producers.one.nextValue;
            && Last(r').producers.Single? && Claimed(Last(r').producers) == c + n
            && Last(r').producers.one.phase == SingleProducer.Filling(c + 1, c + n)
  {
    var gate := Gate(Last(r));
    var p1, p2, p3 := SingleProducer.LoneClaim(Last(r).producers.one, n, gate, Last(r).size);
    hide AsView, IsRun, SingleProducer.Next;
    r' := SingleExtendsRun(r, p1, SingleProducer.CheckClosed(n));
    r' := SingleExtendsRun(r', p2, SingleProducer.CheckPoisoned);
    r' := SingleExtendsRun(r', p3, SingleProducer.Grant(gate));
  }

  /** And what it has claimed it can publish. */
  lemma ClaimIsPublished<E>(r: Run<E>) returns (r': Run<E>)
    requires IsRun(r) && Shaped(Last(r)) && Last(r).producers.Single? && Last(r).producers.one.phase.Filling?
    ensures IsRun(r') && r.states <= r'.states && Last(r').stages == Last(r).stages && Last(r').producers.Single?
    ensures Last(r').producers.one.phase == SingleProducer.Idle
    ensures Last(r').producers.one.cursor == Last(r).producers.one.phase.hi
  {
    var p1, p2 := SingleProducer.LonePublish(Last(r).producers.one, Last(r).size);
    hide AsView, IsRun, SingleProducer.Next;
    r' := SingleExtendsRun(r, p1, SingleProducer.ClosureReturns);
    r' := SingleExtendsRun(r', p2, SingleProducer.Publish);
  }

  lemma MultiExtendsRun<E>(r: Run<E>, p: MultiProducer.Producers, i: nat, a: MultiProducer.Action) returns (r': Run<E>)
    requires IsRun(r) && Shaped(Last(r)) && Last(r).producers.Multi?
    requires MultiProducer.Next(Last(r).producers.many, p, i, a, Last(r).size) && |p.flags| == Last(r).size
    requires a.CheckCapacity? || a.GiveUp? ==> a.scan <= Gate(Last(r))
    ensures IsRun(r') && r.states <= r'.states && Shaped(Last(r'))
    ensures Last(r').producers == Multi(p) && Last(r').stages == Last(r).stages && Last(r').size == Last(r).size
  {
    hide AsView, MultiProducer.Next;
    var sys := Last(r);
    var sys' := sys.(producers := Multi(p), trail := TrailPublished(sys, Multi(p)));
    r' := OneActLonger(r, sys', MultiAct(i, a));
  }

  /** The same for any of several producers that is alone in claiming. */
  lemma FittingClaimIsGrantedMulti<E>(r: Run<E>, i: nat, n: nat) returns (r': Run<E>)
    requires IsRun(r) && Shaped(Last(r)) && Last(r).producers.Multi? && 1 <= n <= Last(r).size
    requires var p := Last(r).producers.many;
             && i < |p.handles| && p.handles[i] == MultiProducer.Idle && !p.closed && !p.poisoned
             && p.cursor + n - Last(r).size <= Gate(Last(r))
    ensures IsRun(r') && r.states <= r'.states && Last(r').stages == Last(r).stages && Last(r').producers.Multi?
    ensures var c, many := Last(r).producers.many.cursor, Last(r').producers.many;
            many.cursor == c + n && i < |many.handles| && many.handles[i] == MultiProducer.Filling(c + 1, c + n)
  {
    var gate := Gate(Last(r));
    var ps := MultiProducer.LoneClaim(Last(r).producers.many, i, n, gate, Last(r).size);
    FlagsKept(ps[4], ps[5], i, MultiProducer.CompareExchange, Last(r).size);
    hide AsView, IsRun, MultiProducer.Next;
    r' := MultiExtendsRun(r, ps[1], i, MultiProducer.CheckClosed(n));
    r' := MultiExtendsRun(r', ps[2], i, MultiProducer.CheckPoisoned);
    r' := MultiExtendsRun(r', ps[3], i, MultiProducer.Load);
    r' := MultiExtendsRun(r', ps[4], i, MultiProducer.CheckCapacity(true, gate));
    r' := MultiExtendsRun(r', ps[5], i, MultiProducer.CompareExchange);
  }

  lemma FlagsKept(p: MultiProducer.Producers, p': MultiProducer.Producers, i: nat, a: MultiProducer.Action, size: nat)
    requires |p.flags| == size > 0 && MultiProducer.Next(p, p', i, a, size)
    ensures |p'.flags| == size
  {
  }

  /** A disruptor never wedges itself: from every run that ends with an idle, open, sound producer
      and a chain of sequential stages at rest, however full the ring, there is a continuation that
      completes everything published and then grants a claim of any size up to the whole ring. */
  lemma NeverWedged<E>(r: Run<E>, n: nat) returns (r': Run<E>)
    requires IsRun(r) && AtRest(Last(r)) && 1 <= n <= Last(r).size
    requires var p := Last(r).producers.one; p.phase == SingleProducer.Idle && !p.closed && !p.poisoned
    ensures IsRun(r') && r.states <= r'.states && Last(r').producers.Single?
    ensures var c := Last(r).producers.one.cursor;
            Last(r').producers.one.phase == SingleProducer.Filling(c + 1, c + n)
  {
    hide AsView;
    RunInv(r, |r.states| - 1);
    SizeStays(r);
    r' := ChainDrains(r);
    EndsShaped(r');
    SizeStays(r');
    r' := FittingClaimIsGranted(r', n);
  }

  lemma {:induction false} SizeStays<E>(r: Run<E>)
    requires IsRun(r)
    ensures Last(r).size == r.states[0].size
    decreases |r.states|
  {
    if r.acts == [] {
    } else {
      var n := |r.acts| - 1;
      assert StepAt(r, n);
      var shorter := Run(r.states[..n + 1], r.acts[..n]);
      forall t | 0 <= t < n ensures StepAt(shorter, t) {
        assert StepAt(r, t);
      }
      SizeStays(shorter);
    }
  }
}
