/** What holds over every run of every disruptor: any ring size, any chain of sequential, pool,
    fan-out and processor stages, one or many producers, in every interleaving. */
module Guarantees {
  import opened StageContract
  import opened Disruptor
  import Sequences
  import SequentialLoop
  import WorkerPool
  import ProcessorStage
  import SingleProducer
  import MultiProducer
  import Pipeline

  datatype Run<E> = Run(states: seq<System<E>>, acts: seq<Act<E>>)

  ghost predicate IsRun<E>(r: Run<E>) {
    && |r.states| == |r.acts| + 1
    && Init(r.states[0])
    && forall t :: 0 <= t < |r.acts| ==> StepAt(r, t)
  }

  ghost predicate StepAt<E>(r: Run<E>, t: nat)
    requires |r.states| == |r.acts| + 1 && t < |r.acts|
  {
    Shaped(r.states[t]) && Disruptor.Next(r.states[t], r.states[t + 1], r.acts[t])
  }

  lemma {:induction false} RunInv<E>(r: Run<E>, t: nat)
    requires IsRun(r) && t < |r.states|
    ensures Inv(r.states[t])
  {
    hide Inv, Disruptor.Next, Init;
    if t == 0 {
      InitInv(r.states[0]);
    } else {
      RunInv(r, t - 1);
      assert StepAt(r, t - 1);
      StepRefines(r.states[t - 1], r.states[t], r.acts[t - 1]);
    }
  }

  /** What stage k does in step t. */
  ghost function EventAt<E>(r: Run<E>, t: nat, k: nat): Event
    requires |r.states| == |r.acts| + 1 && t < |r.acts| && StepAt(r, t)
  {
    var step := StepOf(r.states[t], r.states[t + 1], r.acts[t]);
    if step.Consume? && step.stage == k then step.event else Quiet
  }

  // ---------------------------------------------------------------- slot exclusion

  datatype Accessor = Handle(i: nat) | Consumer(stage: nat, who: nat)

  /** The accessor is inside user code that may read or write the slot of s. */
  ghost predicate Touches<E>(sys: System<E>, x: Accessor, s: int) {
    match x
    case Consumer(k, w) => k < |sys.stages| && Access(w, s) in AsView(sys.stages[k]).active
    case Handle(i) =>
      match sys.producers
      case Single(one) => i == 0 && one.phase.Filling? && one.phase.lo <= s <= one.phase.hi
      case Multi(many) =>
        && i < |many.handles| && many.handles[i].Filling?
        && many.handles[i].lo <= s <= many.handles[i].hi
  }

  lemma TouchedIsLive<E>(sys: System<E>, x: Accessor, s: int)
    requires Inv(sys) && Touches(sys, x, s)
    ensures Pipeline.Live(Abs(sys), s)
    ensures x.Handle? <==> s !in Published(sys.producers)
  {
    match x
    case Consumer(k, w) =>
      Pipeline.AccessIsLive(Abs(sys), k, Access(w, s));
    case Handle(_) =>
      FillIsUnpublished(sys.producers, sys.size, Gate(sys), s);
      Pipeline.UnpublishedIsLive(Abs(sys), s);
  }

  lemma StagesNeverMeet<E>(sys: System<E>, j: nat, k: nat, a: Access, b: Access)
    requires Inv(sys) && j < k < |sys.stages|
    requires a in AsView(sys.stages[j]).active && b in AsView(sys.stages[k]).active
    ensures a.at != b.at
  {
    assert Pipeline.StageOk(Abs(sys), j) && Pipeline.StageOk(Abs(sys), k);
    Pipeline.CompletedUpstream(Abs(sys), j, k, b.at);
  }

  /** Two parties are on the same ring slot only if both are readers of one fan-out stage,
      reading the same event. */
  lemma SlotExclusion<E>(r: Run<E>, t: nat, x: Accessor, y: Accessor, s: int, s': int)
    requires IsRun(r) && t < |r.states| && x != y
    requires Touches(r.states[t], x, s) && Touches(r.states[t], y, s')
    requires r.states[t].size > 0 && s % r.states[t].size == s' % r.states[t].size
    ensures s == s' && x.Consumer? && y.Consumer? && x.stage == y.stage && r.states[t].stages[x.stage].FanOut?
  {
    var sys := r.states[t];
    RunInv(r, t);
    TouchedIsLive(sys, x, s);
    TouchedIsLive(sys, y, s');
    if s != s' {
      Pipeline.LiveSlotsDistinct(Abs(sys), s, s');
    }
    assert sys.producers.Multi? ==> MultiProducer.Disjoint(sys.producers.many);
    match (x, y)
    case (Consumer(j, w), Consumer(k, w')) =>
      assert Pipeline.StageOk(Abs(sys), j);
      if j < k { StagesNeverMeet(sys, j, k, Access(w, s), Access(w', s')); }
      if k < j { StagesNeverMeet(sys, k, j, Access(w', s'), Access(w, s)); }
    case _ =>
  }

  // ---------------------------------------------------------------- the ring is a log

  lemma EnterSeesLog<E>(sys: System<E>, k: nat, s: int)
    requires Inv(sys) && k < |sys.stages|
    requires s in Pipeline.Ready(Abs(sys), k)
    requires s !in AsView(sys.stages[k]).handled && s !in AsView(sys.stages[k]).dirty
    ensures (k, s) in sys.trail && sys.slots[s % sys.size] == sys.trail[(k, s)]
  {
    var st := Abs(sys);
    Pipeline.HandledChain(st, k);
    Pipeline.UnfinishedIsAboveGate(st, s);
    assert Pipeline.Resting(st, k, s);
    assert Pipeline.HoldsTrail(st, k, s);
  }

  /** When stage k is handed s, the slot holds the value published at s (k = 0) or the value
      stage k - 1 left there, however often the ring has wrapped since. */
  lemma RingRefinesLog<E>(r: Run<E>, t: nat, k: nat, w: nat, s: int)
    requires IsRun(r) && t < |r.acts| && StepAt(r, t) && EventAt(r, t, k) == Enter(w, s)
    ensures var sys := r.states[t];
            sys.size > 0 && |sys.slots| == sys.size && (k, s) in sys.trail
            && sys.slots[s % sys.size] == sys.trail[(k, s)]
  {
    RunInv(r, t);
    StepRefines(r.states[t], r.states[t + 1], r.acts[t]);
    EnterSeesLog(r.states[t], k, s);
  }

  /** A reader of a fan-out stage sees that value for as long as it reads. */
  lemma ReadersSeeLog<E>(r: Run<E>, t: nat, k: nat, w: nat, s: int)
    requires IsRun(r) && t < |r.states| && k < |r.states[t].stages|
    requires r.states[t].stages[k].FanOut? && Access(w, s) in AsView(r.states[t].stages[k]).active
    ensures var sys := r.states[t];
            sys.size > 0 && |sys.slots| == sys.size && (k, s) in sys.trail
            && sys.slots[s % sys.size] == sys.trail[(k, s)]
  {
    RunInv(r, t);
    assert Pipeline.StageOk(Abs(r.states[t]), k);
    EnterSeesLog(r.states[t], k, s);
  }

  lemma TrailStep<E>(st: Pipeline.State<E>, st': Pipeline.State<E>, step: Pipeline.Step<E>, k: nat, s: int)
    requires Pipeline.Inv(st) && Pipeline.Next(st, st', step) && (k, s) in st.trail
    ensures (k, s) in st'.trail && st'.trail[(k, s)] == st.trail[(k, s)]
  {
    assert Pipeline.Recorded(st, k, s);
    if step.Consume? {
      assert Pipeline.StageOk(st, step.stage);
    }
  }

  /** One step of a run, seen through the views. */
  lemma RunStep<E>(r: Run<E>, t: nat)
    requires IsRun(r) && t < |r.acts|
    ensures StepAt(r, t) && Pipeline.Inv(Abs(r.states[t])) && Pipeline.Inv(Abs(r.states[t + 1]))
    ensures Pipeline.Next(Abs(r.states[t]), Abs(r.states[t + 1]), StepOf(r.states[t], r.states[t + 1], r.acts[t]))
  {
    assert StepAt(r, t);
    RunInv(r, t);
    StepRefines(r.states[t], r.states[t + 1], r.acts[t]);
  }

  lemma LogStep<E>(r: Run<E>, t: nat, k: nat, s: int)
    requires IsRun(r) && t < |r.acts| && (k, s) in r.states[t].trail
    ensures (k, s) in r.states[t + 1].trail && r.states[t + 1].trail[(k, s)] == r.states[t].trail[(k, s)]
  {
    hide AsView;
    hide Disruptor.Next;
    RunStep(r, t);
    TrailStep(Abs(r.states[t]), Abs(r.states[t + 1]), StepOf(r.states[t], r.states[t + 1], r.acts[t]), k, s);
  }

  /** What the log records never changes. */
  lemma {:induction false} LogIsStable<E>(r: Run<E>, t: nat, t': nat, k: nat, s: int)
    requires IsRun(r) && t <= t' < |r.states| && (k, s) in r.states[t].trail
    ensures (k, s) in r.states[t'].trail && r.states[t'].trail[(k, s)] == r.states[t].trail[(k, s)]
    decreases t'
  {
    if t == t' {
    } else {
      LogIsStable(r, t, t' - 1, k, s);
      LogStep(r, t' - 1, k, s);
    }
  }

  /** Which stages mutate slots; fixed for the run. */
  ghost function Mutating<E>(r: Run<E>): seq<bool>
    requires r.states != []
  {
    Abs(r.states[0]).exclusive
  }

  lemma {:induction false} KindsStay<E>(r: Run<E>, t: nat)
    requires IsRun(r) && t < |r.states|
    ensures Abs(r.states[t]).exclusive == Mutating(r) && |r.states[t].stages| == |Mutating(r)|
  {
    hide AsView, Disruptor.Next;
    if t == 0 {
    } else {
      KindsStay(r, t - 1);
      RunStep(r, t - 1);
    }
  }

  /** Handlers of mutating stages compute f: whenever such a stage k completes s, the slot holds
      f(k, s, v) for the value v the stage was handed. */
  ghost predicate HandlersCompute<E>(r: Run<E>, f: (nat, int, E) -> E)
    requires IsRun(r)
  {
    forall t: nat, k: nat :: t < |r.acts| && k < |Mutating(r)| && Mutating(r)[k] ==> ComputesAt(r, f, t, k)
  }

  ghost predicate ComputesAt<E>(r: Run<E>, f: (nat, int, E) -> E, t: nat, k: nat)
    requires IsRun(r) && t < |r.acts|
  {
    var sys, sys' := r.states[t], r.states[t + 1];
    assert StepAt(r, t);
    forall w: nat, s: int :: EventAt(r, t, k) == Leave(w, s) && (k, s) in sys.trail && (k + 1, s) in sys'.trail ==>
      sys.slots[s % sys.size] == f(k, s, sys.trail[(k, s)])
  }

  /** What the mutating ones among the first k stages make of v. */
  ghost function Composed<E>(f: (nat, int, E) -> E, mutating: seq<bool>, k: nat, s: int, v: E): E {
    if k == 0 then v
    else
      var before := Composed(f, mutating, k - 1, s, v);
      if k - 1 < |mutating| && mutating[k - 1] then f(k - 1, s, before) else before
  }

  lemma NewLogEntry<E>(st: Pipeline.State<E>, st': Pipeline.State<E>, step: Pipeline.Step<E>, k: nat, s: int)
    requires Pipeline.Inv(st) && Pipeline.Next(st, st', step)
    requires (k, s) in st'.trail && (k, s) !in st.trail && k > 0
    ensures step.Consume? && step.stage == k - 1 && step.event.Leave? && step.event.at == s
    ensures (k - 1, s) in st.trail && st'.trail[(k, s)] == st.slots[s % st.size]
  {
    assert step.Consume?;
    assert Pipeline.StageOk(st, step.stage);
    assert Pipeline.Recorded(st, k - 1, s);
  }

  /** A stage that completes s adds the entry found in the slot of s, made from its own. */
  lemma EntryIsMade<E>(r: Run<E>, t: nat, k: nat, s: int) returns (w: nat)
    requires IsRun(r) && t < |r.acts| && StepAt(r, t)
    requires (k + 1, s) in r.states[t + 1].trail && (k + 1, s) !in r.states[t].trail
    ensures k < |r.states[t].stages| && (k, s) in r.states[t].trail && EventAt(r, t, k) == Leave(w, s)
    ensures Access(w, s) in AsView(r.states[t].stages[k]).active
    ensures r.states[t].size > 0 && |r.states[t].slots| == r.states[t].size
    ensures r.states[t + 1].trail[(k + 1, s)] == r.states[t].slots[s % r.states[t].size]
  {
    hide AsView, Disruptor.Next, Pipeline.Recorded, Pipeline.Resting;
    RunStep(r, t);
    NewLogEntry(Abs(r.states[t]), Abs(r.states[t + 1]), StepOf(r.states[t], r.states[t + 1], r.acts[t]), k + 1, s);
    w := EventAt(r, t, k).who;
  }

  /** A read-only stage leaves every event as it was. */
  lemma {:induction false} FanOutIsIdentity<E>(r: Run<E>, t: nat, k: nat, s: int)
    requires IsRun(r) && t < |r.states| && k < |Mutating(r)| && !Mutating(r)[k] && (k + 1, s) in r.states[t].trail
    ensures (k, s) in r.states[t].trail && r.states[t].trail[(k + 1, s)] == r.states[t].trail[(k, s)]
  {
    hide Disruptor.Next, AsView, Init;
    if t == 0 {
      StartsEmpty(r);
    } else if (k + 1, s) in r.states[t - 1].trail {
      FanOutIsIdentity(r, t - 1, k, s);
      LogStep(r, t - 1, k, s);
      LogStep(r, t - 1, k + 1, s);
    } else {
      assert StepAt(r, t - 1);
      var w := EntryIsMade(r, t - 1, k, s);
      KindsStay(r, t - 1);
      ReadersSeeLog(r, t - 1, k, w, s);
      LogStep(r, t - 1, k, s);
    }
  }

  lemma StartsEmpty<E>(r: Run<E>)
    requires IsRun(r)
    ensures r.states[0].trail == map[]
  {
  }

  /** A new entry of a mutating stage k - 1 is f of the entry it was made from. */
  lemma StageAppends<E>(r: Run<E>, f: (nat, int, E) -> E, t: nat, k: nat, s: int)
    requires IsRun(r) && HandlersCompute(r, f) && t < |r.acts| && 0 < k <= |Mutating(r)| && Mutating(r)[k - 1]
    requires (k, s) in r.states[t + 1].trail && (k, s) !in r.states[t].trail
    ensures (k - 1, s) in r.states[t].trail
    ensures r.states[t + 1].trail[(k, s)] == f(k - 1, s, r.states[t].trail[(k - 1, s)])
  {
    hide AsView, Disruptor.Next;
    assert StepAt(r, t);
    var w := EntryIsMade(r, t, k - 1, s);
    assert ComputesAt(r, f, t, k - 1);
  }

  /** So with handlers f the slot stage k is handed holds what the mutating stages before it make,
      one after the other, of the value published at that sequence. */
  lemma {:induction false} LogIsComposition<E>(r: Run<E>, f: (nat, int, E) -> E, t: nat, k: nat, s: int)
    requires IsRun(r) && HandlersCompute(r, f) && t < |r.states| && (k, s) in r.states[t].trail
    ensures (0, s) in r.states[t].trail
    ensures r.states[t].trail[(k, s)] == Composed(f, Mutating(r), k, s, r.states[t].trail[(0, s)])
    decreases t, k
  {
    hide Disruptor.Next, HandlersCompute, Mutating, Init;
    if t == 0 {
      StartsEmpty(r);
    } else if k > 0 {
      EntryHasStage(r, t, k, s);
      if !Mutating(r)[k - 1] {
        FanOutIsIdentity(r, t, k - 1, s);
        LogIsComposition(r, f, t, k - 1, s);
      } else if (k, s) in r.states[t - 1].trail {
        LogIsComposition(r, f, t - 1, k, s);
        LogStep(r, t - 1, k, s);
        LogStep(r, t - 1, 0, s);
      } else {
        StageAppends(r, f, t - 1, k, s);
        LogStep(r, t - 1, k - 1, s);
        LogIsComposition(r, f, t, k - 1, s);
      }
    }
  }

  lemma EntryHasStage<E>(r: Run<E>, t: nat, k: nat, s: int)
    requires IsRun(r) && t < |r.states| && (k, s) in r.states[t].trail
    ensures k <= |Mutating(r)|
  {
    hide AsView;
    RunInv(r, t);
    KindsStay(r, t);
    assert Pipeline.Recorded(Abs(r.states[t]), k, s);
  }

  // ---------------------------------------------------------------- exactly once

  ghost predicate Taken<E>(st: Pipeline.State<E>, k: nat, s: int) {
    k < |st.stages| && (s in st.stages[k].dirty || s in st.stages[k].handled)
  }

  lemma TakenStays<E>(st: Pipeline.State<E>, st': Pipeline.State<E>, step: Pipeline.Step<E>, k: nat, s: int)
    requires Pipeline.Inv(st) && Pipeline.Next(st, st', step)
    requires k < |st.stages| && st.exclusive[k]
    ensures st'.exclusive == st.exclusive && |st'.stages| == |st.stages|
    ensures Taken(st, k, s) ==> Taken(st', k, s)
    ensures step.Consume? && step.stage == k && step.event.Enter? ==>
              !Taken(st, k, step.event.at) && Taken(st', k, step.event.at)
  {
  }

  lemma {:induction false} TakenForever<E>(r: Run<E>, t: nat, t': nat, k: nat, s: int)
    requires IsRun(r) && t <= t' < |r.states| && k < |r.states[t].stages|
    requires Abs(r.states[t]).exclusive[k] && Taken(Abs(r.states[t]), k, s)
    ensures k < |r.states[t'].stages| && Abs(r.states[t']).exclusive[k] && Taken(Abs(r.states[t']), k, s)
    decreases t'
  {
    hide AsView;
    hide Disruptor.Next;
    if t == t' {
    } else {
      TakenForever(r, t, t' - 1, k, s);
      RunStep(r, t' - 1);
      var step := StepOf(r.states[t' - 1], r.states[t'], r.acts[t' - 1]);
      TakenStays(Abs(r.states[t' - 1]), Abs(r.states[t']), step, k, s);
    }
  }

  /** Over a whole run a mutating stage is handed each sequence at most once, by one consumer. */
  lemma HandedOutOnce<E>(r: Run<E>, t: nat, t': nat, k: nat, w: nat, w': nat, s: int, s': int)
    requires IsRun(r) && t < t' < |r.acts| && StepAt(r, t) && StepAt(r, t')
    requires EventAt(r, t, k) == Enter(w, s) && EventAt(r, t', k) == Enter(w', s')
    requires k < |r.states[t].stages| && !r.states[t].stages[k].FanOut?
    ensures s != s'
  {
    hide AsView, Disruptor.Next, Pipeline.Next, Pipeline.Inv, Taken;
    RunStep(r, t);
    TakenStays(Abs(r.states[t]), Abs(r.states[t + 1]), StepOf(r.states[t], r.states[t + 1], r.acts[t]), k, s);
    TakenForever(r, t + 1, t', k, s);
    RunStep(r, t');
    TakenStays(Abs(r.states[t']), Abs(r.states[t' + 1]), StepOf(r.states[t'], r.states[t' + 1], r.acts[t']), k, s);
  }

  /** The reader has been handed s. */
  predicate Passed(l: SequentialLoop.Loop, s: int) {
    s < l.next || (s == l.next && SequentialLoop.Dirty(l) != {})
  }

  lemma PassedStep<E>(sys: System<E>, sys': System<E>, act: Act<E>, k: nat, w: nat, s: int)
    requires Shaped(sys) && Disruptor.Next(sys, sys', act)
    requires k < |sys.stages| && sys.stages[k].FanOut? && w < |sys.stages[k].loops|
    ensures k < |sys'.stages| && sys'.stages[k].FanOut? && w < |sys'.stages[k].loops|
    ensures Passed(sys.stages[k].loops[w], s) ==> Passed(sys'.stages[k].loops[w], s)
  {
    hide Disruptor.Next, AsView;
    StageActs(sys, sys', act, k);
  }

  lemma {:induction false} PassedForever<E>(r: Run<E>, t: nat, t': nat, k: nat, w: nat, s: int)
    requires IsRun(r) && t <= t' < |r.states| && k < |r.states[t].stages|
    requires r.states[t].stages[k].FanOut? && w < |r.states[t].stages[k].loops|
    requires Passed(r.states[t].stages[k].loops[w], s)
    ensures k < |r.states[t'].stages| && r.states[t'].stages[k].FanOut? && w < |r.states[t'].stages[k].loops|
    ensures Passed(r.states[t'].stages[k].loops[w], s)
    decreases t'
  {
    hide AsView, Disruptor.Next, Passed;
    if t == t' {
    } else {
      PassedForever(r, t, t' - 1, k, w, s);
      assert StepAt(r, t' - 1);
      PassedStep(r.states[t' - 1], r.states[t'], r.acts[t' - 1], k, w, s);
    }
  }

  /** Every reader of a fan-out stage is handed each sequence at most once. */
  lemma ReaderHandedOnce<E>(r: Run<E>, t: nat, t': nat, k: nat, w: nat, s: int, s': int)
    requires IsRun(r) && t < t' < |r.acts| && StepAt(r, t) && StepAt(r, t')
    requires EventAt(r, t, k) == Enter(w, s) && EventAt(r, t', k) == Enter(w, s')
    requires k < |r.states[t].stages| && r.states[t].stages[k].FanOut?
    ensures s < s'
  {
    hide AsView, Disruptor.Next, Passed, Init;
    ReaderEnters(r, t, k, w, s);
    PassedForever(r, t + 1, t', k, w, s);
    ReaderEnters(r, t', k, w, s');
    NotYetPassed(r.states[t'].stages[k].loops[w], s, s');
  }

  lemma ReaderEnters<E>(r: Run<E>, t: nat, k: nat, w: nat, s: int)
    requires |r.states| == |r.acts| + 1 && t < |r.acts| && StepAt(r, t) && EventAt(r, t, k) == Enter(w, s)
    requires k < |r.states[t].stages| && r.states[t].stages[k].FanOut?
    ensures k < |r.states[t + 1].stages| && r.states[t + 1].stages[k].FanOut?
    ensures w < |r.states[t].stages[k].loops| && w < |r.states[t + 1].stages[k].loops|
    ensures r.states[t].stages[k].loops[w].next == s && !Passed(r.states[t].stages[k].loops[w], s)
    ensures Passed(r.states[t + 1].stages[k].loops[w], s)
  {
    hide AsView;
  }

  lemma NotYetPassed(l: SequentialLoop.Loop, s: int, s': int)
    requires Passed(l, s) && l.next == s' && !Passed(l, s')
    ensures s < s'
  {
  }

  // ---------------------------------------------------------------- unfinished updates stay hidden

  /** No consumer of any stage is ever handed a sequence whose update closure did not return. */
  lemma OnlyFinishedIsSeen<E>(r: Run<E>, t: nat, k: nat, w: nat, s: int)
    requires IsRun(r) && t < |r.acts| && StepAt(r, t) && EventAt(r, t, k) == Enter(w, s)
    ensures s in Published(r.states[t].producers) && s in Finished(r.states[t].producers)
  {
    hide AsView;
    RunInv(r, t);
    RunStep(r, t);
    Pipeline.UpstreamChain(Abs(r.states[t]), k);
  }

  /** Claimed, but its closure neither returned nor is running: it panicked. */
  ghost predicate Orphan(p: ProducerSide, s: int) {
    0 <= s <= Claimed(p) && s !in Finished(p) && !MayFill(p, s)
  }

  lemma PanicOrphans<E>(sys: System<E>, sys': System<E>, act: Act<E>, s: int)
    requires Inv(sys) && Disruptor.Next(sys, sys', act) && MayFill(sys.producers, s)
    requires match act
             case SingleAct(a) => a.ClosurePanics?
             case MultiAct(i, a) =>
               a.ClosurePanics? && sys.producers.Multi? && i < |sys.producers.many.handles| &&
               sys.producers.many.handles[i].Filling? &&
               sys.producers.many.handles[i].lo <= s <= sys.producers.many.handles[i].hi
             case _ => false
    ensures Orphan(sys'.producers, s)
  {
    hide AsView;
    FillIsUnpublished(sys.producers, sys.size, Gate(sys), s);
    if act.MultiAct? { assert MultiProducer.Disjoint(sys.producers.many); }
  }

  lemma OrphanStays<E>(sys: System<E>, sys': System<E>, act: Act<E>, s: int)
    requires Shaped(sys) && ProducerInv(sys.producers, sys.size, Gate(sys))
    requires Disruptor.Next(sys, sys', act) && Orphan(sys.producers, s)
    ensures Orphan(sys'.producers, s)
  {
    hide AsView, Orphan, SingleProducer.Next, MultiProducer.Next, SequentialLoop.Next, WorkerPool.Next,
         SequentialLoop.FanOutNext, ProcessorStage.StageNext;
    match act
    case SingleAct(a) => SingleOrphanStays(sys.producers.one, sys'.producers.one, a, sys.size, s);
    case MultiAct(i, a) => MultiOrphanStays(sys.producers.many, sys'.producers.many, i, a, sys.size, s);
    case _ =>
  }

  lemma SingleOrphanStays(p: SingleProducer.Producer, p': SingleProducer.Producer, a: SingleProducer.Action,
                          size: nat, s: int)
    requires SingleProducer.Inv(p) && SingleProducer.Next(p, p', a, size) && Orphan(Single(p), s)
    ensures Orphan(Single(p'), s)
  {
  }

  lemma MultiOrphanStays(p: MultiProducer.Producers, p': MultiProducer.Producers, i: nat, a: MultiProducer.Action,
                         size: nat, s: int)
    requires MultiProducer.Inv(p) && |p.flags| == size > 0 && MultiProducer.Next(p, p', i, a, size)
    requires Orphan(Multi(p), s)
    ensures Orphan(Multi(p'), s)
  {
    assert MultiProducer.HandleOk(p.handles[i], p);
  }

  lemma {:induction false} OrphanForever<E>(r: Run<E>, t: nat, t': nat, s: int)
    requires IsRun(r) && t <= t' < |r.states| && Orphan(r.states[t].producers, s)
    ensures Orphan(r.states[t'].producers, s)
    decreases t'
  {
    hide AsView;
    hide Disruptor.Next;
    if t == t' {
    } else {
      OrphanForever(r, t, t' - 1, s);
      RunInv(r, t' - 1);
      assert StepAt(r, t' - 1);
      OrphanStays(r.states[t' - 1], r.states[t'], r.acts[t' - 1], s);
    }
  }

  /** A claim whose closure panicked is never published, never passed by the gate, never
      overwritten by a later round, for the rest of the run. */
  lemma OrphanNeverExposed<E>(r: Run<E>, t: nat, t': nat, s: int)
    requires IsRun(r) && t <= t' < |r.states| && Orphan(r.states[t].producers, s)
    ensures var sys := r.states[t'];
            && s !in Published(sys.producers)
            && |sys.stages| > 0 && Gate(sys) < s && Claimed(sys.producers) < s + sys.size
  {
    hide AsView;
    OrphanForever(r, t, t', s);
    RunInv(r, t');
    Pipeline.UnpublishedIsLive(Abs(r.states[t']), s);
  }

  // ---------------------------------------------------------------- poison and close stop claims

  /** Producer handle i (handle 0 in single-producer mode) is not past the poison check of a claim. */
  predicate Outside(p: ProducerSide, i: nat) {
    match p
    case Single(one) => SingleProducer.Outside(one)
    case Multi(many) => i < |many.handles| && MultiProducer.Outside(many.handles[i])
  }

  predicate IsIdle(p: ProducerSide, i: nat) {
    match p
    case Single(one) => one.phase.Idle?
    case Multi(many) => i < |many.handles| && many.handles[i].Idle?
  }

  /** The step in which an update closure of handle i panics. */
  predicate Panics<E>(act: Act<E>, i: nat) {
    match act
    case SingleAct(a) => a.ClosurePanics? && i == 0
    case MultiAct(j, a) => a.ClosurePanics? && i == j
    case _ => false
  }

  predicate Reopens<E>(act: Act<E>) {
    match act
    case SingleAct(a) => a == SingleProducer.SetClosed(false)
    case MultiAct(_, a) => a == MultiProducer.SetClosed(false)
    case _ => false
  }

  lemma PoisonStep<E>(sys: System<E>, sys': System<E>, act: Act<E>, i: nat)
    requires Shaped(sys) && Disruptor.Next(sys, sys', act)
    ensures IsPoisoned(sys.producers) ==> IsPoisoned(sys'.producers)
    ensures IsPoisoned(sys.producers) && Outside(sys.producers, i) ==> Outside(sys'.producers, i)
    ensures Panics(act, i) ==> IsPoisoned(sys'.producers) && Outside(sys'.producers, i)
  {
    hide AsView, SingleProducer.Next, MultiProducer.Next, SequentialLoop.Next, WorkerPool.Next,
         SequentialLoop.FanOutNext, ProcessorStage.StageNext;
    match act
    case SingleAct(a) => SingleProducer.PoisonBars(sys.producers.one, sys'.producers.one, a, sys.size);
    case MultiAct(j, a) =>
      var p, p' := sys.producers.many, sys'.producers.many;
      MultiHandlesStay(p, p', j, a, sys.size);
      MultiProducer.PoisonBars(p, p', j, a, sys.size, if i < |p.handles| then i else j);
    case _ =>
  }

  lemma MultiHandlesStay(p: MultiProducer.Producers, p': MultiProducer.Producers, j: nat, a: MultiProducer.Action,
        size: nat)
    requires |p.flags| == size > 0 && MultiProducer.Next(p, p', j, a, size)
    ensures j < |p.handles| == |p'.handles|
  {
  }

  /** Poison is for ever, and no producer that is outside when it comes ever fills a slot again. */
  lemma {:induction false} PoisonStopsClaims<E>(r: Run<E>, t: nat, t': nat, i: nat)
    requires IsRun(r) && t <= t' < |r.states| && IsPoisoned(r.states[t].producers)
    ensures IsPoisoned(r.states[t'].producers)
    ensures Outside(r.states[t].producers, i) ==>
              Outside(r.states[t'].producers, i) && forall s :: !Touches(r.states[t'], Handle(i), s)
    decreases t'
  {
    hide AsView, Disruptor.Next, Init;
    if t == t' {
    } else {
      PoisonStopsClaims(r, t, t' - 1, i);
      assert StepAt(r, t' - 1);
      PoisonStep(r.states[t' - 1], r.states[t'], r.acts[t' - 1], i);
    }
  }

  /** A panicking update closure poisons, in single- and multi-producer mode alike: from then on the
      side stays poisoned, and the panicking handle, like every other that is outside, stays out. */
  lemma PanicStopsClaims<E>(r: Run<E>, t: nat, t': nat, i: nat, j: nat)
    requires IsRun(r) && t < t' < |r.states| && Panics(r.acts[t], i)
    ensures IsPoisoned(r.states[t'].producers) && Outside(r.states[t'].producers, i)
    ensures Outside(r.states[t + 1].producers, j) ==>
              Outside(r.states[t'].producers, j) && forall s :: !Touches(r.states[t'], Handle(j), s)
  {
    hide AsView, Disruptor.Next, Init;
    assert StepAt(r, t);
    PoisonStep(r.states[t], r.states[t + 1], r.acts[t], i);
    PoisonStopsClaims(r, t + 1, t', i);
    PoisonStopsClaims(r, t + 1, t', j);
  }

  lemma ClosedStep<E>(sys: System<E>, sys': System<E>, act: Act<E>, i: nat)
    requires Shaped(sys) && Disruptor.Next(sys, sys', act) && IsClosed(sys.producers)
    ensures !Reopens(act) ==> IsClosed(sys'.producers)
    ensures IsIdle(sys.producers, i) ==> IsIdle(sys'.producers, i)
  {
    hide AsView, SingleProducer.Next, MultiProducer.Next, SequentialLoop.Next, WorkerPool.Next,
         SequentialLoop.FanOutNext, ProcessorStage.StageNext;
    match act
    case SingleAct(a) => SingleProducer.ClosedBars(sys.producers.one, sys'.producers.one, a, sys.size);
    case MultiAct(j, a) =>
      var p, p' := sys.producers.many, sys'.producers.many;
      MultiHandlesStay(p, p', j, a, sys.size);
      MultiProducer.ClosedBars(p, p', j, a, sys.size, if i < |p.handles| then i else j);
    case _ =>
  }

  /** A producer that is idle when claims are closed stays idle until they are reopened. */
  lemma {:induction false} CloseStopsClaims<E>(r: Run<E>, t: nat, t': nat, i: nat)
    requires IsRun(r) && t <= t' < |r.states| && IsClosed(r.states[t].producers)
    requires forall u :: t <= u < t' ==> !Reopens(r.acts[u])
    ensures IsClosed(r.states[t'].producers)
    ensures IsIdle(r.states[t].producers, i) ==> IsIdle(r.states[t'].producers, i)
    decreases t'
  {
    hide AsView, Disruptor.Next, Init;
    if t == t' {
    } else {
      CloseStopsClaims(r, t, t' - 1, i);
      assert StepAt(r, t' - 1);
      ClosedStep(r.states[t' - 1], r.states[t'], r.acts[t' - 1], i);
    }
  }

  /** A closure may write exactly the slots its handle holds. */
  lemma FillsWhatItHolds<E>(sys: System<E>, s: int)
    ensures MayFill(sys.producers, s) <==> exists i: nat :: Touches(sys, Handle(i), s)
  {
    if MayFill(sys.producers, s) {
      match sys.producers
      case Single(_) => assert Touches(sys, Handle(0), s);
      case Multi(many) =>
        var i :| 0 <= i < |many.handles| && many.handles[i].Filling? && many.handles[i].lo <= s <= many.handles[i].hi;
        assert Touches(sys, Handle(i), s);
    }
  }

  // ---------------------------------------------------------------- barrier answers

  /** The contiguity scan: the end of the available run starting at lo, lo - 1 if lo is not
      available, or hi if nothing is missing. */
  function Scan(available: set<int>, lo: int, hi: int): int
    decreases hi - lo
  {
    if lo > hi then hi
    else if lo !in available then lo - 1
    else Scan(available, lo + 1, hi)
  }

  /** `resolve_highest_published`: single-producer barriers skip the scan. */
  function Resolve(needsContiguityCheck: bool, available: set<int>, lo: int, hi: int): int {
    if !needsContiguityCheck || hi < lo then hi else Scan(available, lo, hi)
  }

  lemma {:induction false} ScanOfFullRange(available: set<int>, lo: int, hi: int)
    requires forall s :: lo <= s <= hi ==> s in available
    ensures Scan(available, lo, hi) == hi
    decreases hi - lo
  {
    if lo > hi {
    } else {
      ScanOfFullRange(available, lo + 1, hi);
    }
  }

  /** The most a barrier of stage k can read before resolving: the cursor, or the minimum of
      the stage before, which for a pool is the minimum over its workers. */
  function Observable<E>(sys: System<E>, k: nat): int
    requires k < |sys.stages|
  {
    if k > 0 then AsView(sys.stages[k - 1]).watermark
    else match sys.producers
         case Single(one) => one.cursor
         case Multi(many) => many.cursor
  }

  /** At moment t the barrier of stage k may answer s: its machine allows it. */
  ghost predicate ReleasedAt<E>(r: Run<E>, t: nat, k: nat, s: int) {
    && t < |r.states| && Shaped(r.states[t])
    && (k < |r.states[t].stages| ==> s in Released(r.states[t], k))
  }

  /** In single-producer mode, and behind any stage in multi-producer mode, the skipped scan
      would have returned exactly the value the barrier returns without it: neither the cursor
      nor the minimum of a sequential, pool or fan-out stage passes an unpublished sequence. */
  lemma SkippedScanIsExact<E>(r: Run<E>, t: nat, k: nat, lo: int, observed: int)
    requires IsRun(r) && t < |r.states| && k < |r.states[t].stages|
    requires r.states[t].producers.Single? || k > 0
    requires 0 <= lo && observed <= Observable(r.states[t], k)
    ensures var published := Published(r.states[t].producers);
            Resolve(false, published, lo, observed) == Resolve(true, published, lo, observed)
    ensures forall s :: 0 <= s <= observed ==> s in Published(r.states[t].producers) && ReleasedAt(r, t, k, s)
  {
    hide AsView;
    var sys := r.states[t];
    RunInv(r, t);
    forall s | 0 <= s <= observed ensures s in Published(sys.producers) {
      if k > 0 { Pipeline.WatermarkIsPublished(Abs(sys), k - 1, s); }
    }
    forall s | 0 <= s <= observed ensures ReleasedAt(r, t, k, s) {
      ReleasesWhatItSees(r, t, k, s);
    }
    ScanOfFullRange(Published(sys.producers), lo, observed);
  }

  /** What such a barrier may answer is exactly what it can observe. */
  lemma ReleasesWhatItSees<E>(r: Run<E>, t: nat, k: nat, s: int)
    requires IsRun(r) && t < |r.states| && k < |r.states[t].stages| && 0 <= s
    requires r.states[t].producers.Single? || k > 0
    ensures ReleasedAt(r, t, k, s) <==> s <= Observable(r.states[t], k)
  {
    hide AsView;
    RunInv(r, t);
  }

  /** For every sequence the first stage has not completed, its barrier may answer it exactly when
      it is published; for later stages, exactly when the minimum of the stage before reaches it. */
  lemma BarrierIsExact<E>(r: Run<E>, t: nat, k: nat, s: int)
    requires IsRun(r) && t < |r.states| && k < |r.states[t].stages| && 0 <= s
    requires s !in AsView(r.states[t].stages[k]).handled
    ensures ReleasedAt(r, t, k, s) <==>
              if k == 0 then s in Published(r.states[t].producers) else s <= AsView(r.states[t].stages[k - 1]).watermark
  {
    hide AsView;
    RunInv(r, t);
    var sys := r.states[t];
    if k == 0 && sys.producers.Multi? {
      Pipeline.UncompletedHoldsBack(Abs(sys), 0, s);
      if s <= sys.producers.many.cursor { FlagsTellPublication(r, t, s); }
    }
  }

  /** In multi-producer mode, for every sequence still in use, the flag of its slot says
      whether it is published: rounds of the ring are never confused. */
  lemma FlagsTellPublication<E>(r: Run<E>, t: nat, s: int)
    requires IsRun(r) && t < |r.states| && r.states[t].producers.Multi?
    requires |r.states[t].stages| > 0 && 0 <= s && Gate(r.states[t]) < s <= r.states[t].producers.many.cursor
    ensures var many, size := r.states[t].producers.many, r.states[t].size;
            |many.flags| == size > 0 && (MultiProducer.IsAvailable(many.flags, s, size) <==> s in many.published)
  {
    hide AsView;
    RunInv(r, t);
    assert MultiProducer.FlagTells(r.states[t].producers.many, s, r.states[t].size);
  }

  // ---------------------------------------------------------------- failed events stay where they are

  /** A consumer of the stage has left its loop without completing s: its handler or batch
      start failed, or a pool worker was stopped holding the claim. */
  ghost predicate Stuck(stage: Stage, s: int) {
    match stage
    case Sequential(l) => l.phase.Failed? && l.next == s
    case Pool(p) => exists i :: 0 <= i < |p.workers| && p.workers[i].phase.Abandoned? && p.workers[i].phase.claimed == s
    case FanOut(ls) => exists i :: 0 <= i < |ls| && ls[i].phase.Failed? && ls[i].next == s
    case Processor(p) => p.shared.spoiled && |p.shared.completed| == s
  }

  lemma StuckAct<E>(stage: Stage, stage': Stage, act: Act<E>, released: set<int>, ready: set<int>, s: int)
    requires StageInv(stage, ready) && StageAct(stage, stage', act, released) && Stuck(stage, s)
    ensures Stuck(stage', s)
  {
    match stage
    case Sequential(_) =>
    case Pool(p) =>
      var i :| 0 <= i < |p.workers| && p.workers[i].phase.Abandoned? && p.workers[i].phase.claimed == s;
      assert stage'.pool.workers[i] == p.workers[i];
    case FanOut(ls) =>
      var i :| 0 <= i < |ls| && ls[i].phase.Failed? && ls[i].next == s;
      assert stage'.loops[i] == ls[i];
    case Processor(p) =>
      ProcessorStage.SpoiledStays(p, stage'.proc, act.thread, act.choice, ready);
  }

  lemma StuckStays<E>(sys: System<E>, sys': System<E>, act: Act<E>, k: nat, s: int)
    requires Inv(sys) && Disruptor.Next(sys, sys', act) && k < |sys.stages| && Stuck(sys.stages[k], s)
    ensures k < |sys'.stages| && Stuck(sys'.stages[k], s)
  {
    assert StageInvAt(sys, k);
    hide AsView, Abs, Pipeline.Inv, Stuck, Disruptor.Next, StageInv, StageAct;
    StageActs(sys, sys', act, k);
    if sys'.stages[k] != sys.stages[k] {
      StuckAct(sys.stages[k], sys'.stages[k], act, Released(sys, k), Pipeline.Ready(Abs(sys), k), s);
    }
  }

  lemma StuckIsUnhandled<E>(sys: System<E>, k: nat, s: int)
    requires Inv(sys) && k < |sys.stages| && Stuck(sys.stages[k], s)
    ensures 0 <= s && s !in AsView(sys.stages[k]).handled
  {
    assert StageInvAt(sys, k);
    match sys.stages[k]
    case Sequential(_) =>
    case Pool(p) =>
      var i :| 0 <= i < |p.workers| && p.workers[i].phase.Abandoned? && p.workers[i].phase.claimed == s;
      assert WorkerPool.WorkerOk(p.workers[i], p.work, p.handled, Pipeline.Ready(Abs(sys), k));
    case FanOut(ls) =>
      var i :| 0 <= i < |ls| && ls[i].phase.Failed? && ls[i].next == s;
      assert SequentialLoop.Inv(ls[i], Pipeline.Ready(Abs(sys), k));
      assert Sequences.Min(SequentialLoop.Nexts(ls)) <= SequentialLoop.Nexts(ls)[i];
    case Processor(_) =>
  }

  lemma {:induction false} StuckForever<E>(r: Run<E>, t: nat, t': nat, k: nat, s: int)
    requires IsRun(r) && t <= t' < |r.states| && k < |r.states[t].stages| && Stuck(r.states[t].stages[k], s)
    ensures k < |r.states[t'].stages| && Stuck(r.states[t'].stages[k], s)
    decreases t'
  {
    hide AsView;
    hide Disruptor.Next;
    if t == t' {
    } else {
      StuckForever(r, t, t' - 1, k, s);
      RunInv(r, t' - 1);
      assert StepAt(r, t' - 1);
      StuckStays(r.states[t' - 1], r.states[t'], r.acts[t' - 1], k, s);
    }
  }

  /** From then on no later stage is handed s, the stage's minimum and the gate stay below s,
      and no claim ever reaches s + size: the event is neither released nor overwritten. */
  lemma FailedEventIsNeverReleased<E>(r: Run<E>, t: nat, t': nat, k: nat, s: int)
    requires IsRun(r) && t <= t' < |r.states| && k < |r.states[t].stages| && Stuck(r.states[t].stages[k], s)
    ensures var sys := r.states[t'];
            && k < |sys.stages| && AsView(sys.stages[k]).watermark < s
            && Gate(sys) < s && Claimed(sys.producers) < s + sys.size
            && forall j :: k < j <= |sys.stages| ==> s !in Pipeline.Ready(Abs(sys), j)
  {
    hide AsView, IsRun, Stuck, Inv, Abs;
    StuckForever(r, t, t', k, s);
    RunInv(r, t');
    StuckIsUnhandled(r.states[t'], k, s);
    UnhandledHoldsBack(r.states[t'], k, s);
  }

  lemma UnhandledHoldsBack<E>(sys: System<E>, k: nat, s: int)
    requires Inv(sys) && k < |sys.stages| && 0 <= s && s !in AsView(sys.stages[k]).handled
    ensures AsView(sys.stages[k]).watermark < s && Gate(sys) < s && Claimed(sys.producers) < s + sys.size
    ensures forall j :: k < j <= |sys.stages| ==> s !in Pipeline.Ready(Abs(sys), j)
  {
    hide AsView;
    Pipeline.UncompletedHoldsBack(Abs(sys), k, s);
  }
}
