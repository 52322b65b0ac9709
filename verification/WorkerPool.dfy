/** The WorkerPool loop (`run_work_processor_loop_impl`, src/disruptor/consumer_engine.rs) as an
    interleaving state machine over any number of workers. Every atomic access of the loop is
    its own step. */
module WorkerPool {
  import opened StageContract
  import Sequences

  /** Where a worker is in its loop. The phases from `Claimed` on own a claimed sequence. */
  datatype Phase =
    | Top                        // before `work_sequence.load`
    | Loaded(current: int)       // after the load, before advertising
    | Advertised(current: int)   // after advertising, before the CAS
    | Claimed(claimed: int)      // CAS won; serving from the cache or waiting
    | Starting(claimed: int)     // availability known; calling `on_batch_start`
    | Handling(claimed: int)     // inside `on_event`
    | Done(claimed: int)         // `on_event` returned Ok; sequence not yet stored
    | Stopped                    // left the loop owning nothing
    | Abandoned(claimed: int, entered: bool)  // left the loop owning a sequence it never completes;
                                              // `entered` if its handler ran and failed

  /** `awaited` is history: the claim on whose behalf `cachedAvailable` was last obtained. */
  datatype Worker = Worker(
    sequence: int,
    lastAdvertised: int,
    cachedAvailable: int,
    awaited: int,
    phase: Phase,
    claims: nat,
    lostRaces: nat)

  /** `handled` is history: the sequences whose handler returned Ok. */
  datatype Pool = Pool(work: int, workers: seq<Worker>, handled: set<int>)

  datatype Action =
    | Load
    | Advertise
    | CompareExchange
    | ServeFromCache
    | Wait(available: int)
    | BatchStart(ok: bool)
    | OnEvent(ok: bool)
    | StoreSequence
    | Stop

  predicate Owns(w: Worker) {
    w.phase.Claimed? || w.phase.Starting? || w.phase.Handling? || w.phase.Done? || w.phase.Abandoned?
  }

  /** Owns a sequence whose handler has not returned Ok. */
  predicate Pending(w: Worker, s: int) {
    Owns(w) && !w.phase.Done? && w.phase.claimed == s
  }

  /** The handler has been given the slot and has not completed it. */
  predicate Entered(w: Worker) {
    w.phase.Handling? || (w.phase.Abandoned? && w.phase.entered)
  }

  /** `advertise_work_sequence_if_changed`. */
  function AdvertiseIfChanged(w: Worker, current: int): Worker {
    if current == w.lastAdvertised then w
    else w.(sequence := current, lastAdvertised := current)
  }

  /** What downstream barriers and producers see of the pool. */
  function Watermark(p: Pool): int {
    Sequences.Min(seq(|p.workers|, i requires 0 <= i < |p.workers| => p.workers[i].sequence))
  }

  lemma WatermarkIsMinimum(p: Pool)
    requires |p.workers| > 0
    ensures forall i :: 0 <= i < |p.workers| ==> Watermark(p) <= p.workers[i].sequence
    ensures exists i :: 0 <= i < |p.workers| && Watermark(p) == p.workers[i].sequence
  {
    var v := seq(|p.workers|, i requires 0 <= i < |p.workers| => p.workers[i].sequence);
    forall i | 0 <= i < |p.workers| ensures Watermark(p) <= p.workers[i].sequence {
      assert v[i] == p.workers[i].sequence;
    }
    var j :| 0 <= j < |v| && v[j] == Watermark(p);
  }

  function Init(n: nat): Pool {
    Pool(Sequences.INITIAL_CURSOR_VALUE,
         seq(n, _ => Worker(-1, -1, Sequences.INITIAL_CURSOR_VALUE, 0, Top, 0, 0)),
         {})
  }

  /** One step of one worker against the shared cursor and the history. `Wait` may answer any
      availability whose range from the awaited claim up is ready; in multi-producer mode that
      can be the claim minus one. */
  ghost predicate WorkerNext(w: Worker, w': Worker, work: int, work': int,
                             handled: set<int>, handled': set<int>, a: Action, ready: set<int>)
  {
    match (a, w.phase)
    case (Load, Top) =>
      work' == work && handled' == handled && w' == w.(phase := Loaded(work))
    case (Advertise, Loaded(c)) =>
      && work' == work && handled' == handled
      && w' == AdvertiseIfChanged(w, c).(phase := Advertised(c))
    case (CompareExchange, Advertised(c)) =>
      && handled' == handled
      && if work == c
         then work' == c + 1 && w' == w.(phase := Claimed(c + 1), claims := w.claims + 1)
         else work' == work && w' == w.(phase := Top, lostRaces := w.lostRaces + 1)
    case (ServeFromCache, Claimed(c)) =>
      && c <= w.cachedAvailable
      && work' == work && handled' == handled && w' == w.(phase := Starting(c))
    case (Wait(available), Claimed(c)) =>
      && c > w.cachedAvailable
      && (forall s :: c <= s <= available ==> s in ready)
      && work' == work && handled' == handled
      && w' == w.(cachedAvailable := available, awaited := c)
    case (BatchStart(ok), Starting(c)) =>
      && work' == work && handled' == handled
      && w' == w.(phase := if ok then Handling(c) else Abandoned(c, false))
    case (OnEvent(ok), Handling(c)) =>
      && work' == work
      && if ok
         then handled' == handled + {c} && w' == w.(phase := Done(c))
         else handled' == handled && w' == w.(phase := Abandoned(c, true))
    case (StoreSequence, Done(c)) =>
      && work' == work && handled' == handled
      && w' == w.(sequence := c, lastAdvertised := c, phase := Top)
    case (Stop, Top) =>
      work' == work && handled' == handled && w' == w.(phase := Stopped)
    case (Stop, Claimed(c)) =>
      && c > w.cachedAvailable
      && work' == work && handled' == handled && w' == w.(phase := Abandoned(c, false))
    case _ => false
  }

  /** Worker i takes one step; the others stay where they are. */
  ghost predicate Next(p: Pool, p': Pool, i: nat, a: Action, ready: set<int>) {
    && i < |p.workers| == |p'.workers|
    && p'.workers == p.workers[i := p'.workers[i]]
    && WorkerNext(p.workers[i], p'.workers[i], p.work, p'.work, p.handled, p'.handled, a, ready)
  }

  /** What one worker's own fields say, given the shared cursor and what is ready. */
  ghost predicate WorkerOk(w: Worker, work: int, handled: set<int>, ready: set<int>) {
    && -1 <= w.sequence == w.lastAdvertised <= work
    && 0 <= w.awaited <= work + 1
    && (forall s :: w.awaited <= s <= w.cachedAvailable ==> s in ready)
    && (w.phase.Loaded? || w.phase.Advertised? ==> w.sequence <= w.phase.current <= work)
    && (w.phase.Advertised? ==> w.sequence == w.phase.current)
    && (Owns(w) ==>
          && 0 <= w.phase.claimed <= work
          && w.sequence == w.phase.claimed - 1
          && w.awaited <= w.phase.claimed
          && (w.phase.claimed in handled <==> w.phase.Done?)
          && (w.phase.Starting? || w.phase.Done? || Entered(w) ==> w.phase.claimed in ready))
    && w.claims + w.lostRaces <=
       (if w.phase.Loaded? || w.phase.Advertised? then w.phase.current else work) + 1
  }

  ghost predicate Distinct(p: Pool) {
    forall i, j :: 0 <= i < |p.workers| && 0 <= j < |p.workers| && i != j ==>
      !(Owns(p.workers[i]) && Owns(p.workers[j]) && p.workers[i].phase.claimed == p.workers[j].phase.claimed)
  }

  ghost predicate Accounted(p: Pool, s: int) {
    s in p.handled || exists i :: 0 <= i < |p.workers| && Pending(p.workers[i], s)
  }

  ghost predicate Inv(p: Pool, ready: set<int>) {
    && -1 <= p.work
    && |p.workers| > 0
    && (forall i :: 0 <= i < |p.workers| ==> WorkerOk(p.workers[i], p.work, p.handled, ready))
    && Distinct(p)
    && p.handled <= ready
    && (forall s <- p.handled :: 0 <= s <= p.work)
    && (forall s :: 0 <= s <= p.work ==> Accounted(p, s))
  }

  lemma InitInv(n: nat, ready: set<int>)
    requires n > 0
    ensures Inv(Init(n), ready)
  {
  }

  lemma ReadyGrows(p: Pool, ready: set<int>, ready': set<int>)
    requires Inv(p, ready) && ready <= ready'
    ensures Inv(p, ready')
  {
  }

  /** Only what lies from the claimed sequence up matters to a step. */
  lemma AnswerSuffices(p: Pool, p': Pool, i: nat, a: Action, answered: set<int>, ready: set<int>)
    requires Next(p, p', i, a, answered)
    requires p.workers[i].phase.Claimed? ==> forall s <- answered :: p.workers[i].phase.claimed <= s ==> s in ready
    ensures Next(p, p', i, a, ready)
  {
  }

  // ---------------------------------------------------------------- every step keeps Inv

  lemma StepKeepsOwn(w: Worker, w': Worker, work: int, work': int,
                     handled: set<int>, handled': set<int>, a: Action, ready: set<int>)
    requires WorkerOk(w, work, handled, ready)
    requires WorkerNext(w, w', work, work', handled, handled', a, ready)
    requires forall s <- handled :: s <= work
    ensures WorkerOk(w', work', handled', ready)
  {
  }

  lemma StepKeepsOther(p: Pool, p': Pool, i: nat, j: nat, a: Action, ready: set<int>)
    requires Inv(p, ready) && Next(p, p', i, a, ready) && j < |p.workers| && j != i
    ensures WorkerOk(p'.workers[j], p'.work, p'.handled, ready)
  {
  }

  lemma StepKeepsDistinct(p: Pool, p': Pool, i: nat, a: Action, ready: set<int>)
    requires Inv(p, ready) && Next(p, p', i, a, ready)
    ensures Distinct(p')
  {
  }

  lemma StepKeepsAccounted(p: Pool, p': Pool, i: nat, a: Action, ready: set<int>, s: int)
    requires Inv(p, ready) && Next(p, p', i, a, ready) && 0 <= s <= p'.work
    ensures Accounted(p', s)
  {
    if s > p.work {
      assert Pending(p'.workers[i], s);
    } else if s !in p.handled {
      assert Accounted(p, s);
      var j :| 0 <= j < |p.workers| && Pending(p.workers[j], s);
      assert s in p'.handled || Pending(p'.workers[j], s);
    }
  }

  lemma StepKeeps(p: Pool, p': Pool, i: nat, a: Action, ready: set<int>)
    requires Inv(p, ready) && Next(p, p', i, a, ready)
    ensures Inv(p', ready)
  {
    assert WorkerOk(p.workers[i], p.work, p.handled, ready);
    forall j | 0 <= j < |p'.workers| ensures WorkerOk(p'.workers[j], p'.work, p'.handled, ready) {
      if j == i {
        StepKeepsOwn(p.workers[i], p'.workers[i], p.work, p'.work, p.handled, p'.handled, a, ready);
      } else {
        StepKeepsOther(p, p', i, j, a, ready);
      }
    }
    StepKeepsDistinct(p, p', i, a, ready);
    forall s | 0 <= s <= p'.work ensures Accounted(p', s) {
      StepKeepsAccounted(p, p', i, a, ready, s);
    }
  }

  // ---------------------------------------------------------------- watermark safety

  /** Every sequence at or below the pool minimum has been handled. */
  lemma WatermarkSafety(p: Pool, ready: set<int>, s: int)
    requires Inv(p, ready) && 0 <= s <= Watermark(p)
    ensures s in p.handled && s in ready
  {
    WatermarkIsMinimum(p);
    assert WorkerOk(p.workers[0], p.work, p.handled, ready);
    forall j | 0 <= j < |p.workers| && Pending(p.workers[j], s)
      ensures p.workers[j].sequence < s
    {
      assert WorkerOk(p.workers[j], p.work, p.handled, ready);
    }
    assert Accounted(p, s);
  }

  // ---------------------------------------------------------------- the pool is a stage

  function DirtySet(p: Pool): set<int> {
    set i | 0 <= i < |p.workers| && Entered(p.workers[i]) :: p.workers[i].phase.claimed
  }

  function ActiveSet(p: Pool): set<Access> {
    set i: nat | i < |p.workers| && p.workers[i].phase.Handling? :: Access(i, p.workers[i].phase.claimed)
  }

  function AsView(p: Pool): View {
    View(Watermark(p), p.handled, DirtySet(p), ActiveSet(p))
  }

  function EventOf(p: Pool, i: nat, a: Action): Event
    requires i < |p.workers|
  {
    match (a, p.workers[i].phase)
    case (BatchStart(true), Starting(c)) => Enter(i, c)
    case (OnEvent(ok), Handling(c)) => if ok then Leave(i, c) else Fail(i, c)
    case _ => Quiet
  }

  lemma ViewOk(p: Pool, ready: set<int>)
    requires Inv(p, ready)
    ensures Ok(AsView(p), ready, true)
  {
    WatermarkIsMinimum(p);
    assert WorkerOk(p.workers[0], p.work, p.handled, ready);
    forall s | 0 <= s <= Watermark(p) ensures s in p.handled {
      WatermarkSafety(p, ready, s);
    }
    forall i | 0 <= i < |p.workers| && Entered(p.workers[i])
      ensures p.workers[i].phase.claimed in ready && p.workers[i].phase.claimed !in p.handled
    {
      assert WorkerOk(p.workers[i], p.work, p.handled, ready);
    }
  }

  lemma WatermarkMonotone(p: Pool, p': Pool, i: nat, a: Action, ready: set<int>)
    requires Inv(p, ready) && Next(p, p', i, a, ready)
    ensures Watermark(p) <= Watermark(p')
  {
    WatermarkIsMinimum(p);
    WatermarkIsMinimum(p');
    assert WorkerOk(p.workers[i], p.work, p.handled, ready);
  }

  lemma StepChangesDirty(p: Pool, p': Pool, i: nat, a: Action, ready: set<int>)
    requires Inv(p, ready) && Next(p, p', i, a, ready)
    ensures match EventOf(p, i, a)
            case Enter(_, c) => DirtySet(p') == DirtySet(p) + {c} && c !in DirtySet(p)
            case Leave(_, c) => DirtySet(p') == DirtySet(p) - {c}
            case _ => DirtySet(p') == DirtySet(p)
  {
    assert Distinct(p);
    assert forall j :: 0 <= j < |p.workers| && j != i ==> p'.workers[j] == p.workers[j];
    forall c | c in DirtySet(p) && !(Entered(p.workers[i]) && c == p.workers[i].phase.claimed)
      ensures c in DirtySet(p')
    {
      var j :| 0 <= j < |p.workers| && Entered(p.workers[j]) && p.workers[j].phase.claimed == c;
      assert p'.workers[j] == p.workers[j];
    }
    if Entered(p'.workers[i]) {
      assert p'.workers[i].phase.claimed in DirtySet(p');
    }
  }

  lemma StepChangesActive(p: Pool, p': Pool, i: nat, a: Action, ready: set<int>)
    requires Inv(p, ready) && Next(p, p', i, a, ready)
    ensures match EventOf(p, i, a)
            case Enter(w, c) => w == i && ActiveSet(p') == ActiveSet(p) + {Access(i, c)}
            case Quiet => ActiveSet(p') == ActiveSet(p)
            case Leave(w, c) => w == i && ActiveSet(p') == ActiveSet(p) - {Access(i, c)} && Access(i, c) in ActiveSet(p)
            case Fail(w, c) => w == i && ActiveSet(p') == ActiveSet(p) - {Access(i, c)} && Access(i, c) in ActiveSet(p)
  {
    assert forall j :: 0 <= j < |p.workers| && j != i ==> p'.workers[j] == p.workers[j];
  }

  /** The pool refines the stage contract: whatever its workers do, the rest of the pipeline
      sees exclusive entries, completions and a rising watermark. */
  lemma RefinesStage(p: Pool, p': Pool, i: nat, a: Action, ready: set<int>)
    requires Inv(p, ready) && Next(p, p', i, a, ready)
    ensures Inv(p', ready) && Ok(AsView(p'), ready, true)
    ensures StageContract.Next(AsView(p), AsView(p'), ready, true, EventOf(p, i, a))
  {
    StepKeeps(p, p', i, a, ready);
    ViewOk(p, ready);
    ViewOk(p', ready);
    WatermarkMonotone(p, p', i, a, ready);
    StepChangesDirty(p, p', i, a, ready);
    StepChangesActive(p, p', i, a, ready);
    assert WorkerOk(p.workers[i], p.work, p.handled, ready);
  }

  // ---------------------------------------------------------------- whole runs

  datatype Step = Step(worker: nat, action: Action)

  /** A run of a pool of n workers from its start; `ready[t]` is what upstream has released
      when step t is taken, and only grows. */
  datatype Run = Run(states: seq<Pool>, steps: seq<Step>, ready: seq<set<int>>)

  ghost predicate IsRun(r: Run, n: nat) {
    && n > 0
    && |r.states| == |r.ready| == |r.steps| + 1
    && r.states[0] == Init(n)
    && forall t :: 0 <= t < |r.steps| ==> StepAt(r, t)
  }

  ghost predicate StepAt(r: Run, t: nat)
    requires |r.states| == |r.ready| == |r.steps| + 1 && t < |r.steps|
  {
    && Next(r.states[t], r.states[t + 1], r.steps[t].worker, r.steps[t].action, r.ready[t])
    && r.ready[t] <= r.ready[t + 1]
  }

  function Last(r: Run): Pool
    requires r.states != []
  {
    r.states[|r.states| - 1]
  }

  /** What upstream has released by the end of the run. */
  function ReadyNow(r: Run): set<int>
    requires r.ready != []
  {
    r.ready[|r.ready| - 1]
  }

  lemma Started(n: nat) returns (r: Run)
    requires n > 0
    ensures IsRun(r, n) && |r.states| == |r.ready| == 1 && r.states[0] == Init(n) && r.ready[0] == {}
  {
    r := Run([Init(n)], [], [{}]);
  }

  /** One more step, with nothing more released. */
  lemma Extend(r: Run, n: nat, p: Pool, i: nat, a: Action) returns (r': Run)
    requires |r.states| == |r.ready| > 0
    requires IsRun(r, n) && Next(Last(r), p, i, a, ReadyNow(r))
    ensures IsRun(r', n) && |r'.states| == |r'.ready| > 0
    ensures Last(r') == p && ReadyNow(r') == ReadyNow(r)
  {
    hide WorkerNext;
    r' := Run(r.states + [p], r.steps + [Step(i, a)], r.ready + [r.ready[|r.ready| - 1]]);
    forall t | 0 <= t < |r'.steps| ensures StepAt(r', t) {
      if t < |r.steps| { assert StepAt(r, t); }
    }
  }

  lemma {:induction false} RunInv(r: Run, n: nat, t: nat)
    requires IsRun(r, n) && t < |r.states|
    ensures Inv(r.states[t], r.ready[t]) && |r.states[t].workers| == n
  {
    if t == 0 {
      InitInv(n, r.ready[0]);
    } else {
      RunInv(r, n, t - 1);
      assert StepAt(r, t - 1);
      var s := r.steps[t - 1];
      StepKeeps(r.states[t - 1], r.states[t], s.worker, s.action, r.ready[t - 1]);
      ReadyGrows(r.states[t], r.ready[t - 1], r.ready[t]);
    }
  }

  /** In every reachable state everything at or below the minimum has been handled, although
      single workers may advertise more. */
  lemma MinimumIsHandled(r: Run, n: nat, t: nat, s: int)
    requires IsRun(r, n) && t < |r.states| && 0 <= s <= Watermark(r.states[t])
    ensures s in r.states[t].handled && s in r.ready[t]
  {
    RunInv(r, n, t);
    WatermarkSafety(r.states[t], r.ready[t], s);
  }

  /** A handler only ever runs on a ready sequence that nobody has completed and nobody else
      owns, also when the claim was served from `cached_available`. */
  lemma HandlesReadyAlone(r: Run, n: nat, t: nat, i: nat, j: nat)
    requires IsRun(r, n) && t < |r.states| && i < |r.states[t].workers|
    requires r.states[t].workers[i].phase.Handling?
    ensures var s := r.states[t].workers[i].phase.claimed;
            && s in r.ready[t] && s !in r.states[t].handled
            && (j < |r.states[t].workers| && j != i ==>
                  !(Owns(r.states[t].workers[j]) && r.states[t].workers[j].phase.claimed == s))
  {
    var p := r.states[t];
    RunInv(r, n, t);
    assert WorkerOk(p.workers[i], p.work, p.handled, r.ready[t]);
    assert Distinct(p);
  }

  /** A claim abandoned at a stop, or whose handler failed, holds the pool minimum below it
      for the rest of the run. */
  lemma {:induction false} AbandonedHoldsMinimum(r: Run, n: nat, t: nat, t': nat, i: nat)
    requires IsRun(r, n) && t <= t' < |r.states| && i < n
    requires |r.states[t].workers| == n && r.states[t].workers[i].phase.Abandoned?
    ensures |r.states[t'].workers| == n && r.states[t'].workers[i] == r.states[t].workers[i]
    ensures Watermark(r.states[t']) < r.states[t].workers[i].phase.claimed
    ensures r.states[t].workers[i].phase.claimed !in r.states[t'].handled
    decreases t'
  {
    hide WorkerNext, Inv, Watermark;
    RunInv(r, n, t');
    if t == t' {
    } else {
      AbandonedHoldsMinimum(r, n, t, t' - 1, i);
      assert StepAt(r, t' - 1);
      AbandonedStays(r.states[t' - 1], r.states[t'], r.steps[t' - 1].worker, r.steps[t' - 1].action, r.ready[t' - 1],
          i);
    }
    AbandonedHolds(r.states[t'], r.ready[t'], i);
  }

  lemma AbandonedStays(p: Pool, p': Pool, i: nat, a: Action, ready: set<int>, j: nat)
    requires Next(p, p', i, a, ready) && j < |p.workers| && p.workers[j].phase.Abandoned?
    ensures |p'.workers| == |p.workers| && p'.workers[j] == p.workers[j]
  {
  }

  lemma AbandonedHolds(p: Pool, ready: set<int>, i: nat)
    requires Inv(p, ready) && i < |p.workers| && p.workers[i].phase.Abandoned?
    ensures Watermark(p) < p.workers[i].phase.claimed && p.workers[i].phase.claimed !in p.handled
  {
    WatermarkIsMinimum(p);
    assert WorkerOk(p.workers[i], p.work, p.handled, ready);
  }

  // ---------------------------------------------------------------- claims are served

  /** A claim that is ready is served: from the cache at once, or after one wait that answers it;
      and once an answer covers the claim the worker can do nothing but serve it. */
  lemma ReadyClaimIsServed(p: Pool, ready: set<int>, i: nat, available: int) returns (waited: Pool, served: Pool)
    requires Inv(p, ready) && i < |p.workers| && p.workers[i].phase.Claimed?
    requires p.workers[i].phase.claimed <= available
    requires forall s :: p.workers[i].phase.claimed <= s <= available ==> s in ready
    ensures var w := p.workers[i];
            if w.phase.claimed <= w.cachedAvailable then waited == p else Next(p, waited, i, Wait(available), ready)
    ensures Next(waited, served, i, ServeFromCache, ready)
    ensures served.workers[i].phase == Starting(p.workers[i].phase.claimed)
    ensures forall q, a :: Next(waited, q, i, a, ready) ==> a == ServeFromCache
  {
    var w := p.workers[i];
    var c := w.phase.claimed;
    waited := if c <= w.cachedAvailable then p
              else p.(workers := p.workers[i := w.(cachedAvailable := available, awaited := c)]);
    served := waited.(workers := waited.workers[i := waited.workers[i].(phase := Starting(c))]);
  }

  /** A failed batch start or event ends the worker for good, its sequence still before the claim. */
  lemma FailureIsFinal(p: Pool, p': Pool, i: nat, a: Action, ready: set<int>)
    requires Inv(p, ready) && Next(p, p', i, a, ready) && (a == BatchStart(false) || a == OnEvent(false))
    ensures p'.workers[i].phase == Abandoned(p.workers[i].phase.claimed, a.OnEvent?)
    ensures p'.workers[i].sequence == p.workers[i].phase.claimed - 1 && p'.handled == p.handled
    ensures forall q, b :: !Next(p', q, i, b, ready)
  {
    assert WorkerOk(p.workers[i], p.work, p.handled, ready);
  }

  /** A worker heeds a stop at its loop head, and while it waits for a claim; a claim whose
      availability it already knows it serves first. */
  lemma StopIsHeeded(p: Pool, ready: set<int>, i: nat)
    requires i < |p.workers|
    ensures (exists p' :: Next(p, p', i, Stop, ready)) <==>
              var w := p.workers[i];
              w.phase.Top? || (w.phase.Claimed? && w.cachedAvailable < w.phase.claimed)
    ensures forall p' :: Next(p, p', i, Stop, ready) ==>
              p'.handled == p.handled && p'.work == p.work &&
                  (p'.workers[i].phase.Stopped? || p'.workers[i].phase.Abandoned?)
  {
    var w := p.workers[i];
    if w.phase.Top? {
      assert Next(p, p.(workers := p.workers[i := w.(phase := Stopped)]), i, Stop, ready);
    } else if w.phase.Claimed? && w.cachedAvailable < w.phase.claimed {
      var left := w.(phase := Abandoned(w.phase.claimed, false));
      assert Next(p, p.(workers := p.workers[i := left]), i, Stop, ready);
    }
  }

  /** And over runs: a ready claim whose handler returns Ok ends handled, with the worker's sequence
      on it and the worker at its loop head. */
  lemma ReadyClaimCompletes(r: Run, n: nat, i: nat) returns (r': Run)
    requires IsRun(r, n) && |r.states| == |r.ready| > 0 && i < |Last(r).workers| && Last(r).workers[i].phase.Claimed?
    requires Last(r).workers[i].phase.claimed in ReadyNow(r)
    ensures IsRun(r', n) && |r'.states| == |r'.ready| > 0 && |Last(r').workers| == |Last(r).workers|
    ensures var c := Last(r).workers[i].phase.claimed;
            && Last(r').workers[i].phase == Top && Last(r').workers[i].sequence == c
            && Last(r').handled == Last(r).handled + {c} && Last(r').work == Last(r).work
            && ReadyNow(r') == ReadyNow(r)
            && forall j :: 0 <= j < |Last(r).workers| && j != i ==> Last(r').workers[j] == Last(r).workers[j]
  {
    var p, ready := Last(r), ReadyNow(r);
    var c := p.workers[i].phase.claimed;
    RunInv(r, n, |r.states| - 1);
    var waited, served := ReadyClaimIsServed(p, ready, i, c);
    hide IsRun, Inv;
    r' := r;
    if p.workers[i].cachedAvailable < c { r' := Extend(r', n, waited, i, Wait(c)); }
    r' := Extend(r', n, served, i, ServeFromCache);
    r' := HandlesClaim(r', n, i, c);
  }

  lemma HandlesClaim(r: Run, n: nat, i: nat, c: int) returns (r': Run)
    requires IsRun(r, n) && |r.states| == |r.ready| > 0 && i < |Last(r).workers|
    requires Last(r).workers[i].phase == Starting(c)
    ensures IsRun(r', n) && |r'.states| == |r'.ready| > 0 && ReadyNow(r') == ReadyNow(r)
    ensures var w := Last(r).workers[i];
            Last(r') == Last(r).(workers := Last(r).workers[i := w.(sequence := c, lastAdvertised := c, phase := Top)],
                                 handled := Last(r).handled + {c})
  {
    hide IsRun;
    var p := Last(r);
    var w, workers := p.workers[i], p.workers;
    var handling := p.(workers := workers[i := w.(phase := Handling(c))]);
    var done := p.(workers := workers[i := w.(phase := Done(c))], handled := p.handled + {c});
    var stored := done.(workers := workers[i := w.(sequence := c, lastAdvertised := c, phase := Top)]);
    r' := Extend(r, n, handling, i, BatchStart(true));
    r' := Extend(r', n, done, i, OnEvent(true));
    r' := Extend(r', n, stored, i, StoreSequence);
  }

  /** A worker alone at its loop head claims the next sequence, whatever it advertised before. */
  lemma LoneWorkerClaims(r: Run, n: nat, i: nat) returns (r': Run)
    requires IsRun(r, n) && |r.states| == |r.ready| > 0 && i < |Last(r).workers| && Last(r).workers[i].phase == Top
    ensures IsRun(r', n) && |r'.states| == |r'.ready| > 0 && |Last(r').workers| == |Last(r).workers|
    ensures Last(r').work == Last(r).work + 1 && Last(r').handled == Last(r).handled
    ensures Last(r').workers[i].phase == Claimed(Last(r).work + 1) && Last(r').workers[i].sequence == Last(r).work
    ensures forall j :: 0 <= j < |Last(r).workers| && j != i ==> Last(r').workers[j] == Last(r).workers[j]
    ensures ReadyNow(r') == ReadyNow(r)
  {
    var p := Last(r);
    RunInv(r, n, |r.states| - 1);
    assert WorkerOk(p.workers[i], p.work, p.handled, ReadyNow(r));
    hide IsRun, Inv;
    var w := p.workers[i];
    var ahead := AdvertiseIfChanged(w, p.work);
    r' := Extend(r, n, p.(workers := p.workers[i := w.(phase := Loaded(p.work))]), i, Load);
    r' := Extend(r', n, p.(workers := p.workers[i := ahead.(phase := Advertised(p.work))]), i, Advertise);
    var claimed := ahead.(phase := Claimed(p.work + 1), claims := w.claims + 1);
    r' := Extend(r', n, p.(work := p.work + 1, workers := p.workers[i := claimed]), i, CompareExchange);
  }

  /** One worker alone handles everything that is ready and not yet claimed. */
  lemma {:induction false} WorkerHandlesUpTo(r: Run, n: nat, i: nat, available: int) returns (r': Run)
    requires IsRun(r, n) && |r.states| == |r.ready| > 0 && i < |Last(r).workers| && Last(r).workers[i].phase == Top
    requires forall s :: Last(r).work < s <= available ==> s in ReadyNow(r)
    ensures IsRun(r', n) && |r'.states| == |r'.ready| > 0 && |Last(r').workers| == |Last(r).workers|
    ensures available <= Last(r').work && Last(r').workers[i].phase == Top
    ensures forall j :: 0 <= j < |Last(r).workers| && j != i ==> Last(r').workers[j] == Last(r).workers[j]
    decreases available - Last(r).work
  {
    if available <= Last(r).work {
      r' := r;
    } else {
      hide IsRun;
      r' := LoneWorkerClaims(r, n, i);
      var served := ReadyClaimCompletes(r', n, i);
      r' := WorkerHandlesUpTo(served, n, i, available);
    }
  }

  /** Workers k, k + 1, ... advertise the cursor on their way to the next claim. */
  lemma {:induction false} WorkersAdvertise(r: Run, n: nat, k: nat, available: int) returns (r': Run)
    requires IsRun(r, n) && |r.states| == |r.ready| > 0 && k <= |Last(r).workers| && available <= Last(r).work
    requires forall j :: k <= j < |Last(r).workers| ==> Last(r).workers[j].phase == Top
    requires forall j :: 0 <= j < k ==> available <= Last(r).workers[j].sequence
    ensures IsRun(r', n) && |r'.states| == |r'.ready| > 0 && |Last(r').workers| == |Last(r).workers|
    ensures forall j :: 0 <= j < |Last(r).workers| ==> available <= Last(r').workers[j].sequence
    decreases |Last(r).workers| - k
  {
    if k == |Last(r).workers| {
      r' := r;
    } else {
      hide IsRun;
      var claimed := LoneWorkerClaims(r, n, k);
      r' := WorkersAdvertise(claimed, n, k + 1, available);
    }
  }

  /** A pool whose workers are at their loop heads can bring its minimum to everything that is
      ready, although only one of them handles events. */
  lemma PoolCatchesUp(r: Run, n: nat, available: int) returns (r': Run)
    requires IsRun(r, n) && |r.states| == |r.ready| > 0
    requires forall w <- Last(r).workers :: w.phase == Top
    requires forall s :: 0 <= s <= available ==> s in ReadyNow(r)
    ensures IsRun(r', n) && |r'.states| > 0 && available <= Watermark(Last(r'))
  {
    RunInv(r, n, |r.states| - 1);
    r' := WorkerHandlesUpTo(r, n, 0, available);
    r' := WorkersAdvertise(r', n, 0, available);
    WatermarkIsMinimum(Last(r'));
  }

  /** A worker lets go of a claim only by abandoning it for good or by having handled it and put
      its own sequence on it. */
  lemma {:induction false} ClaimsEndHandled(r: Run, n: nat, t: nat, t': nat, i: nat)
    requires IsRun(r, n) && t <= t' < |r.states| && |r.states[t].workers| == n && i < n && Owns(r.states[t].workers[i])
    ensures |r.states[t'].workers| == n
    ensures var c, w := r.states[t].workers[i].phase.claimed, r.states[t'].workers[i];
            (Owns(w) && w.phase.claimed == c) || (c in r.states[t'].handled && c <= w.sequence)
    decreases t'
  {
    if t == t' {
    } else {
      ClaimsEndHandled(r, n, t, t' - 1, i);
      RunInv(r, n, t' - 1);
      assert StepAt(r, t' - 1);
      var p, step := r.states[t' - 1], r.steps[t' - 1];
      assert WorkerOk(p.workers[i], p.work, p.handled, r.ready[t' - 1]);
    }
  }

  // ---------------------------------------------------------------- the cost of claim races

  function TotalClaims(ws: seq<Worker>): nat {
    if ws == [] then 0 else TotalClaims(ws[..|ws| - 1]) + ws[|ws| - 1].claims
  }

  function TotalLostRaces(ws: seq<Worker>): nat {
    if ws == [] then 0 else TotalLostRaces(ws[..|ws| - 1]) + ws[|ws| - 1].lostRaces
  }

  lemma {:induction false} ClaimsUpdate(ws: seq<Worker>, i: nat, w: Worker)
    requires i < |ws|
    ensures TotalClaims(ws[i := w]) == TotalClaims(ws) - ws[i].claims + w.claims
  {
    var n := |ws| - 1;
    if i == n {
      assert ws[i := w][..n] == ws[..n];
    } else {
      assert ws[i := w][..n] == ws[..n][i := w];
      ClaimsUpdate(ws[..n], i, w);
    }
  }

  lemma {:induction false} NoClaimsYet(ws: seq<Worker>)
    requires forall w <- ws :: w.claims == 0
    ensures TotalClaims(ws) == 0
  {
    if ws == [] {
    } else {
      NoClaimsYet(ws[..|ws| - 1]);
    }
  }

  /** The shared cursor counts the claims. */
  lemma {:induction false} CursorCountsClaims(r: Run, n: nat, t: nat)
    requires IsRun(r, n) && t < |r.states|
    ensures TotalClaims(r.states[t].workers) == r.states[t].work + 1
  {
    if t == 0 {
      NoClaimsYet(r.states[0].workers);
    } else {
      CursorCountsClaims(r, n, t - 1);
      assert StepAt(r, t - 1);
      var p, p', i := r.states[t - 1], r.states[t], r.steps[t - 1].worker;
      ClaimsUpdate(p.workers, i, p'.workers[i]);
    }
  }

  lemma {:induction false} LostRacesBounded(ws: seq<Worker>, k: int)
    requires forall w <- ws :: w.claims + w.lostRaces <= k
    ensures TotalClaims(ws) + TotalLostRaces(ws) <= |ws| * k
  {
    if ws == [] {
    } else {
      LostRacesBounded(ws[..|ws| - 1], k);
      assert (|ws| - 1) * k + k == |ws| * k;
    }
  }

  /** In any run of n workers with k successful claims at most (n - 1) * k CAS attempts have
      failed: each failure of one worker falls in a window holding another worker's claim. */
  lemma ClaimRaceCost(r: Run, n: nat, t: nat)
    requires IsRun(r, n) && t < |r.states|
    ensures TotalLostRaces(r.states[t].workers) <= (n - 1) * TotalClaims(r.states[t].workers)
  {
    hide StepAt, Inv, TotalClaims, TotalLostRaces;
    var p := r.states[t];
    RunInv(r, n, t);
    CursorCountsClaims(r, n, t);
    AttemptsBounded(p, r.ready[t]);
    LostRacesBounded(p.workers, p.work + 1);
    assert n * (p.work + 1) - (p.work + 1) == (n - 1) * (p.work + 1);
  }

  /** Between two of its own attempts the cursor has moved past each of them. */
  lemma AttemptsBounded(p: Pool, ready: set<int>)
    requires Inv(p, ready)
    ensures forall w <- p.workers :: w.claims + w.lostRaces <= p.work + 1
  {
    forall w | w in p.workers ensures w.claims + w.lostRaces <= p.work + 1 {
      var i :| 0 <= i < |p.workers| && p.workers[i] == w;
      assert WorkerOk(p.workers[i], p.work, p.handled, ready);
    }
  }

  // ---------------------------------------------------------------- how far claims run ahead

  function PendingSet(ws: seq<Worker>): set<int> {
    set i | 0 <= i < |ws| && Owns(ws[i]) && !ws[i].phase.Done? :: ws[i].phase.claimed
  }

  lemma {:induction false} OnePendingEach(ws: seq<Worker>)
    ensures |PendingSet(ws)| <= |ws|
  {
    if ws == [] {
      assert PendingSet(ws) == {};
    } else {
      var init, last := ws[..|ws| - 1], ws[|ws| - 1];
      OnePendingEach(init);
      var extra := if Owns(last) then {last.phase.claimed} else {};
      assert PendingSet(ws) <= PendingSet(init) + extra;
      Sequences.SubsetSize(PendingSet(ws), PendingSet(init) + extra);
    }
  }

  /** Claims run ahead of completed work by at most one per worker, so the shared cursor, and
      with it every advertised sequence, exceeds the number of ready sequences by less than n. */
  lemma RunAheadBound(p: Pool, ready: set<int>)
    requires Inv(p, ready)
    ensures p.work + 1 <= |p.handled| + |p.workers|
    ensures p.work < |ready| + |p.workers|
  {
    var all := Sequences.Upto(p.work + 1);
    Sequences.UptoSize(p.work + 1);
    forall s | s in all - p.handled ensures s in PendingSet(p.workers) {
      assert Accounted(p, s);
    }
    Sequences.SubsetSize(all - p.handled, PendingSet(p.workers));
    OnePendingEach(p.workers);
    assert all * p.handled == p.handled;
    Sequences.SubsetSize(p.handled, ready);
  }
}
