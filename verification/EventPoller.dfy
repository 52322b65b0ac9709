/** The user-driven consumer of src/disruptor/event_poller.rs: batches that are borrowed from the
    poller, taken one event at a time, and committed when they are dropped. */
module EventPoller {
  import opened Wrappers
  import opened StageContract
  import Sequences
  import SequentialLoop
  import Pipeline
  import Disruptor
  import Guarantees
  import Gating
  import Progress

  /** Every usize a caller can pass. */
  const USIZE_MAX: int := 0xffff_ffff_ffff_ffff

  datatype Open = NoBatch | Open(from: int, current: int, to: int)

  /** `published`, `delivered` and `skipped` are history: what has been published, the sequences
      `next_mut` gave, in order, and those acknowledged without being given. */
  datatype State = State(
    sequence: int, next: int, batch: Open,
    published: set<int>, delivered: seq<int>, skipped: set<int>)

  datatype Op =
    | Publish(more: set<int>)
    | Poll(stopBefore: bool, answer: Option<int>, stopAfter: bool)
    | Take(max: nat, stopBefore: bool, answer: Option<int>, stopAfter: bool)
    | NextMut
    | Commit
    | AckAll
    | Drop

  const INIT := State(Sequences.INITIAL_CURSOR_VALUE, 0, NoBatch, {}, [], {})

  /** What borrowing allows, and what a barrier may answer: a run of published sequences, short
      of the end of the i64 range. */
  ghost predicate Legal(st: State, op: Op) {
    match op
    case Publish(_) => true
    case Poll(_, answer, _) => st.batch.NoBatch? && Vouched(st, answer)
    case Take(max, _, answer, _) => st.batch.NoBatch? && Vouched(st, answer) && max <= USIZE_MAX
    case _ => st.batch.Open?
  }

  ghost predicate Vouched(st: State, answer: Option<int>) {
    answer.Some? ==>
      answer.value < Sequences.I64_MAX && forall s :: st.next <= s <= answer.value ==> s in st.published
  }

  /** The batch a poll opens, when it opens one. */
  function Polled(next: int, stopBefore: bool, answer: Option<int>, stopAfter: bool): Open {
    if stopBefore || answer.None? || stopAfter || answer.value < next then NoBatch
    else Open(next, next, answer.value)
  }

  /** Never more than `max` events, and all that are available if there are no more. */
  function Capped(b: Open, max: nat): Open {
    if b.Open? && b.to > b.from + max - 1 then b.(to := b.from + max - 1) else b
  }

  function Commits(st: State, last: int): State
    requires st.batch.Open?
  {
    if last < st.batch.from then st.(batch := NoBatch)
    else
      st.(sequence := last, next := last + 1, batch := NoBatch,
          skipped := st.skipped + (Sequences.Upto(last + 1) - Sequences.Upto(st.batch.current)))
  }

  function Step(st: State, op: Op): State {
    match op
    case Publish(more) => st.(published := st.published + more)
    case Poll(b, answer, a) => st.(batch := Polled(st.next, b, answer, a))
    case Take(max, b, answer, a) => st.(batch := Capped(Polled(st.next, b, answer, a), max))
    case NextMut =>
      if st.batch.NoBatch? || st.batch.current > st.batch.to then st
      else st.(batch := st.batch.(current := st.batch.current + 1), delivered := st.delivered + [st.batch.current])
    case AckAll => if st.batch.Open? then Commits(st, st.batch.to) else st
    case _ => if st.batch.Open? then Commits(st, st.batch.current - 1) else st
  }

  function Run(ops: seq<Op>): State {
    if ops == [] then INIT else Step(Run(ops[..|ops| - 1]), ops[|ops| - 1])
  }

  ghost predicate LegalRun(ops: seq<Op>) {
    ops == [] || (LegalRun(ops[..|ops| - 1]) && Legal(Run(ops[..|ops| - 1]), ops[|ops| - 1]))
  }

  // ---------------------------------------------------------------- the account of every run

  /** One past the last sequence given or acknowledged. */
  function Reached(st: State): int {
    if st.batch.Open? then st.batch.current else st.next
  }

  ghost predicate StrictlyIncreasing(s: seq<int>) {
    forall i, j :: 0 <= i < j < |s| ==> s[i] < s[j]
  }

  ghost predicate Inv(st: State) {
    && st.next == st.sequence + 1 && 0 <= st.next
    && (st.batch.Open? ==>
          && st.batch.from == st.next <= st.batch.current <= st.batch.to + 1
          && forall s :: st.batch.from <= s <= st.batch.to ==> s in st.published)
    && StrictlyIncreasing(st.delivered)
    && (forall s <- st.delivered :: s !in st.skipped)
    && (forall s :: 0 <= s < Reached(st) <==> s in st.delivered || s in st.skipped)
    && (forall s :: 0 <= s <= st.sequence ==> s in st.published)
  }

  lemma StepKeeps(st: State, op: Op)
    requires Inv(st) && Legal(st, op)
    ensures Inv(Step(st, op)) && st.sequence <= Step(st, op).sequence && st.delivered <= Step(st, op).delivered
  {
    var st' := Step(st, op);
    if op.NextMut? && st.batch.current <= st.batch.to {
      assert st'.delivered[|st.delivered|] == st.batch.current;
      forall s | 0 <= s < Reached(st') ensures s in st'.delivered || s in st'.skipped {
        assert s < Reached(st) ==> s in st.delivered || s in st.skipped;
      }
      forall i | 0 <= i < |st.delivered| ensures st.delivered[i] < st.batch.current {
        assert st.delivered[i] in st.delivered;
      }
    }
  }

  /** For every sequence of calls a borrow-checked client can make, in any interleaving with
      publishing: between batches the next sequence is the gating sequence plus one; events are
      given in increasing order and never twice; what was given and what was deliberately skipped
      are disjoint and together are exactly 0 up to the gating sequence; and that sequence has
      not passed anything unpublished. */
  lemma {:induction false} RunAccounts(ops: seq<Op>)
    requires LegalRun(ops)
    ensures Inv(Run(ops))
  {
    if ops == [] {
    } else {
      RunAccounts(ops[..|ops| - 1]);
      StepKeeps(Run(ops[..|ops| - 1]), ops[|ops| - 1]);
    }
  }

  /** A client that never calls `ack_all` is given every sequence up to the gating one. */
  lemma {:induction false} WithoutAckAllNothingIsSkipped(ops: seq<Op>)
    requires LegalRun(ops) && forall i :: 0 <= i < |ops| ==> !ops[i].AckAll?
    ensures Run(ops).skipped == {}
    ensures |Run(ops).delivered| == Reached(Run(ops))
    ensures forall i :: 0 <= i < |Run(ops).delivered| ==> Run(ops).delivered[i] == i
  {
    RunAccounts(ops);
    if ops == [] {
    } else {
      WithoutAckAllNothingIsSkipped(ops[..|ops| - 1]);
      RunAccounts(ops[..|ops| - 1]);
    }
  }

  // ---------------------------------------------------------------- a poller is a stage

  /** The poller as the sequential loop its calls amount to. The last event given stays borrowed
      until the next call on the batch. */
  function LoopOf(st: State): SequentialLoop.Loop {
    if !HasEvents(st) then SequentialLoop.Loop(st.sequence, st.next, SequentialLoop.Top)
    else if st.batch.from < st.batch.current then
      SequentialLoop.Loop(st.sequence, st.batch.current - 1, SequentialLoop.InEvent(st.batch.to))
    else SequentialLoop.Loop(st.sequence, st.batch.from, SequentialLoop.Batch(st.batch.to))
  }

  predicate HasEvents(st: State) {
    st.batch.Open? && st.batch.from <= st.batch.to
  }

  /** The loop steps of a call: ending the last borrow, giving an event, skipping, committing. */
  function EndBorrow(st: State): seq<SequentialLoop.Action> {
    if HasEvents(st) && st.batch.from < st.batch.current then [SequentialLoop.EventDone(true)] else []
  }

  function Opens(b: Open): seq<SequentialLoop.Action> {
    if b.Open? && b.from <= b.to then [SequentialLoop.Take(b.to), SequentialLoop.BatchStart(true)] else []
  }

  function ActionsOf(st: State, op: Op): seq<SequentialLoop.Action> {
    match op
    case Publish(_) => []
    case Poll(b, answer, a) => Opens(Polled(st.next, b, answer, a))
    case Take(max, b, answer, a) => Opens(Capped(Polled(st.next, b, answer, a), max))
    case NextMut =>
      if !HasEvents(st) || st.batch.current > st.batch.to then [] else EndBorrow(st) + [SequentialLoop.OnEvent]
    case AckAll =>
      if !HasEvents(st) then []
      else EndBorrow(st) + SequentialLoop.Handling(st.batch.current, st.batch.to) + [SequentialLoop.CommitPrefix]
    case Commit => if !HasEvents(st) then [] else EndBorrow(st) + [SequentialLoop.CommitPrefix]
    case Drop => if !HasEvents(st) then [] else EndBorrow(st) + [SequentialLoop.CommitPrefix]
  }

  /** The barrier answered only released sequences. */
  ghost predicate AnswerReleased(st: State, op: Op, released: set<int>) {
    (op.Poll? || op.Take?) && op.answer.Some? ==>
      forall s :: st.next <= s <= op.answer.value ==> s in released
  }

  /** Between two events of a batch. */
  function Between(st: State, next: int): SequentialLoop.Loop
    requires st.batch.Open?
  {
    SequentialLoop.Loop(st.sequence, next, SequentialLoop.Batch(st.batch.to))
  }

  function Busy(st: State, next: int): SequentialLoop.Loop
    requires st.batch.Open?
  {
    SequentialLoop.Loop(st.sequence, next, SequentialLoop.InEvent(st.batch.to))
  }

  lemma EndingBorrow(st: State, released: set<int>)
    requires Inv(st) && HasEvents(st)
    ensures SequentialLoop.Reaches(LoopOf(st), Between(st, st.batch.current), EndBorrow(st), released)
  {
    if st.batch.from < st.batch.current {
      SequentialLoop.OneStep(LoopOf(st), Between(st, st.batch.current), SequentialLoop.EventDone(true), released);
    }
  }

  /** Skipping is handling that changes nothing. */
  lemma Skipping(st: State, first: int, released: set<int>)
    requires st.batch.Open? && first <= st.batch.to + 1
    ensures SequentialLoop.Reaches(Between(st, first), Between(st, st.batch.to + 1),
                                   SequentialLoop.Handling(first, st.batch.to), released)
  {
    SequentialLoop.HandlesAll(st.sequence, first, st.batch.to, released);
  }

  lemma Committing(st: State, next: int, released: set<int>)
    requires Inv(st) && HasEvents(st)
    ensures SequentialLoop.Reaches(Between(st, next), SequentialLoop.Loop(next - 1, next, SequentialLoop.Top),
          [SequentialLoop.CommitPrefix], released)
  {
    SequentialLoop.OneStep(Between(st, next), SequentialLoop.Loop(next - 1, next, SequentialLoop.Top),
        SequentialLoop.CommitPrefix,
        released);
  }

  lemma Opening(st: State, b: Open, released: set<int>)
    requires Inv(st) && st.batch.NoBatch? && (b.Open? ==> b.from == b.current == st.next)
    requires b.Open? ==> forall s :: st.next <= s <= b.to ==> s in released
    ensures SequentialLoop.Reaches(LoopOf(st), LoopOf(st.(batch := b)), Opens(b), released)
  {
    if b.Open? && b.from <= b.to {
      var started := LoopOf(st).(phase := SequentialLoop.Starting(b.to));
      SequentialLoop.OneStep(LoopOf(st), started, SequentialLoop.Take(b.to), released);
      SequentialLoop.OneStep(started, LoopOf(st.(batch := b)), SequentialLoop.BatchStart(true), released);
      SequentialLoop.Chain(LoopOf(st), started, LoopOf(st.(batch := b)), [SequentialLoop.Take(b.to)],
          [SequentialLoop.BatchStart(true)], released);
      assert [SequentialLoop.Take(b.to)] + [SequentialLoop.BatchStart(true)] == Opens(b);
    }
  }

  lemma CommitRefines(st: State, op: Op, released: set<int>)
    requires Inv(st) && HasEvents(st) && (op.Commit? || op.Drop?)
    ensures SequentialLoop.Reaches(LoopOf(st), LoopOf(Step(st, op)), ActionsOf(st, op), released)
  {
    hide SequentialLoop.Next;
    EndingBorrow(st, released);
    Committing(st, st.batch.current, released);
    SequentialLoop.Chain(LoopOf(st), Between(st, st.batch.current), LoopOf(Step(st, op)), EndBorrow(st),
        [SequentialLoop.CommitPrefix], released);
  }

  lemma AckAllRefines(st: State, released: set<int>)
    requires Inv(st) && HasEvents(st)
    ensures SequentialLoop.Reaches(LoopOf(st), LoopOf(Step(st, AckAll)), ActionsOf(st, AckAll), released)
  {
    hide SequentialLoop.Next;
    var b := st.batch;
    EndingBorrow(st, released);
    Skipping(st, b.current, released);
    SequentialLoop.Chain(LoopOf(st), Between(st, b.current), Between(st, b.to + 1), EndBorrow(st),
        SequentialLoop.Handling(b.current, b.to), released);
    Committing(st, b.to + 1, released);
    SequentialLoop.Chain(LoopOf(st), Between(st, b.to + 1), LoopOf(Step(st, AckAll)),
          EndBorrow(st) + SequentialLoop.Handling(b.current, b.to), [SequentialLoop.CommitPrefix], released);
  }

  lemma NextMutRefines(st: State, released: set<int>)
    requires Inv(st) && HasEvents(st) && st.batch.current <= st.batch.to
    ensures SequentialLoop.Reaches(LoopOf(st), LoopOf(Step(st, NextMut)), ActionsOf(st, NextMut), released)
  {
    EndingBorrow(st, released);
    SequentialLoop.OneStep(Between(st, st.batch.current), Busy(st, st.batch.current), SequentialLoop.OnEvent, released);
    SequentialLoop.Chain(LoopOf(st), Between(st, st.batch.current), Busy(st, st.batch.current), EndBorrow(st),
        [SequentialLoop.OnEvent], released);
  }

  /** Every call on the poller is a sequence of steps of a sequential stage. */
  lemma RefinesLoop(st: State, op: Op, released: set<int>)
    requires Inv(st) && Legal(st, op) && AnswerReleased(st, op, released)
    ensures SequentialLoop.Reaches(LoopOf(st), LoopOf(Step(st, op)), ActionsOf(st, op), released)
  {
    match op
    case Publish(_) =>
    case Poll(b, answer, a) => Opening(st, Polled(st.next, b, answer, a), released);
    case Take(max, b, answer, a) => Opening(st, Capped(Polled(st.next, b, answer, a), max), released);
    case NextMut => if HasEvents(st) && st.batch.current <= st.batch.to { NextMutRefines(st, released); }
    case AckAll => if HasEvents(st) { AckAllRefines(st, released); }
    case Commit => if HasEvents(st) { CommitRefines(st, op, released); }
    case Drop => if HasEvents(st) { CommitRefines(st, op, released); }
  }

  // ---------------------------------------------------------------- in a running disruptor

  /** A poller is a sequential stage of a running disruptor: whatever the client calls next, the
      call extends the run, so every guarantee about runs covers pollers too. */
  lemma CallExtendsRun<E>(r: Guarantees.Run<E>, k: nat, st: State, op: Op) returns (r': Guarantees.Run<E>)
    requires Guarantees.IsRun(r) && k < |Progress.Last(r).stages| &&
          Progress.Last(r).stages[k] == Disruptor.Sequential(LoopOf(st))
    requires Inv(st) && Legal(st, op)
    requires Disruptor.Shaped(Progress.Last(r)) && AnswerReleased(st, op, Disruptor.Released(Progress.Last(r), k))
    ensures Guarantees.IsRun(r') && r.states <= r'.states && r.acts <= r'.acts
    ensures Progress.Last(r').stages == Progress.Last(r).stages[k := Disruptor.Sequential(LoopOf(Step(st, op)))]
    ensures Progress.Last(r').slots == Progress.Last(r).slots &&
          Progress.Last(r').producers == Progress.Last(r).producers
  {
    RefinesLoop(st, op, Disruptor.Released(Progress.Last(r), k));
    r' := Progress.LoopExtendsRun(r, k, LoopOf(st), LoopOf(Step(st, op)), ActionsOf(st, op));
  }

  ghost predicate SlotHolds<E>(sys: Disruptor.System<E>, k: nat, s: int) {
    && sys.size > 0 && |sys.slots| == sys.size && (k, s) in sys.trail
    && sys.slots[s % sys.size] == sys.trail[(k, s)]
  }

  /** What `get` reads at any place of a batch, and `next_mut` gives, however often the ring wrapped:
      an untaken event is as the log says it reached this stage; the event last given is in the
      client's hands alone; one given before it is as the client left it, since neither a later
      stage nor the producer reaches it before the batch is committed. */
  lemma BatchReadsLog<E>(r: Guarantees.Run<E>, t: nat, k: nat, st: State, s: int)
    requires Guarantees.IsRun(r) && t < |r.states| && k < |r.states[t].stages|
    requires r.states[t].stages[k] == Disruptor.Sequential(LoopOf(st))
    requires Inv(st) && st.batch.Open? && st.batch.from <= s <= st.batch.to
    ensures Disruptor.Shaped(r.states[t]) && Disruptor.Gate(r.states[t]) < s
    ensures if st.batch.current <= s then SlotHolds(r.states[t], k, s)
            else if s == st.batch.current - 1 then Access(0, s) in Disruptor.AsView(r.states[t].stages[k]).active
            else SlotHolds(r.states[t], k + 1, s)
  {
    hide Guarantees.IsRun, Disruptor.Inv, Disruptor.Next;
    var sys := r.states[t];
    Guarantees.RunInv(r, t);
    SystemShaped(sys);
    if st.batch.current <= s {
      PendingHoldsLog(sys, k, st, s);
    } else {
      if k + 1 < |sys.stages| && TouchedBy(sys, k + 1, s) { Gating.NeverOvertakes(r, t, k + 1, s); }
      TakenHoldsLog(sys, k, st, s);
    }
  }

  lemma SystemShaped<E>(sys: Disruptor.System<E>)
    requires Disruptor.Inv(sys)
    ensures Disruptor.Shaped(sys)
  {
  }

  ghost predicate TouchedBy<E>(sys: Disruptor.System<E>, k: nat, s: int)
    requires k < |sys.stages|
  {
    s in Disruptor.AsView(sys.stages[k]).handled || s in Disruptor.AsView(sys.stages[k]).dirty
  }

  lemma PendingHoldsLog<E>(sys: Disruptor.System<E>, k: nat, st: State, s: int)
    requires Disruptor.Inv(sys) && k < |sys.stages| && sys.stages[k] == Disruptor.Sequential(LoopOf(st))
    requires Inv(st) && HasEvents(st) && st.batch.current <= s <= st.batch.to
    ensures SlotHolds(sys, k, s) && Disruptor.Gate(sys) < s
  {
    assert Disruptor.StageInvAt(sys, k);
    var p := Disruptor.Abs(sys);
    assert s in Pipeline.Ready(p, k);
    assert s !in Disruptor.AsView(sys.stages[k]).handled && s !in Disruptor.AsView(sys.stages[k]).dirty;
    hide Disruptor.AsView;
    Guarantees.EnterSeesLog(sys, k, s);
    Pipeline.UncompletedHoldsBack(p, k, s);
  }

  lemma TakenHoldsLog<E>(sys: Disruptor.System<E>, k: nat, st: State, s: int)
    requires Disruptor.Inv(sys) && k < |sys.stages| && sys.stages[k] == Disruptor.Sequential(LoopOf(st))
    requires Inv(st) && HasEvents(st) && st.batch.from <= s < st.batch.current
    requires k + 1 < |sys.stages| ==> !TouchedBy(sys, k + 1, s)
    ensures Disruptor.Gate(sys) < s
    ensures if s == st.batch.current - 1 then Access(0, s) in Disruptor.AsView(sys.stages[k]).active
            else SlotHolds(sys, k + 1, s)
  {
    var p, v := Disruptor.Abs(sys), Disruptor.AsView(sys.stages[k]);
    assert v.watermark < s && (s < st.batch.current - 1 ==> s in v.handled);
    assert s == st.batch.current - 1 ==> Access(0, s) in v.active;
    hide Disruptor.AsView;
    if k + 1 < |sys.stages| { Pipeline.UncompletedHoldsBack(p, k + 1, s); }
    if s < st.batch.current - 1 {
      assert Pipeline.Resting(p, k + 1, s);
      assert Pipeline.HoldsTrail(p, k + 1, s);
    }
  }

  // ---------------------------------------------------------------- the objects

  datatype Outcome = Batch(batch: EventBatch) | Idle | Shutdown

  class EventPoller {
    var sequence: int
    var nextSequence: int

    constructor ()
      ensures Shows(INIT)
    {
      sequence := Sequences.INITIAL_CURSOR_VALUE;
      nextSequence := 0;
    }

    ghost predicate Shows(st: State)
      reads this
    {
      sequence == st.sequence && nextSequence == st.next
    }

    /** `stopBefore` and `stopAfter` are the two reads of the shutdown flag; the barrier answers
        None when it has been alerted. */
    method Poll(stopBefore: bool, answer: Option<int>, stopAfter: bool, ghost st: State) returns (r: Outcome)
      requires Shows(st) && Inv(st) && Legal(st, Op.Poll(stopBefore, answer, stopAfter))
      ensures var st' := Step(st, Op.Poll(stopBefore, answer, stopAfter));
              && (r.Batch? ==> fresh(r.batch) && r.batch.poller == this && r.batch.Shows(st') && !r.batch.committed)
              && (!r.Batch? ==> Shows(st'))
      ensures r.Batch? <==> !stopBefore && answer.Some? && !stopAfter && st.next <= answer.value
      ensures r.Shutdown? <==> stopBefore || answer.None? || stopAfter
    {
      if stopBefore { return Shutdown; }
      if answer.None? { return Shutdown; }
      if stopAfter { return Shutdown; }
      if answer.value < nextSequence { return Idle; }
      var b := new EventBatch(this, nextSequence, answer.value);
      return Batch(b);
    }

    /** However large `max`, the saturating i64 arithmetic caps the batch at exactly `max`. */
    method Take(max: nat, stopBefore: bool, answer: Option<int>, stopAfter: bool, ghost st: State) returns (r: Outcome)
      requires Shows(st) && Inv(st) && Legal(st, Op.Take(max, stopBefore, answer, stopAfter))
      ensures var st' := Step(st, Op.Take(max, stopBefore, answer, stopAfter));
              && (r.Batch? ==> fresh(r.batch) && r.batch.poller == this && r.batch.Shows(st') && !r.batch.committed)
              && (r.Batch? ==> r.batch.to - r.batch.from + 1 == Sequences.Least(max, answer.value - st.next + 1))
              && (!r.Batch? ==> Shows(st'))
      ensures r.Batch? <==> !stopBefore && answer.Some? && !stopAfter && st.next <= answer.value
    {
      r := Poll(stopBefore, answer, stopAfter, st);
      if r.Batch? {
        assert r.batch.from == st.next && r.batch.to == answer.value;
        if max == 0 {
          r.batch.to := r.batch.from - 1;
          return;
        }
        var most := if max <= Sequences.I64_MAX then max else Sequences.I64_MAX;
        var maxHi := if r.batch.from + (most - 1) <= Sequences.I64_MAX then r.batch.from + (most - 1)
            else Sequences.I64_MAX;
        if r.batch.to > maxHi {
          r.batch.to := maxHi;
        }
      }
    }
  }

  class EventBatch {
    const poller: EventPoller
    const from: int
    var current: int
    var to: int
    var committed: bool

    constructor (poller: EventPoller, from: int, to: int)
      ensures this.poller == poller && this.from == from && current == from && this.to == to && !committed
    {
      this.poller, this.from, current, this.to, committed := poller, from, from, to, false;
    }

    ghost predicate Shows(st: State)
      reads this, poller
    {
      poller.Shows(st) && st.batch == (if committed then NoBatch else Open(from, current, to))
    }

    /** Whether the slot may be read; reading does not consume. */
    method Get(s: int, ghost st: State) returns (readable: bool)
      requires Shows(st) && Inv(st) && st.batch.Open?
      ensures readable <==> from <= s <= to
      ensures readable ==> s in st.published && st.sequence < s
    {
      if s < from || s > to { return false; }
      return true;
    }

    method NextMut(ghost st: State) returns (r: Option<int>)
      requires Shows(st) && Inv(st) && st.batch.Open?
      modifies this`current
      ensures Shows(Step(st, Op.NextMut)) && !committed
      ensures Step(st, Op.NextMut).delivered == st.delivered + (if r.Some? then [r.value] else [])
      ensures r.None? <==> st.batch.current > st.batch.to
    {
      if current > to { return None; }
      var s := current;
      current := current + 1;
      return Some(s);
    }

    method CommitTo(last: int)
      modifies this`committed, poller
      ensures committed
      ensures poller.sequence == (if old(committed) || last < from then old(poller.sequence) else last)
      ensures poller.nextSequence == (if old(committed) || last < from then old(poller.nextSequence) else last + 1)
    {
      if committed { return; }
      committed := true;
      if last >= from {
        poller.sequence := last;
        poller.nextSequence := last + 1;
      }
    }

    /** Dropping also ends a batch that was committed explicitly; then it must do nothing. */
    method Drop(ghost st: State)
      requires Shows(st) && Inv(st)
      modifies this`committed, poller
      ensures Shows(Step(st, Op.Drop)) && committed
      ensures st.batch.NoBatch? ==> poller.Shows(st)
    {
      CommitTo(current - 1);
    }

    method Commit(ghost st: State)
      requires Shows(st) && Inv(st) && st.batch.Open?
      modifies this`committed, poller
      ensures Shows(Step(st, Op.Commit)) && committed
    {
      CommitTo(current - 1);
      StepKeeps(st, Op.Commit);
      Drop(Step(st, Op.Commit));
    }

    method AckAll(ghost st: State)
      requires Shows(st) && Inv(st) && st.batch.Open?
      modifies this`committed, poller
      ensures Shows(Step(st, Op.AckAll)) && committed
    {
      CommitTo(to);
      StepKeeps(st, Op.AckAll);
      Drop(Step(st, Op.AckAll));
    }
  }
}
