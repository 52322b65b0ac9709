/** The sequential batch loop (`run_sequential_batch_loop_impl`) and the read-only fan-out loop
    (`run_sequential_readonly_loop_impl`) of src/disruptor/consumer_engine.rs as step machines. */
module SequentialLoop {
  import opened StageContract
  import Sequences

  datatype Phase =
    | Top                       // checking the stop flag, or waiting at the barrier
    | Starting(available: int)  // batch taken; `on_batch_start` running
    | Batch(available: int)     // between two events of the batch
    | InEvent(available: int)   // inside the handler on `next`
    | Stopped
    | Failed(entered: bool)     // fatal: batch start failed, or the handler of `next` did

  /** `next` is the loop's `next_sequence`: everything below it has been completed. */
  datatype Loop = Loop(sequence: int, next: int, phase: Phase)

  datatype Action =
    | Take(available: int)
    | BatchStart(ok: bool)
    | OnEvent
    | EventDone(keepGoing: bool)  // Ok, or an error the exception handler said to skip
    | StoreSequence
    | CommitPrefix                // a poller drops its batch part way; the loops never do
    | Stop

  const INIT := Loop(Sequences.INITIAL_CURSOR_VALUE, Sequences.INITIAL_CURSOR_VALUE + 1, Top)

  ghost predicate Next(l: Loop, l': Loop, a: Action, ready: set<int>) {
    match (a, l.phase)
    case (Take(available), Top) =>
      if available < l.next then l' == l
      else (forall s :: l.next <= s <= available ==> s in ready) && l' == l.(phase := Starting(available))
    case (BatchStart(ok), Starting(available)) =>
      l' == l.(phase := if ok then Batch(available) else Failed(false))
    case (OnEvent, Batch(available)) =>
      l.next <= available && l' == l.(phase := InEvent(available))
    case (EventDone(keepGoing), InEvent(available)) =>
      if keepGoing then l' == l.(next := l.next + 1, phase := Batch(available))
      else l' == l.(sequence := l.next - 1, phase := Failed(true))
    case (StoreSequence, Batch(available)) =>
      l.next > available && l' == l.(sequence := available, phase := Top)
    case (CommitPrefix, Batch(_)) =>
      l' == l.(sequence := l.next - 1, phase := Top)
    case (Stop, Top) =>
      l' == l.(phase := Stopped)
    case _ => false
  }

  ghost predicate Inv(l: Loop, ready: set<int>) {
    && -1 <= l.sequence < l.next
    && (forall s :: 0 <= s < l.next ==> s in ready)
    && match l.phase
       case Top => l.sequence == l.next - 1
       case Stopped => l.sequence == l.next - 1
       case Starting(available) =>
         l.sequence == l.next - 1 && l.next <= available && (forall s :: 0 <= s <= available ==> s in ready)
       case Batch(available) =>
         l.next <= available + 1 && (forall s :: 0 <= s <= available ==> s in ready)
       case InEvent(available) =>
         l.next <= available && (forall s :: 0 <= s <= available ==> s in ready)
       case Failed(entered) => l.sequence == l.next - 1 && (entered ==> l.next in ready)
  }

  function Dirty(l: Loop): set<int> {
    if l.phase.InEvent? || (l.phase.Failed? && l.phase.entered) then {l.next} else {}
  }

  function Active(l: Loop, who: nat): set<Access> {
    if l.phase.InEvent? then {Access(who, l.next)} else {}
  }

  function AsView(l: Loop): View {
    View(l.sequence, Sequences.Upto(l.next), Dirty(l), Active(l, 0))
  }

  function EventOf(l: Loop, a: Action, who: nat): Event {
    match (a, l.phase)
    case (OnEvent, Batch(_)) => Enter(who, l.next)
    case (EventDone(keepGoing), InEvent(_)) => if keepGoing then Leave(who, l.next) else Fail(who, l.next)
    case _ => Quiet
  }

  /** Only what lies from the awaited sequence up matters to a step. */
  lemma AnswerSuffices(l: Loop, l': Loop, a: Action, answered: set<int>, ready: set<int>)
    requires Next(l, l', a, answered)
    requires forall s <- answered :: l.next <= s ==> s in ready
    ensures Next(l, l', a, ready)
  {
  }

  lemma StepKeeps(l: Loop, l': Loop, a: Action, ready: set<int>)
    requires Inv(l, ready) && Next(l, l', a, ready)
    ensures Inv(l', ready) && l.sequence <= l'.sequence && l.next <= l'.next
  {
  }

  lemma ViewOk(l: Loop, ready: set<int>)
    requires Inv(l, ready)
    ensures Ok(AsView(l), ready, true)
  {
  }

  /** The sequential loop refines the stage contract. */
  lemma RefinesStage(l: Loop, l': Loop, a: Action, ready: set<int>)
    requires Inv(l, ready) && Next(l, l', a, ready)
    ensures Inv(l', ready) && Ok(AsView(l'), ready, true)
    ensures StageContract.Next(AsView(l), AsView(l'), ready, true, EventOf(l, a, 0))
  {
    StepKeeps(l, l', a, ready);
    ViewOk(l, ready);
    ViewOk(l', ready);
  }

  // ---------------------------------------------------------------- batches are completed

  /** The loop gets from l to l' by these actions. */
  ghost predicate Reaches(l: Loop, l': Loop, actions: seq<Action>, released: set<int>)
    decreases |actions|
  {
    if actions == [] then l == l'
    else exists mid: Loop :: Next(l, mid, actions[0], released) && Reaches(mid, l', actions[1..], released)
  }

  lemma OneStep(l: Loop, l': Loop, a: Action, released: set<int>)
    requires Next(l, l', a, released)
    ensures Reaches(l, l', [a], released)
  {
    assert Reaches(l', l', [a][1..], released);
  }

  lemma {:induction false} Chain(l: Loop, mid: Loop, l': Loop, first: seq<Action>, second: seq<Action>,
        released: set<int>)
    requires Reaches(l, mid, first, released) && Reaches(mid, l', second, released)
    ensures Reaches(l, l', first + second, released)
    decreases |first|
  {
    hide Next;
    if first == [] {
      assert first + second == second;
    } else {
      var m :| Next(l, m, first[0], released) && Reaches(m, mid, first[1..], released);
      Chain(m, mid, l', first[1..], second, released);
      assert (first + second)[1..] == first[1..] + second;
    }
  }

  /** Entering and completing the events first to last, one after the other. */
  function Handling(first: int, last: int): seq<Action>
    decreases last - first
  {
    if first > last then [] else [OnEvent, EventDone(true)] + Handling(first + 1, last)
  }

  lemma {:induction false} HandlesAll(sequence: int, first: int, available: int, released: set<int>)
    requires first <= available + 1
    ensures Reaches(Loop(sequence, first, Batch(available)), Loop(sequence, available + 1, Batch(available)),
                    Handling(first, available), released)
    decreases available - first
  {
    if first > available {
    } else {
      var rest := Handling(first + 1, available);
      var start, busy := Loop(sequence, first, Batch(available)), Loop(sequence, first, InEvent(available));
      var next, end := Loop(sequence, first + 1, Batch(available)), Loop(sequence, available + 1, Batch(available));
      OneStep(start, busy, OnEvent, released);
      OneStep(busy, next, EventDone(true), released);
      HandlesAll(sequence, first + 1, available, released);
      Chain(busy, next, end, [EventDone(true)], rest, released);
      Chain(start, busy, end, [OnEvent], [EventDone(true)] + rest, released);
      assert [OnEvent] + ([EventDone(true)] + rest) == Handling(first, available);
    }
  }

  function WholeBatch(next: int, available: int): seq<Action> {
    [Take(available), BatchStart(true)] + Handling(next, available) + [StoreSequence]
  }

  /** A loop at its head that is answered `available` takes the whole batch: with handlers that
      return Ok it ends at its head again, its sequence on the last event. */
  lemma BatchCompletes(l: Loop, available: int, released: set<int>)
    requires l.phase == Top && l.next <= available && forall s :: l.next <= s <= available ==> s in released
    ensures Reaches(l, Loop(available, available + 1, Top), WholeBatch(l.next, available), released)
  {
    var taken, started := l.(phase := Starting(available)), l.(phase := Batch(available));
    var through := Loop(l.sequence, available + 1, Batch(available));
    OneStep(l, taken, Take(available), released);
    OneStep(taken, started, BatchStart(true), released);
    OneStep(through, Loop(available, available + 1, Top), StoreSequence, released);
    hide Next;
    Chain(l, taken, started, [Take(available)], [BatchStart(true)], released);
    HandlesAll(l.sequence, l.next, available, released);
    var first := [Take(available)] + [BatchStart(true)];
    Chain(l, started, through, first, Handling(l.next, available), released);
    Chain(l, through, Loop(available, available + 1, Top), first + Handling(l.next, available), [StoreSequence],
        released);
    assert first == [Take(available), BatchStart(true)];
  }

  /** A failed batch start or a fatal event ends the loop for good, frozen on the last completed event. */
  lemma FailureIsFinal(l: Loop, l': Loop, a: Action, released: set<int>)
    requires Inv(l, released) && Next(l, l', a, released) && (a == EventDone(false) || a == BatchStart(false))
    ensures l'.phase == Failed(a.EventDone?) && l'.next == l.next && l'.sequence == l.next - 1
    ensures forall l'', b :: !Next(l', l'', b, released)
  {
  }

  /** A loop heeds a stop at its head and nowhere else: a batch it has taken it finishes first. */
  lemma StopIsHeeded(l: Loop, released: set<int>)
    ensures (exists l' :: Next(l, l', Stop, released)) <==> l.phase == Top
  {
    if l.phase == Top {
      assert Next(l, l.(phase := Stopped), Stop, released);
    }
  }

  // ---------------------------------------------------------------- read-only fan-out

  function Values(ls: seq<Loop>): seq<int> {
    seq(|ls|, i requires 0 <= i < |ls| => ls[i].sequence)
  }

  function Nexts(ls: seq<Loop>): seq<int> {
    seq(|ls|, i requires 0 <= i < |ls| => ls[i].next)
  }

  /** A read-only stage: every consumer sees every sequence, so a sequence is completed when
      the slowest consumer has completed it. */
  function FanOutView(ls: seq<Loop>): View {
    View(Sequences.Min(Values(ls)), Sequences.Upto(Sequences.Min(Nexts(ls))), {}, FanOutActive(ls))
  }

  function FanOutActive(ls: seq<Loop>): set<Access> {
    set i: nat | i < |ls| && ls[i].phase.InEvent? :: Access(i, ls[i].next)
  }

  ghost predicate FanOutInv(ls: seq<Loop>, ready: set<int>) {
    |ls| > 0 && forall i :: 0 <= i < |ls| ==> Inv(ls[i], ready)
  }

  ghost predicate FanOutNext(ls: seq<Loop>, ls': seq<Loop>, i: nat, a: Action, ready: set<int>) {
    && i < |ls| == |ls'|
    && ls' == ls[i := ls'[i]]
    && Next(ls[i], ls'[i], a, ready)
  }

  lemma FanOutViewOk(ls: seq<Loop>, ready: set<int>)
    requires FanOutInv(ls, ready)
    ensures Ok(FanOutView(ls), ready, false)
  {
    var w, n := Sequences.Min(Values(ls)), Sequences.Min(Nexts(ls));
    var i :| 0 <= i < |ls| && Nexts(ls)[i] == n;
    assert Inv(ls[i], ready);
    assert Values(ls)[i] == ls[i].sequence;
    var j :| 0 <= j < |ls| && Values(ls)[j] == w;
    assert Inv(ls[j], ready);
    forall a | a in FanOutActive(ls) ensures a.at in ready && a.at !in Sequences.Upto(n) {
      assert Inv(ls[a.who], ready);
      assert Nexts(ls)[a.who] == a.at;
    }
  }

  lemma MinOfUpdate(v: seq<int>, v': seq<int>, i: nat)
    requires i < |v| == |v'| && v' == v[i := v'[i]] && v[i] <= v'[i]
    ensures Sequences.Min(v) <= Sequences.Min(v')
    ensures Sequences.Min(v') > Sequences.Min(v) ==> v[i] == Sequences.Min(v)
    ensures v'[i] == v[i] ==> Sequences.Min(v') == Sequences.Min(v)
    ensures Sequences.Min(v') <= v'[i]
  {
  }

  lemma FanOutChangesActive(ls: seq<Loop>, ls': seq<Loop>, i: nat, a: Action, ready: set<int>)
    requires FanOutNext(ls, ls', i, a, ready)
    ensures match EventOf(ls[i], a, i)
            case Quiet => FanOutActive(ls') == FanOutActive(ls)
            case Enter(w, s) =>
              && Access(w, s) !in FanOutActive(ls)
              && FanOutActive(ls') == FanOutActive(ls) + {Access(w, s)}
            case Leave(w, s) =>
              && Access(w, s) in FanOutActive(ls)
              && FanOutActive(ls') == FanOutActive(ls) - {Access(w, s)}
            case Fail(w, s) =>
              && Access(w, s) in FanOutActive(ls)
              && FanOutActive(ls') == FanOutActive(ls) - {Access(w, s)}
  {
    assert forall j :: 0 <= j < |ls| && j != i ==> ls'[j] == ls[j];
  }

  lemma FanOutProgress(ls: seq<Loop>, ls': seq<Loop>, i: nat, a: Action, ready: set<int>)
    requires FanOutInv(ls, ready) && FanOutNext(ls, ls', i, a, ready)
    ensures FanOutInv(ls', ready)
    ensures Sequences.Min(Values(ls)) <= Sequences.Min(Values(ls'))
    ensures Sequences.Min(Nexts(ls)) <= Sequences.Min(Nexts(ls'))
    ensures EventOf(ls[i], a, i).Leave? ==>
              Sequences.Min(Nexts(ls')) <= Sequences.Min(Nexts(ls)) + 1 &&
              (Sequences.Min(Nexts(ls')) > Sequences.Min(Nexts(ls)) ==> Sequences.Min(Nexts(ls)) == ls[i].next)
    ensures !EventOf(ls[i], a, i).Leave? ==> Sequences.Min(Nexts(ls')) == Sequences.Min(Nexts(ls))
  {
    StepKeeps(ls[i], ls'[i], a, ready);
    MinOfUpdate(Values(ls), Values(ls'), i);
    MinOfUpdate(Nexts(ls), Nexts(ls'), i);
    assert Nexts(ls)[i] == ls[i].next && Nexts(ls')[i] == ls'[i].next;
  }

  /** The fan-out stage refines the stage contract for read-only stages. */
  lemma FanOutRefinesStage(ls: seq<Loop>, ls': seq<Loop>, i: nat, a: Action, ready: set<int>)
    requires FanOutInv(ls, ready) && FanOutNext(ls, ls', i, a, ready)
    ensures FanOutInv(ls', ready) && Ok(FanOutView(ls'), ready, false)
    ensures StageContract.Next(FanOutView(ls), FanOutView(ls'), ready, false, EventOf(ls[i], a, i))
  {
    FanOutProgress(ls, ls', i, a, ready);
    FanOutViewOk(ls, ready);
    FanOutViewOk(ls', ready);
    FanOutChangesActive(ls, ls', i, a, ready);
    assert Inv(ls[i], ready);
    assert Sequences.Min(Nexts(ls)) <= Nexts(ls)[i] == ls[i].next;
    FanOutCompletes(FanOutView(ls).handled, FanOutView(ls').handled, Sequences.Min(Nexts(ls)),
        Sequences.Min(Nexts(ls')));
  }

  lemma FanOutCompletes(h: set<int>, h': set<int>, n: int, n': int)
    requires h == Sequences.Upto(n) && h' == Sequences.Upto(n')
    ensures n == n' ==> h == h'
    ensures n <= n' <= n + 1 ==> h <= h' <= h + {n}
  {
  }
}
