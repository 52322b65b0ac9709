/** The two drivers of one processor's events: the batch loop of
    src/disruptor/consumer_engine.rs and `try_run_once` of src/disruptor/event_processor.rs.
    Both are proved to compute the same function of what the barrier answers. */
module BatchProcessor {

  /** Calls into user code, in order. */
  datatype Call =
    | BatchStart(size: int, depth: int)
    | Event(at: int, endOfBatch: bool)

  /** What `on_event`, and on an error the exception handler, decides. */
  datatype Verdict = Fine | SkipEvent | StopProcessor

  /** User code is any function of all the calls made so far, so handlers may keep state. */
  datatype Handler = Handler(startOk: seq<Call> -> bool, verdict: seq<Call> -> Verdict)

  datatype Progress = Progress(sequence: int, poisoned: bool, calls: seq<Call>)

  // ---------------------------------------------------------------- one batch, one event at a time

  /** Handing out the events from `at` to `available`. */
  function Events(h: Handler, at: int, available: int, calls: seq<Call>): (p: Progress)
    requires at <= available + 1
    ensures calls <= p.calls && at - 1 <= p.sequence <= available
    ensures !p.poisoned ==> p.sequence == available
    decreases available - at
  {
    if at > available then Progress(available, false, calls)
    else
      var calls' := calls + [Event(at, at == available)];
      if h.verdict(calls').StopProcessor? then Progress(at - 1, true, calls')
      else Events(h, at + 1, available, calls')
  }

  function Batch(h: Handler, p: Progress, available: int): (p': Progress)
    requires !p.poisoned
    ensures p.calls <= p'.calls && p.sequence <= p'.sequence
  {
    if available <= p.sequence then p
    else
      var calls := p.calls + [BatchStart(available - p.sequence, available - p.sequence)];
      if !h.startOk(calls) then Progress(p.sequence, true, calls)
      else Events(h, p.sequence + 1, available, calls)
  }

  /** Batches for one answer of the barrier after another, until a fatal failure. */
  function Drive(h: Handler, p: Progress, answers: seq<int>): (q: Progress)
    ensures p.calls <= q.calls && p.sequence <= q.sequence
    decreases |answers|
  {
    if answers == [] || p.poisoned then p else Drive(h, Batch(h, p, answers[0]), answers[1..])
  }

  lemma DriveNothing(h: Handler, p: Progress)
    ensures Drive(h, p, []) == p
  {
  }

  lemma DriveStep(h: Handler, p: Progress, answers: seq<int>, i: nat)
    requires !p.poisoned && i < |answers|
    ensures var b := Batch(h, p, answers[i]);
            Drive(h, p, answers[i..]) == (if b.poisoned then b else Drive(h, b, answers[i + 1..]))
  {
  }

  // ---------------------------------------------------------------- what the calls say

  /** The sequences handed to `on_event`, in order. */
  function Handed(calls: seq<Call>): seq<int> {
    if calls == [] then []
    else
      var last := calls[|calls| - 1];
      Handed(calls[..|calls| - 1]) + (if last.Event? then [last.at] else [])
  }

  function BatchTotal(calls: seq<Call>): int {
    if calls == [] then 0
    else
      var last := calls[|calls| - 1];
      BatchTotal(calls[..|calls| - 1]) + (if last.BatchStart? then last.size else 0)
  }

  function Consecutive(from: int, to: int): seq<int> {
    seq(if from <= to then to - from + 1 else 0, i => from + i)
  }

  lemma ConsecutiveConcat(from: int, mid: int, to: int)
    requires from <= mid + 1 && mid <= to
    ensures Consecutive(from, mid) + Consecutive(mid + 1, to) == Consecutive(from, to)
    ensures from == mid ==> Consecutive(from, mid) == [from]
    ensures from > mid ==> Consecutive(from, mid) == []
  {
  }

  lemma Appended(calls: seq<Call>, c: Call)
    ensures Handed(calls + [c]) == Handed(calls) + (if c.Event? then [c.at] else [])
    ensures BatchTotal(calls + [c]) == BatchTotal(calls) + (if c.BatchStart? then c.size else 0)
  {
  }

  /** The highest sequence handed out: the one that failed, if the processor stopped on one. */
  function Reached(q: Progress): int {
    if q.poisoned && q.calls != [] && q.calls[|q.calls| - 1].Event? then q.sequence + 1 else q.sequence
  }

  lemma {:induction false} EventsAccount(h: Handler, at: int, available: int, calls: seq<Call>)
    requires at <= available + 1
    ensures var q := Events(h, at, available, calls);
            && Handed(q.calls) == Handed(calls) + Consecutive(at, if q.poisoned then q.sequence + 1 else q.sequence)
            && BatchTotal(q.calls) == BatchTotal(calls)
            && (q.poisoned ==> q.calls != [] && q.calls[|q.calls| - 1].Event?)
    decreases available - at
  {
    hide Consecutive, Handed, BatchTotal;
    ConsecutiveConcat(at, at - 1, at - 1);
    if at > available {
    } else {
      var calls' := calls + [Event(at, at == available)];
      Appended(calls, Event(at, at == available));
      if !h.verdict(calls').StopProcessor? {
        EventsAccount(h, at + 1, available, calls');
        var q := Events(h, at + 1, available, calls');
        ConsecutiveConcat(at, at, if q.poisoned then q.sequence + 1 else q.sequence);
      } else {
        ConsecutiveConcat(at, at, at);
      }
    }
  }

  /** Up to call n the batches announced after p were completed: their sizes add up to the
      events completed in them. A processor that stopped has call n announce the batch it
      stopped in, with only events after it and fewer of them completed than announced. */
  ghost predicate Accounts(p: Progress, q: Progress, n: nat) {
    && |p.calls| <= n <= |q.calls|
    && var completed := p.sequence + BatchTotal(q.calls[..n]) - BatchTotal(p.calls);
       if !q.poisoned then n == |q.calls| && q.sequence == completed
       else
         && n < |q.calls| && q.calls[n].BatchStart?
         && (forall i :: n < i < |q.calls| ==> q.calls[i].Event?)
         && completed <= q.sequence < completed + q.calls[n].size
  }

  lemma {:induction false} OnlyEvents(h: Handler, at: int, available: int, calls: seq<Call>)
    requires at <= available + 1
    ensures var q := Events(h, at, available, calls);
            && (forall i :: |calls| <= i < |q.calls| ==> q.calls[i].Event?)
            && (q.poisoned ==> q.sequence < available)
    decreases available - at
  {
    if at > available {
    } else {
      OnlyEvents(h, at + 1, available, calls + [Event(at, at == available)]);
    }
  }

  lemma BatchAccount(h: Handler, p: Progress, available: int) returns (n: nat)
    requires !p.poisoned
    ensures var q := Batch(h, p, available);
            Handed(q.calls) == Handed(p.calls) + Consecutive(p.sequence + 1, Reached(q)) && Accounts(p, q, n)
  {
    hide Consecutive, Handed, BatchTotal, Events;
    ConsecutiveConcat(p.sequence + 1, p.sequence, p.sequence);
    var q := Batch(h, p, available);
    n := if q.poisoned then |p.calls| else |q.calls|;
    assert q.calls[..|q.calls|] == q.calls && q.calls[..|p.calls|] == p.calls;
    if available > p.sequence {
      var c := BatchStart(available - p.sequence, available - p.sequence);
      Appended(p.calls, c);
      if h.startOk(p.calls + [c]) {
        EventsAccount(h, p.sequence + 1, available, p.calls + [c]);
        OnlyEvents(h, p.sequence + 1, available, p.calls + [c]);
      }
      assert q.calls[|p.calls|] == c;
    }
  }

  lemma AccountsConcat(p: Progress, b: Progress, q: Progress, m: nat, n: nat)
    requires Accounts(p, b, m) && !b.poisoned && b.calls <= q.calls && Accounts(b, q, n)
    ensures Accounts(p, q, n)
  {
    assert b.calls[..m] == b.calls;
  }

  /** Whatever the barrier answers and the handlers decide, the handler is given each sequence
      after the starting one exactly once and in order, up to the one that stopped it; and the
      sizes announced for completed batches add up to the events completed in them, also when
      the processor stopped in a later batch. */
  lemma {:induction false} DriveAccounts(h: Handler, p: Progress, answers: seq<int>) returns (n: nat)
    requires !p.poisoned
    ensures var q := Drive(h, p, answers);
            Handed(q.calls) == Handed(p.calls) + Consecutive(p.sequence + 1, Reached(q)) && Accounts(p, q, n)
    decreases |answers|
  {
    hide Consecutive, Handed, BatchTotal, Batch, Drive, Accounts;
    ConsecutiveConcat(p.sequence + 1, p.sequence, p.sequence);
    if answers == [] {
      DriveNothing(h, p);
      n := NothingAccounts(p);
    } else {
      DriveStep(h, p, answers, 0);
      assert answers[0..] == answers;
      var b := Batch(h, p, answers[0]);
      n := BatchAccount(h, p, answers[0]);
      if !b.poisoned {
        var m := n;
        n := DriveAccounts(h, b, answers[1..]);
        var q := Drive(h, b, answers[1..]);
        ConsecutiveConcat(p.sequence + 1, b.sequence, Reached(q));
        AccountsConcat(p, b, q, m, n);
      }
    }
  }

  lemma NothingAccounts(p: Progress) returns (n: nat)
    requires !p.poisoned
    ensures Accounts(p, p, n)
  {
    n := |p.calls|;
    assert p.calls[..n] == p.calls;
  }

  // ---------------------------------------------------------------- where processing stops

  /** User code refuses the last of these calls: `on_batch_start` fails, or `on_event` fails and
      the exception handler says stop. */
  predicate Refused(h: Handler, calls: seq<Call>)
    requires calls != []
  {
    if calls[|calls| - 1].BatchStart? then !h.startOk(calls) else h.verdict(calls).StopProcessor?
  }

  /** Of the calls after the first n exactly the last one was refused if the processor is
      poisoned, and none otherwise. */
  ghost predicate StopsAtRefusal(h: Handler, n: nat, q: Progress) {
    && n <= |q.calls| && (q.poisoned ==> n < |q.calls|)
    && forall i :: n < i <= |q.calls| ==> (Refused(h, q.calls[..i]) <==> q.poisoned && i == |q.calls|)
  }

  lemma {:induction false} EventsStop(h: Handler, at: int, available: int, calls: seq<Call>)
    requires at <= available + 1
    ensures StopsAtRefusal(h, |calls|, Events(h, at, available, calls))
    decreases available - at
  {
    if at > available {
    } else {
      var calls' := calls + [Event(at, at == available)];
      var q := Events(h, at, available, calls);
      if !h.verdict(calls').StopProcessor? { EventsStop(h, at + 1, available, calls'); }
      assert q.calls[..|calls'|] == calls';
    }
  }

  lemma BatchStops(h: Handler, p: Progress, available: int)
    requires !p.poisoned
    ensures StopsAtRefusal(h, |p.calls|, Batch(h, p, available))
  {
    if available > p.sequence {
      var calls := p.calls + [BatchStart(available - p.sequence, available - p.sequence)];
      if h.startOk(calls) { EventsStop(h, p.sequence + 1, available, calls); }
      assert Batch(h, p, available).calls[..|calls|] == calls;
    }
  }

  lemma StopsConcat(h: Handler, n: nat, b: Progress, q: Progress)
    requires StopsAtRefusal(h, n, b) && !b.poisoned && b.calls <= q.calls && StopsAtRefusal(h, |b.calls|, q)
    ensures StopsAtRefusal(h, n, q)
  {
    forall i | n < i <= |q.calls| ensures Refused(h, q.calls[..i]) <==> q.poisoned && i == |q.calls| {
      if i <= |b.calls| { assert q.calls[..i] == b.calls[..i]; }
    }
  }

  function Best(from: int, answers: seq<int>): int
    decreases |answers|
  {
    if answers == [] then from else Best(if from < answers[0] then answers[0] else from, answers[1..])
  }

  /** Processing stops at the first refusal and nowhere else; without one it has gone as far as
      the highest answer of the barrier. */
  lemma {:induction false} DriveStops(h: Handler, p: Progress, answers: seq<int>)
    requires !p.poisoned
    ensures var q := Drive(h, p, answers);
            StopsAtRefusal(h, |p.calls|, q) && (!q.poisoned ==> q.sequence == Best(p.sequence, answers))
    decreases |answers|
  {
    if answers == [] {
    } else {
      var b := Batch(h, p, answers[0]);
      BatchStops(h, p, answers[0]);
      if !b.poisoned {
        DriveStops(h, b, answers[1..]);
        StopsConcat(h, |p.calls|, b, Drive(h, b, answers[1..]));
      }
    }
  }

  // ---------------------------------------------------------------- the whole trace

  /** The calls of one completed batch: its size, equal to the queue depth, then that many
      consecutive events, the last of them and only it marked as the end of the batch. */
  function OneBatch(first: int, size: nat): (calls: seq<Call>)
    ensures |calls| == size + 1
  {
    [BatchStart(size, size)] + seq(size, i => Event(first + i, i == size - 1))
  }

  function Batches(first: int, sizes: seq<nat>): seq<Call>
    decreases |sizes|
  {
    if sizes == [] then [] else OneBatch(first, sizes[0]) + Batches(first + sizes[0], sizes[1..])
  }

  function Sum(sizes: seq<nat>): nat {
    if sizes == [] then 0 else sizes[0] + Sum(sizes[1..])
  }

  lemma {:induction false} EventsTrace(h: Handler, first: int, at: int, available: int, calls: seq<Call>)
    requires first <= at <= available + 1
    ensures var q, batch := Events(h, at, available, calls), OneBatch(first, available - first + 1);
            && |q.calls| - |calls| <= available - at + 1
            && q.calls == calls + batch[at - first + 1..at - first + 1 + |q.calls| - |calls|]
            && (if q.poisoned then q.sequence == at + |q.calls| - |calls| - 2 && |calls| < |q.calls|
                else |q.calls| - |calls| == available - at + 1)
    decreases available - at
  {
    if at > available {
    } else {
      var calls' := calls + [Event(at, at == available)];
      var batch := OneBatch(first, available - first + 1);
      assert batch[at - first + 1] == Event(at, at == available);
      if !h.verdict(calls').StopProcessor? { EventsTrace(h, first, at + 1, available, calls'); }
    }
  }

  /** The k first calls of a batch of this size have been made. */
  ghost predicate Stopped(q: Progress, start: int, size: nat, k: nat) {
    && k <= size + 1
    && if q.poisoned then 1 <= k && q.sequence == (if k == 1 then start else start + k - 2)
        else k == 0 && q.sequence == start
  }

  lemma BatchTrace(h: Handler, p: Progress, available: int)
    requires !p.poisoned && p.sequence < available
    ensures var q, size := Batch(h, p, available), available - p.sequence;
            && (!q.poisoned ==> q.sequence == available && q.calls == p.calls + OneBatch(p.sequence + 1, size))
            && (q.poisoned ==> |q.calls| - |p.calls| <= size + 1 && Stopped(q, p.sequence, size, |q.calls| - |p.calls|)
                               && q.calls == p.calls + OneBatch(p.sequence + 1, size)[..|q.calls| - |p.calls|])
  {
    var size := available - p.sequence;
    var calls := p.calls + [BatchStart(size, size)];
    var batch := OneBatch(p.sequence + 1, size);
    if h.startOk(calls) {
      EventsTrace(h, p.sequence + 1, p.sequence + 1, available, calls);
    }
  }

  /** From p to q: completed batches of these sizes one after the other, then, if the processor
      stopped, the first k calls of one more. */
  ghost predicate Traces(p: Progress, q: Progress, sizes: seq<nat>, size: nat, k: nat) {
    var start := p.sequence + Sum(sizes);
    && 0 !in sizes && 0 < size && Stopped(q, start, size, k)
    && q.calls == p.calls + Batches(p.sequence + 1, sizes) + OneBatch(start + 1, size)[..k]
  }

  lemma NoBatch(p: Progress)
    requires !p.poisoned
    ensures Traces(p, p, [], 1, 0)
  {
  }

  lemma FirstBatch(p: Progress, b: Progress, q: Progress, first: nat, sizes: seq<nat>, size: nat, k: nat)
    requires 0 < first && b.sequence == p.sequence + first && b.calls == p.calls + OneBatch(p.sequence + 1, first)
    requires Traces(b, q, sizes, size, k)
    ensures Traces(p, q, [first] + sizes, size, k)
  {
    hide OneBatch;
    var all := [first] + sizes;
    assert all[1..] == sizes;
    assert Batches(p.sequence + 1, all) == OneBatch(p.sequence + 1, first) + Batches(b.sequence + 1, sizes);
  }

  lemma LastBatch(p: Progress, q: Progress, size: nat, k: nat)
    requires 0 < size && Stopped(q, p.sequence, size, k) && q.calls == p.calls + OneBatch(p.sequence + 1, size)[..k]
    ensures Traces(p, q, [], size, k)
  {
    hide OneBatch;
  }

  /** The trace of every drive, whatever the barrier answers and user code decides. */
  lemma {:induction false} DriveTrace(h: Handler, p: Progress, answers: seq<int>)
        returns (sizes: seq<nat>, size: nat, k: nat)
    requires !p.poisoned
    ensures Traces(p, Drive(h, p, answers), sizes, size, k)
    decreases |answers|
  {
    hide OneBatch, Traces, Stopped, Events;
    if answers == [] {
      NoBatch(p);
      sizes, size, k := [], 1, 0;
    } else {
      var b := Batch(h, p, answers[0]);
      if answers[0] <= p.sequence {
        sizes, size, k := DriveTrace(h, b, answers[1..]);
      } else {
        BatchTrace(h, p, answers[0]);
        if b.poisoned {
          sizes, size, k := [], answers[0] - p.sequence, |b.calls| - |p.calls|;
          LastBatch(p, b, size, k);
        } else {
          sizes, size, k := DriveTrace(h, b, answers[1..]);
          FirstBatch(p, b, Drive(h, b, answers[1..]), answers[0] - p.sequence, sizes, size, k);
          sizes := [answers[0] - p.sequence] + sizes;
        }
      }
    }
  }

  // ---------------------------------------------------------------- the two drivers

  datatype Probe = NothingToDo | Processed | Poisoned

  class Processor {
    const handler: Handler
    var sequence: int
    var poisoned: bool
    var calls: seq<Call>

    constructor (handler: Handler)
      ensures this.handler == handler && State() == Progress(-1, false, [])
    {
      this.handler, sequence, poisoned, calls := handler, -1, false, [];
    }

    ghost function State(): Progress
      reads this
    {
      Progress(sequence, poisoned, calls)
    }

    /** `try_run_once` once the flag and the lock are held; the barrier answered `available`. */
    method TryRunOnce(available: int) returns (r: Probe)
      requires !poisoned
      modifies this`sequence, this`poisoned, this`calls
      ensures State() == Batch(handler, old(State()), available)
      ensures r == (if poisoned then Poisoned else if available <= old(sequence) then NothingToDo else Processed)
    {
      var next := sequence + 1;
      if available < next {
        return NothingToDo;
      }
      var span := available - next + 1;
      var depth := available - sequence;
      calls := calls + [BatchStart(span, depth)];
      if !handler.startOk(calls) {
        sequence := next - 1;
        poisoned := true;
        return Poisoned;
      }
      var current := next;
      while current <= available
        invariant next <= current <= available + 1
        invariant sequence == old(sequence) && !poisoned
        invariant Events(handler, next, available, old(calls) + [BatchStart(span, depth)]) ==
              Events(handler, current, available, calls)
      {
        calls := calls + [Event(current, current == available)];
        var verdict := handler.verdict(calls);
        if verdict.StopProcessor? {
          sequence := current - 1;
          poisoned := true;
          return Poisoned;
        }
        current := current + 1;
      }
      sequence := available;
      return Processed;
    }

    /** `run_sequential_batch_loop_impl` on the barrier's successive answers. */
    method RunLoop(answers: seq<int>)
      requires !poisoned
      modifies this`sequence, this`poisoned, this`calls
      ensures State() == Drive(handler, old(State()), answers)
    {
      hide Drive;
      var next := sequence + 1;
      var i := 0;
      assert answers[0..] == answers;
      while i < |answers|
        invariant 0 <= i <= |answers|
        invariant !poisoned && next == sequence + 1
        invariant Drive(handler, old(State()), answers) == Drive(handler, State(), answers[i..])
      {
        var available := answers[i];
        DriveStep(handler, State(), answers, i);
        i := i + 1;
        if available < next {
          continue;
        }
        ghost var before := State();
        ghost var begun := calls + [BatchStart(available - sequence, available - sequence)];
        calls := calls + [BatchStart(available - next + 1, available - sequence)];
        if !handler.startOk(calls) {
          poisoned := true;
          return;
        }
        while next <= available
          invariant sequence + 1 <= next <= available + 1
          invariant sequence == before.sequence && !poisoned
          invariant Events(handler, before.sequence + 1, available, begun) == Events(handler, next, available, calls)
        {
          calls := calls + [Event(next, next == available)];
          var verdict := handler.verdict(calls);
          if verdict.StopProcessor? {
            sequence := next - 1;
            poisoned := true;
            return;
          }
          next := next + 1;
        }
        sequence := available;
      }
      assert answers[i..] == [];
      DriveNothing(handler, State());
    }

    /** Probing again and again, as a polling integration does, until a probe is poisoned. */
    method ProbeRepeatedly(answers: seq<int>)
      requires !poisoned
      modifies this`sequence, this`poisoned, this`calls
      ensures State() == Drive(handler, old(State()), answers)
    {
      var i := 0;
      while i < |answers|
        invariant 0 <= i <= |answers|
        invariant !poisoned
        invariant Drive(handler, old(State()), answers) == Drive(handler, State(), answers[i..])
      {
        assert answers[i..][1..] == answers[i + 1..];
        var r := TryRunOnce(answers[i]);
        i := i + 1;
        if r == Poisoned {
          return;
        }
      }
    }
  }
}
