/** What `ProcessingSequenceBarrier` (src/disruptor/sequence_barrier.rs) may answer while
    producers and consumers keep moving: the contiguity scan reads one flag after another, so its
    reads fall at different moments of the run. */
module Barrier {
  import opened Disruptor
  import opened Guarantees
  import Availability
  import Bits
  import MultiProducer
  import Pipeline
  import WorkerPool

  /** What a run never takes back. */
  ghost predicate Grown<E>(st: Pipeline.State<E>, st': Pipeline.State<E>) {
    && |st.stages| > 0 && |st'.stages| > 0 && st'.size == st.size
    && st.published <= st'.published && st.claimed <= st'.claimed
    && Pipeline.Gate(st) <= Pipeline.Gate(st')
  }

  lemma StepGrows<E>(st: Pipeline.State<E>, st': Pipeline.State<E>, step: Pipeline.Step<E>)
    requires Pipeline.Inv(st) && Pipeline.Next(st, st', step)
    ensures Grown(st, st')
  {
  }

  lemma {:induction false} RunGrows<E>(r: Run<E>, t: nat, t': nat)
    requires IsRun(r) && t <= t' < |r.states|
    ensures Grown(Abs(r.states[t]), Abs(r.states[t']))
    ensures r.states[t].producers.Multi? <==> r.states[t'].producers.Multi?
    decreases t'
  {
    hide Disruptor.Next;
    hide Abs;
    if t < t' {
      RunGrows(r, t, t' - 1);
      RunStep(r, t' - 1);
      KindStays(r, t' - 1);
      StepGrows(Abs(r.states[t' - 1]), Abs(r.states[t']), StepOf(r.states[t' - 1], r.states[t'], r.acts[t' - 1]));
    } else {
      RunInv(r, t);
    }
  }

  lemma KindStays<E>(r: Run<E>, t: nat)
    requires IsRun(r) && t < |r.acts|
    ensures r.states[t].producers.Multi? <==> r.states[t + 1].producers.Multi?
  {
    hide AsView;
    assert StepAt(r, t);
  }

  // ---------------------------------------------------------------- the scan of a moving ring

  /** The flag array at every moment of the run. */
  ghost predicate FlagHistory<E>(r: Run<E>, h: seq<seq<int>>) {
    && |h| == |r.states|
    && forall t :: 0 <= t < |h| ==>
        h[t] != [] && r.states[t].producers.Multi? && h[t] == r.states[t].producers.many.flags
  }

  /** A sequence that is pending for the whole scan is seen available only if it is published
      when the scan ends, and is seen missing only if it was unpublished when it began. */
  lemma FlagReadAt<E>(r: Run<E>, h: seq<seq<int>>, begun: nat, at: nat, ended: nat, s: int)
    requires IsRun(r) && FlagHistory(r, h) && begun <= at <= ended < |r.states|
    requires 0 <= s <= Claimed(r.states[begun].producers)
    requires |r.states[ended].stages| > 0 && Gate(r.states[ended]) < s
    ensures MultiProducer.IsAvailable(h[at], s, |h[at]|) ==> s in Published(r.states[ended].producers)
    ensures !MultiProducer.IsAvailable(h[at], s, |h[at]|) ==> s !in Published(r.states[begun].producers)
  {
    hide AsView;
    RunGrows(r, begun, at);
    RunGrows(r, at, ended);
    FlagsTellPublication(r, at, s);
  }

  lemma {:induction false} ScanAnswers(available: set<int>, lo: int, hi: int, answer: int)
    requires lo - 1 <= answer <= hi
    ensures (forall s :: lo <= s <= answer ==> s in available) <==> answer <= Scan(available, lo, hi)
    decreases hi - lo
  {
    if lo > hi || lo !in available {
    } else {
      ScanAnswers(available, lo + 1, hi, if answer < lo then lo else answer);
    }
  }

  lemma {:induction false} ScanStops(available: set<int>, lo: int, hi: int, stop: int)
    requires lo <= stop <= hi && stop !in available
    ensures Scan(available, lo, hi) < stop
    decreases hi - lo
  {
    if lo == stop {
    } else {
      ScanStops(available, lo + 1, hi, stop);
    }
  }

  lemma {:induction false} ScanAtMost(available: set<int>, lo: int, hi: int)
    ensures Scan(available, lo, hi) <= hi
    decreases hi - lo
  {
    if lo > hi {
    } else {
      ScanAtMost(available, lo + 1, hi);
    }
  }

  /** A barrier scans lo to hi between two moments of a run: hi was claimed when it began, and the
      scanning stage k has not completed lo when it ends. */
  ghost predicate Scanning<E>(r: Run<E>, k: nat, lo: int, hi: int, begun: nat, ended: nat) {
    && IsRun(r) && 0 <= lo <= hi && begun <= ended < |r.states| && hi <= Claimed(r.states[begun].producers)
    && k < |r.states[ended].stages| && lo !in AsView(r.states[ended].stages[k]).handled
  }

  /** What a stage has not completed lies above the gate. */
  lemma PendingAboveGate<E>(r: Run<E>, t: nat, k: nat, s: int)
    requires IsRun(r) && t < |r.states| && k < |r.states[t].stages| && 0 <= s
    requires s !in AsView(r.states[t].stages[k]).handled
    ensures Gate(r.states[t]) < s
  {
    hide AsView;
    RunInv(r, t);
    Pipeline.UncompletedHoldsBack(Abs(r.states[t]), k, s);
  }

  /** These flags show s available only if it is in `after`, and missing only if it is not in
      `before`. */
  ghost predicate Tells(flags: seq<int>, s: int, before: set<int>, after: set<int>) {
    flags != [] && if MultiProducer.IsAvailable(flags, s, |flags|) then s in after else s !in before
  }

  ghost predicate TellThroughout(h: seq<seq<int>>, begun: nat, ended: nat, lo: int, hi: int,
                                 before: set<int>, after: set<int>)
  {
    ended < |h| && forall t, s :: begun <= t <= ended && lo <= s <= hi ==> Tells(h[t], s, before, after)
  }

  lemma FlagsTell<E>(r: Run<E>, h: seq<seq<int>>, k: nat, lo: int, hi: int, begun: nat, ended: nat)
    requires Scanning(r, k, lo, hi, begun, ended) && FlagHistory(r, h)
    ensures TellThroughout(h, begun, ended, lo, hi, Published(r.states[begun].producers),
          Published(r.states[ended].producers))
  {
    hide AsView, IsRun;
    PendingAboveGate(r, ended, k, lo);
    forall t, s | begun <= t <= ended && lo <= s <= hi
      ensures Tells(h[t], s, Published(r.states[begun].producers), Published(r.states[ended].producers))
    {
      FlagReadAt(r, h, begun, t, ended, s);
    }
  }

  ghost predicate Within(times: seq<nat>, begun: nat, ended: nat) {
    forall i :: 0 <= i < |times| ==> begun <= times[i] <= ended
  }

  /** One flag at a time; the flag of lo + i is loaded at moment times[i]. */
  method ScanFlags(h: seq<seq<int>>, times: seq<nat>, lo: int, hi: int,
                   ghost begun: nat, ghost ended: nat, ghost before: set<int>, ghost after: set<int>)
      returns (answer: int)
    requires TellThroughout(h, begun, ended, lo, hi, before, after) && Within(times, begun, ended)
    requires lo <= hi && hi - lo < |times|
    ensures lo - 1 <= answer <= hi && Scan(before, lo, hi) <= answer <= Scan(after, lo, hi)
  {
    answer := lo - 1;
    while answer < hi
      invariant lo - 1 <= answer <= hi
      invariant forall s :: lo <= s <= answer ==> s in after
    {
      var flags := h[times[answer + 1 - lo]];
      assert Tells(flags, answer + 1, before, after);
      if !MultiProducer.IsAvailable(flags, answer + 1, |flags|) {
        ScanStops(before, lo, hi, answer + 1);
        break;
      }
      answer := answer + 1;
    }
    ScanAtMost(before, lo, hi);
    ScanAnswers(after, lo, hi, answer);
  }

  /** The words of the bitmap at every moment of the run. */
  ghost predicate WordHistory<E>(r: Run<E>, words: seq<seq<nat>>, n: nat) {
    && n > 0 && |words| == |r.states|
    && forall t :: 0 <= t < |words| ==> WordsAt(r.states[t], words[t], n)
  }

  ghost predicate WordsAt<E>(sys: System<E>, words: seq<nat>, n: nat) {
    |words| == n && sys.producers.Multi? && sys.producers.many.flags == Availability.Flags(words)
  }

  /** One word at a time, as `get_highest_published_sequence_bitmap` loads them: the i-th word it
      looks at is loaded at moment times[i], and producers flip bits in between. */
  method ScanWords(words: seq<seq<nat>>, n: nat, times: seq<nat>, lo: int, hi: int,
                   ghost begun: nat, ghost ended: nat, ghost before: set<int>, ghost after: set<int>)
      returns (answer: int)
    requires n > 0 && ended < |words| && forall t :: begun <= t <= ended ==> |words[t]| == n
    requires forall t, s :: begun <= t <= ended && lo <= s <= hi ==>
          Tells(Availability.Flags(words[t]), s, before, after)
    requires Within(times, begun, ended) && lo <= hi && hi - lo < |times|
    ensures lo - 1 <= answer <= hi && Scan(before, lo, hi) <= answer <= Scan(after, lo, hi)
  {
    hide Availability.Flags, Availability.Mismatches, Bits.TrailingZeros, Scan;
    var size, sequence, loads := 64 * n, lo, 0;
    while sequence <= hi
      invariant lo + loads <= sequence <= hi + 1
      invariant forall s :: lo <= s < sequence ==> s in after
    {
      var slot := sequence % size;
      Availability.WordFits(slot, size);
      var loaded := words[times[loads]];
      var bits := Availability.Stretch(sequence, hi, size);
      var mismatches := Availability.Mismatches(loaded[slot / 64], MultiProducer.Parity(sequence, size), slot % 64,
          bits);
      if mismatches != 0 {
        Availability.FirstMismatch(loaded, sequence, bits, mismatches);
        answer := sequence + (Bits.TrailingZeros(mismatches) - slot % 64) - 1;
        StretchTells(loaded, sequence, answer + 1, before, after);
        assert Tells(Availability.Flags(loaded), answer + 1, before, after);
        ScanStops(before, lo, hi, answer + 1);
        ScanAnswers(after, lo, hi, answer);
        return;
      }
      Availability.NoMismatch(loaded, sequence, bits, mismatches);
      StretchTells(loaded, sequence, sequence + bits, before, after);
      sequence, loads := sequence + bits, loads + 1;
    }
    answer := hi;
    ScanAtMost(before, lo, hi);
    ScanAnswers(after, lo, hi, hi);
  }

  /** What one loaded word shows available is published when the scan ends. */
  lemma StretchTells(words: seq<nat>, first: int, end: int, before: set<int>, after: set<int>)
    requires words != [] && forall s :: first <= s < end ==> Tells(Availability.Flags(words), s, before, after)
    requires forall s :: first <= s < end ==> MultiProducer.IsAvailable(Availability.Flags(words), s, 64 * |words|)
    ensures forall s :: first <= s < end ==> s in after
  {
    forall s | first <= s < end ensures s in after {
      assert Tells(Availability.Flags(words), s, before, after);
    }
  }

  /** What a scan that ends with this answer has told its stage. */
  ghost predicate Resolved<E>(r: Run<E>, lo: int, hi: int, begun: nat, ended: nat, answer: int)
    requires begun < |r.states| && ended < |r.states|
  {
    && Scan(Published(r.states[begun].producers), lo, hi) <= answer <=
        Scan(Published(r.states[ended].producers), lo, hi)
    && forall s :: lo <= s <= answer ==> PublishedFrom(r, ended, s) && ReleasedAt(r, ended, 0, s)
  }

  /** `resolve_highest_published` on a ring of fewer than 64 slots, loading a flag at a time. However
      producers publish meanwhile, the answer lies between what an instantaneous scan of the
      published sequences would have given at the start and at the end; so everything from `lo` up
      to it is published from then on, and is an answer the first stage may be given. */
  method ResolveHighestPublished<E>(ghost r: Run<E>, h: seq<seq<int>>, times: seq<nat>, ghost k: nat, lo: int, hi: int,
                                    ghost begun: nat, ghost ended: nat)
      returns (answer: int)
    requires Scanning(r, k, lo, hi, begun, ended) && FlagHistory(r, h)
    requires Within(times, begun, ended) && hi - lo < |times|
    ensures Resolved(r, lo, hi, begun, ended, answer)
  {
    hide Published, Scan, IsRun, Resolved;
    FlagsTell(r, h, k, lo, hi, begun, ended);
    ghost var before, after := Published(r.states[begun].producers), Published(r.states[ended].producers);
    answer := ScanFlags(h, times, lo, hi, begun, ended, before, after);
    AnswerHolds(r, k, lo, hi, begun, ended, answer, h);
  }

  /** The same with the bitmap, loading a word at a time. */
  method ResolveByWords<E>(ghost r: Run<E>, words: seq<seq<nat>>, n: nat, times: seq<nat>, ghost k: nat,
                           lo: int, hi: int, ghost begun: nat, ghost ended: nat)
      returns (answer: int)
    requires Scanning(r, k, lo, hi, begun, ended) && WordHistory(r, words, n)
    requires Within(times, begun, ended) && hi - lo < |times|
    ensures Resolved(r, lo, hi, begun, ended, answer)
  {
    hide Published, Scan, IsRun, Resolved, Availability.Flags;
    ghost var before, after := Published(r.states[begun].producers), Published(r.states[ended].producers);
    ghost var h := WordsTell(r, words, n, k, lo, hi, begun, ended);
    answer := ScanWords(words, n, times, lo, hi, begun, ended, before, after);
    AnswerHolds(r, k, lo, hi, begun, ended, answer, h);
  }

  lemma WordsTell<E>(r: Run<E>, words: seq<seq<nat>>, n: nat, k: nat, lo: int, hi: int, begun: nat, ended: nat)
      returns (h: seq<seq<int>>)
    requires Scanning(r, k, lo, hi, begun, ended) && WordHistory(r, words, n)
    ensures FlagHistory(r, h)
    ensures forall t :: begun <= t <= ended ==> |words[t]| == n
    ensures forall t, s :: begun <= t <= ended && lo <= s <= hi ==>
              Tells(Availability.Flags(words[t]), s, Published(r.states[begun].producers),
                  Published(r.states[ended].producers))
  {
    hide IsRun, Published;
    h := seq(|words|, t requires 0 <= t < |words| => Availability.Flags(words[t]));
    forall t | 0 <= t < |h| ensures h[t] != [] && WordsAt(r.states[t], words[t], n) {
      assert WordsAt(r.states[t], words[t], n);
    }
    FlagsTell(r, h, k, lo, hi, begun, ended);
    forall t, s | begun <= t <= ended && lo <= s <= hi
      ensures Tells(Availability.Flags(words[t]), s, Published(r.states[begun].producers),
            Published(r.states[ended].producers))
    {
      assert Tells(h[t], s, Published(r.states[begun].producers), Published(r.states[ended].producers));
    }
  }

  lemma AnswerHolds<E>(r: Run<E>, k: nat, lo: int, hi: int, begun: nat, ended: nat, answer: int, h: seq<seq<int>>)
    requires Scanning(r, k, lo, hi, begun, ended) && FlagHistory(r, h) && lo - 1 <= answer <= hi
    requires Scan(Published(r.states[begun].producers), lo, hi) <= answer <=
          Scan(Published(r.states[ended].producers), lo, hi)
    ensures Resolved(r, lo, hi, begun, ended, answer)
  {
    hide IsRun, Published, AsView;
    ScanAnswers(Published(r.states[ended].producers), lo, hi, answer);
    PendingAboveGate(r, ended, k, lo);
    forall s | lo <= s <= answer ensures PublishedFrom(r, ended, s) && ReleasedAt(r, ended, 0, s) {
      forall t | ended <= t < |r.states| ensures s in Published(r.states[t].producers) {
        StaysPublished(r, ended, t, s);
      }
      PublishedIsReleased(r, begun, ended, lo, hi, s);
    }
  }

  /** The answer is one the machine of the first stage allows. */
  lemma PublishedIsReleased<E>(r: Run<E>, begun: nat, ended: nat, lo: int, hi: int, s: int)
    requires IsRun(r) && begun <= ended < |r.states| && r.states[ended].producers.Multi?
    requires 0 <= lo <= s <= hi <= Claimed(r.states[begun].producers)
    requires |r.states[ended].stages| > 0 && Gate(r.states[ended]) < lo && s in Published(r.states[ended].producers)
    ensures ReleasedAt(r, ended, 0, s)
  {
    hide AsView;
    RunInv(r, ended);
    RunGrows(r, begun, ended);
    FlagsTellPublication(r, ended, s);
  }

  ghost predicate PublishedFrom<E>(r: Run<E>, start: nat, s: int) {
    forall t :: start <= t < |r.states| ==> s in Published(r.states[t].producers)
  }

  lemma StaysPublished<E>(r: Run<E>, t: nat, t': nat, s: int)
    requires IsRun(r) && t <= t' < |r.states| && s in Published(r.states[t].producers)
    ensures s in Published(r.states[t'].producers)
  {
    RunGrows(r, t, t');
  }

  /** In a state at rest the flag scan and the scan of published sequences agree. */
  lemma {:induction false} FlagScanIsExact<E>(r: Run<E>, t: nat, lo: int, hi: int)
    requires IsRun(r) && t < |r.states| && r.states[t].producers.Multi? && |r.states[t].stages| > 0
    requires 0 <= lo && Gate(r.states[t]) < lo && hi <= r.states[t].producers.many.cursor
    ensures var many := r.states[t].producers.many;
            |many.flags| > 0 && Availability.Highest(many.flags, lo, hi) == Scan(many.published, lo, hi)
    decreases hi - lo
  {
    hide AsView;
    RunInv(r, t);
    if lo > hi {
    } else {
      FlagsTellPublication(r, t, lo);
      FlagScanIsExact(r, t, lo + 1, hi);
    }
  }

  // ---------------------------------------------------------------- only the minimum means anything

  /** A pool worker may advertise a sequence nobody has published, let alone handled: one worker
      claims 0 and waits for it, the other advertises 0 on its way to claiming 1. Waiting on any
      single worker would be wrong; the minimum still holds at -1. */
  lemma WorkerMayAdvertiseUnpublished() returns (r: WorkerPool.Run)
    ensures WorkerPool.IsRun(r, 2)
    ensures var p := r.states[|r.states| - 1];
            && r.ready[|r.ready| - 1] == {} && p.handled == {}
            && |p.workers| == 2 && p.workers[1].sequence == 0 && WorkerPool.Watermark(p) == -1
  {
    hide WorkerPool.IsRun;
    var idle := WorkerPool.Worker(-1, -1, -1, 0, WorkerPool.Top, 0, 0);
    var owner := idle.(phase := WorkerPool.Claimed(0), claims := 1);
    var ahead := idle.(sequence := 0, lastAdvertised := 0, phase := WorkerPool.Advertised(0));
    r := WorkerPool.Started(2);
    assert WorkerPool.Init(2).workers == [idle, idle];
    r := WorkerPool.Extend(r, 2, WorkerPool.Pool(-1, [idle.(phase := WorkerPool.Loaded(-1)), idle], {}), 0,
        WorkerPool.Load);
    r := WorkerPool.Extend(r, 2, WorkerPool.Pool(-1, [idle.(phase := WorkerPool.Advertised(-1)), idle], {}), 0,
        WorkerPool.Advertise);
    r := WorkerPool.Extend(r, 2, WorkerPool.Pool(0, [owner, idle], {}), 0, WorkerPool.CompareExchange);
    r := WorkerPool.Extend(r, 2, WorkerPool.Pool(0, [owner, idle.(phase := WorkerPool.Loaded(0))], {}), 1,
        WorkerPool.Load);
    r := WorkerPool.Extend(r, 2, WorkerPool.Pool(0, [owner, ahead], {}), 1, WorkerPool.Advertise);
    WorkerPool.WatermarkIsMinimum(WorkerPool.Pool(0, [owner, ahead], {}));
  }
}
