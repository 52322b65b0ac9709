/** The single-producer side (src/disruptor/sequencer.rs, src/disruptor/producer.rs): claim, run
    the update closure, then publish, or poison if the closure panics. One claim is in progress
    at a time: a unique handle, or the DSL claim lock, drives the claim methods. */
module SingleProducer {
  import Sequences

  datatype Phase =
    | Idle
    | NotClosed(n: int)        // size and closed checked, poison not yet
    | Claiming(n: int)         // not poisoned either; looking for capacity
    | Filling(lo: int, hi: int)  // claim granted, closure running
    | Filled(lo: int, hi: int)   // closure returned, not yet published

  /** `finished` is history: the sequences whose update closure returned. */
  datatype Producer = Producer(
    nextValue: int,
    cachedValue: int,
    cursor: int,
    poisoned: bool,
    closed: bool,
    finished: set<int>,
    phase: Phase)

  datatype Action =
    | CheckClosed(n: int)
    | CheckPoisoned
    | Grant(scan: int)                // capacity found; `scan` is the gating scan, if one is made
    | GiveUp(scan: int, cache: bool)  // no capacity; a try-claim also refreshes the cache
    | ClosureReturns
    | ClosurePanics
    | Publish
    | Poison                          // by a failing consumer
    | SetClosed(closed: bool)         // close and reopen

  const INIT := Producer(-1, -1, Sequences.INITIAL_CURSOR_VALUE, false, false, {}, Idle)

  function Visible(p: Producer): set<int> {
    Sequences.Upto(p.cursor + 1)
  }

  /** The cached gating sequence does not settle the capacity question. */
  predicate MustScan(p: Producer, n: int, size: nat) {
    p.nextValue + n - size > p.cachedValue || p.cachedValue > p.nextValue
  }

  ghost predicate Next(p: Producer, p': Producer, a: Action, size: nat) {
    match (a, p.phase)
    case (CheckClosed(n), Idle) => 1 <= n <= size && !p.closed && p' == p.(phase := NotClosed(n))
    case (CheckPoisoned, NotClosed(n)) => p' == p.(phase := if p.poisoned then Idle else Claiming(n))
    case (Grant(scan), Claiming(n)) =>
      var next := p.nextValue + n;
      if MustScan(p, n, size) then
        var min := Sequences.Least(scan, p.nextValue);
        && next - size <= min
        && p' == p.(cursor := p.nextValue, cachedValue := min, nextValue := next,
                    phase := Filling(p.nextValue + 1, next))
      else
        p' == p.(nextValue := next, phase := Filling(p.nextValue + 1, next))
    case (GiveUp(scan, cache), Claiming(n)) =>
      var min := Sequences.Least(scan, p.nextValue);
      && MustScan(p, n, size) && p.nextValue + n - size > min
      && p' == p.(cursor := p.nextValue,
                  cachedValue := if cache then min else p.cachedValue, phase := Idle)
    case (ClosureReturns, Filling(lo, hi)) =>
      p' == p.(phase := Filled(lo, hi), finished := p.finished + (Sequences.Upto(hi + 1) - Sequences.Upto(lo)))
    case (ClosurePanics, Filling(lo, hi)) =>
      p' == p.(phase := Idle, poisoned := true)
    case (Publish, Filled(lo, hi)) =>
      p' == p.(cursor := hi, phase := Idle)
    case (Poison, _) => p' == p.(poisoned := true)
    case (SetClosed(closed), _) => p' == p.(closed := closed)
    case _ => false
  }

  ghost predicate Inv(p: Producer) {
    && -1 <= p.cursor <= p.nextValue
    && p.finished == (if p.phase.Filled? then Sequences.Upto(p.phase.hi + 1) else Visible(p))
    && match p.phase
       case Idle => !p.poisoned ==> p.cursor == p.nextValue
       case NotClosed(n) => n >= 1 && (!p.poisoned ==> p.cursor == p.nextValue)
       case Claiming(n) => n >= 1 && p.cursor == p.nextValue
       case Filling(lo, hi) => p.cursor + 1 == lo <= hi == p.nextValue
       case Filled(lo, hi) => p.cursor + 1 == lo <= hi == p.nextValue
  }

  lemma StepKeeps(p: Producer, p': Producer, a: Action, size: nat)
    requires Inv(p) && Next(p, p', a, size)
    ensures Inv(p') && p.finished <= p'.finished
    ensures p.nextValue <= p'.nextValue && p.cursor <= p'.cursor
    ensures !a.Publish? ==> p'.cursor == p.cursor
  {
  }

  // ---------------------------------------------------------------- what a claim gets

  /** A claim that fits below the scanned minimum is granted, and cannot be refused. */
  lemma FittingClaimIsGranted(p: Producer, n: int, scan: int, size: nat) returns (p': Producer)
    requires p.phase == Claiming(n) && p.nextValue + n - size <= Sequences.Least(scan, p.nextValue)
    ensures Next(p, p', Grant(scan), size) && p'.phase == Filling(p.nextValue + 1, p.nextValue + n)
    ensures forall q, cache :: !Next(p, q, GiveUp(scan, cache), size)
  {
    var granted := p.(nextValue := p.nextValue + n, phase := Filling(p.nextValue + 1, p.nextValue + n));
    p' := if MustScan(p, n, size)
        then granted.(cursor := p.nextValue, cachedValue := Sequences.Least(scan, p.nextValue))
          else granted;
  }

  /** A scan decides a claim one way or the other, never both. */
  lemma ScanDecides(p: Producer, n: int, scan: int, size: nat)
    requires p.phase == Claiming(n)
    ensures (exists p' :: Next(p, p', Grant(scan), size)) <==>
          !(exists p', cache :: Next(p, p', GiveUp(scan, cache), size))
  {
    var min := Sequences.Least(scan, p.nextValue);
    if p.nextValue + n - size <= min {
      var p' := FittingClaimIsGranted(p, n, scan, size);
    } else if MustScan(p, n, size) {
      assert Next(p, p.(cursor := p.nextValue, cachedValue := min, phase := Idle), GiveUp(scan, true), size);
    } else {
      var granted := p.(nextValue := p.nextValue + n, phase := Filling(p.nextValue + 1, p.nextValue + n));
      assert Next(p, granted, Grant(scan), size);
    }
  }

  /** From idle to a granted claim, and from there to its publication. */
  lemma LoneClaim(p: Producer, n: int, scan: int, size: nat) returns (p1: Producer, p2: Producer, p3: Producer)
    requires p.phase == Idle && !p.closed && !p.poisoned && 1 <= n <= size
    requires p.nextValue + n - size <= Sequences.Least(scan, p.nextValue)
    ensures Next(p, p1, CheckClosed(n), size) && Next(p1, p2, CheckPoisoned, size) && Next(p2, p3, Grant(scan), size)
    ensures p3.phase == Filling(p.nextValue + 1, p.nextValue + n) && p3.nextValue == p.nextValue + n
  {
    p1 := p.(phase := NotClosed(n));
    p2 := p.(phase := Claiming(n));
    p3 := FittingClaimIsGranted(p2, n, scan, size);
  }

  lemma LonePublish(p: Producer, size: nat) returns (p1: Producer, p2: Producer)
    requires p.phase.Filling?
    ensures Next(p, p1, ClosureReturns, size) && Next(p1, p2, Publish, size)
    ensures p2.phase == Idle && p2.cursor == p.phase.hi && p2.nextValue == p.nextValue && p2.poisoned == p.poisoned
  {
    var lo, hi := p.phase.lo, p.phase.hi;
    p1 := p.(phase := Filled(lo, hi), finished := p.finished + (Sequences.Upto(hi + 1) - Sequences.Upto(lo)));
    p2 := p1.(cursor := hi, phase := Idle);
  }

  /** Not past the poison check. */
  predicate Outside(p: Producer) {
    p.phase.Idle? || p.phase.NotClosed?
  }

  /** A panic poisons, and poison lets nobody in who is still outside. */
  lemma PoisonBars(p: Producer, p': Producer, a: Action, size: nat)
    requires Next(p, p', a, size)
    ensures a.ClosurePanics? || a.Poison? || p.poisoned ==> p'.poisoned
    ensures a.ClosurePanics? ==> Outside(p')
    ensures p.poisoned && Outside(p) ==> Outside(p') && p'.nextValue == p.nextValue
  {
  }

  /** A closed side admits no new claim until it is reopened. */
  lemma ClosedBars(p: Producer, p': Producer, a: Action, size: nat)
    requires Next(p, p', a, size)
    ensures a == SetClosed(true) || (p.closed && a != SetClosed(false)) ==> p'.closed
    ensures p.closed && p.phase.Idle? ==> p'.phase.Idle? && p'.nextValue == p.nextValue
  {
  }

  /** The cursor store a claim, granted or refused, makes before its gating scan exposes exactly the
      claims that were never published: it is invisible if and only if there are none. */
  lemma FenceExposesUnpublishedClaims(p: Producer, p': Producer, n: int, a: Action, size: nat)
    requires -1 <= p.cursor <= p.nextValue && p.phase == Claiming(n)
    requires (a.Grant? || a.GiveUp?) && MustScan(p, n, size) && Next(p, p', a, size)
    ensures Visible(p') == Visible(p) + (Sequences.Upto(p.nextValue + 1) - Sequences.Upto(p.cursor + 1))
    ensures Visible(p') == Visible(p) <==> p.cursor == p.nextValue
  {
  }

  /** A caller of the raw sequencer that claims 0 and, without publishing it, asks for the whole
      ring of four slots makes 0 visible although it was never written. */
  lemma SecondClaimExposesUnwritten() returns (claimed: Producer, again: Producer, exposed: Producer)
    ensures Next(INIT.(phase := Claiming(1)), claimed, Grant(-1), 4) && claimed.phase == Filling(0, 0)
    ensures again == claimed.(phase := Claiming(4)) && Next(again, exposed, GiveUp(-1, false), 4)
    ensures 0 in Visible(exposed) && 0 !in exposed.finished && 0 !in Visible(again)
  {
    claimed := Producer(0, -1, -1, false, false, {}, Filling(0, 0));
    again := claimed.(phase := Claiming(4));
    exposed := again.(cursor := 0, phase := Idle);
  }
}

/** The multi-producer side: producers race for claims with CAS on the cursor, fill their range,
    and publish it by flipping per-slot availability flags in any order. */
module MultiProducer {
  import Sequences
  import RingBuffer

  datatype Phase =
    | Idle
    | NotClosed(n: int)               // size and closed checked, poison not yet
    | NotPoisoned(n: int)             // cursor not yet read
    | Loaded(current: int, n: int)    // cursor read, capacity not yet checked
    | Checked(current: int, n: int)   // capacity checked, CAS next
    | Filling(lo: int, hi: int)
    | Publishing(lo: int, hi: int)    // closure returned; lo..hi still to be flagged

  /** The cursor is the highest claimed sequence. `published` and `finished` are history. */
  datatype Producers = Producers(
    cursor: int,
    cachedGating: int,
    flags: seq<int>,
    poisoned: bool,
    closed: bool,
    published: set<int>,
    finished: set<int>,
    handles: seq<Phase>)

  datatype Action =
    | CheckClosed(n: int)
    | CheckPoisoned
    | Load
    | CheckCapacity(scanned: bool, scan: int)  // by the cached gating sequence, or by a scan that replaces it
    | CompareExchange
    | GiveUp(cache: bool, scan: int)           // no capacity; a try-claim also stores its scan
    | ClosureReturns
    | ClosurePanics
    | PublishOne
    | Poison                    // by a failing consumer
    | SetClosed(closed: bool)   // close and reopen

  /** Parity of the ring round of a sequence: `(sequence >> index_shift) & 1`. */
  function Parity(s: int, size: nat): int
    requires size > 0
  {
    (s / size) % 2
  }

  /** Rings of 64 slots and more keep one bit per slot, all ones at first, flipped by each
      publication; smaller rings store the parity, -1 at first. */
  function Init(size: nat, handles: nat): Producers {
    Producers(Sequences.INITIAL_CURSOR_VALUE, -1,
              seq(size, _ => if size < 64 then -1 else 1), false, false, {}, {}, seq(handles, _ => Idle))
  }

  function Flagged(flag: int, s: int, size: nat): int
    requires size > 0
  {
    if size < 64 then Parity(s, size) else 1 - flag
  }

  /** `is_available_internal`. */
  predicate IsAvailable(flags: seq<int>, s: int, size: nat)
    requires |flags| == size > 0
  {
    flags[s % size] == Parity(s, size)
  }

  ghost predicate Next(p: Producers, p': Producers, i: nat, a: Action, size: nat)
    requires |p.flags| == size > 0
  {
    && i < |p.handles| == |p'.handles|
    && p'.handles == p.handles[i := p'.handles[i]]
    && match (a, p.handles[i])
       case (CheckClosed(n), Idle) =>
         1 <= n <= size && !p.closed && p' == p.(handles := p.handles[i := NotClosed(n)])
       case (CheckPoisoned, NotClosed(n)) =>
         p' == p.(handles := p.handles[i := if p.poisoned then Idle else NotPoisoned(n)])
       case (Load, NotPoisoned(n)) => p' == p.(handles := p.handles[i := Loaded(p.cursor, n)])
       case (CheckCapacity(scanned, scan), Loaded(current, n)) =>
         var gating := if scanned then Sequences.Least(scan, current) else p.cachedGating;
         && current + n - size <= gating <= current
         && p' == p.(cachedGating := gating, handles := p.handles[i := Checked(current, n)])
       case (CompareExchange, Checked(current, n)) =>
         if p.cursor == current then
           p' == p.(cursor := current + n, handles := p.handles[i := Filling(current + 1, current + n)])
         else
           p' == p.(handles := p.handles[i := Idle])
       case (GiveUp(cache, scan), Loaded(current, n)) =>
         && current + n - size > Sequences.Least(scan, current)
         && p' == p.(cachedGating := if cache then Sequences.Least(scan, current) else p.cachedGating,
                     handles := p.handles[i := Idle])
       case (ClosureReturns, Filling(lo, hi)) =>
         p' == p.(finished := p.finished + (Sequences.Upto(hi + 1) - Sequences.Upto(lo)),
                  handles := p.handles[i := Publishing(lo, hi)])
       case (ClosurePanics, Filling(lo, hi)) =>
         p' == p.(poisoned := true, handles := p.handles[i := Idle])
       case (PublishOne, Publishing(lo, hi)) =>
         p' == p.(flags := p.flags[lo % size := Flagged(p.flags[lo % size], lo, size)],
                  published := p.published + {lo},
                  handles := p.handles[i := if lo == hi then Idle else Publishing(lo + 1, hi)])
       case (Poison, _) => p' == p.(poisoned := true)
       case (SetClosed(closed), _) => p' == p.(closed := closed)
       case _ => false
  }

  predicate Busy(h: Phase) {
    h.Filling? || h.Publishing?
  }

  ghost predicate HandleOk(h: Phase, p: Producers) {
    match h
    case Idle => true
    case NotClosed(n) => n >= 1
    case NotPoisoned(n) => n >= 1
    case Loaded(current, n) => -1 <= current <= p.cursor && n >= 1
    case Checked(current, n) => -1 <= current <= p.cursor && n >= 1
    case Filling(lo, hi) =>
      0 <= lo <= hi <= p.cursor && forall s :: lo <= s <= hi ==> s !in p.published && s !in p.finished
    case Publishing(lo, hi) =>
      0 <= lo <= hi <= p.cursor && forall s :: lo <= s <= hi ==> s !in p.published && s in p.finished
  }

  ghost predicate Disjoint(p: Producers) {
    forall i, j :: 0 <= i < |p.handles| && 0 <= j < |p.handles| && i != j
                   && Busy(p.handles[i]) && Busy(p.handles[j]) ==>
      p.handles[i].hi < p.handles[j].lo || p.handles[j].hi < p.handles[i].lo
  }

  ghost predicate Inv(p: Producers) {
    && -1 <= p.cursor
    && (forall s <- p.finished :: 0 <= s <= p.cursor)
    && p.published <= p.finished
    && (forall i :: 0 <= i < |p.handles| ==> HandleOk(p.handles[i], p))
    && Disjoint(p)
  }

  /** The flag of the slot of s tells publication of s from publication one round earlier. */
  ghost predicate FlagTells(p: Producers, s: int, size: nat)
    requires |p.flags| == size > 0
  {
    if 0 <= s then IsAvailable(p.flags, s, size) <==> s in p.published
    else !IsAvailable(p.flags, s + size, size)
  }

  ghost predicate FlagInv(p: Producers, size: nat) {
    && |p.flags| == size > 0
    && (size >= 64 ==> forall i :: 0 <= i < size ==> p.flags[i] == 0 || p.flags[i] == 1)
    && forall s :: p.cursor - size < s <= p.cursor ==> FlagTells(p, s, size)
  }

  lemma NextRoundFlips(s: int, size: nat)
    requires size > 0
    ensures (s + size) % size == s % size && Parity(s + size, size) == 1 - Parity(s, size)
  {
    RingBuffer.RemainderUnique(s + size, size, s / size + 1, s % size) by {
      assert s == (s / size) * size + s % size;
      assert (s / size + 1) * size == (s / size) * size + size;
    }
  }

  lemma InitInv(size: nat, handles: nat)
    requires size > 0
    ensures Inv(Init(size, handles)) && FlagInv(Init(size, handles), size)
  {
    var p := Init(size, handles);
    forall s | -1 - size < s <= -1 ensures FlagTells(p, s, size) {
      RingBuffer.RemainderUnique(s + size, size, 0, s + size);
    }
  }

  lemma StepKeepsOwn(p: Producers, p': Producers, i: nat, a: Action, size: nat)
    requires Inv(p) && |p.flags| == size > 0 && Next(p, p', i, a, size)
    ensures HandleOk(p'.handles[i], p')
  {
  }

  lemma StepKeepsOther(p: Producers, p': Producers, i: nat, j: nat, a: Action, size: nat)
    requires Inv(p) && |p.flags| == size > 0 && Next(p, p', i, a, size) && j < |p.handles| && j != i
    ensures HandleOk(p'.handles[j], p')
  {
  }

  lemma StepKeepsDisjoint(p: Producers, p': Producers, i: nat, a: Action, size: nat)
    requires Inv(p) && |p.flags| == size > 0 && Next(p, p', i, a, size)
    ensures Disjoint(p')
  {
  }

  lemma StepKeeps(p: Producers, p': Producers, i: nat, a: Action, size: nat)
    requires Inv(p) && |p.flags| == size > 0 && Next(p, p', i, a, size)
    ensures Inv(p') && p.cursor <= p'.cursor && p.published <= p'.published && p.finished <= p'.finished
  {
    assert HandleOk(p.handles[i], p);
    forall j | 0 <= j < |p'.handles| ensures HandleOk(p'.handles[j], p') {
      if j == i { StepKeepsOwn(p, p', i, a, size); } else { StepKeepsOther(p, p', i, j, a, size); }
    }
    StepKeepsDisjoint(p, p', i, a, size);
  }

  /** A claim brings in sequences one round above ones that are published already. */
  lemma ClaimKeepsFlags(p: Producers, p': Producers, size: nat, n: nat)
    requires FlagInv(p, size) && p' == p.(cursor := p.cursor + n, handles := p'.handles)
    requires -1 <= p.cursor && n <= size
    requires forall s <- p.published :: s <= p.cursor
    requires forall s :: 0 <= s <= p.cursor + n - size ==> s in p.published
    ensures FlagInv(p', size)
  {
    forall s | p'.cursor - size < s <= p'.cursor ensures FlagTells(p', s, size) {
      if s <= p.cursor {
        assert FlagTells(p, s, size);
      } else {
        ClaimedFlag(p, s, size);
      }
    }
  }

  lemma ClaimedFlag(p: Producers, s: int, size: nat)
    requires FlagInv(p, size) && p.cursor < s
    requires p.cursor - size < s - size <= p.cursor
    requires 0 <= s - size ==> s - size in p.published
    requires -1 <= p.cursor && s !in p.published
    ensures FlagTells(p, s, size)
  {
    assert FlagTells(p, s - size, size);
    NextRoundFlips(s - size, size);
  }

  /** Publishing lo flips the flag of its slot and of no other live sequence. */
  lemma PublishKeepsFlags(p: Producers, p': Producers, size: nat, lo: int)
    requires FlagInv(p, size) && 0 <= lo && p.cursor - size < lo <= p.cursor && lo !in p.published
    requires p' == p.(flags := p.flags[lo % size := Flagged(p.flags[lo % size], lo, size)],
                      published := p.published + {lo}, handles := p'.handles)
    ensures FlagInv(p', size)
  {
    FlipAnnounces(p.flags, lo, size) by {
      assert FlagTells(p, lo, size);
    }
    forall s | p'.cursor - size < s <= p'.cursor ensures FlagTells(p', s, size) {
      assert FlagTells(p, s, size);
      if s != lo {
        OtherFlagUnmoved(p.flags, p'.flags, s, lo, p.cursor - size, size);
      }
    }
  }

  lemma FlipAnnounces(flags: seq<int>, lo: int, size: nat)
    requires |flags| == size > 0 && !IsAvailable(flags, lo, size)
    requires size >= 64 ==> flags[lo % size] == 0 || flags[lo % size] == 1
    ensures Flagged(flags[lo % size], lo, size) == Parity(lo, size)
    ensures Parity(lo, size) == 0 || Parity(lo, size) == 1
  {
  }

  lemma OtherFlagUnmoved(flags: seq<int>, flags': seq<int>, s: int, lo: int, low: int, size: nat)
    requires |flags| == |flags'| == size > 0 && s != lo && low < s <= low + size && low < lo <= low + size
    requires flags' == flags[lo % size := flags'[lo % size]]
    ensures IsAvailable(flags', s, size) == IsAvailable(flags, s, size)
    ensures IsAvailable(flags', s + size, size) == IsAvailable(flags, s + size, size)
  {
    if s % size == lo % size {
      RingBuffer.WindowInjective(s, lo, low, size);
    }
    NextRoundFlips(s, size);
  }

  // ---------------------------------------------------------------- what a claim gets

  /** A scan decides capacity one way or the other, never both. */
  lemma ScanDecides(p: Producers, i: nat, scan: int, size: nat)
    requires |p.flags| == size > 0 && i < |p.handles| && p.handles[i].Loaded?
    ensures var h := p.handles[i];
            && ((exists p' :: Next(p, p', i, CheckCapacity(true, scan), size)) <==>
                  h.current + h.n - size <= Sequences.Least(scan, h.current))
            && ((exists p', cache :: Next(p, p', i, GiveUp(cache, scan), size)) <==>
                  h.current + h.n - size > Sequences.Least(scan, h.current))
  {
    var h := p.handles[i];
    var min := Sequences.Least(scan, h.current);
    if h.current + h.n - size <= min {
      var p' := p.(cachedGating := min, handles := p.handles[i := Checked(h.current, h.n)]);
      assert Next(p, p', i, CheckCapacity(true, scan), size);
    } else {
      var p' := p.(cachedGating := min, handles := p.handles[i := Idle]);
      assert Next(p, p', i, GiveUp(true, scan), size);
    }
  }

  /** A producer alone, on a side that is open, sound and has room, gets the next n sequences. */
  lemma LoneClaim(p: Producers, i: nat, n: int, scan: int, size: nat) returns (ps: seq<Producers>)
    requires |p.flags| == size > 0 && i < |p.handles| && p.handles[i] == Idle
    requires !p.closed && !p.poisoned && 1 <= n <= size && p.cursor + n - size <= Sequences.Least(scan, p.cursor)
    ensures |ps| == 6 && ps[0] == p && forall j :: 0 <= j < 5 ==> |ps[j].flags| == size
    ensures Next(ps[0], ps[1], i, CheckClosed(n), size) && Next(ps[1], ps[2], i, CheckPoisoned, size)
    ensures Next(ps[2], ps[3], i, Load, size) && Next(ps[3], ps[4], i, CheckCapacity(true, scan), size)
    ensures Next(ps[4], ps[5], i, CompareExchange, size)
    ensures ps[5].cursor == p.cursor + n && |ps[5].handles| == |p.handles|
    ensures ps[5].handles[i] == Filling(p.cursor + 1, p.cursor + n)
  {
    var min := Sequences.Least(scan, p.cursor);
    var p1 := p.(handles := p.handles[i := NotClosed(n)]);
    var p2 := p.(handles := p.handles[i := NotPoisoned(n)]);
    var p3 := p.(handles := p.handles[i := Loaded(p.cursor, n)]);
    var p4 := p.(cachedGating := min, handles := p.handles[i := Checked(p.cursor, n)]);
    var p5 := p4.(cursor := p.cursor + n, handles := p.handles[i := Filling(p.cursor + 1, p.cursor + n)]);
    ps := [p, p1, p2, p3, p4, p5];
  }

  /** A filled claim can always be announced: its closure returns, then sequence after sequence. */
  lemma LoneReturn(p: Producers, i: nat, size: nat) returns (p': Producers)
    requires |p.flags| == size > 0 && i < |p.handles| && p.handles[i].Filling?
    ensures Next(p, p', i, ClosureReturns, size) && |p'.flags| == size && |p'.handles| == |p.handles|
    ensures p'.handles[i] == Publishing(p.handles[i].lo, p.handles[i].hi)
  {
    var lo, hi := p.handles[i].lo, p.handles[i].hi;
    p' := p.(finished := p.finished + (Sequences.Upto(hi + 1) - Sequences.Upto(lo)),
             handles := p.handles[i := Publishing(lo, hi)]);
  }

  /** Step j of these announces one sequence. */
  ghost predicate PublishesAt(states: seq<Producers>, j: nat, i: nat, size: nat) {
    && j + 1 < |states| && |states[j].flags| == size > 0
    && Next(states[j], states[j + 1], i, PublishOne, size)
  }

  lemma {:induction false} LonePublish(p: Producers, i: nat, size: nat) returns (ps: seq<Producers>)
    requires |p.flags| == size > 0 && i < |p.handles| && p.handles[i].Publishing? && p.handles[i].lo <= p.handles[i].hi
    ensures ps != [] && ps[0] == p && forall j :: 0 <= j < |ps| ==> |ps[j].flags| == size
    ensures forall j :: 0 <= j < |ps| - 1 ==> PublishesAt(ps, j, i, size)
    ensures var last, h := ps[|ps| - 1], p.handles[i];
            && |last.handles| == |p.handles| && last.handles[i] == Idle && last.cursor == p.cursor
            && forall s :: s in last.published <==> s in p.published || h.lo <= s <= h.hi
    decreases p.handles[i].hi - p.handles[i].lo
  {
    var lo, hi := p.handles[i].lo, p.handles[i].hi;
    var p' := p.(flags := p.flags[lo % size := Flagged(p.flags[lo % size], lo, size)],
                 published := p.published + {lo},
                 handles := p.handles[i := if lo == hi then Idle else Publishing(lo + 1, hi)]);
    if lo == hi {
      ps := [p, p'];
    } else {
      var rest := LonePublish(p', i, size);
      ps := [p] + rest;
      forall j | 0 <= j < |ps| - 1 ensures PublishesAt(ps, j, i, size) {
        if j > 0 { assert PublishesAt(rest, j - 1, i, size); }
      }
    }
  }

  /** Not past the poison check. */
  predicate Outside(h: Phase) {
    h.Idle? || h.NotClosed?
  }

  /** A panic poisons, and poison lets no handle in that is still outside. */
  lemma PoisonBars(p: Producers, p': Producers, i: nat, a: Action, size: nat, j: nat)
    requires |p.flags| == size > 0 && Next(p, p', i, a, size) && j < |p.handles|
    ensures a.ClosurePanics? || a.Poison? || p.poisoned ==> p'.poisoned
    ensures a.ClosurePanics? && j == i ==> Outside(p'.handles[j])
    ensures p.poisoned && Outside(p.handles[j]) ==> Outside(p'.handles[j])
  {
  }

  /** A closed side admits no new claim until it is reopened. */
  lemma ClosedBars(p: Producers, p': Producers, i: nat, a: Action, size: nat, j: nat)
    requires |p.flags| == size > 0 && Next(p, p', i, a, size) && j < |p.handles|
    ensures a == SetClosed(true) || (p.closed && a != SetClosed(false)) ==> p'.closed
    ensures p.closed && p.handles[j].Idle? ==> p'.handles[j].Idle?
  {
  }
}
