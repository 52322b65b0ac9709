/** Exact integer accounting of the tail-latency harness (src/bin/h2h_tail_latency.rs). */
module TailLatency {
  import opened Wrappers
  import opened Sequences
  import RingBuffer


  const U64_MAX: int := 0xffff_ffff_ffff_ffff
  const U128_MAX: int := 0xffff_ffff_ffff_ffff_ffff_ffff_ffff_ffff
  const GIGA: int := 1_000_000_000

  function Greatest(a: int, b: int): int {
    if a < b then b else a
  }

  // ---------------------------------------------------------------- the injected pause

  function CeilDiv(a: int, b: int): int
    requires b > 0
  {
    (a + b - 1) / b
  }

  lemma MulMonotone(a: int, b: int, k: nat)
    requires a <= b
    ensures k * a <= k * b
  {
  }

  lemma CancelFactor(a: int, b: int, k: nat)
    requires k > 0
    ensures k * a <= k * b <==> a <= b
    ensures k * a < k * b <==> a < b
  {
  }

  lemma CeilDivBounds(a: int, b: int)
    requires b > 0
    ensures b * CeilDiv(a, b) - b < a <= b * CeilDiv(a, b)
  {
  }

  /** Rounding up is the least quotient that suffices. */
  lemma CeilDivLeast(a: int, b: int, q: int)
    requires b > 0 && a <= b * q
    ensures CeilDiv(a, b) <= q
  {
    CeilDivBounds(a, b);
    var c := CeilDiv(a, b);
    assert b * (c - 1) == b * c - b;
    CancelFactor(c - 1, q, b);
  }

  datatype CommonMax = NotFinite | Finite(value: real)

  datatype PauseError = ZeroPause | BadCommonMax | RateNotBelowMax

  datatype PauseCheck =
    | Rejected(error: PauseError)
    | Check(backlog: int, affected: int, drain: int)

  /** `f64::floor` followed by the saturating cast to u64. */
  function FloorU64(m: real): int
    requires m > 0.0
  {
    var f := m.Floor;
    if f < 0 then 0 else Least(f, U64_MAX)
  }

  function SatU128(n: int): int {
    Least(n, U128_MAX)
  }

  /** The sample count fields: a quotient cut to u64 and floored at 1. */
  function Samples(n: int): int {
    Greatest(Least(n, U64_MAX), 1)
  }

  function ValidatePause(started: nat, completed: nat, target: nat, commonMax: CommonMax): PauseCheck {
    var pause := Greatest(completed - started, 0);
    if pause == 0 then Rejected(ZeroPause)
    else if commonMax.NotFinite? || commonMax.value <= 0.0 then Rejected(BadCommonMax)
    else
      var most := FloorU64(commonMax.value);
      if target >= most then Rejected(RateNotBelowMax)
      else
        var spare := most - target;
        assert SatU128(GIGA * spare) > 0;
        var backlogNumerator := SatU128(target * pause);
        var affectedNumerator := SatU128(backlogNumerator * most);
        var affectedDenominator := SatU128(GIGA * spare);
        var drainNumerator := SatU128(pause * target);
        Check(
          Samples(SatU128(backlogNumerator + 999_999_999) / GIGA),
          Samples(SatU128(affectedNumerator + (affectedDenominator - 1)) / affectedDenominator),
          Least(CeilDiv(drainNumerator, spare), U64_MAX))
  }

  /** The events sent during the pause are among those affected by it. */
  lemma BacklogWithinAffected(pause: nat, target: nat, most: nat)
    requires target < most
    ensures CeilDiv(target * pause, GIGA) <= CeilDiv(target * pause * most, GIGA * (most - target))
  {
    var m, k := target * pause, most - target;
    var q := CeilDiv(m * most, GIGA * k);
    CeilDivBounds(m * most, GIGA * k);
    MulMonotone(k, most, m);
    assert k * m <= k * (GIGA * q);
    CancelFactor(m, GIGA * q, k);
    CeilDivLeast(m, GIGA, q);
  }

  /** With drain the minimum time to work the backlog off at the spare rate, the affected
      events are those of the pause and the drain, up to the rounding of the drain. */
  lemma AffectedCoversDrain(pause: nat, target: nat, most: nat)
    requires target < most && pause > 0
    ensures var drain := CeilDiv(target * pause, most - target);
            var affected := CeilDiv(target * pause * most, GIGA * (most - target));
            CeilDiv(target * (pause + drain - 1), GIGA) <= affected <= CeilDiv(target * (pause + drain), GIGA)
  {
    hide CeilDiv;
    var m, k := target * pause, most - target;
    var d, q := CeilDiv(m, k), CeilDiv(m * most, GIGA * k);
    CeilDivBounds(m, k);
    CeilDivBounds(m * most, GIGA * k);
    Distribute(m, k, target, most);
    UpperHalf(m, k, target, pause, d);
    LowerHalf(m, k, target, pause, d, q);
  }

  lemma Distribute(m: int, k: int, target: int, most: int)
    requires most == k + target
    ensures m * most == k * m + m * target
  {
  }

  lemma UpperHalf(m: int, k: nat, target: nat, pause: int, d: int)
    requires k > 0 && m == target * pause && m <= k * d
    ensures CeilDiv(k * m + m * target, GIGA * k) <= CeilDiv(target * (pause + d), GIGA)
  {
    var q := CeilDiv(target * (pause + d), GIGA);
    CeilDivBounds(target * (pause + d), GIGA);
    MulMonotone(m, k * d, target);
    assert k * (target * (pause + d)) == k * m + target * (k * d);
    MulMonotone(target * (pause + d), GIGA * q, k);
    assert k * (GIGA * q) == GIGA * k * q;
    CeilDivLeast(k * m + m * target, GIGA * k, q);
  }

  lemma LowerHalf(m: int, k: nat, target: nat, pause: int, d: int, q: int)
    requires k > 0 && pause > 0 && m == target * pause && k * d - k < m
    requires k * m + m * target <= GIGA * k * q
    ensures CeilDiv(target * (pause + d - 1), GIGA) <= q
  {
    assert k * d - k == k * (d - 1);
    assert target * (k * (d - 1)) <= target * m;
    assert k * (target * (pause + d - 1)) == k * m + target * (k * (d - 1));
    assert k * (GIGA * q) == GIGA * k * q;
    CancelFactor(target * (pause + d - 1), GIGA * q, k);
    CeilDivLeast(target * (pause + d - 1), GIGA, q);
  }

  lemma ProductFits(target: nat, pause: nat)
    requires target < U64_MAX && pause <= U64_MAX
    ensures target * pause + 999_999_999 <= U128_MAX
  {
    MulMonotone(pause, U64_MAX, target);
    MulMonotone(target, U64_MAX - 1, U64_MAX);
  }

  lemma QuotientMonotone(a: int, b: int, d: int)
    requires 0 <= a <= b && d > 0
    ensures a / d <= b / d
  {
    CeilDivBounds(a - d + 1, d);
    CeilDivBounds(b - d + 1, d);
    assert d * (a / d) < d * (b / d) + d == d * (b / d + 1);
    CancelFactor(a / d, b / d + 1, d);
  }

  /** Room for x events: the spare capacity is so small that the largest quotient is cut to u64
      anyway, or x itself lies below what the largest quotient stands for. */
  predicate HasRoom(x: int, spare: int)
    requires spare > 0
  {
    GIGA * spare <= U64_MAX + 2 || x <= GIGA * (U128_MAX / (GIGA * spare))
  }

  /** A quotient bound survives the saturation of its numerator exactly when there is room. */
  lemma SaturatedQuotient(x: nat, n: nat, spare: nat)
    requires 0 < spare <= U64_MAX && CeilDiv(x, GIGA) <= CeilDiv(n, GIGA * spare)
    ensures Samples(CeilDiv(x, GIGA)) <= Samples(SatU128(n + (GIGA * spare - 1)) / (GIGA * spare)) <==>
          HasRoom(x, spare)
  {
    var d := GIGA * spare;
    var q, c := U128_MAX / d, CeilDiv(x, GIGA);
    CeilDivBounds(x, GIGA);
    WidestQuotient(d);
    if n + (d - 1) <= U128_MAX {
      QuotientMonotone(n + (d - 1), U128_MAX, d);
      assert GIGA * c <= GIGA * q;
    } else if x <= GIGA * q {
      CeilDivLeast(x, GIGA, q);
    } else {
      CancelFactor(q, c, GIGA);
    }
  }

  /** The largest quotient reaches u64 exactly for the smallest denominators. */
  lemma WidestQuotient(d: int)
    requires 0 < d <= GIGA * U64_MAX
    ensures 1 <= U128_MAX / d
    ensures U64_MAX <= U128_MAX / d <==> d <= U64_MAX + 2
  {
    var q := U128_MAX / d;
    assert U128_MAX == U64_MAX * (U64_MAX + 2);
    CeilDivBounds(U128_MAX - d + 1, d);
    assert d * q <= U128_MAX < d * q + d == d * (q + 1);
    CancelFactor(1, q + 1, d);
    if d <= U64_MAX + 2 {
      MulMonotone(d, U64_MAX + 2, U64_MAX);
      CancelFactor(U64_MAX, q + 1, d);
    } else {
      MulMonotone(U64_MAX + 3, d, U64_MAX);
      CancelFactor(q, U64_MAX, d);
    }
  }

  /** What is rejected, and with which error, in the order of the checks; everything else is reported. */
  lemma RejectedExactly(started: nat, completed: nat, target: nat, commonMax: CommonMax)
    ensures var c := ValidatePause(started, completed, target, commonMax);
            var usable := commonMax.Finite? && commonMax.value > 0.0;
            && (c == Rejected(ZeroPause) <==> completed <= started)
            && (c == Rejected(BadCommonMax) <==> started < completed && !usable)
            && (c == Rejected(RateNotBelowMax) <==>
                started < completed && usable && FloorU64(commonMax.value) <= target)
            && (c.Check? <==> started < completed && usable && target < FloorU64(commonMax.value))
  {
  }

  /** The report in terms of exact products: only the last numerator can saturate. */
  lemma ReportUnfolds(started: nat, completed: nat, target: nat, commonMax: CommonMax)
    requires commonMax.Finite? && commonMax.value > 0.0 && started < completed <= U64_MAX
    requires target < FloorU64(commonMax.value)
    ensures var c, pause, most := ValidatePause(started, completed, target, commonMax), completed - started,
          FloorU64(commonMax.value);
            var d := GIGA * (most - target);
            && c.Check? && 0 < d && c.backlog == Samples(CeilDiv(target * pause, GIGA))
            && c.affected == Samples(SatU128(target * pause * most + (d - 1)) / d)
            && c.drain == Least(CeilDiv(target * pause, most - target), U64_MAX)
  {
    var pause, most := completed - started, FloorU64(commonMax.value);
    var m := target * pause;
    ProductFits(target, pause);
    assert pause * target == m && m >= 0;
    assert m * most >= 0;
  }

  /** What the harness reports, for every u64 pause and every pair of rates it accepts. Affected
      never exceeds the events of pause and drain. The backlog is within the affected, and the
      affected cover pause and drain up to the rounding of the drain, exactly when there is room. */
  lemma PauseArithmetic(started: nat, completed: nat, target: nat, commonMax: CommonMax)
    requires commonMax.Finite? && commonMax.value > 0.0 && started < completed <= U64_MAX
    requires target < FloorU64(commonMax.value)
    ensures var c, pause, spare := ValidatePause(started, completed, target, commonMax), completed - started,
          FloorU64(commonMax.value) - target;
            var drain := CeilDiv(target * pause, spare);
            && c.Check? && c.drain == Least(drain, U64_MAX)
            && c.affected <= Samples(CeilDiv(target * (pause + drain), GIGA))
            && (c.backlog <= c.affected <==> HasRoom(target * pause, spare))
            && (Samples(CeilDiv(target * (pause + drain - 1), GIGA)) <= c.affected <==>
                HasRoom(target * (pause + drain - 1), spare))
  {
    hide CeilDiv, HasRoom, ValidatePause, FloorU64;
    var pause, most := completed - started, FloorU64(commonMax.value);
    var spare, m := most - target, target * pause;
    var drain := CeilDiv(m, spare);
    ReportUnfolds(started, completed, target, commonMax);
    MostIsU64(commonMax.value);
    NotNegative(target, pause, most, drain);
    BacklogWithinAffected(pause, target, most);
    AffectedCoversDrain(pause, target, most);
    SaturatedQuotient(m, m * most, spare);
    SaturatedQuotient(target * (pause + drain - 1), m * most, spare);
    CutFromBelow(m * most, GIGA * spare);
  }

  lemma MostIsU64(m: real)
    requires m > 0.0
    ensures FloorU64(m) <= U64_MAX
  {
  }

  lemma NotNegative(target: nat, pause: nat, most: nat, drain: int)
    requires target < most && pause > 0 && drain == CeilDiv(target * pause, most - target)
    ensures target * pause * most >= 0 && drain >= 0 && target * (pause + drain - 1) >= 0
  {
    assert target * pause >= 0;
    CeilDivBounds(target * pause, most - target);
    CancelFactor(-1, drain, most - target);
  }

  lemma CutFromBelow(n: nat, d: nat)
    requires d > 0
    ensures SatU128(n + (d - 1)) / d <= CeilDiv(n, d)
  {
    QuotientMonotone(SatU128(n + (d - 1)), n + (d - 1), d);
  }

  /** Without saturation there is always room, for the backlog and for the drain alike. */
  lemma RoomWithoutSaturation(x: nat, n: nat, spare: nat)
    requires 0 < spare <= U64_MAX && CeilDiv(x, GIGA) <= CeilDiv(n, GIGA * spare)
    requires n + (GIGA * spare - 1) <= U128_MAX
    ensures HasRoom(x, spare)
  {
    SaturatedQuotient(x, n, spare);
  }

  /** There is not always room: a pause of the whole u64 range at a quarter of it. */
  lemma SaturationBreaksOrder()
    ensures var c := ValidatePause(0, U64_MAX, 0x4000_0000_0000_0000, Finite(18_000_000_000_000_000_000.0));
            c.Check? && c.affected < c.backlog
  {
    var t, most: nat := 0x4000_0000_0000_0000, 18_000_000_000_000_000_000;
    assert FloorU64(18_000_000_000_000_000_000.0) == most;
    assert t * U64_MAX == 85070591730234615861231965839514664960;
  }

  // ---------------------------------------------------------------- the allocating workload

  const PAYLOAD_BYTES: int := 48

  function SatU64(n: nat): nat {
    Least(n, U64_MAX)
  }

  /** What the retention buffer has done after the events 0 .. n - 1. */
  function Allocations(n: nat, warmup: nat): nat {
    Greatest(n - warmup, 0)
  }

  function Deallocations(n: nat, warmup: nat, window: nat): nat {
    Greatest(n - Greatest(warmup, window), 0)
  }

  datatype Stats = Stats(
    allocations: nat, allocatedBytes: nat, deallocations: nat, deallocatedBytes: nat,
    retained: nat, retainedLiveBytes: nat)

  /** The harness's check of an allocating run. */
  predicate WorkloadValid(s: Stats, total: nat, warmup: nat, window: nat)
    requires warmup <= total
  {
    var allocations := total - warmup;
    var deallocations := Greatest(total - Greatest(warmup, window), 0);
    && s.allocations == allocations
    && s.allocatedBytes == SatU64(allocations * PAYLOAD_BYTES)
    && s.deallocations == deallocations
    && s.deallocatedBytes == SatU64(deallocations * PAYLOAD_BYTES)
    && s.retained == window
    && s.retainedLiveBytes == SatU64(window * PAYLOAD_BYTES)
  }

  function SatAdd(a: nat, b: nat): nat {
    Least(a + b, U64_MAX)
  }

  /** After the events 0 .. n - 1 every slot holds the youngest of them that is congruent to it,
      if there is one. */
  ghost predicate Retains(slots: seq<Option<nat>>, n: nat) {
    && |slots| > 0
    && (forall i: nat :: n - |slots| <= i < n ==> SlotOf(slots, i) == Some(i))
    && (forall j :: n <= j < |slots| ==> slots[j] == None)
  }

  function SlotOf(slots: seq<Option<nat>>, i: nat): Option<nat>
    requires |slots| > 0
  {
    slots[i % |slots|]
  }

  lemma SlotTurns(n: nat, w: nat)
    requires w > 0
    ensures n < w ==> n % w == n
    ensures w <= n ==> (n - w) % w == n % w
  {
    if n < w {
      RingBuffer.RemainderUnique(n, w, 0, n);
    } else {
      RingBuffer.RemainderUnique(n - w, w, n / w - 1, n % w);
    }
  }

  lemma Stored(slots: seq<Option<nat>>, n: nat)
    requires Retains(slots, n)
    ensures Retains(slots[n % |slots| := Some(n)], n + 1)
    ensures slots[n % |slots|].Some? <==> |slots| <= n
  {
    var w := |slots|;
    var at := n % w;
    SlotTurns(n, w);
    var slots' := slots[at := Some(n)];
    forall i: nat | n + 1 - w <= i < n + 1 ensures SlotOf(slots', i) == Some(i) {
      if i < n {
        assert SlotOf(slots, i) == Some(i);
        if i % w == at { RingBuffer.WindowInjective(i, n, n - w, w); }
      }
    }
    if w <= n {
      assert SlotOf(slots, n - w) == Some(n - w);
    }
  }

  lemma NextSlot(n: nat, w: nat)
    requires w > 0
    ensures (n % w + 1) % w == (n + 1) % w
  {
    if n % w + 1 < w {
      RingBuffer.RemainderUnique(n + 1, w, n / w, n % w + 1);
    } else {
      RingBuffer.RemainderUnique(n + 1, w, n / w + 1, 0);
    }
  }

  lemma OneMorePayload(n: nat)
    ensures SatAdd(SatU64(n * PAYLOAD_BYTES), PAYLOAD_BYTES) == SatU64((n + 1) * PAYLOAD_BYTES)
  {
  }

  lemma Occupied(slots: seq<Option<nat>>, n: nat, j: nat)
    requires Retains(slots, n) && j < |slots|
    ensures slots[j].Some? <==> j < n
  {
    if j < n {
      var w := |slots|;
      var back := (n - 1 - j) / w;
      var i := j + back * w;
      assert i % w == j by { RingBuffer.RemainderUnique(i, w, back, j); }
      assert SlotOf(slots, i) == Some(i);
    }
  }

  class AllocatingWorkload {
    var retention: array<Option<nat>>
    var next: nat
    var allocations: nat
    var allocatedBytes: nat
    var deallocations: nat
    var deallocatedBytes: nat

    constructor (window: nat)
      requires window > 0
      ensures fresh(retention) && retention.Length == window && forall warmup :: Holds(0, warmup)
    {
      retention := new Option<nat>[window](_ => None);
      next, allocations, allocatedBytes, deallocations, deallocatedBytes := 0, 0, 0, 0, 0;
    }

    ghost predicate Holds(n: nat, warmup: nat)
      reads this, retention
    {
      var w := retention.Length;
      && w > 0 && next == n % w
      && allocations == Allocations(n, warmup)
      && allocatedBytes == SatU64(allocations * PAYLOAD_BYTES)
      && deallocations == Deallocations(n, warmup, w)
      && deallocatedBytes == SatU64(deallocations * PAYLOAD_BYTES)
      && Retains(retention[..], n)
    }

    method Apply(sequence: nat, track: bool, ghost warmup: nat)
      requires Holds(sequence, warmup) && track == (sequence >= warmup) && sequence < U64_MAX
      modifies this, retention
      ensures Holds(sequence + 1, warmup) && retention == old(retention)
    {
      hide Retains, SatU64;
      OneMorePayload(allocations);
      OneMorePayload(deallocations);
      var replaced := retention[next];
      if track {
        allocations := SatAdd(allocations, 1);
        allocatedBytes := SatAdd(allocatedBytes, PAYLOAD_BYTES);
      }
      Stored(retention[..], sequence);
      NextSlot(sequence, retention.Length);
      retention[next] := Some(sequence);
      if track && replaced.Some? {
        deallocations := SatAdd(deallocations, 1);
        deallocatedBytes := SatAdd(deallocatedBytes, PAYLOAD_BYTES);
      }
      assert retention[..] == old(retention[..])[next := Some(sequence)];
      next := (next + 1) % retention.Length;
    }

    method Run(total: nat, warmup: nat) returns (s: Stats)
      requires Holds(0, warmup) && warmup <= total <= U64_MAX
      modifies this, retention
      ensures retention == old(retention) && Holds(total, warmup)
      ensures WorkloadValid(s, total, warmup, retention.Length) <==> retention.Length <= total
    {
      var i := 0;
      while i < total
        invariant 0 <= i <= total && retention == old(retention) && Holds(i, warmup)
      {
        Apply(i, i >= warmup, warmup);
        i := i + 1;
      }
      s := Collect(total, warmup);
    }

    /** Counting the occupied slots. */
    method Collect(ghost n: nat, ghost warmup: nat) returns (s: Stats)
      requires Holds(n, warmup)
      ensures var retained := Least(n, retention.Length);
              s == Stats(allocations, allocatedBytes, deallocations, deallocatedBytes, retained,
                  SatU64(retained * PAYLOAD_BYTES))
    {
      var count, j := 0, 0;
      while j < retention.Length
        invariant 0 <= j <= retention.Length && count == Least(n, j)
      {
        Occupied(retention[..], n, j);
        if retention[j].Some? {
          count := count + 1;
        }
        j := j + 1;
      }
      s := Stats(allocations, allocatedBytes, deallocations, deallocatedBytes, count, SatU64(count * PAYLOAD_BYTES));
    }
  }
}
