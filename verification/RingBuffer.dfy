/** Ring storage (src/disruptor/ring_buffer.rs): masked slot addressing and the batch iterator. */
module RingBuffer {
  import opened Wrappers
  import opened Bits

  datatype Result<+T> = Ok(value: T) | InvalidBufferSize(size: nat)

  /** `slot_index`: the sequence masked with `size - 1`. */
  function SlotIndex(sequence: int, size: nat): (i: nat)
    requires size > 0
  {
    And(sequence, size - 1)
  }

  // ---------------------------------------------------------------- remainders

  /** A multiple of m strictly between -m and m is zero. */
  lemma SmallMultiple(d: int, m: int)
    requires -m < d * m < m
    ensures d == 0
  {
  }

  lemma RemainderUnique(x: int, m: int, q: int, r: int)
    requires 0 <= r < m && x == q * m + r
    ensures x % m == r && x / m == q
  {
    var q', r' := x / m, x % m;
    assert x == q' * m + r';
    assert (q' - q) * m == q' * m - q * m;
    SmallMultiple(q' - q, m);
  }

  lemma HalvedRemainder(x: int, p: int)
    requires p >= 1
    ensures x % (2 * p) == x % 2 + 2 * ((x / 2) % p)
  {
    var q, r := (x / 2) / p, (x / 2) % p;
    assert x / 2 == q * p + r;
    assert q * (2 * p) == 2 * (q * p);
    RemainderUnique(x, 2 * p, q, 2 * r + x % 2);
  }

  /** For every power-of-two size and every sequence, negative ones included, masking is the
      Euclidean remainder. */
  lemma {:induction false} MaskIsRemainder(x: int, k: nat)
    ensures SlotIndex(x, Pow2(k)) == x % Pow2(k)
    decreases k
  {
    if k == 0 {
    } else {
      var p, b := Pow2(k - 1), x % 2;
      MaskIsRemainder(x / 2, k - 1);
      calc {
        And(x, Pow2(k) - 1);
        b + 2 * And(x / 2, p - 1);
        b + 2 * ((x / 2) % p);
        { HalvedRemainder(x, p); }
        x % (2 * p);
      }
    }
  }

  /** Two sequences of one window no longer than the ring never share a slot. */
  lemma WindowInjective(a: int, b: int, low: int, size: nat)
    requires size > 0
    requires low < a <= low + size && low < b <= low + size
    requires a % size == b % size
    ensures a == b
  {
    var q, q' := a / size, b / size;
    assert a == q * size + a % size && b == q' * size + b % size;
    assert (q - q') * size == q * size - q' * size;
    SmallMultiple(q - q', size);
  }

  // ---------------------------------------------------------------- the ring

  /** The sizes `new_with_padding` accepts: powers of two that fit an i64. */
  predicate SizeAccepted(size: nat) {
    CountOnes(size) == 1 && size <= 0x7FFF_FFFF_FFFF_FFFF
  }

  lemma AcceptedSizes(size: nat)
    ensures SizeAccepted(size) <==> exists k: nat :: k <= 62 && size == Pow2(k)
  {
    if CountOnes(size) == 1 {
      var k := OneBitIsPower(size);
      if k > 62 { LargePower(k); }
    }
    forall k: nat | k <= 62 && size == Pow2(k) ensures SizeAccepted(size) {
      PowersHaveOneBit(k);
      SmallPower(k);
    }
  }

  lemma {:induction false} SmallPower(k: nat)
    requires k <= 62
    ensures Pow2(k) <= Pow2(62) == 0x4000_0000_0000_0000
    decreases 62 - k
  {
    if k == 62 {
      Power62();
    } else {
      SmallPower(k + 1);
    }
  }

  lemma {:induction false} LargePower(k: nat)
    requires k >= 63
    ensures Pow2(k) >= 0x8000_0000_0000_0000
  {
    if k == 63 {
      Power62();
    } else {
      LargePower(k - 1);
    }
  }

  lemma Power62()
    ensures Pow2(62) == 0x4000_0000_0000_0000
  {
    assert Pow2(8) == 256;
    assert Pow2(16) == 0x1_0000;
    assert Pow2(24) == 0x100_0000;
    assert Pow2(32) == 0x1_0000_0000;
    assert Pow2(40) == 0x100_0000_0000;
    assert Pow2(48) == 0x1_0000_0000_0000;
    assert Pow2(56) == 0x100_0000_0000_0000;
  }

  class Ring<T> {
    const slots: array<T>

    ghost predicate Valid()
      reads this
    {
      SizeAccepted(slots.Length)
    }

    constructor (slots: array<T>)
      ensures this.slots == slots
    {
      this.slots := slots;
    }

    /** `get_mut_unchecked` as a store: only the slot of the sequence changes, and it is the
        slot every sequence of the same residue uses. */
    method Put(sequence: int, event: T)
      requires Valid()
      modifies slots
      ensures slots[..] == old(slots[..])[sequence % slots.Length := event]
    {
      InRange(sequence, slots.Length);
      slots[SlotIndex(sequence, slots.Length)] := event;
    }

    method Get(sequence: int) returns (event: T)
      requires Valid()
      ensures event == slots[sequence % slots.Length]
    {
      InRange(sequence, slots.Length);
      event := slots[SlotIndex(sequence, slots.Length)];
    }
  }

  lemma InRange(sequence: int, size: nat)
    requires SizeAccepted(size)
    ensures 0 < size && SlotIndex(sequence, size) == sequence % size < size
  {
    AcceptedSizes(size);
    var k: nat :| k <= 62 && size == Pow2(k);
    MaskIsRemainder(sequence, k);
  }

  /** `new_with_padding`. */
  method New<T>(size: nat, factory: T) returns (r: Result<Ring<T>>)
    ensures r.Ok? <==> exists k: nat :: k <= 62 && size == Pow2(k)
    ensures r.Ok? ==> r.value.Valid() && r.value.slots.Length == size && fresh(r.value) && fresh(r.value.slots)
    ensures r.Ok? ==> forall e <- r.value.slots[..] :: e == factory
    ensures r.InvalidBufferSize? ==> r.size == size
  {
    AcceptedSizes(size);
    if !SizeAccepted(size) {
      return InvalidBufferSize(size);
    }
    var slots := new T[size](_ => factory);
    var ring := new Ring(slots);
    return Ok(ring);
  }

  // ---------------------------------------------------------------- the batch iterator

  /** `BatchIterMut`: hands out the slots of current..last, one per call. */
  class BatchIter {
    const size: nat
    var current: int
    const last: int

    constructor (size: nat, start: int, end: int)
      ensures this.size == size && current == start && last == end
    {
      this.size, current, last := size, start, end;
    }

    function Remaining(): nat
      reads this
    {
      if current > last then 0 else last - current + 1
    }

    method Next() returns (slot: Option<nat>)
      requires SizeAccepted(size)
      modifies this`current
      ensures old(Remaining()) == 0 ==> slot == None && current == old(current)
      ensures old(Remaining()) > 0 ==>
                slot == Some(old(current) % size) && current == old(current) + 1 &&
                Remaining() == old(Remaining()) - 1
    {
      if current > last {
        return None;
      }
      InRange(current, size);
      slot := Some(SlotIndex(current, size));
      current := current + 1;
    }
  }

  /** Draining the iterator of a claim start..end yields one slot per sequence, in order, and
      never the same slot twice if the claim is no longer than the ring. */
  method BatchSlots(size: nat, start: int, end: int) returns (yielded: seq<nat>)
    requires SizeAccepted(size)
    ensures |yielded| == if start <= end then end - start + 1 else 0
    ensures forall i :: 0 <= i < |yielded| ==> yielded[i] == (start + i) % size
    ensures |yielded| <= size ==> forall i, j :: 0 <= i < j < |yielded| ==> yielded[i] != yielded[j]
  {
    InRange(start, size);
    var it := new BatchIter(size, start, end);
    yielded := [];
    var slot := it.Next();
    while slot.Some?
      invariant it.size == size && it.last == end
      invariant |yielded| <= it.Remaining() + |yielded| <= if start <= end then end - start + 1 else 0
      invariant slot.Some? ==>
                  && start + |yielded| <= end && it.current == start + |yielded| + 1
                  && slot.value == (start + |yielded|) % size
      invariant slot.None? ==>
                  && it.Remaining() == 0 && it.current == start + |yielded|
                  && |yielded| == (if start <= end then end - start + 1 else 0)
      invariant forall i :: 0 <= i < |yielded| ==> yielded[i] == (start + i) % size
      decreases slot.Some?, it.Remaining()
    {
      yielded := yielded + [slot.value];
      slot := it.Next();
    }
    if |yielded| <= size {
      forall i, j | 0 <= i < j < |yielded| ensures yielded[i] != yielded[j] {
        if (start + i) % size == (start + j) % size {
          WindowInjective(start + i, start + j, start - 1, size);
        }
      }
    }
  }
}
