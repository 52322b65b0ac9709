/** The availability bitmap of `MultiProducerSequencer` (src/disruptor/sequencer.rs): one bit per
    slot in 64-bit words, published by XOR-ing whole words and scanned a word at a time. Both
    word-wise operations are proved equal to the plain one-sequence-at-a-time ones. */
module Availability {
  import opened Bits
  import RingBuffer
  import MultiProducer
  import Sequences

  /** The per-slot flags the words stand for. */
  function Flags(words: seq<nat>): (flags: seq<int>)
    ensures |flags| == 64 * |words|
    ensures forall i :: 0 <= i < |flags| ==> flags[i] == if Bit(words[i / 64], i % 64) then 1 else 0
  {
    seq(64 * |words|, i requires 0 <= i < 64 * |words| => if Bit(words[i / 64], i % 64) then 1 else 0)
  }

  // ---------------------------------------------------------------- the plain forms

  /** `get_highest_published_sequence_legacy`: the end of the available run starting at lo,
      lo - 1 if lo is not available, hi if nothing up to hi is missing. */
  function Highest(flags: seq<int>, lo: int, hi: int): int
    requires |flags| > 0
    decreases hi - lo
  {
    if lo > hi then hi
    else if !MultiProducer.IsAvailable(flags, lo, |flags|) then lo - 1
    else Highest(flags, lo + 1, hi)
  }

  /** Flipping the flag of every sequence of lo..hi in turn. */
  function Flip(flags: seq<int>, lo: int, hi: int): (r: seq<int>)
    requires |flags| > 0
    ensures |r| == |flags|
    decreases hi - lo
  {
    if lo > hi then flags
    else
      var r := Flip(flags, lo, hi - 1);
      r[hi % |flags| := 1 - r[hi % |flags|]]
  }

  /** What Highest means: everything below the answer is available and the next is not. */
  lemma {:induction false} HighestIsContiguousEnd(flags: seq<int>, lo: int, hi: int)
    requires |flags| > 0
    ensures lo <= hi ==> lo - 1 <= Highest(flags, lo, hi) <= hi
    ensures forall s :: lo <= s <= Highest(flags, lo, hi) && s <= hi ==> MultiProducer.IsAvailable(flags, s, |flags|)
    ensures lo <= hi && Highest(flags, lo, hi) < hi ==>
              !MultiProducer.IsAvailable(flags, Highest(flags, lo, hi) + 1, |flags|)
    decreases hi - lo
  {
    if lo > hi {
    } else {
      HighestIsContiguousEnd(flags, lo + 1, hi);
    }
  }

  lemma NothingToScan(flags: seq<int>, lo: int, hi: int)
    requires |flags| > 0 && lo > hi
    ensures Highest(flags, lo, hi) == hi
  {
  }

  lemma {:induction false} HighestSkips(flags: seq<int>, lo: int, mid: int, hi: int)
    requires |flags| > 0 && lo <= mid <= hi + 1
    requires forall s :: lo <= s < mid ==> MultiProducer.IsAvailable(flags, s, |flags|)
    ensures Highest(flags, lo, hi) == Highest(flags, mid, hi)
    decreases mid - lo
  {
    if lo == mid {
    } else {
      HighestSkips(flags, lo + 1, mid, hi);
    }
  }

  lemma HighestStops(flags: seq<int>, lo: int, mid: int, hi: int)
    requires |flags| > 0 && lo <= mid <= hi && !MultiProducer.IsAvailable(flags, mid, |flags|)
    requires forall s :: lo <= s < mid ==> MultiProducer.IsAvailable(flags, s, |flags|)
    ensures Highest(flags, lo, hi) == mid - 1
  {
    HighestSkips(flags, lo, mid, hi);
  }

  // ---------------------------------------------------------------- word arithmetic

  /** The sequences from s up to the end of its word lie in consecutive bits of that word and
      in the same round of the ring. */
  lemma SameWord(s: int, d: nat, size: nat)
    requires size > 0 && size % 64 == 0 && (s % size) % 64 + d < 64
    ensures (s + d) % size == s % size + d && (s + d) / size == s / size
    ensures (s % size + d) / 64 == (s % size) / 64 && (s % size + d) % 64 == (s % size) % 64 + d
    ensures s % size + d < size
  {
    var slot := s % size;
    var w, b := slot / 64, slot % 64;
    assert slot == w * 64 + b;
    RingBuffer.RemainderUnique(slot + d, 64, w, b + d);
    WordFits(slot, size);
    RingBuffer.RemainderUnique(s + d, size, s / size, slot + d) by {
      assert s == (s / size) * size + slot;
    }
  }

  lemma WordFits(slot: int, size: int)
    requires 0 <= slot < size && size % 64 == 0
    ensures slot / 64 < size / 64 && (slot / 64) * 64 + 64 <= size
  {
  }

  /** `calculate_round_flag`, `expected_word` and the mismatch word of one word of the scan. */
  function Mismatches(word: nat, parity: int, start: nat, n: nat): nat {
    var expected := if parity == 0 then 0 else Pow2(64) - 1;
    var mask := if n >= 64 then Pow2(64) - 1 else RangeMask(start, n);
    And(Xor(word, expected), mask)
  }

  lemma MismatchBit(word: nat, parity: int, start: nat, n: nat, i: nat)
    requires 0 <= parity <= 1 && start + n <= 64 && i < 64
    ensures Bit(Mismatches(word, parity, start, n), i) <==>
              start <= i < start + n && Bit(word, i) != (parity == 1)
  {
    hide Bit, Xor, And, RangeMask, Pow2;
    var expected := if parity == 0 then 0 else Pow2(64) - 1;
    var mask := if n >= 64 then Pow2(64) - 1 else RangeMask(start, n);
    AndBit(Xor(word, expected), mask, i);
    XorBit(word, expected, i);
    if parity == 0 { ZeroBit(i); } else { OnesBit(64, i); }
    if n >= 64 { OnesBit(64, i); } else { RangeMaskBit(start, n, i); }
  }

  lemma MismatchBelow64(word: nat, parity: int, start: nat, n: nat)
    requires 0 <= parity <= 1 && start + n <= 64 && Mismatches(word, parity, start, n) > 0
    ensures TrailingZeros(Mismatches(word, parity, start, n)) < 64
  {
    hide Bit, Xor, And, RangeMask, Pow2, TrailingZeros;
    var expected := if parity == 0 then 0 else Pow2(64) - 1;
    var mask := if n >= 64 then Pow2(64) - 1 else RangeMask(start, n);
    var m := Mismatches(word, parity, start, n);
    TrailingZerosIsLowest(m);
    var i := TrailingZeros(m);
    AndBit(Xor(word, expected), mask, i);
    if n >= 64 { OnesBit(64, i); } else { RangeMaskBit(start, n, i); }
  }

  lemma AvailableIsBit(words: seq<nat>, s: int, d: nat)
    requires |words| > 0 && (s % (64 * |words|)) % 64 + d < 64
    ensures var size := 64 * |words|;
            var slot := s % size;
            && slot / 64 < |words|
            && (MultiProducer.IsAvailable(Flags(words), s + d, size) <==>
                Bit(words[slot / 64], slot % 64 + d) == (MultiProducer.Parity(s, size) == 1))
  {
    var size := 64 * |words|;
    SameWord(s, d, size);
    WordFits(s % size, size);
  }

  /** Without a mismatch bit below `good`, the first `good` sequences of a stretch are available. */
  lemma MatchingPrefix(words: seq<nat>, s: int, n: nat, good: nat)
    requires |words| > 0 && good <= n && (s % (64 * |words|)) % 64 + n <= 64
    requires (s % (64 * |words|)) / 64 < |words|
    requires var size := 64 * |words|;
             var start := (s % size) % 64;
             var m := Mismatches(words[(s % size) / 64], MultiProducer.Parity(s, size), start, n);
             forall i :: start <= i < start + good ==> !Bit(m, i)
    ensures forall x :: s <= x < s + good ==> MultiProducer.IsAvailable(Flags(words), x, 64 * |words|)
  {
    var size := 64 * |words|;
    var start := (s % size) % 64;
    forall x | s <= x < s + good ensures MultiProducer.IsAvailable(Flags(words), x, size) {
      MismatchBit(words[(s % size) / 64], MultiProducer.Parity(s, size), start, n, start + (x - s));
      AvailableIsBit(words, s, x - s);
    }
  }

  /** The mismatch word of the n sequences from s on. */
  ghost predicate IsMismatchWord(words: seq<nat>, s: int, n: nat, m: nat) {
    && |words| > 0 && (s % (64 * |words|)) % 64 + n <= 64 && (s % (64 * |words|)) / 64 < |words|
    && var slot := s % (64 * |words|);
       m == Mismatches(words[slot / 64], MultiProducer.Parity(s, 64 * |words|), slot % 64, n)
  }

  /** No mismatch bit: the whole stretch is available. */
  lemma NoMismatch(words: seq<nat>, s: int, n: nat, m: nat)
    requires IsMismatchWord(words, s, n, m) && m == 0
    ensures forall x :: s <= x < s + n ==> MultiProducer.IsAvailable(Flags(words), x, 64 * |words|)
  {
    forall i: nat ensures !Bit(m, i) { ZeroBit(i); }
    MatchingPrefix(words, s, n, n);
  }

  /** The lowest mismatch bit is the first sequence of the stretch that is not available. */
  lemma FirstMismatch(words: seq<nat>, s: int, n: nat, m: nat)
    requires IsMismatchWord(words, s, n, m) && m > 0
    ensures var good := TrailingZeros(m) - (s % (64 * |words|)) % 64;
            && 0 <= good < n && !MultiProducer.IsAvailable(Flags(words), s + good, 64 * |words|)
            && forall x :: s <= x < s + good ==> MultiProducer.IsAvailable(Flags(words), x, 64 * |words|)
  {
    var size := 64 * |words|;
    var start, parity, word := (s % size) % 64, MultiProducer.Parity(s, size), words[(s % size) / 64];
    MismatchBelow64(word, parity, start, n);
    TrailingZerosIsLowest(m);
    MismatchBit(word, parity, start, n, TrailingZeros(m));
    var good := TrailingZeros(m) - start;
    MatchingPrefix(words, s, n, good);
    AvailableIsBit(words, s, good);
  }

  /** How many sequences from s on one word operation covers: to the end of the word or of the
      range, whichever comes first. */
  function Stretch(s: int, hi: int, size: nat): (n: nat)
    requires size > 0 && s <= hi
    ensures 1 <= n && s + n - 1 <= hi && (s % size) % 64 + n <= 64
  {
    var inWord := 64 - (s % size) % 64;
    if inWord < hi - s + 1 then inWord else hi - s + 1
  }

  /** `get_highest_published_sequence_bitmap` is the plain scan, for all words and all ranges. */
  method HighestPublished(words: array<nat>, next: int, available: int) returns (r: int)
    requires words.Length > 0
    ensures r == Highest(Flags(words[..]), next, available)
  {
    hide Highest, Flags, TrailingZeros, Mismatches;
    NothingToScan(Flags(words[..]), available + 1, available);
    if next > available {
      NothingToScan(Flags(words[..]), next, available);
      return available;
    }
    var size := 64 * words.Length;
    var sequence := next;
    while sequence <= available
      invariant next <= sequence <= available + 1
      invariant Highest(Flags(words[..]), next, available) == Highest(Flags(words[..]), sequence, available)
    {
      var slot := sequence % size;
      WordFits(slot, size);
      var bits := Stretch(sequence, available, size);
      var mismatches := Mismatches(words[slot / 64], MultiProducer.Parity(sequence, size), slot % 64, bits);
      if mismatches != 0 {
        FirstMismatch(words[..], sequence, bits, mismatches);
        HighestStops(Flags(words[..]), sequence, sequence + (TrailingZeros(mismatches) - slot % 64), available);
        return sequence + (TrailingZeros(mismatches) - slot % 64) - 1;
      }
      NoMismatch(words[..], sequence, bits, mismatches);
      HighestSkips(Flags(words[..]), sequence, sequence + bits, available);
      sequence := sequence + bits;
    }
    r := available;
  }

  // ---------------------------------------------------------------- publishing ranges

  /** XOR-ing n bits of one word flips exactly the flags of n consecutive sequences. */
  lemma {:induction false} FlippedWord(words: seq<nat>, words': seq<nat>, s: int, n: nat, mask: nat)
    requires |words| > 0 && n >= 1 && (s % (64 * |words|)) % 64 + n <= 64
    requires forall i :: 0 <= i < 64 ==>
          (Bit(mask, i) <==> (s % (64 * |words|)) % 64 <= i < (s % (64 * |words|)) % 64 + n)
    requires (s % (64 * |words|)) / 64 < |words|
    requires words' == words[(s % (64 * |words|)) / 64 := Xor(words[(s % (64 * |words|)) / 64], mask)]
    ensures Flags(words') == Flip(Flags(words), s, s + n - 1)
  {
    hide Flip, Bit, Xor;
    var size := 64 * |words|;
    var slot := s % size;
    forall i | 0 <= i < size ensures Flags(words')[i] == Flip(Flags(words), s, s + n - 1)[i] {
      FlipAt(Flags(words), s, n, i);
      if i / 64 == slot / 64 {
        XorBit(words[i / 64], mask, i % 64);
        assert i == (i / 64) * 64 + i % 64 && slot == (slot / 64) * 64 + slot % 64;
      } else {
        assert !(slot <= i < slot + n);
      }
    }
  }

  lemma {:induction false} FlipAt(flags: seq<int>, s: int, n: nat, i: nat)
    requires |flags| > 0 && |flags| % 64 == 0 && i < |flags| && (s % |flags|) % 64 + n <= 64
    ensures Flip(flags, s, s + n - 1)[i] ==
              if s % |flags| <= i < s % |flags| + n then 1 - flags[i] else flags[i]
  {
    if n == 0 {
    } else {
      FlipAt(flags, s, n - 1, i);
      SameWord(s, n - 1, |flags|);
    }
  }

  lemma {:induction false} FlipConcat(flags: seq<int>, lo: int, mid: int, hi: int)
    requires |flags| > 0 && lo <= mid + 1 && mid <= hi
    ensures Flip(Flip(flags, lo, mid), mid + 1, hi) == Flip(flags, lo, hi)
    decreases hi - mid
  {
    if mid == hi {
    } else {
      FlipConcat(flags, lo, mid, hi - 1);
    }
  }

  lemma FlipNothing(flags: seq<int>, lo: int, hi: int)
    requires |flags| > 0 && lo > hi
    ensures Flip(flags, lo, hi) == flags
  {
  }

  method PublishWord(words: array<nat>, sequence: int, bits: nat)
    requires words.Length > 0 && bits >= 1 && (sequence % (64 * words.Length)) % 64 + bits <= 64
    modifies words
    ensures Flags(words[..]) == Flip(old(Flags(words[..])), sequence, sequence + bits - 1)
  {
    var slot := sequence % (64 * words.Length);
    WordFits(slot, 64 * words.Length);
    var mask := if bits >= 64 then Pow2(64) - 1 else RangeMask(slot % 64, bits);
    forall i: nat | i < 64 ensures Bit(mask, i) <==> slot % 64 <= i < slot % 64 + bits {
      if bits >= 64 { OnesBit(64, i); } else { RangeMaskBit(slot % 64, bits, i); }
    }
    ghost var before := words[..];
    words[slot / 64] := Xor(words[slot / 64], mask);
    FlippedWord(before, words[..], sequence, bits, mask);
  }

  /** `publish_range` in bitmap mode flips the flag of every sequence of the range, once each. */
  method PublishRange(words: array<nat>, low: int, high: int)
    requires words.Length > 0
    modifies words
    ensures Flags(words[..]) == Flip(old(Flags(words[..])), low, high)
  {
    hide Flip, Flags, Pow2;
    ghost var flags := Flags(words[..]);
    FlipNothing(flags, low, low - 1);
    if low > high {
      FlipNothing(flags, low, high);
      return;
    }
    var sequence := low;
    while sequence <= high
      invariant low <= sequence <= high + 1
      invariant Flags(words[..]) == Flip(flags, low, sequence - 1)
    {
      var bits := Stretch(sequence, high, 64 * words.Length);
      PublishWord(words, sequence, bits);
      FlipConcat(flags, low, sequence - 1, sequence + bits - 1);
      sequence := sequence + bits;
    }
  }

  /** A producer that announces its filled range one sequence at a time, as the multi-producer
      machine does, ends with the flags that the word-wise `publish_range` leaves. */
  lemma {:induction false} PublishingFlips(states: seq<MultiProducer.Producers>, i: nat, lo: int, hi: int,
                                           size: nat, k: nat)
    requires size >= 64 && 0 <= lo <= hi && k <= hi - lo + 1 && k < |states|
    requires forall j :: 0 <= j < k ==> MultiProducer.PublishesAt(states, j, i, size)
    requires |states[0].flags| == size && i < |states[0].handles| &&
          states[0].handles[i] == MultiProducer.Publishing(lo, hi)
    ensures states[k].flags == Flip(states[0].flags, lo, lo + k - 1)
    ensures states[k].published == states[0].published + (Sequences.Upto(lo + k) - Sequences.Upto(lo))
    ensures i < |states[k].handles|
    ensures states[k].handles[i] == (if lo + k <= hi then MultiProducer.Publishing(lo + k, hi) else MultiProducer.Idle)
  {
    if k == 0 {
    } else {
      PublishingFlips(states, i, lo, hi, size, k - 1);
      assert MultiProducer.PublishesAt(states, k - 1, i, size);
    }
  }
}
