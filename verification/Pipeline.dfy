/** The ring as a refinement of an unbounded log.

    The pipeline at the level of stage views: producers claim, fill and publish sequences of a
    ring of `size` slots, and a chain of stages works on them. `trail[(k, s)]` is history: for
    k = 0 the value published at s, for k > 0 the value stage k - 1 left in the event of s.
    No slot is ever remembered by the trail; the theorems say the ring holds it all the same. */
module Pipeline {
  import opened StageContract
  import RingBuffer

  datatype State<E> = State(
    size: nat,
    slots: seq<E>,
    claimed: int,
    published: set<int>,
    stages: seq<View>,
    exclusive: seq<bool>,
    trail: map<(nat, int), E>)

  datatype Step<E> =
    | Claim(n: nat)
    | Write(at: int, value: E)
    | Publish(batch: set<int>)
    | Consume(stage: nat, event: Event)
    | Mutate(stage: nat, who: nat, at: int, value: E)
    | Stutter

  /** What the barrier of stage k may release: the published sequences for the first stage,
      the sequences completed upstream for the others. */
  ghost function Ready<E>(st: State<E>, k: nat): set<int>
    requires k <= |st.stages|
  {
    if k == 0 then st.published else st.stages[k - 1].handled
  }

  /** The number producers gate on: the minimum sequence of the last stage. */
  ghost function Gate<E>(st: State<E>): int
    requires |st.stages| > 0
  {
    st.stages[|st.stages| - 1].watermark
  }

  ghost predicate StageOk<E>(st: State<E>, k: nat)
    requires k < |st.stages| == |st.exclusive|
  {
    Ok(st.stages[k], Ready(st, k), st.exclusive[k])
  }

  ghost predicate Shape<E>(st: State<E>) {
    && st.size > 0 && |st.slots| == st.size
    && 0 < |st.stages| == |st.exclusive|
    && -1 <= st.claimed
    && st.claimed - st.size <= Gate(st)
    && (forall s <- st.published :: 0 <= s <= st.claimed)
    && (forall k :: 0 <= k < |st.stages| ==> StageOk(st, k))
  }

  /** s has reached stage k, stage k has not begun to change it, and the producer may not yet
      overwrite it. */
  ghost predicate Resting<E>(st: State<E>, k: nat, s: int)
    requires |st.stages| > 0
  {
    && k <= |st.stages| && s in Ready(st, k) && Gate(st) < s
    && (k < |st.stages| ==> s !in st.stages[k].handled && s !in st.stages[k].dirty)
  }

  ghost predicate HoldsTrail<E>(st: State<E>, k: nat, s: int)
    requires st.size > 0 && |st.slots| == st.size
  {
    (k, s) in st.trail && st.trail[(k, s)] == st.slots[s % st.size]
  }

  /** The trail records exactly what has been published and completed. */
  ghost predicate Recorded<E>(st: State<E>, k: nat, s: int) {
    (k, s) in st.trail <==> k <= |st.stages| && s in Ready(st, k)
  }

  ghost predicate Inv<E>(st: State<E>) {
    && Shape(st)
    && (forall k: nat, s: int :: Recorded(st, k, s))
    && forall k: nat, s: int :: Resting(st, k, s) ==> HoldsTrail(st, k, s)
  }

  ghost predicate Init<E>(st: State<E>) {
    && st.size > 0 && |st.slots| == st.size
    && 0 < |st.stages| == |st.exclusive|
    && st.claimed == -1 && st.published == {} && st.trail == map[]
    && (forall v <- st.stages :: v == View(-1, {}, {}, {}))
  }

  /** The log entries that publishing `batch` appends. */
  ghost function Log<E>(st: State<E>, batch: set<int>): (m: map<(nat, int), E>)
    requires st.size > 0 && |st.slots| == st.size
    ensures forall k: nat, s: int :: (k, s) in m <==> k == 0 && s in batch
    ensures forall s <- batch :: m[(0, s)] == st.slots[s % st.size]
  {
    map p: (nat, int) | p in (set s | s in batch :: (0 as nat, s)) :: st.slots[p.1 % st.size]
  }

  ghost predicate Next<E>(st: State<E>, st': State<E>, step: Step<E>)
    requires Shape(st)
  {
    match step
    case Claim(n) =>
      && st.claimed + n - st.size <= Gate(st)
      && st' == st.(claimed := st.claimed + n)
    case Write(s, e) =>
      && 0 <= s <= st.claimed && s !in st.published
      && st' == st.(slots := st.slots[s % st.size := e])
    case Publish(batch) =>
      && (forall s <- batch :: 0 <= s <= st.claimed && s !in st.published)
      && st' == st.(published := st.published + batch,
                    trail := st.trail + Log(st, batch))
    case Consume(k, event) =>
      && k < |st.stages|
      && |st'.stages| == |st.stages|
      && Ok(st'.stages[k], Ready(st, k), st.exclusive[k])
      && StageContract.Next(st.stages[k], st'.stages[k], Ready(st, k), st.exclusive[k], event)
      && st' == st.(stages := st.stages[k := st'.stages[k]],
                    trail := if event.Leave? && event.at in st'.stages[k].handled then
                               st.trail[(k + 1, event.at) := st.slots[event.at % st.size]]
                             else st.trail)
    case Mutate(k, w, s, e) =>
      && k < |st.stages| && st.exclusive[k] && Access(w, s) in st.stages[k].active
      && st' == st.(slots := st.slots[s % st.size := e])
    case Stutter => st' == st
  }

  // ---------------------------------------------------------------- the live window

  lemma {:induction false} HandledChain<E>(st: State<E>, k: nat)
    requires Shape(st) && k < |st.stages|
    ensures st.stages[|st.stages| - 1].handled <= st.stages[k].handled <= Ready(st, k)
    ensures Ready(st, k) <= st.published
    decreases |st.stages| - k
  {
    UpstreamChain(st, k);
    assert StageOk(st, k);
    if k + 1 == |st.stages| {
    } else {
      HandledChain(st, k + 1);
    }
  }

  lemma {:induction false} UpstreamChain<E>(st: State<E>, k: nat)
    requires Shape(st) && k <= |st.stages|
    ensures Ready(st, k) <= st.published
  {
    if k == 0 {
    } else {
      UpstreamChain(st, k - 1);
      assert StageOk(st, k - 1);
    }
  }

  /** A sequence the last stage has not completed is above the gate. */
  lemma UnfinishedIsAboveGate<E>(st: State<E>, s: int)
    requires Shape(st) && 0 <= s && s !in st.stages[|st.stages| - 1].handled
    ensures Gate(st) < s
  {
    var n := |st.stages| - 1;
    assert StageOk(st, n);
  }

  /** Everything in use lies in one window no longer than the ring. */
  ghost predicate Live<E>(st: State<E>, s: int)
    requires |st.stages| > 0
  {
    Gate(st) < s <= st.claimed
  }

  lemma UnpublishedIsLive<E>(st: State<E>, s: int)
    requires Shape(st) && 0 <= s <= st.claimed && s !in st.published
    ensures Live(st, s)
  {
    HandledChain(st, 0);
    UnfinishedIsAboveGate(st, s);
  }

  lemma AccessIsLive<E>(st: State<E>, k: nat, a: Access)
    requires Shape(st) && k < |st.stages| && a in st.stages[k].active
    ensures Live(st, a.at) && a.at in st.published
  {
    assert StageOk(st, k);
    HandledChain(st, k);
    UnfinishedIsAboveGate(st, a.at);
  }

  lemma LiveSlotsDistinct<E>(st: State<E>, a: int, b: int)
    requires Shape(st) && Live(st, a) && Live(st, b) && a != b
    ensures a % st.size != b % st.size
  {
    if a % st.size == b % st.size {
      RingBuffer.WindowInjective(a, b, Gate(st), st.size);
    }
  }

  lemma RestingIsLive<E>(st: State<E>, k: nat, s: int)
    requires Shape(st) && Resting(st, k, s)
    ensures Live(st, s) && s in st.published
  {
    UpstreamChain(st, k);
  }

  /** A sequence some stage has not completed holds back that stage's minimum, the gate, every
      later stage, and every claim one round above it. */
  lemma UncompletedHoldsBack<E>(st: State<E>, k: nat, s: int)
    requires Shape(st) && k < |st.stages| && 0 <= s && s !in st.stages[k].handled
    ensures st.stages[k].watermark < s && Gate(st) < s && st.claimed < s + st.size
    ensures forall j :: k < j <= |st.stages| ==> s !in Ready(st, j)
  {
    assert StageOk(st, k);
    HandledChain(st, k);
    UnfinishedIsAboveGate(st, s);
    forall j | k < j <= |st.stages| ensures s !in Ready(st, j) {
      if s in Ready(st, j) { CompletedUpstream(st, k, j, s); }
    }
  }

  /** The minimum of any stage stays within what is published. */
  lemma WatermarkIsPublished<E>(st: State<E>, k: nat, s: int)
    requires Shape(st) && k < |st.stages| && 0 <= s <= st.stages[k].watermark
    ensures s in st.published
  {
    assert StageOk(st, k);
    HandledChain(st, k);
  }

  // ---------------------------------------------------------------- every step keeps Inv

  lemma InitInv<E>(st: State<E>)
    requires Init(st)
    ensures Inv(st)
  {
    forall k | 0 <= k < |st.stages|
      ensures st.stages[k] == View(-1, {}, {}, {}) && StageOk(st, k)
    {
      assert st.stages[k] in st.stages;
    }
  }

  lemma ClaimKeeps<E>(st: State<E>, st': State<E>, n: nat)
    requires Inv(st) && Next(st, st', Claim(n))
    ensures Inv(st')
  {
    forall k | 0 <= k < |st.stages|
      ensures StageOk(st', k)
    {
      assert StageOk(st, k);
    }
    forall k: nat, s: int ensures Recorded(st', k, s) {
      assert Recorded(st, k, s);
    }
    forall k: nat, s: int | Resting(st', k, s)
      ensures HoldsTrail(st', k, s)
    {
      assert Resting(st, k, s);
      assert HoldsTrail(st, k, s);
    }
  }

  /** Overwriting one live slot leaves every other live sequence's slot alone. */
  lemma SlotWriteKeeps<E>(st: State<E>, st': State<E>, at: int, e: E)
    requires Inv(st) && Live(st, at)
    requires st' == st.(slots := st.slots[at % st.size := e])
    requires forall k: nat :: !Resting(st, k, at)
    ensures Inv(st')
  {
    forall k | 0 <= k < |st.stages|
      ensures StageOk(st', k)
    {
      assert StageOk(st, k);
    }
    forall k: nat, s: int ensures Recorded(st', k, s) {
      assert Recorded(st, k, s);
    }
    forall k: nat, s: int | Resting(st', k, s)
      ensures HoldsTrail(st', k, s)
    {
      assert Resting(st, k, s);
      assert HoldsTrail(st, k, s);
      RestingIsLive(st, k, s);
      LiveSlotsDistinct(st, s, at);
    }
  }

  lemma WriteKeeps<E>(st: State<E>, st': State<E>, at: int, e: E)
    requires Inv(st) && Next(st, st', Write(at, e))
    ensures Inv(st')
  {
    UnpublishedIsLive(st, at);
    forall k: nat ensures !Resting(st, k, at) {
      if Resting(st, k, at) { RestingIsLive(st, k, at); }
    }
    SlotWriteKeeps(st, st', at, e);
  }

  /** A sequence being changed by an exclusive stage rests nowhere: upstream stages have
      completed it and this stage is no longer waiting for it. */
  lemma {:induction false} CompletedUpstream<E>(st: State<E>, j: nat, k: nat, s: int)
    requires Shape(st) && j < k <= |st.stages| && s in Ready(st, k)
    ensures s in st.stages[j].handled
    decreases k - j
  {
    if j + 1 == k {
    } else {
      assert StageOk(st, k - 1);
      CompletedUpstream(st, j, k - 1, s);
    }
  }

  lemma MutateKeeps<E>(st: State<E>, st': State<E>, k: nat, w: nat, at: int, e: E)
    requires Inv(st) && Next(st, st', Mutate(k, w, at, e))
    ensures Inv(st')
  {
    assert StageOk(st, k);
    AccessIsLive(st, k, Access(w, at));
    forall j: nat ensures !Resting(st, j, at) {
      if j < k {
        CompletedUpstream(st, j, k, at);
      } else if k < j <= |st.stages| && at in Ready(st, j) {
        CompletedUpstream(st, k, j, at);
      }
    }
    SlotWriteKeeps(st, st', at, e);
  }

  lemma PublishKeeps<E>(st: State<E>, st': State<E>, batch: set<int>)
    requires Inv(st) && Next(st, st', Publish(batch))
    ensures Inv(st')
  {
    forall k | 0 <= k < |st.stages|
      ensures StageOk(st', k)
    {
      assert StageOk(st, k);
      ReadyMayGrow(st.stages[k], Ready(st, k), Ready(st', k), st.exclusive[k]);
    }
    forall k: nat, s: int ensures Recorded(st', k, s) {
      assert Recorded(st, k, s);
    }
    forall k: nat, s: int | Resting(st', k, s)
      ensures HoldsTrail(st', k, s)
    {
      PublishContents(st, st', batch, k, s);
    }
  }

  lemma PublishContents<E>(st: State<E>, st': State<E>, batch: set<int>, k: nat, s: int)
    requires Inv(st) && Next(st, st', Publish(batch)) && Resting(st', k, s)
    ensures HoldsTrail(st', k, s)
  {
    if k > 0 || s !in batch {
      assert Resting(st, k, s);
      assert HoldsTrail(st, k, s);
    }
  }

  lemma ConsumeShape<E>(st: State<E>, st': State<E>, k: nat, event: Event)
    requires Inv(st) && Next(st, st', Consume(k, event))
    ensures Shape(st') && Gate(st) <= Gate(st')
  {
    forall j | 0 <= j < |st.stages|
      ensures StageOk(st', j)
    {
      assert StageOk(st, j);
      if j == k + 1 {
        ReadyMayGrow(st.stages[j], Ready(st, j), Ready(st', j), st.exclusive[j]);
      }
    }
  }

  lemma ConsumeKeeps<E>(st: State<E>, st': State<E>, k: nat, event: Event)
    requires Inv(st) && Next(st, st', Consume(k, event))
    ensures Inv(st')
  {
    ConsumeShape(st, st', k, event);
    forall j: nat, s: int ensures Recorded(st', j, s) {
      assert Recorded(st, j, s);
    }
    forall j: nat, s: int | Resting(st', j, s)
      ensures HoldsTrail(st', j, s)
    {
      if Resting(st, j, s) {
        assert HoldsTrail(st, j, s);
      } else {
        assert StageOk(st, k);
        assert s in Ready(st, j) || (j == k + 1 && event.Leave? && s == event.at);
      }
    }
  }

  lemma StepKeeps<E>(st: State<E>, st': State<E>, step: Step<E>)
    requires Inv(st) && Next(st, st', step)
    ensures Inv(st') && Gate(st) <= Gate(st')
  {
    match step
    case Claim(n) => ClaimKeeps(st, st', n);
    case Write(s, e) => WriteKeeps(st, st', s, e);
    case Publish(batch) => PublishKeeps(st, st', batch);
    case Consume(k, event) =>
      ConsumeKeeps(st, st', k, event);
      ConsumeShape(st, st', k, event);
    case Mutate(k, w, s, e) => MutateKeeps(st, st', k, w, s, e);
    case Stutter =>
  }
}
