/** The claim guard of the single-producer DSL (src/disruptor/disruptor.rs): one mutex per
    disruptor and one flag per thread, over any number of disruptors and threads. Translators are
    arbitrary user code, so they may publish again, to the same or another disruptor. */
module ClaimGuard {
  import opened Wrappers

  /** One call on a thread's stack. */
  datatype Frame =
    | UserCode                        // anything that takes no claim lock, multi-producer publishes included
    | Checking(ring: nat)             // `claim_guard` entered
    | Waiting(ring: nat)              // flag was clear; asking for the lock
    | Granted(ring: nat)              // lock held, flag not yet set
    | Claiming(ring: nat)             // lock held, flag set
    | Translating(ring: nat, at: int) // the user's translator runs on the claimed slot
    | Dropping(ring: nat)             // published; the translator's destructor, user code, runs
    | Finishing(ring: nat)            // about to release the guard
    | Unlocked(ring: nat)             // lock released, flag not yet cleared

  datatype Thread = Thread(flag: bool, frames: seq<Frame>)

  datatype Mark = Claim(at: int) | Publish(at: int) | Poison(at: int)

  /** `holder` is the mutex; `log` is history. */
  datatype Ring = Ring(holder: Option<nat>, claimed: int, poisoned: bool, log: seq<Mark>)

  datatype System = System(threads: seq<Thread>, rings: seq<Ring>)

  datatype Action =
    | Call(ring: nat)
    | CallOther
    | ReturnOther
    | ReadFlag
    | Lock
    | SetFlag
    | ClaimNext
    | ClaimRejected
    | PublishClaim
    | TranslatorDropped
    | TranslatorPanics
    | Unlock
    | ClearFlag
    | PoisonedElsewhere(ring: nat)

  ghost predicate Init(s: System) {
    && (forall t <- s.threads :: t == Thread(false, []))
    && (forall r <- s.rings :: r == Ring(None, -1, false, []))
  }

  predicate InUserCode(f: Frame) {
    f.UserCode? || f.Translating? || f.Dropping?
  }

  /** Frames during which the thread's flag is set. */
  predicate Flagged(f: Frame) {
    f.Claiming? || f.Translating? || f.Dropping? || f.Finishing? || f.Unlocked?
  }

  predicate Holds(f: Frame, ring: nat) {
    (f.Granted? || f.Claiming? || f.Translating? || f.Dropping? || f.Finishing?) && f.ring == ring
  }

  predicate Top(t: Thread, f: Frame) {
    t.frames != [] && t.frames[|t.frames| - 1] == f
  }

  function Replace(t: Thread, f: Frame): Thread
    requires t.frames != []
  {
    t.(frames := t.frames[..|t.frames| - 1] + [f])
  }

  function Pop(t: Thread): Thread
    requires t.frames != []
  {
    t.(frames := t.frames[..|t.frames| - 1])
  }

  /** What the step does to the thread that takes it. */
  ghost predicate ThreadNext(t: Thread, t': Thread, a: Action) {
    match a
    case Call(d) =>
      (t.frames == [] || InUserCode(t.frames[|t.frames| - 1])) && t' == t.(frames := t.frames + [Checking(d)])
    case CallOther =>
      (t.frames == [] || InUserCode(t.frames[|t.frames| - 1])) && t' == t.(frames := t.frames + [UserCode])
    case PoisonedElsewhere(_) => t' == t
    case _ =>
      t.frames != [] &&
      match (a, t.frames[|t.frames| - 1])
      case (ReturnOther, UserCode) => t' == Pop(t)
      case (ReadFlag, Checking(d)) => t' == if t.flag then Pop(t) else Replace(t, Waiting(d))
      case (Lock, Waiting(d)) => t' == Replace(t, Granted(d))
      case (SetFlag, Granted(d)) => t' == Replace(t, Claiming(d)).(flag := true)
      case (ClaimNext, Claiming(d)) => exists at :: t' == Replace(t, Translating(d, at))
      case (ClaimRejected, Claiming(d)) => t' == Replace(t, Finishing(d))
      case (PublishClaim, Translating(d, _)) => t' == Replace(t, Dropping(d))
      case (TranslatorDropped, Dropping(d)) => t' == Replace(t, Finishing(d))
      case (TranslatorPanics, Translating(d, _)) => t' == Replace(t, Finishing(d))
      case (Unlock, Finishing(d)) => t' == Replace(t, Unlocked(d))
      case (ClearFlag, Unlocked(_)) => t' == Pop(t).(flag := false)
      case _ => false
  }

  /** The disruptor a step acts on. */
  function Target(t: Thread, a: Action): Option<nat> {
    match a
    case PoisonedElsewhere(d) => Some(d)
    case Call(_) => None
    case CallOther => None
    case _ => if Last(t).UserCode? then None else Some(Last(t).ring)
  }

  /** What the step does to its disruptor. */
  predicate RingNext(r: Ring, r': Ring, i: nat, f: Frame, f': Frame, a: Action) {
    match a
    case Lock => r.holder.None? && r' == r.(holder := Some(i))
    case ClaimNext =>
      !r.poisoned && f'.Translating? && f'.at == r.claimed + 1 &&
      r' == r.(claimed := r.claimed + 1, log := r.log + [Claim(r.claimed + 1)])
    case PublishClaim => f.Translating? && r' == r.(log := r.log + [Publish(f.at)])
    case TranslatorPanics => f.Translating? && r' == r.(poisoned := true, log := r.log + [Poison(f.at)])
    case Unlock => r' == r.(holder := None)
    case PoisonedElsewhere(_) => r' == r.(poisoned := true)
    case _ => r' == r
  }

  function Last(t: Thread): Frame {
    if t.frames == [] then UserCode else t.frames[|t.frames| - 1]
  }

  ghost predicate Next(s: System, s': System, i: nat, a: Action) {
    && i < |s.threads| == |s'.threads| && |s'.rings| == |s.rings|
    && s'.threads == s.threads[i := s'.threads[i]]
    && ThreadNext(s.threads[i], s'.threads[i], a)
    && (a.Call? ==> a.ring < |s.rings|)
    && match Target(s.threads[i], a)
       case None => s'.rings == s.rings
       case Some(d) =>
         && d < |s.rings|
         && s'.rings == s.rings[d := s'.rings[d]]
         && RingNext(s.rings[d], s'.rings[d], i, Last(s.threads[i]), Last(s'.threads[i]), a)
  }

  // ---------------------------------------------------------------- one thread

  /** Every call but the innermost is in user code; a claim is never nested in another; the
      flag says whether there is one. */
  ghost predicate StackOk(t: Thread) {
    && (forall x :: 0 <= x < |t.frames| - 1 ==> InUserCode(t.frames[x]))
    && (forall x, y :: 0 <= x < y < |t.frames| && Flagged(t.frames[x]) ==>
          t.frames[y].UserCode? || t.frames[y].Checking?)
    && (t.flag <==> exists x :: 0 <= x < |t.frames| && Flagged(t.frames[x]))
  }

  lemma ThreadStep(t: Thread, t': Thread, a: Action)
    requires StackOk(t) && ThreadNext(t, t', a)
    ensures StackOk(t')
  {
    hide StackOk;
    if a.Call? || a.CallOther? {
      PushKeeps(t, Last(t'));
    } else if !a.PoisonedElsewhere? {
      if |t'.frames| < |t.frames| { PopKeeps(t, t'.flag); } else { ReplaceKeeps(t, Last(t'), t'.flag); }
    }
  }

  lemma PushKeeps(t: Thread, f: Frame)
    requires StackOk(t) && (t.frames == [] || InUserCode(Last(t))) && (f.UserCode? || f.Checking?)
    ensures StackOk(t.(frames := t.frames + [f]))
  {
    var t' := t.(frames := t.frames + [f]);
    assert forall x :: 0 <= x < |t.frames| ==> t'.frames[x] == t.frames[x];
  }

  lemma PopKeeps(t: Thread, flag: bool)
    requires StackOk(t) && t.frames != []
    requires (Flagged(Last(t)) && !flag) || (!Flagged(Last(t)) && flag == t.flag)
    ensures StackOk(Pop(t).(flag := flag))
  {
  }

  /** Nothing but plain user code and the flag check runs inside a claim. */
  lemma NothingFlaggedBelow(t: Thread)
    requires StackOk(t) && t.frames != [] && !Last(t).UserCode? && !Last(t).Checking?
    ensures forall x :: 0 <= x < |t.frames| - 1 ==> !Flagged(t.frames[x]) && InUserCode(t.frames[x])
  {
  }

  lemma ReplaceKeeps(t: Thread, f: Frame, flag: bool)
    requires StackOk(t) && t.frames != []
    requires !Last(t).UserCode? && (Last(t).Checking? ==> !t.flag)
    requires if Flagged(f) then flag || (flag == t.flag && Flagged(Last(t))) else flag == t.flag && !Flagged(Last(t))
    ensures StackOk(Replace(t, f).(flag := flag))
  {
    var t', n := Replace(t, f), |t.frames|;
    assert forall x :: 0 <= x < n - 1 ==> t'.frames[x] == t.frames[x];
    assert t'.frames[n - 1] == f;
    if !Last(t).Checking? { NothingFlaggedBelow(t); }
  }

  ghost predicate HoldsLock(frames: seq<Frame>, ring: nat) {
    exists x :: 0 <= x < |frames| && Holds(frames[x], ring)
  }

  ghost predicate IsTranslating(frames: seq<Frame>, ring: nat, at: int) {
    exists x :: 0 <= x < |frames| && frames[x] == Translating(ring, at)
  }

  predicate IsWaiting(t: Thread, ring: nat) {
    t.frames != [] && t.frames[|t.frames| - 1] == Waiting(ring)
  }

  function Below(t: Thread): seq<Frame> {
    if t.frames == [] then [] else t.frames[..|t.frames| - 1]
  }

  /** A thread past the flag check has no other claim under way. */
  lemma NothingBelow(t: Thread, ring: nat, at: int)
    requires StackOk(t) && t.frames != [] && !Last(t).UserCode? && !Last(t).Checking?
    ensures !HoldsLock(Below(t), ring) && !IsTranslating(Below(t), ring, at)
  {
  }

  /** No thread waits for a claim lock while it holds one. */
  lemma NoWaitWhileHolding(t: Thread, d: nat, e: nat)
    requires StackOk(t) && IsWaiting(t, d)
    ensures !HoldsLock(t.frames, e)
  {
  }

  /** Inside a translator, or its destructor, that a single-producer publish runs. */
  ghost predicate InsideTranslator(frames: seq<Frame>) {
    exists x :: 0 <= x < |frames| && (frames[x].Translating? || frames[x].Dropping?)
  }

  /** `claim_guard` reports a re-entrant publish exactly when the thread is inside such a
      translator or destructor, of this or any other disruptor. */
  lemma ReentrantIffInsideTranslator(t: Thread, d: nat)
    requires StackOk(t) && Top(t, Checking(d))
    ensures t.flag <==> InsideTranslator(t.frames)
  {
    if t.flag {
      var x :| 0 <= x < |t.frames| && Flagged(t.frames[x]);
      assert x < |t.frames| - 1 && InUserCode(t.frames[x]);
    }
  }

  // ---------------------------------------------------------------- all of them together

  /** Claim 0, its end, claim 1, its end, ...; only a publish is followed by another claim. */
  ghost predicate MarkOk(log: seq<Mark>, x: nat)
    requires x < |log|
  {
    if x % 2 == 0 then log[x] == Claim(x / 2)
    else log[x] == Publish(x / 2) || (log[x] == Poison(x / 2) && x == |log| - 1)
  }

  ghost predicate Paired(log: seq<Mark>) {
    forall x :: 0 <= x < |log| ==> MarkOk(log, x)
  }

  ghost predicate RingOk(s: System, d: nat)
    requires d < |s.rings|
  {
    var r := s.rings[d];
    && Paired(r.log) && r.claimed == (|r.log| + 1) / 2 - 1
    && (r.log != [] && r.log[|r.log| - 1].Poison? ==> r.poisoned)
    && (r.holder.Some? ==> r.holder.value < |s.threads|)
    && (|r.log| % 2 == 1 ==> r.holder.Some? && IsTranslating(s.threads[r.holder.value].frames, d, r.claimed))
  }

  /** The mutex and the stack agree on who holds it; only the claim in progress is being
      translated. */
  ghost predicate Agree(s: System, i: nat, d: nat)
    requires i < |s.threads| && d < |s.rings|
  {
    && (s.rings[d].holder == Some(i) <==> HoldsLock(s.threads[i].frames, d))
    && forall at :: IsTranslating(s.threads[i].frames, d, at) ==> at == s.rings[d].claimed && |s.rings[d].log| % 2 == 1
  }

  ghost predicate KnownRings(s: System, t: Thread) {
    forall x :: 0 <= x < |t.frames| && !t.frames[x].UserCode? ==> t.frames[x].ring < |s.rings|
  }

  ghost predicate Inv(s: System) {
    && (forall i :: 0 <= i < |s.threads| ==> StackOk(s.threads[i]) && KnownRings(s, s.threads[i]))
    && (forall d :: 0 <= d < |s.rings| ==> RingOk(s, d))
    && (forall i, d :: 0 <= i < |s.threads| && 0 <= d < |s.rings| ==> Agree(s, i, d))
  }

  lemma InitInv(s: System)
    requires Init(s)
    ensures Inv(s)
  {
    forall i | 0 <= i < |s.threads| ensures s.threads[i] == Thread(false, []) {
      assert s.threads[i] in s.threads;
    }
    forall d | 0 <= d < |s.rings| ensures s.rings[d] == Ring(None, -1, false, []) {
      assert s.rings[d] in s.rings;
    }
  }

  /** A step pushes, pops or replaces the innermost call. */
  lemma StackStep(t: Thread, t': Thread, a: Action, d: nat, at: int)
    requires StackOk(t) && ThreadNext(t, t', a)
    ensures var kept := if a.Call? || a.CallOther? || a.PoisonedElsewhere? then t.frames else Below(t);
            && (HoldsLock(t'.frames, d) <==> HoldsLock(kept, d) || Holds(Last(t'), d))
            && (IsTranslating(t'.frames, d, at) <==> IsTranslating(kept, d, at) || Last(t') == Translating(d, at))
            && (HoldsLock(t.frames, d) <==> HoldsLock(Below(t), d) || Holds(Last(t), d))
            && (IsTranslating(t.frames, d, at) <==> IsTranslating(Below(t), d, at) || Last(t) == Translating(d, at))
  {
    hide HoldsLock, IsTranslating, StackOk;
    Split(t, d, at);
    Split(t', d, at);
    var kept := if a.Call? || a.CallOther? || a.PoisonedElsewhere? then t.frames else Below(t);
    assert Below(t') == kept || t'.frames == kept;
  }

  lemma Split(t: Thread, d: nat, at: int)
    ensures HoldsLock(t.frames, d) <==> HoldsLock(Below(t), d) || Holds(Last(t), d)
    ensures IsTranslating(t.frames, d, at) <==> IsTranslating(Below(t), d, at) || Last(t) == Translating(d, at)
  {
  }

  lemma HoldingStep(t: Thread, t': Thread, a: Action, d: nat)
    requires StackOk(t) && ThreadNext(t, t', a)
    ensures HoldsLock(t'.frames, d) <==>
              (HoldsLock(t.frames, d) && !(a.Unlock? && Last(t) == Finishing(d))) || (a.Lock? && Last(t) == Waiting(d))
    ensures Holds(Last(t), d) ==> HoldsLock(t.frames, d)
  {
    hide HoldsLock, IsTranslating, StackOk;
    StackStep(t, t', a, d, 0);
    if t.frames != [] && !Last(t).UserCode? && !Last(t).Checking? { NothingBelow(t, d, 0); }
  }

  lemma TranslatingStep(t: Thread, t': Thread, a: Action, d: nat, at: int)
    requires StackOk(t) && ThreadNext(t, t', a)
    ensures IsTranslating(t'.frames, d, at) <==>
              (IsTranslating(t.frames, d, at) &&
                  !((a.PublishClaim? || a.TranslatorPanics?) && Last(t) == Translating(d, at)))
              || (a.ClaimNext? && Last(t) == Claiming(d) && Last(t') == Translating(d, at))
    ensures Last(t).Claiming? || Last(t).Dropping? || Last(t).Finishing? ==> !IsTranslating(t.frames, d, at)
    ensures Last(t) == Translating(d, at) ==> IsTranslating(t.frames, d, at)
  {
    hide HoldsLock, IsTranslating, StackOk;
    StackStep(t, t', a, d, at);
    if t.frames != [] && !Last(t).UserCode? && !Last(t).Checking? { NothingBelow(t, d, at); }
  }

  lemma TranslatorHolds(frames: seq<Frame>, d: nat, at: int)
    requires IsTranslating(frames, d, at)
    ensures HoldsLock(frames, d)
  {
  }

  lemma AgreeStep(s: System, s': System, j: nat, a: Action, i: nat, d: nat)
    requires Inv(s) && Next(s, s', j, a) && i < |s.threads| && d < |s.rings|
    ensures Agree(s', i, d)
  {
    hide HoldsLock, IsTranslating, StackOk;
    var t, t' := s.threads[j], s'.threads[j];
    assert StackOk(t);
    assert Agree(s, i, d) && Agree(s, j, d) && RingOk(s, d);
    HoldingStep(t, t', a, d);
    forall at ensures IsTranslating(s'.threads[i].frames, d, at) ==>
        at == s'.rings[d].claimed && |s'.rings[d].log| % 2 == 1 {
      if IsTranslating(s.threads[i].frames, d, at) { TranslatorHolds(s.threads[i].frames, d, at); }
      TranslatingStep(t, t', a, d, at);
      if Last(t).Translating? { TranslatingStep(t, t', a, d, Last(t).at); }
      if a.ClaimNext? && Last(t) == Claiming(d) { TranslatingStep(t, t', a, d, s.rings[d].claimed); }
    }
  }

  lemma LogStep(log: seq<Mark>, m: Mark)
    requires Paired(log) && (log != [] ==> !log[|log| - 1].Poison?)
    requires if |log| % 2 == 0 then m == Claim(|log| / 2) else m == Publish(|log| / 2) || m == Poison(|log| / 2)
    ensures Paired(log + [m])
  {
    var log' := log + [m];
    forall x | 0 <= x < |log'| ensures MarkOk(log', x) {
      if x < |log| { assert MarkOk(log, x); }
    }
  }

  lemma RingStep(s: System, s': System, j: nat, a: Action, d: nat)
    requires Inv(s) && Next(s, s', j, a) && d < |s.rings|
    ensures RingOk(s', d)
  {
    hide HoldsLock, IsTranslating, StackOk, Paired;
    var t, t' := s.threads[j], s'.threads[j];
    var r, r' := s.rings[d], s'.rings[d];
    assert StackOk(t);
    assert RingOk(s, d) && Agree(s, j, d);
    TranslatingStep(t, t', a, d, r.claimed);
    TranslatingStep(t, t', a, d, r'.claimed);
    if Last(t).Translating? { TranslatingStep(t, t', a, d, Last(t).at); }
    HoldingStep(t, t', a, d);
    if r'.log != r.log {
      EndsInPoison(r.log);
      LogStep(r.log, r'.log[|r.log|]);
      assert r'.log == r.log + [r'.log[|r.log|]];
    }
  }

  lemma EndsInPoison(log: seq<Mark>)
    requires Paired(log)
    ensures log != [] && log[|log| - 1].Poison? ==> |log| % 2 == 0
  {
    if log != [] { assert MarkOk(log, |log| - 1); }
  }

  lemma StepKeeps(s: System, s': System, j: nat, a: Action)
    requires Inv(s) && Next(s, s', j, a)
    ensures Inv(s')
  {
    ThreadStep(s.threads[j], s'.threads[j], a);
    forall i | 0 <= i < |s.threads| ensures StackOk(s'.threads[i]) && KnownRings(s', s'.threads[i]) {
      assert StackOk(s.threads[i]) && KnownRings(s, s.threads[i]);
    }
    forall d | 0 <= d < |s.rings| ensures RingOk(s', d) {
      RingStep(s, s', j, a, d);
    }
    forall i, d | 0 <= i < |s.threads| && 0 <= d < |s.rings| ensures Agree(s', i, d) {
      AgreeStep(s, s', j, a, i, d);
    }
  }

  // ---------------------------------------------------------------- over every run

  datatype Run = Run(states: seq<System>, threads: seq<nat>, acts: seq<Action>)

  ghost predicate StepAt(r: Run, t: nat)
    requires |r.states| == |r.acts| + 1 == |r.threads| + 1 && t < |r.acts|
  {
    Next(r.states[t], r.states[t + 1], r.threads[t], r.acts[t])
  }

  ghost predicate IsRun(r: Run) {
    && |r.states| == |r.acts| + 1 == |r.threads| + 1
    && Init(r.states[0])
    && forall t :: 0 <= t < |r.acts| ==> StepAt(r, t)
  }

  lemma {:induction false} RunInv(r: Run, t: nat)
    requires IsRun(r) && t < |r.states|
    ensures Inv(r.states[t])
  {
    if t == 0 {
      InitInv(r.states[0]);
    } else {
      RunInv(r, t - 1);
      assert StepAt(r, t - 1);
      StepKeeps(r.states[t - 1], r.states[t], r.threads[t - 1], r.acts[t - 1]);
    }
  }

  /** Thread i waits for a lock that thread j holds. */
  ghost predicate WaitsFor(s: System, i: nat, j: nat) {
    i < |s.threads| && j < |s.threads| &&
    exists d :: 0 <= d < |s.rings| && IsWaiting(s.threads[i], d) && s.rings[d].holder == Some(j)
  }

  /** In every reachable state, whoever is waited for is not waiting, so the wait-for graph has
      no path of length two and no cycle, not even of one thread. */
  lemma WaitedForIsNotWaiting(r: Run, t: nat, i: nat, j: nat)
    requires IsRun(r) && t < |r.states| && WaitsFor(r.states[t], i, j)
    ensures i != j && forall d :: !IsWaiting(r.states[t].threads[j], d)
  {
    var s := r.states[t];
    RunInv(r, t);
    var d :| 0 <= d < |s.rings| && IsWaiting(s.threads[i], d) && s.rings[d].holder == Some(j);
    assert Agree(s, j, d) && StackOk(s.threads[j]);
    forall e | IsWaiting(s.threads[j], e) ensures false {
      NoWaitWhileHolding(s.threads[j], e, d);
    }
  }

  ghost predicate Link(s: System, cycle: seq<nat>, x: nat)
    requires x < |cycle|
  {
    WaitsFor(s, cycle[x], cycle[(x + 1) % |cycle|])
  }

  lemma NoWaitCycle(r: Run, t: nat, cycle: seq<nat>)
    requires IsRun(r) && t < |r.states| && cycle != []
    ensures exists x :: 0 <= x < |cycle| && !Link(r.states[t], cycle, x)
  {
    if Link(r.states[t], cycle, 0) {
      WaitedForIsNotWaiting(r, t, cycle[0], cycle[1 % |cycle|]);
      assert !Link(r.states[t], cycle, 1);
    }
  }

  /** The claims a log has published, in the order of publication. */
  function PublishOrder(log: seq<Mark>): seq<int> {
    if log == [] then []
    else
      var last := log[|log| - 1];
      PublishOrder(log[..|log| - 1]) + (if last.Publish? then [last.at] else [])
  }

  function ClaimOrder(log: seq<Mark>): seq<int> {
    if log == [] then []
    else
      var last := log[|log| - 1];
      ClaimOrder(log[..|log| - 1]) + (if last.Claim? then [last.at] else [])
  }

  lemma {:induction false} PairedOrders(log: seq<Mark>)
    requires Paired(log)
    ensures PublishOrder(log) <= ClaimOrder(log) && |ClaimOrder(log)| == (|log| + 1) / 2
    ensures |ClaimOrder(log)| <= |PublishOrder(log)| + 1
    ensures log == [] || !log[|log| - 1].Poison? ==> |PublishOrder(log)| == |log| / 2
    ensures forall x :: 0 <= x < |ClaimOrder(log)| ==> ClaimOrder(log)[x] == x
  {
    if log == [] {
    } else {
      var init := log[..|log| - 1];
      assert MarkOk(log, |log| - 1);
      forall x | 0 <= x < |init| ensures MarkOk(init, x) && !init[x].Poison? {
        assert MarkOk(log, x);
      }
      PairedOrders(init);
    }
  }

  /** On each disruptor, whatever the threads do, claim and publish (or poison) pairs never
      interleave and publishing happens in claim order; at most the claim under way, or one
      whose translator panicked, is unpublished. */
  lemma PublishOrderIsClaimOrder(r: Run, t: nat, d: nat)
    requires IsRun(r) && t < |r.states| && d < |r.states[t].rings|
    ensures var log := r.states[t].rings[d].log;
            && Paired(log)
            && PublishOrder(log) <= ClaimOrder(log)
            && |ClaimOrder(log)| <= |PublishOrder(log)| + 1
  {
    RunInv(r, t);
    assert RingOk(r.states[t], d);
    PairedOrders(r.states[t].rings[d].log);
  }

  // ---------------------------------------------------------------- a publish gets through

  function Now(r: Run): System
    requires r.states != []
  {
    r.states[|r.states| - 1]
  }

  /** One more step. */
  lemma Extend(r: Run, s: System, i: nat, a: Action) returns (r': Run)
    requires IsRun(r) && Next(Now(r), s, i, a)
    ensures IsRun(r') && Now(r') == s
  {
    r' := Run(r.states + [s], r.threads + [i], r.acts + [a]);
    hide Next, Init;
    forall t | 0 <= t < |r'.acts| ensures StepAt(r', t) {
      if t < |r.acts| { assert StepAt(r, t); }
    }
  }

  /** The system with thread i and disruptor d replaced. */
  function With(s: System, i: nat, t: Thread, d: nat, r: Ring): System
    requires i < |s.threads| && d < |s.rings|
  {
    System(s.threads[i := t], s.rings[d := r])
  }

  /** A thread whose flag is clear and whose lock is free gets the lock and sets the flag. */
  lemma GuardIsTaken(r: Run, i: nat, d: nat) returns (r': Run)
    requires IsRun(r) && i < |Now(r).threads| && d < |Now(r).rings|
    requires Now(r).threads[i] == Thread(false, []) && Now(r).rings[d].holder.None?
    ensures IsRun(r')
    ensures Now(r') == With(Now(r), i, Thread(true, [Claiming(d)]), d, Now(r).rings[d].(holder := Some(i)))
  {
    var s := Now(r);
    hide IsRun;
    var free, held := s.rings[d], s.rings[d].(holder := Some(i));
    r' := Extend(r, With(s, i, Thread(false, [Checking(d)]), d, free), i, Call(d));
    r' := Extend(r', With(s, i, Thread(false, [Waiting(d)]), d, free), i, ReadFlag);
    r' := Extend(r', With(s, i, Thread(false, [Granted(d)]), d, held), i, Lock);
    r' := Extend(r', With(s, i, Thread(true, [Claiming(d)]), d, held), i, SetFlag);
  }

  /** The next sequence is claimed. */
  lemma ClaimIsMade(r: Run, i: nat, d: nat) returns (r': Run)
    requires IsRun(r) && i < |Now(r).threads| && d < |Now(r).rings|
    requires Now(r).threads[i] == Thread(true, [Claiming(d)]) && !Now(r).rings[d].poisoned
    ensures IsRun(r')
    ensures var ring := Now(r).rings[d];
            var n := ring.claimed + 1;
            Now(r') == With(Now(r), i, Thread(true, [Translating(d, n)]), d,
                            ring.(claimed := n, log := ring.log + [Claim(n)]))
  {
    var s := Now(r);
    hide IsRun;
    var ring, n, t, t' := s.rings[d], s.rings[d].claimed + 1, s.threads[i],
        Thread(true, [Translating(d, s.rings[d].claimed + 1)]);
    var claimed := ring.(claimed := n, log := ring.log + [Claim(n)]);
    assert t' == Replace(t, Translating(d, n));
    assert RingNext(ring, claimed, i, Last(t), Last(t'), ClaimNext);
    r' := Extend(r, With(s, i, t', d, claimed), i, ClaimNext);
  }

  /** And published. */
  lemma ClaimIsPublished(r: Run, i: nat, d: nat, n: int) returns (r': Run)
    requires IsRun(r) && i < |Now(r).threads| && d < |Now(r).rings|
    requires Now(r).threads[i] == Thread(true, [Translating(d, n)])
    ensures IsRun(r')
    ensures var ring := Now(r).rings[d];
            Now(r') == With(Now(r), i, Thread(true, [Finishing(d)]), d, ring.(log := ring.log + [Publish(n)]))
  {
    var s := Now(r);
    hide IsRun;
    var ring := s.rings[d];
    var published := ring.(log := ring.log + [Publish(n)]);
    r' := Extend(r, With(s, i, Thread(true, [Dropping(d)]), d, published), i, PublishClaim);
    r' := Extend(r', With(s, i, Thread(true, [Finishing(d)]), d, published), i, TranslatorDropped);
  }

  lemma GuardIsReleased(r: Run, i: nat, d: nat) returns (r': Run)
    requires IsRun(r) && i < |Now(r).threads| && d < |Now(r).rings|
    requires Now(r).threads[i] == Thread(true, [Finishing(d)])
    ensures IsRun(r')
    ensures Now(r') == With(Now(r), i, Thread(false, []), d, Now(r).rings[d].(holder := None))
  {
    var s := Now(r);
    hide IsRun;
    var free := s.rings[d].(holder := None);
    r' := Extend(r, With(s, i, Thread(true, [Unlocked(d)]), d, free), i, Unlock);
    r' := Extend(r', With(s, i, Thread(false, []), d, free), i, ClearFlag);
  }

  /** A thread that publishes to a sound disruptor whose lock is free claims and publishes exactly
      the next sequence and returns with lock and flag free, whatever the other threads are doing. */
  lemma PublishGetsThrough(r: Run, i: nat, d: nat) returns (r': Run)
    requires IsRun(r) && i < |Now(r).threads| && d < |Now(r).rings|
    requires Now(r).threads[i] == Thread(false, []) && Now(r).rings[d].holder.None? && !Now(r).rings[d].poisoned
    ensures IsRun(r')
    ensures var ring := Now(r).rings[d];
            var n := ring.claimed + 1;
            Now(r') == With(Now(r), i, Thread(false, []), d,
                             ring.(claimed := n, log := ring.log + [Claim(n), Publish(n)]))
  {
    var ring, n := Now(r).rings[d], Now(r).rings[d].claimed + 1;
    hide IsRun, Next;
    r' := GuardIsTaken(r, i, d);
    r' := ClaimIsMade(r', i, d);
    r' := ClaimIsPublished(r', i, d, n);
    r' := GuardIsReleased(r', i, d);
    assert ring.log + [Claim(n)] + [Publish(n)] == ring.log + [Claim(n), Publish(n)];
  }

  /** A publish that the sequencer rejects returns with lock and flag free and has changed nothing. */
  lemma RejectionLeavesNoTrace(r: Run, i: nat, d: nat) returns (r': Run)
    requires IsRun(r) && i < |Now(r).threads| && d < |Now(r).rings|
    requires Now(r).threads[i] == Thread(false, []) && Now(r).rings[d].holder.None?
    ensures IsRun(r') && Now(r') == Now(r)
  {
    var s := Now(r);
    var held := s.rings[d].(holder := Some(i));
    r' := GuardIsTaken(r, i, d);
    hide IsRun;
    r' := Extend(r', With(s, i, Thread(true, [Finishing(d)]), d, held), i, ClaimRejected);
    hide Next;
    r' := GuardIsReleased(r', i, d);
    assert s.threads[i := Thread(false, [])] == s.threads && s.rings[d := s.rings[d]] == s.rings;
  }
}
