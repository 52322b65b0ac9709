/** What one pipeline stage promises the rest of the pipeline, whatever loop it runs.

    A stage is seen through a `View`: the minimum of its consumer sequences (the only number
    that downstream barriers and producers look at), the sequences it has completed, the
    sequences whose slot it has entered for writing without completing them, and the accesses
    that are in progress. The three consumer loops, and a processor under any number of driving
    threads, each refine this contract. */
module StageContract {

  /** Consumer `who` of a stage is inside its handler on the slot of `at`. */
  datatype Access = Access(who: nat, at: int)

  datatype View = View(
    watermark: int,
    handled: set<int>,
    dirty: set<int>,
    active: set<Access>)

  /** The externally visible effect of one step of a stage. */
  datatype Event =
    | Quiet
    | Enter(who: nat, at: int)
    | Leave(who: nat, at: int)
    | Fail(who: nat, at: int)

  /** `ready` are the sequences the stage's barrier may release to it; `exclusive` stages
      mutate slots, the others are read-only fan-out stages. */
  ghost predicate Ok(v: View, ready: set<int>, exclusive: bool) {
    && -1 <= v.watermark
    && (forall s :: 0 <= s <= v.watermark ==> s in v.handled)
    && v.handled <= ready
    && v.dirty <= ready
    && v.dirty !! v.handled
    && (forall a <- v.active :: a.at in ready && a.at !in v.handled)
    && (if exclusive then
          (forall a <- v.active :: a.at in v.dirty) &&
          (forall a <- v.active, b <- v.active :: a.at == b.at ==> a == b)
        else
          v.dirty == {})
  }

  ghost predicate Next(v: View, v': View, ready: set<int>, exclusive: bool, e: Event) {
    && v.watermark <= v'.watermark
    && match e
       case Quiet =>
         v'.handled == v.handled && v'.dirty == v.dirty && v'.active == v.active
       case Enter(w, s) =>
         && s in ready && s !in v.handled && s !in v.dirty && Access(w, s) !in v.active
         && v'.handled == v.handled
         && v'.dirty == (if exclusive then v.dirty + {s} else {})
         && v'.active == v.active + {Access(w, s)}
       case Leave(w, s) =>
         && Access(w, s) in v.active
         && v.handled <= v'.handled <= v.handled + {s}
         && (exclusive ==> s in v'.handled)
         && v'.dirty == v.dirty - {s}
         && v'.active == v.active - {Access(w, s)}
       case Fail(w, s) =>
         && Access(w, s) in v.active
         && v'.handled == v.handled && v'.dirty == v.dirty
         && v'.active == v.active - {Access(w, s)}
  }

  /** The contract survives the upstream releasing more sequences. */
  lemma ReadyMayGrow(v: View, ready: set<int>, ready': set<int>, exclusive: bool)
    requires Ok(v, ready, exclusive) && ready <= ready'
    ensures Ok(v, ready', exclusive)
  {
  }
}
