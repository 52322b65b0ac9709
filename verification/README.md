# Verified model of the disruptor coordination protocol

A Dafny model of a ring-buffer event pipeline: producers claim consecutive sequences of a ring,
write their slots and publish; a chain of stages consumes them; the slowest consumer of the last
stage is the gate that keeps producers from overwriting what is still needed. `dafny verify
dfyconfig.toml` checks everything. All theorems are unbounded: any ring size, any number of
producers, stages, workers, readers and events, any interleaving of atomic steps.

## How the proof is built

- `StageContract.dfy` says what one stage owes the pipeline. `SequentialLoop.dfy` (batch loop and
  read-only fan-out) and `WorkerPool.dfy` (CAS-claim pool) are step machines of the consumer loops,
  each proved to refine that contract. `Lifecycle.dfy` interleaves `run`, `try_run_once`, `halt` and
  callbacks of one processor, `Driving.dfy` says what calls achieve, `Halting.dfy` follows a
  halt through it, and `ProcessorStage.dfy` proves the processor a stage too; `EventPoller.dfy` shows that every call on the user-driven
  poller is a sequence of steps of a sequential stage.
- `Producers.dfy` holds the single- and multi-producer sides as step machines; `Availability.dfy`
  proves the word-wise bitmap operations equal to the plain ones, over the bit lemmas of `Bits.dfy`.
- `Pipeline.dfy` proves, over stage contracts only, that the ring refines an unbounded log.
  `Disruptor.dfy` composes the machines and proves that every step of the whole is a pipeline step.
  `Guarantees.dfy`, `Barrier.dfy` and `Gating.dfy` draw the consequences for whole runs, and
  `Progress.dfy` shows that runs can go on: stages catch up and what fits is claimed.
- `Sequences.dfy` and `RingBuffer.dfy` model the minimum scans and the slot addressing as code;
  `BatchProcessor.dfy` proves the two drivers of a processor against one reference function;
  `ClaimGuard.dfy` is the claim lock of the single-producer DSL; `TailLatency.dfy` is the harness's
  exact arithmetic. `Wrappers.dfy` holds the optional value.

Shared objects whose fields are single atomics are modelled as states with one step per atomic
access, because their methods interleave; objects used by one thread at a time are classes.

## What the model assumes

- Atomic accesses are sequentially consistent steps. A barrier or gating scan may return any value
  up to the minimum at the moment it is used; `GatingScan`, `DependentScan`,
  `ResolveHighestPublished` and `ResolveByWords` show that real, non-atomic scans are such values.
- Sequences stay below `i64::MAX` minus the ring size; there is at least one stage.
- A chain is one `handle_events_with` followed by `then` calls, or the builder's stages in order.
- Each pool worker enters its loop once, from -1. Nobody outside writes a consumer sequence.
- Handlers return: a handler that panics mid-batch is not among the steps. Update closures and
  translators may panic.
- Callers of a processor that is a stage of a disruptor keep this condition: when its handler fails
  fatally no other driver is inside, and nobody calls `run` or `try_run_once` from then on. One
  driving thread that returns meets it (`OneDriverIsAllowed`); `BlockedDriverReenters` and
  `ProbeReentersFailedEvent` show that neither half can be dropped.
- A halt is one that follows a successful `run` compare-exchange; the start handshake is not used.
- User code, thread scheduling, timeouts and the environment's answers are arbitrary choices.

Two remarks on the code. The read-only loop has no `on_batch_start`; its machine shares the batch
loop's and so allows one more failure than the code has. After a halt the alert need not be set in
every later state: a driver that saw the halt at its re-check leaves through `on_shutdown`, so the
halted condition has the third case "already leaving". `HaltBeforeClear` is such a run, and
`AlertStaysExactly` says when the alert does stay set.

## Model

| member | source | states |
|---|---|---|
| `Guarantees.RunInv` | src/disruptor/builder/core.rs:205-325 | In every run of every disruptor (any ring size, any chain of sequential, pool, fan-out and concurrently driven processor stages, one or many producers, every interleaving) every state satisfies the full invariant. Callers of a processor stage keep the condition that, when its handler fails fatally, no other driver is inside and nobody calls run or try_run_once afterwards. |
| `Guarantees.SlotExclusion` | src/disruptor/consumer_engine.rs:193-250 | Two parties inside user code on the same ring slot are always two readers of one fan-out stage reading the same event; producer and stage windows never overlap, nor do those of two stages or two producers. |
| `Guarantees.RingRefinesLog` | src/disruptor/ring_buffer.rs:161-163 | When stage k is handed s, the slot holds what was published at s (k = 0) or what stage k-1 left in s, however often the ring has wrapped. |
| `Guarantees.ReadersSeeLog` | src/disruptor/consumer_engine.rs:471-525 | A fan-out reader sees that value for the whole time it reads. |
| `Guarantees.LogIsStable` | src/disruptor/consumer_engine.rs:193-250 | What was published at s, or left in s by a stage, is recorded once and never changes over the rest of the run. |
| `Guarantees.LogIsComposition` | src/disruptor/disruptor.rs:669-698 | If the handlers of mutating stages compute f, the value reaching stage k at s is what those of them before k make, one after the other, of the value published at s. |
| `Guarantees.FanOutIsIdentity` | src/disruptor/consumer_engine.rs:492-512 | A read-only stage leaves every event exactly as it was handed it. |
| `Guarantees.HandedOutOnce` | src/disruptor/consumer_engine.rs:351-412 | Over a whole run a mutating stage, whatever its loop, hands no sequence out twice, to the same or to different workers (a processor under the condition on its callers). |
| `Guarantees.ReaderHandedOnce` | src/disruptor/consumer_engine.rs:483-512 | Every fan-out reader is handed sequences in strictly increasing order. |
| `Guarantees.OnlyFinishedIsSeen` | src/disruptor/producer.rs:590-731 | Whoever is handed s by whatever stage, s is published and its update closure returned, for any mix of single and batch publishes and panics. |
| `Guarantees.PanicOrphans` | src/disruptor/producer.rs:383-430 | A panicking update closure leaves its whole claim orphaned: claimed, never finished, no longer being filled. |
| `Guarantees.OrphanNeverExposed` | src/disruptor/producer.rs:413-430 | An orphaned claim is, for the rest of the run, never published, never passed by the gate and never reached by a claim one round later. |
| `Guarantees.PanicStopsClaims` | src/disruptor/producer.rs:413-430 | A panicking closure poisons, in single- and multi-producer mode: from then on every state is poisoned, the panicking handle stays out, and no producer outside the poison check then ever fills a slot again. |
| `Guarantees.PoisonStopsClaims` | src/disruptor/sequencer.rs:1492-1494 | Poison from whatever source is for ever and keeps out everybody who is outside. |
| `Guarantees.CloseStopsClaims` | src/disruptor/sequencer.rs:1489-1491 | A producer idle when claims are closed stays idle until they are reopened. |
| `Guarantees.FillsWhatItHolds` | src/disruptor/producer.rs:678-696 | A closure may write exactly the slots that its handle holds. |
| `Guarantees.FailedEventIsNeverReleased` | src/disruptor/consumer_engine.rs:217-250 | Once a consumer fails on s, or stops holding s, the stage minimum and the producer gate stay below s for ever, no later stage is handed s and no claim reaches s + size (a processor under the condition on its callers). |
| `Guarantees.StuckForever` | src/disruptor/consumer_engine.rs:383-409 | A failed or abandoned event is never picked up again (a processor under the condition on its callers). |
| `Guarantees.SkippedScanIsExact` | src/disruptor/sequence_barrier.rs:229-236 | In single-producer mode, and behind any stage, skipping the contiguity scan returns exactly what the scan would, and that value is one the stage may be given: neither the cursor nor any stage minimum, pools included, passes an unpublished sequence. |
| `Guarantees.ReleasesWhatItSees` | src/disruptor/sequence_barrier.rs:211-220 | Such a barrier may answer exactly what it can observe: the cursor, or the minimum of the stage before. |
| `Guarantees.BarrierIsExact` | src/disruptor/sequence_barrier.rs:208-227 | For every sequence a stage has not completed its barrier may answer it if and only if it is published (first stage, either mode), or reached by the minimum of the stage before. |
| `Guarantees.FlagsTellPublication` | src/disruptor/sequencer.rs:1415-1424 | In every reachable multi-producer state and for every pending sequence, the availability flag of its slot is right if and only if it is published; ring rounds are never confused. |
| `Barrier.ResolveHighestPublished` | src/disruptor/sequence_barrier.rs:208-236 | The flag-by-flag scan of a ring that producers keep changing, made for a stage that has not completed the first sequence asked for, answers between the instantaneous scan at its start and the one at its end; everything it vouches for is published from then on and is an answer the first stage may be given. |
| `Barrier.ResolveByWords` | src/disruptor/sequencer.rs:1332-1386 | The same for the bitmap scan that loads one word at a time while producers flip bits between the loads. |
| `Barrier.FlagScanIsExact` | src/disruptor/sequencer.rs:1389-1411 | In every reachable state the flag scan from a pending sequence equals the scan of the set of published sequences. |
| `Barrier.WorkerMayAdvertiseUnpublished` | src/disruptor/consumer_engine.rs:356-363 | A concrete run in which one worker advertises 0 although nothing is published or handled, while the pool minimum stays at -1: only the minimum means anything. |
| `Gating.GatingScan` | src/disruptor/sequence.rs:184-200 | A gating scan made while consumers run returns a value the gate has reached by the end of the scan and never falls below again, clamped by the producer position, and not below the minimum at its start. |
| `Gating.DependentScan` | src/disruptor/sequence_barrier.rs:211-215 | The barrier of a later stage, loading the sequences of the stage before one after the other while they move, answers between their minima at start and end, and only what is released to that stage from then on. |
| `Gating.NeverOvertakes` | src/disruptor/builder/core.rs:268-290 | Whatever a later stage has completed, entered or is working on lies at or below the minimum of the stage before it, in every state of every run. |
| `Gating.ValuesNeverGoBack` | src/disruptor/consumer_engine.rs:236-250 | No consumer sequence of any stage ever decreases. |
| `Gating.WatchedBelowGate` | src/disruptor/disruptor.rs:315-317 | Gating on the last stage and gating on every stage are both safe: neither minimum exceeds the last stage's. |
| `Gating.DrainBacklog` | src/disruptor/disruptor.rs:440-476 | If the drain loop reports success, every stage has completed every sequence from 0 to the cursor read after close, and no stage freezes, at any time of the run, on an event at or below it. It waits exactly while polls show no poison, no dead consumer, no passed deadline and no drained backlog, and each other answer is what the next poll shows; it times out only on a backlog not already drained. |
| `Gating.DrainedMeansNoFailure` | src/disruptor/disruptor.rs:417-429 | An event some stage ever freezes on, before or after, is uncompleted at every moment of the run. |
| `Gating.HandledForever` | src/disruptor/consumer_engine.rs:244-250 | A completed sequence stays completed. |
| `Disruptor.StepRefines` | src/disruptor/builder/core.rs:250-325 | Every step of any loop, pool worker, reader, processor thread or producer keeps the system invariant and is a step of the abstract pipeline. |
| `Disruptor.ReleasedIsReady` | src/disruptor/sequence_barrier.rs:208-236 | Whatever a barrier vouches for from a pending sequence up has been completed upstream, or published. |
| `Progress.StageStepExtendsRun` | src/disruptor/builder/core.rs:250-325 | Every step that the machine of a stage allows on what its barrier releases is a step of the whole. |
| `Progress.HolderMayWrite` | src/disruptor/consumer_engine.rs:212-222 | A handler of a mutating stage may change the event it is on, and a closure the slots of its claim, and nothing else changes. |
| `Progress.StageCatchesUp` | src/disruptor/consumer_engine.rs:195-250 | In any run a sequential stage at its loop head can bring its sequence to whatever is released to it. |
| `Progress.ChainDrains` | src/disruptor/disruptor.rs:440-476 | A chain of sequential stages at rest can complete everything published: the gate reaches the cursor. |
| `Progress.FittingClaimIsGranted` | src/disruptor/sequencer.rs:810-879 | In any run an idle, open, sound single producer gets every claim that fits below the gate. |
| `Progress.FittingClaimIsGrantedMulti` | src/disruptor/sequencer.rs:1475-1530 | The same for any of several producers that is alone in claiming. |
| `Progress.NeverWedged` | src/disruptor/sequencer.rs:823-852 | However full the ring, such a disruptor has a continuation that completes everything published and then grants a claim of any size up to the whole ring. |
| `Pipeline.StepKeeps` | src/disruptor/consumer_engine.rs:193-250 | Every pipeline step keeps "each resting event's slot holds its log entry", and the gate never falls. |
| `Pipeline.UncompletedHoldsBack` | src/disruptor/sequencer.rs:762-788 | A sequence some stage has not completed holds back that stage's minimum, every later stage, the gate and every claim one round above it. |
| `Pipeline.WatermarkIsPublished` | src/disruptor/sequence_barrier.rs:130-137 | Everything at or below the minimum of any stage is published. |
| `Pipeline.LiveSlotsDistinct` | src/disruptor/ring_buffer.rs:161-163 | All sequences in use at one time have distinct slots. |
| `SequentialLoop.RefinesStage` | src/disruptor/consumer_engine.rs:193-262 | The sequential batch loop keeps its invariant and refines the stage contract, fatal errors and stops included. |
| `SequentialLoop.BatchCompletes` | src/disruptor/consumer_engine.rs:195-251 | A loop at its head that is answered a released range takes all of it and ends at its head with its sequence on the last event. |
| `SequentialLoop.FailureIsFinal` | src/disruptor/consumer_engine.rs:205-243 | A failed batch start or a fatal event ends the loop for good, frozen on the last completed event. |
| `SequentialLoop.StopIsHeeded` | src/disruptor/consumer_engine.rs:195-196 | A loop heeds a stop exactly at its head. |
| `SequentialLoop.FanOutRefinesStage` | src/disruptor/consumer_engine.rs:471-525 | Any number of read-only loops together refine the read-only stage contract, completion being that of the slowest. |
| `WorkerPool.StepKeeps` | src/disruptor/consumer_engine.rs:348-414 | Every atomic step of every worker keeps the pool invariant: owned sequences are distinct, every claimed sequence is handled or owned, advertised values stay below claims. |
| `WorkerPool.WatermarkSafety` | src/disruptor/consumer_engine.rs:321-333 | Everything at or below the minimum of the workers' sequences has been handled and was ready. |
| `WorkerPool.MinimumIsHandled` | src/disruptor/consumer_engine.rs:348-414 | The same in every reachable state of every run with any number of workers. |
| `WorkerPool.HandlesReadyAlone` | src/disruptor/consumer_engine.rs:366-397 | A handler runs only on a ready sequence that is not yet handled and that no other worker owns, also when the claim was served from the cached availability. |
| `WorkerPool.ReadyClaimIsServed` | src/disruptor/consumer_engine.rs:366-380 | A claim that is ready is served, at once from the cache or after one wait that answers it; once an answer covers it the worker can do nothing else. |
| `WorkerPool.ReadyClaimCompletes` | src/disruptor/consumer_engine.rs:382-412 | Over runs: a ready claim whose handler returns Ok ends handled, with the sequence of the worker on it. |
| `WorkerPool.LoneWorkerClaims` | src/disruptor/consumer_engine.rs:352-364 | A worker alone at its loop head claims the next sequence and has advertised the cursor. |
| `WorkerPool.PoolCatchesUp` | src/disruptor/consumer_engine.rs:351-413 | A pool at its loop heads, of any number of workers, can bring its minimum to everything that is ready. |
| `WorkerPool.ClaimsEndHandled` | src/disruptor/consumer_engine.rs:397-412 | Over runs a worker lets go of a claim only with the claim handled and its own sequence on or past it. |
| `WorkerPool.StopIsHeeded` | src/disruptor/consumer_engine.rs:353-379 | A worker heeds a stop exactly at its loop head and while it waits for a claim it does not know to be available. |
| `WorkerPool.FailureIsFinal` | src/disruptor/consumer_engine.rs:383-409 | A failed batch start or event ends the worker for good, its sequence still before the claim. |
| `WorkerPool.AbandonedHoldsMinimum` | src/disruptor/consumer_engine.rs:366-409 | A claim abandoned at stop, or whose handler failed, keeps the minimum below it and stays unhandled for the rest of the run. |
| `WorkerPool.CursorCountsClaims` | src/disruptor/consumer_engine.rs:356-363 | The shared cursor counts the successful claims exactly. |
| `WorkerPool.ClaimRaceCost` | src/disruptor/consumer_engine.rs:351-364 | With n workers and k successful claims at most (n-1)*k compare-exchange attempts have failed. |
| `WorkerPool.RunAheadBound` | src/disruptor/consumer_engine.rs:356-363 | Claims exceed handled sequences by at most one per worker. |
| `WorkerPool.RefinesStage` | src/disruptor/consumer_engine.rs:348-414 | The pool refines the exclusive stage contract. |
| `SingleProducer.StepKeeps` | src/disruptor/sequencer.rs:810-879 | Single producer: claims are consecutive, only a publish moves the cursor, and exactly the finished claims are visible. |
| `SingleProducer.FittingClaimIsGranted` | src/disruptor/sequencer.rs:818-852 | A claim that fits below the scanned minimum is granted and cannot be refused. |
| `SingleProducer.ScanDecides` | src/disruptor/sequencer.rs:762-788 | A scan decides a claim one way or the other, never both. |
| `SingleProducer.PoisonBars` | src/disruptor/sequencer.rs:690-704 | A panic poisons, and poison admits nobody who is still outside. |
| `SingleProducer.ClosedBars` | src/disruptor/sequencer.rs:690-704 | A closed side admits no new claim until reopened. |
| `SingleProducer.FenceExposesUnpublishedClaims` | src/disruptor/sequencer.rs:818-820 | The cursor store that a claim, granted or refused, makes before its gating scan exposes exactly the claims never published; it is invisible if and only if there are none. |
| `SingleProducer.SecondClaimExposesUnwritten` | src/disruptor/sequencer.rs:818-839 | A concrete raw-sequencer caller that claims again before publishing: sequence 0 becomes visible although it was never written. |
| `MultiProducer.StepKeeps` | src/disruptor/sequencer.rs:1475-1530 | Racing producers hold disjoint claims; published sequences are finished ones; unpublished parts of a claim stay unpublished until their owner flags them. |
| `MultiProducer.ScanDecides` | src/disruptor/sequencer.rs:1503-1515 | A scan admits a loaded claim exactly if it fits below the scanned minimum and refuses it exactly if not. |
| `MultiProducer.LoneClaim` | src/disruptor/sequencer.rs:1475-1530 | A producer alone, on an open, sound side with room, gets exactly the next n sequences. |
| `MultiProducer.LonePublish` | src/disruptor/sequencer.rs:1570-1604 | A filled claim can be announced to the end: exactly its sequences are added to the published ones. |
| `MultiProducer.PoisonBars` | src/disruptor/sequencer.rs:1492-1494 | A panic poisons, and poison admits no handle that is still outside. |
| `MultiProducer.ClosedBars` | src/disruptor/sequencer.rs:1489-1491 | A closed side admits no new claim until reopened. |
| `MultiProducer.ClaimKeepsFlags` | src/disruptor/sequencer.rs:1499-1525 | A granted claim keeps the flags right for the whole new window, given that the round it overwrites was published. |
| `MultiProducer.PublishKeepsFlags` | src/disruptor/sequencer.rs:1281-1303 | Flagging one sequence makes exactly that sequence available, by parity below 64 slots and by a flipped bit from 64 up. |
| `Availability.HighestPublished` | src/disruptor/sequencer.rs:1332-1386 | On words that stand still the 64-bits-at-a-time scan returns exactly what the one-sequence-at-a-time scan returns, for all words and ranges. |
| `Availability.HighestIsContiguousEnd` | src/disruptor/sequencer.rs:1389-1411 | That scan is the end of the available run from the requested sequence: all before it available, the next one not; one less than requested if that is missing. |
| `Availability.PublishRange` | src/disruptor/sequencer.rs:1593-1633 | Publishing a range word by word flips the flag of every sequence of the range in turn and no other. |
| `Availability.PublishWord` | src/disruptor/sequencer.rs:1609-1624 | One fetch_xor flips exactly the flags of the sequences its mask covers. |
| `Availability.PublishingFlips` | src/disruptor/sequencer.rs:1580-1628 | A producer of the multi-producer machine that announces its range one sequence at a time ends with exactly the flags, and the published set, of the word-wise range publish. |
| `RingBuffer.MaskIsRemainder` | src/disruptor/ring_buffer.rs:161-163 | For every power-of-two size and every sequence, negative ones included, the masked index is the Euclidean remainder. |
| `RingBuffer.WindowInjective` | src/disruptor/ring_buffer.rs:161-163 | Slot indices are injective on any window no longer than the ring. |
| `RingBuffer.AcceptedSizes` | src/disruptor/ring_buffer.rs:197-202 | The sizes accepted are exactly 2^0 to 2^62. |
| `RingBuffer.New` | src/disruptor/ring_buffer.rs:189-240 | Construction succeeds exactly for those sizes and fills every slot; otherwise it reports the size. |
| `RingBuffer.Ring.Put` | src/disruptor/ring_buffer.rs:290-295 | Writing a sequence changes the slot of its residue and no other. |
| `RingBuffer.Ring.Get` | src/disruptor/ring_buffer.rs:253-260 | Reading a sequence reads the slot of its residue. |
| `RingBuffer.BatchIter.Next` | src/disruptor/ring_buffer.rs:441-451 | The iterator yields the slot of the next sequence and one fewer remains, until none does. |
| `RingBuffer.BatchSlots` | src/disruptor/ring_buffer.rs:413-451 | Draining a batch iterator yields one slot per sequence in order, pairwise distinct if the claim fits the ring. |
| `Sequences.GetMinimumSequence` | src/disruptor/sequence.rs:169-182 | The one-at-a-time minimum scan over moving sequences lies between the true minimum at its start and at its end; i64::MAX for none. |
| `Sequences.GetMinimumSequenceWithDefault` | src/disruptor/sequence.rs:191-200 | The same, both ends clamped by the default; the default for none. |
| `BatchProcessor.Processor.RunLoop` | src/disruptor/consumer_engine.rs:193-251 | The batch loop computes the reference function of the barrier's answers: same calls, same end-of-batch flags, same final sequence, same poison outcome. |
| `BatchProcessor.Processor.TryRunOnce` | src/disruptor/event_processor.rs:380-461 | One probe computes one batch of that function and says which of its three outcomes occurred. |
| `BatchProcessor.Processor.ProbeRepeatedly` | src/disruptor/event_processor.rs:355-476 | Repeated probes compute the same function as the loop, so they refine it. |
| `BatchProcessor.DriveAccounts` | src/disruptor/consumer_engine.rs:202-250 | Whatever handlers decide, they are given each sequence once and in order up to the one that stopped them; the sizes announced for completed batches add up to the events completed in them, and a processor that stopped did so inside the one batch announced after those. |
| `BatchProcessor.DriveStops` | src/disruptor/consumer_engine.rs:205-243 | Processing stops, poisoned, at the first call user code refuses and nowhere else; without a refusal the sequence reaches the highest answer of the barrier. |
| `BatchProcessor.DriveTrace` | src/disruptor/consumer_engine.rs:202-250 | The whole call trace of every drive: completed batches one after the other, each announced with size equal to queue depth and followed by exactly that many consecutive events with end-of-batch on the last and only there, then, if the processor stopped, the beginning of one more; the final sequence follows from it. |
| `Lifecycle.StepKeeps` | src/disruptor/event_processor.rs:252-282 | Any step of any thread in run, try_run_once, halt or a callback keeps the handler lock exclusive and the sequence equal to the last completed event outside batches. |
| `Lifecycle.CompletedOnceInOrder` | src/disruptor/event_processor.rs:268-279 | With any number of driving, probing and halting threads the completed events are 0, 1, 2, ... each once and in order, and the sequence never decreases, also where a halt lets a second driver win the flag. |
| `Driving.RunningIsDriven` | src/disruptor/event_processor.rs:288-294 | In every state of every run, a processor that says it is running is being driven. |
| `Driving.IdleIsReleased` | src/disruptor/event_processor.rs:349-352 | When every call has returned, flag and lock are free and the sequence is the last completed event, so the next call is let in. |
| `Driving.OneDriverAtATime` | src/disruptor/event_processor.rs:319-327 | Without halts, shutdown callbacks and failures the running flag is a lock: in every state of every run at most one thread is inside run or try_run_once, and the flag says whether. |
| `Driving.RefusedWhileRunning` | src/disruptor/event_processor.rs:362-370 | A call made while the flag is set is refused and changes nothing. |
| `Driving.ProbeCompletesBatch` | src/disruptor/event_processor.rs:355-461 | try_run_once on an idle processor completes exactly what the barrier offers and returns with flag and lock released. |
| `Driving.LoopCompletesBatch` | src/disruptor/consumer_engine.rs:195-250 | A processor loop at its head completes all of the batch it is answered and is at its head again. |
| `Driving.RunGetsGoing` | src/disruptor/event_processor.rs:319-352 | run on an idle processor gets to its loop head at the first uncompleted event. |
| `Driving.NeverStuck` | src/disruptor/event_processor.rs:252-282 | A thread inside a call always has a next step, unless it waits for a lock that is held. |
| `Driving.WaitErrorIsRetried` | src/disruptor/consumer_engine.rs:252-260 | A wait that fails for any reason but an alert is tried again unless somebody has stopped the processor. |
| `Halting.HaltTakesEffect` | src/disruptor/event_processor.rs:306-309 | In every run, a halt called while a driver is anywhere inside run has taken effect when it returns, also if it falls before the alert is cleared: nothing sets running again between its two stores. |
| `Halting.HaltIsNotLost` | src/disruptor/event_processor.rs:252-266 | After that every step keeps running false and the alert set, or the driver before its re-check, or already leaving; bystanders cannot undo it. |
| `Halting.HaltedUntilReturn` | src/disruptor/event_processor.rs:319-352 | From a halt that took effect until run returns, the driver takes boundedly many more steps and completes no more events than were left in the batch it held. |
| `Halting.NoLostHalt` | src/disruptor/event_processor.rs:306-352 | From the call of halt on, over runs: once it has returned, running stays false and the driver leaves within that many steps and events. |
| `Halting.AlertStaysExactly` | src/disruptor/event_processor.rs:331-332 | From a halt on, with no other halt or driver, the alert is set at a later moment if and only if the driver had already cleared alerts when the halt raised this one, or has not done so yet. |
| `Halting.AlertAfterHalt` | src/disruptor/event_processor.rs:306-332 | The same from the call of halt, by the position of the driver at the alert store. |
| `Halting.HaltBeforeClear` | src/disruptor/event_processor.rs:260-266 | A concrete run where halt falls before clear_alert: the driver leaves past its re-check with the alert not set. |
| `Halting.ShutdownTakesEffect` | src/disruptor/event_processor.rs:491-494 | A shutdown callback stops the processor too: once it returns, running stays false until the driver has returned. |
| `Halting.ShutdownStores` | src/disruptor/event_processor.rs:491-494 | on_shutdown returns only by storing running false, whether or not it got the handler lock. |
| `Halting.SecondDriverUndoesHalt` | src/disruptor/event_processor.rs:319-332 | The condition that nobody else drives cannot be dropped: from any halted state a second run undoes the halt. |
| `ProcessorStage.RefinesStage` | src/disruptor/event_processor.rs:252-282 | However many threads drive, probe and halt it, every step of a processor is a step of an exclusive stage, except entering an event while one has failed. |
| `ProcessorStage.RefinesExactly` | src/disruptor/event_processor.rs:393-403 | That exception is exact: the step is a stage step if and only if it does not enter an event after a fatal failure. |
| `ProcessorStage.RetiredStays` | src/disruptor/event_processor.rs:263-279 | If no other driver is inside when a handler fails fatally and nobody calls run or try_run_once from then on, every thread is on its way out and no step enters an event. |
| `ProcessorStage.SpentForever` | src/disruptor/event_processor.rs:263-279 | The same over runs: from such a failure on, no turn enters or completes an event. |
| `ProcessorStage.FailedDriverLeaves` | src/disruptor/event_processor.rs:255-258 | Over runs: a driver whose on_start, batch start or event fails fatally completes nothing more and only leaves, unless it calls again. |
| `ProcessorStage.OneDriverIsAllowed` | src/disruptor/disruptor.rs:340-367 | A processor driven by one thread, as the DSL starts them, keeps the condition whatever the others halt or call back. |
| `ProcessorStage.SpoiledStays` | src/disruptor/event_processor.rs:439-452 | After a fatal failure no step of any thread completes an event, as long as the failed one has not been re-entered. |
| `ProcessorStage.BlockedDriverReenters` | src/disruptor/event_processor.rs:263-279 | Not calling again is not enough: a concrete run in which a second driver, let in by a halt and blocked on the handler lock when the first one fails, enters the failed event without any further call. |
| `ProcessorStage.ProbeReentersFailedEvent` | src/disruptor/event_processor.rs:355-403 | Nor may anybody call again: from any run whose processor has failed and is idle, a probe enters the very event the handler failed on. |
| `EventPoller.RunAccounts` | src/disruptor/event_poller.rs:100-146 | For every sequence of calls a borrow-checked client can make: between batches the next sequence is the gating sequence plus one; events are given in strictly increasing order; given and skipped ones are disjoint and together exactly 0 to the gating sequence, which never passes anything unpublished. |
| `EventPoller.WithoutAckAllNothingIsSkipped` | src/disruptor/event_poller.rs:255-269 | Without ack_all the client has been given exactly 0, 1, 2, ... in order. |
| `EventPoller.RefinesLoop` | src/disruptor/event_poller.rs:217-253 | Every poller call is a sequence of steps of a sequential stage, ack_all handling the skipped events without changing them. |
| `EventPoller.CallExtendsRun` | src/disruptor/event_poller.rs:50-57 | A poller wired as a stage of a running disruptor extends the run with every call, so all guarantees about runs cover pollers. |
| `EventPoller.BatchReadsLog` | src/disruptor/event_poller.rs:206-214 | In every run, at every place of a batch, none of which the producer can overwrite: an untaken event is the log entry that reached this stage, the event last given is in the hands of the client alone, one given before is as the client left it. |
| `EventPoller.EventPoller.Poll` | src/disruptor/event_poller.rs:100-126 | A batch, idle or shutdown, each exactly when the flag reads and the barrier answer say so. |
| `EventPoller.EventPoller.Take` | src/disruptor/event_poller.rs:129-145 | The batch holds exactly the smaller of max and what is available, zero included; the saturating arithmetic never shows. |
| `EventPoller.EventBatch.NextMut` | src/disruptor/event_poller.rs:217-227 | Gives the next sequence, or nothing when the batch is exhausted. |
| `EventPoller.EventBatch.Get` | src/disruptor/event_poller.rs:206-214 | Readable exactly inside the batch; then published and above the gating sequence. |
| `EventPoller.EventBatch.Commit` | src/disruptor/event_poller.rs:230-253 | Commits the consumed prefix; the drop that follows changes nothing. |
| `EventPoller.EventBatch.AckAll` | src/disruptor/event_poller.rs:238-253 | Commits the whole batch; the drop that follows does not take it back. |
| `EventPoller.EventBatch.Drop` | src/disruptor/event_poller.rs:265-268 | Commits the consumed prefix of an open batch and nothing of a committed one. |
| `ClaimGuard.WaitedForIsNotWaiting` | src/disruptor/disruptor.rs:233-250 | Over any number of single-producer disruptors and threads, with translators that publish again: whoever is waited for is not itself waiting for a claim lock. |
| `ClaimGuard.NoWaitCycle` | src/disruptor/disruptor.rs:89-103 | So no cycle of lock waits exists in any reachable state. |
| `ClaimGuard.NoWaitWhileHolding` | src/disruptor/disruptor.rs:239-247 | No thread waits for a claim lock while holding one. |
| `ClaimGuard.ReentrantIffInsideTranslator` | src/disruptor/disruptor.rs:240-243 | A publish is refused as re-entrant exactly when the thread is inside a translator, or its destructor, run by a single-producer publish. |
| `ClaimGuard.StepKeeps` | src/disruptor/disruptor.rs:528-555 | Every step keeps lock and stack agreeing on the holder, one claim per thread, one claim in progress per disruptor. |
| `ClaimGuard.PublishOrderIsClaimOrder` | src/disruptor/disruptor.rs:571-619 | On each disruptor claim and publish-or-poison pairs never interleave, publish order is claim order, and at most one claim is unpublished. |
| `ClaimGuard.PublishGetsThrough` | src/disruptor/disruptor.rs:528-555 | A publish to a sound disruptor whose lock is free claims and publishes exactly the next sequence and returns with lock and flag free. |
| `ClaimGuard.RejectionLeavesNoTrace` | src/disruptor/disruptor.rs:589-603 | A publish the sequencer rejects returns with lock and flag free and has changed nothing. |
| `TailLatency.PauseArithmetic` | src/bin/h2h_tail_latency.rs:1618-1655 | For every u64 pause and every pair of rates accepted: affected never exceeds ceil(T*(pause+drain)/10^9); backlog is within affected, and affected reaches ceil(T*(pause+drain-1)/10^9), each if and only if the room left by the u128 saturation suffices for it (all cut to u64 and floored at 1). |
| `TailLatency.RoomWithoutSaturation` | src/bin/h2h_tail_latency.rs:1640-1648 | Where the product and its rounding fit u128 there is always room, so both bounds hold. |
| `TailLatency.RejectedExactly` | src/bin/h2h_tail_latency.rs:1623-1632 | Which inputs are rejected and with which error, in the order of the checks; all others are reported. |
| `TailLatency.SaturationBreaksOrder` | src/bin/h2h_tail_latency.rs:1640-1648 | A concrete pause and pair of rates without room: affected comes out smaller than backlog. |
| `TailLatency.AllocatingWorkload.Apply` | src/bin/h2h_tail_latency.rs:216-222 | One event keeps: every slot holds its youngest event; tracked allocations and frees, counts and saturating bytes, are exact. |
| `TailLatency.AllocatingWorkload.Run` | src/bin/h2h_tail_latency.rs:1479-1511 | After any run the harness's validity check passes if and only if the total reaches the retention window. |
| `TailLatency.AllocatingWorkload.Collect` | src/bin/h2h_tail_latency.rs:224-243 | The retained count is the smaller of events and window, and the live bytes are its saturating multiple. |

## Left out

- Swapping of the gating list while producers run: the gating sequences are fixed at construction.
- Wait-strategy bodies, signalling and timeouts: a wait returns some allowed value, an alert or an error.
- Weak memory orderings, padding, stride and alignment: only sequentially consistent steps.
- Handler panics and the poison they cause in `run` and `try_run_once`.
- That a consumer that fails poisons the producers is shown for the two drivers (`BatchProcessor`); in the composed system poison may come at any time.
- Fairness: the progress results say what a run can go on to do, not that a scheduler makes it.
- Restarting a poisoned pipeline or a stopped worker, and a second first-stage handler added after `build`.
- Leaking an `EventBatch` so that it is never dropped.
- The stand-in consumer of `src/disruptor/elegant_consumer.rs`, which does not consult publication.
- Event factories, translator and closure wrappers, `free_slots`, `remaining_capacity`, error texts and failure records: would only add easy members.
- `classify_try_rejection` and the `TryPublishError` predicates: flag tests in a fixed order.
- The sizes a pool worker reports to `on_batch_start` and its end-of-batch flag.
- The builder's drain answering Ok at once when the shutdown flag is already set.
- Percentiles, JSON, command line, clocks and the other binaries, benches and build scripts.
- Guarantees.LogIsComposition: speaks of handlers as functions of stage, sequence and value; a handler whose result depends on its own state is covered by LogIsStable and RingRefinesLog only.
- TailLatency.AllocatingWorkload.Run: the checksum of the retained payloads is not modelled.
- Halting.HaltedUntilReturn: bounds steps and events, not time spent inside user code or a barrier wait.
