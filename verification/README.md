# Replicated execution over shared-memory queues: a verified model

The program under study detects soft errors by computing everything twice. Two threads run the same
loop; one passes its values through a queue, the other compares them with its own, and neither stores a
result that has not been agreed on. This project models the queues, the batched producers that make the
scheme fast, the handshake at the end of a row, the ways of checking, and two other forms of replication
(transactional retry; a mutex with condition variables, and a flag with a barrier), and proves what they
promise for every interleaving and every pattern of soft errors.

How the model is made:

- A concurrent protocol is a state machine. A step makes at most one access to shared memory that the
  other thread can race with; a pointer that only its owner writes is read and written in one step. A spin
  loop is a step that changes nothing while its guard fails. `exit(1)` is a state neither thread leaves.
- A run is the sequence of states under an arbitrary schedule of the threads, from the initial state; the
  theorems quantify over all schedules. Statements about termination assume only that each thread gets a
  turn again and again (`Fairness`).
- A soft error is an arbitrary amount added to an accumulation or to the value published for a row, or an
  arbitrary stream of values; the fault-free case is the one where all of these are zero, or both streams
  agree. Sizes (ring, rows, columns, sections, groups, threads) are parameters.
- The program's objects are classes updated in place (`Machine.ReplicatedProduct`,
  `SectionQueue.SharedSectionQueue` and `SectionQueue.QueueThreads`, `SimpleQueue.SharedSimpleQueue`,
  `SyncQueue.SimpleSyncQueue`, `LockStep.SignalSync`, `HyperPair.SharedPair`); each method is proved to make
  the step of the machine it belongs to, or to act on the abstract queue, and a `Run` method ties the objects
  to the runs the theorems are about.

Modules, from the bottom up: `Ring` (index arithmetic, a ring that holds a queue), `Channel` (the machine of
the replicated product), `Invariant`, `Runs`, `Fifo`, `Product`, `Machine` (the Volatile and RHT_Volatiles
modes), `Polite` (schedules that lead to a chosen place), `Marks` (streams with the mark in them),
`ImprovedRing`, `Improved`, `FalseAlarm`, `MissedDetection` and `ImprovedEnds` (RHT_VolatilesImproved),
`SimpleQueue`, `SectionQueue`, `SyncQueue`, `Words` and `CheckModes`, `Partition`, `Transactions`, `Retries` and
`SharedTest`, `LockStep`, `HyperPair`.

Where code and comments disagree, the code is followed: the comment on the batched producers asks for a
ring shorter than a row (VectorMatrixMult.c:116), the code is right for a ring as long as a row as well;
the model requires only that.

Promises the code does not keep are stated as such, each with the runs that break it and the exact condition
on the configuration under which it is kept:

- the improved mode raises false alarms unless the product has no rows, or the ring is one row long and all
  rows are equal (`FalseAlarm.NoFalseAlarmIff`);
- the improved mode can accept the first differing element unless the consumer's value for it is another than
  the one left in its cell, the element Q before or the mark (`MissedDetection.NeverAcceptedIff`);
- the improved mode may hang without any fault: every fair fault-free run finishes only if no cell of the ring
  is used twice (`ImprovedEnds.FinishesIff`);
- a difference of the streams at an element one thread computes as the free-cell mark may escape the
  comparison in the other two modes (`Marks.AlarmsIff`);
- the condition-variable scheme may hang, and thread 0 may ignore its own verdict, unless the first N
  computations of the two threads agree pair by pair (`LockStep.FinishesIff`, `LockStep.Thread0ObeysIff`); the
  program hits one itself (`LockStep.InjectedFaultCanHang`);
- the paired hyper-threads may compare with a stale value unless only their last values differ
  (`HyperPair.NeverStaleIff`);
- a consumer on a section queue never finishes unless the number of operations is a multiple of the section
  size (`SectionQueue.FairRunsCompleteIff`).

## Model

| member | source | states |
|---|---|---|
| Ring.NextIsModulo | Queues.c:118 | the wrap-around case of the model is the program's `% size` |
| Ring.PositionIsModulo | VectorMatrixMult.c:122 | a pointer advanced k times from 0 is k modulo the ring size |
| Ring.PushKeepsHolds | Queues.c:131-132 | writing the cell behind the youngest element appends to the queue the ring holds, and that cell was free |
| Ring.PopKeepsHolds | VectorMatrixMult.c:294-295 | marking the oldest cell and stepping past it removes exactly the head |
| Ring.TailCell | Queues.c:136-138 | the cell at `deqPtr` is marked exactly when the queue is empty; otherwise it is the head |
| Ring.NextCellFreeIff | Queues.c:117-129 | the cell after the producer's is free exactly when at least two cells are free |
| Ring.DistanceIsFreeCells | VectorMatrixMult.c:134-136 | unless the ring is full, the two-branch distance is the number of free cells, and equal pointers mean empty |
| Channel.StepKeepsBounds | VectorMatrixMult.c:101-358 | in all three modes every step keeps the facts that put each array access in bounds |
| Invariant.NextCell | VectorMatrixMult.c:125-130 | in every reachable state the wait on the next cell passes exactly when two cells are free |
| Invariant.HeadCellHolds | VectorMatrixMult.c:270-281 | the consumer's cell is marked exactly when nothing is in flight, and else holds the element it is about to compare |
| Invariant.SampleFacts | VectorMatrixMult.c:133-136 | the distance computed from a sample is Q minus the elements in flight, between 1 and Q |
| Invariant.StepKeepsInv | VectorMatrixMult.c:101-358 | every step of either thread keeps the invariant (ring, credit, barrier, verdicts, stored rows) and stays in bounds |
| Runs.EveryScheduleRuns | VectorMatrixMult.c:101-358 | every schedule has a run |
| Runs.AlwaysInBounds | VectorMatrixMult.c:101-358 | no interleaving of any mode accesses an array out of bounds |
| Runs.AlwaysInv | VectorMatrixMult.c:101-358 | the invariant holds in every state of every interleaving of Volatile and RHT_Volatiles |
| Runs.PointersAreCounters | VectorMatrixMult.c:119-123 | `enqPtr` and `deqPtr` are the counts of elements produced and consumed, modulo the ring size |
| Runs.CreditInvariant | VectorMatrixMult.c:111-145 | produced plus remaining credit never exceeds consumed plus Q, and every unchecked write, in a batch or in the leftover loop, hits a released cell |
| Runs.SampleTellsFullFromEmpty | VectorMatrixMult.c:125-136 | after the wait, the formula on any later sample of `deqPtr`, also between reset and bump, is Q minus the elements in flight; equal pointers mean empty |
| Runs.SampleGrantsAllReleased | VectorMatrixMult.c:133-140 | in every run a sample grants every cell the consumer has released by then: produced plus credit is consumed plus Q; the leftover loop follows exactly when that reaches the end of the row, and the producer writes next unless the row is complete |
| Runs.RowStartsWithWholeRing | VectorMatrixMult.c:112-123 | in every run of RHT_Volatiles the first Q elements of each row are written on a credit of the whole ring, without a look at it |
| Runs.FullLooksEmpty | VectorMatrixMult.c:133-136 | without the wait a full ring and an empty one give the same distance |
| Runs.CellsHoldStream | VectorMatrixMult.c:119-156 | live cells hold exactly the producer's values in order, all other cells the mark, in both modes |
| Runs.ScanFindsFirst | VectorMatrixMult.c:309-328 | the sequential comparison of the two streams returns their first difference |
| Runs.StoredRowsAgree | VectorMatrixMult.c:147-154 | a row is stored only if the streams agreed on all of it and on the published value; exactly the rows before the thread's row are stored |
| Runs.AlarmIsFirstDifference | VectorMatrixMult.c:270-328 | an alarm is raised only at the first difference, and both vectors then hold exactly the rows before it |
| Runs.StepUsesWork | VectorMatrixMult.c:118-154 | every step that is not a failed spin decreases a measure; each credit round is worth at least one element |
| Runs.NoDeadlock | VectorMatrixMult.c:273-328 | until the end or an alarm some thread can move |
| Runs.BlockedIff | VectorMatrixMult.c:125-328 | in every run a turn is lost exactly if the thread has ended, or the producer, at its wait, finds fewer than two cells free, or the consumer none filled, or the other thread has not done its part of the handshake |
| Runs.FairRunsDecide | VectorMatrixMult.c:101-358 | every fair run stops; it finishes exactly when the streams agree, and otherwise stops at the first difference with the rows before it |
| Runs.FormsAgree | VectorMatrixMult.c:111-231 | a fair run of the batched form and one of the per-element form, with the same soft errors, any schedules and any ring sizes, end with the same verdict and vectors |
| Marks.AlarmsIff | VectorMatrixMult.c:270-297 | if the mark is nowhere else in the streams, every fair run of Volatile or RHT_Volatiles alarms at the first differing element if and only if neither thread computes it as the mark |
| Marks.MarkedDifferenceEscapes | VectorMatrixMult.c:270-297 | else some fair run never alarms there: the free cell passes for a match, or the element for a free cell |
| Marks.MarkPassesUnchecked | VectorMatrixMult.c:270-328 | the smallest case: the differing element is passed, and the row's own check stops the run |
| Fifo.InitRefines | Queues.c:102-113 | the initial state stands for the empty FIFO |
| Fifo.StepRefines | VectorMatrixMult.c:101-328 | in both modes every step is one step of an unbounded FIFO with row agreement, or invisible to it |
| Fifo.RunRefines | VectorMatrixMult.c:101-328 | every run of either mode is a run of that FIFO |
| Fifo.Occupancy | VectorMatrixMult.c:111-231 | at most Q - 1 elements are in flight in the simple form, at most Q in the batched one |
| Product.NotReplicated | VectorMatrixMult.c:69-78 | the unreplicated loops compute the dot product of every row with the vector; the next three say what that is |
| Product.ZeroVector | VectorMatrixMult.c:69-78 | the product of a zero vector is zero in every row |
| Product.EntryCountsOnce | VectorMatrixMult.c:69-78 | replacing vector[k] by x changes row i by exactly (x - vector[k]) * matrix[i][k]: with the zero vector, all there is to know of the product |
| Product.UnitVector | VectorMatrixMult.c:69-78 | on the k-th unit vector row i gives matrix[i][k] |
| Product.DotRange | VectorMatrixMult.c:53-66 | with entries in 1..10000 prefix sums strictly increase, start at 1 or more, are never the mark and stay within j * 10^8 |
| Product.FaultFreeHasNoSentinel | VectorMatrixMult.c:119-121 | values drawn by the initialisation meet the assumption on the mark |
| Product.StoredRowsAreCorrect | VectorMatrixMult.c:147-154 | if one thread computes correctly, whatever hits the other, every stored row is the true product |
| Product.FaultFreeNeverAlarms | VectorMatrixMult.c:270-328 | no interleaving of a fault-free run reaches an alarm |
| Product.FaultFreeRunComputesProduct | VectorMatrixMult.c:101-328 | every fair fault-free run ends with both vectors equal to the unreplicated result |
| Product.SingleErrorIsCaught | VectorMatrixMult.c:270-301 | a single soft error in either accumulation stops every fair run of Volatile or RHT_Volatiles at the element it strikes, with exactly the rows before it stored |
| Product.PublishedErrorIsCaught | VectorMatrixMult.c:309-323 | a single soft error in a published value stops every fair run of these modes at the check of that row |
| Machine.ReplicatedProduct.constructor | Queues.c:102-113 | the initial state in memory is the initial state of the machine |
| Machine.ReplicatedProduct.WriteElement | VectorMatrixMult.c:120-121 | accumulates the next term and writes it at `enqPtr`, touching nothing else |
| Machine.ReplicatedProduct.TakeCredit | VectorMatrixMult.c:133-138 | turns a sample of `deqPtr` into credit and picks the batch or the leftover loop |
| Machine.ReplicatedProduct.StartNextRow | VectorMatrixMult.c:209-210 | resets limit, sample and locals for the next row |
| Machine.ReplicatedProduct.StoreProducerResult | VectorMatrixMult.c:152-155 | stores the row's result and starts the next row |
| Machine.ReplicatedProduct.ProducerTurn | VectorMatrixMult.c:110-233 | a turn of the producer in place is the producer's step |
| Machine.ReplicatedProduct.ReadElement | VectorMatrixMult.c:270-275 | the first read of an element and its comparison |
| Machine.ReplicatedProduct.StoreConsumerResult | VectorMatrixMult.c:325-328 | stores the consumer's result and starts the next row |
| Machine.ReplicatedProduct.ConsumerTurn | VectorMatrixMult.c:241-352 | a turn of the consumer in place is the consumer's step |
| Machine.ReplicatedProduct.Run | VectorMatrixMult.c:101-358 | the program in memory, under any schedule, is after any number of turns in the state the theorems on runs speak of |
| ImprovedRing.ReadsHistory | VectorMatrixMult.c:241-268 | wherever the consumer is, the cell at its index holds the element, or the one some laps older that was last written, or the mark |
| ImprovedRing.SampleIsBounded | VectorMatrixMult.c:183-187 | a sample never grants more than Q - 1 elements beyond the consumer, also when the consumer is ahead |
| ImprovedRing.SampleGrantsAllButOne | VectorMatrixMult.c:183-189 | with the consumer not ahead, a sample grants every free cell but one, and the leftover loop follows exactly when that reaches the end of the row |
| ImprovedRing.RowStartsWithAlmostWholeRing | VectorMatrixMult.c:159-174 | in every run the first Q - 1 elements of each row are written on the credit the row starts with |
| ImprovedRing.ProducerNeverOverruns | VectorMatrixMult.c:158-200 | in every interleaving and for all streams at most Q - 1 elements are in flight, at a write fewer |
| ImprovedRing.ReadVerdict | VectorMatrixMult.c:241-268 | in every run a read judges by the producer's value for the same index whenever the element is in flight, and else by what the cell was left with |
| ImprovedRing.FalseAlarmIff | VectorMatrixMult.c:244-263 | in every run, an agreeing element alarms if and only if the consumer is not behind and the cell holds another value |
| ImprovedRing.MissedDetectionIff | VectorMatrixMult.c:244-267 | in every run, a differing element is accepted if and only if the consumer is not behind and the cell holds the consumer's value |
| Improved.ProgressTest | VectorMatrixMult.c:176-181 | the sampled pointer equals `deqPtr` exactly when the consumer has not moved since: no wrap-around ambiguity |
| Improved.ImprovedCredit | VectorMatrixMult.c:183-187 | each round grants exactly the free cells but one, and at least one |
| Improved.WaitsForCellIff | VectorMatrixMult.c:176-181 | without premature reads the producer waits exactly while Q - 1 elements are in flight |
| Improved.StepKeepsSafe | VectorMatrixMult.c:158-212 | every step but a premature read keeps the invariant, the row reset of the sample included |
| Improved.ImprovedAlarmIsFirstDifference | VectorMatrixMult.c:241-268 | without premature reads an alarm is the first difference, with exactly the rows before it stored |
| Improved.ImprovedStoredRowsAgree | VectorMatrixMult.c:202-210 | without premature reads only agreed rows are stored |
| Improved.ImprovedProgress | VectorMatrixMult.c:166-189 | without premature reads every effective step uses up work and some thread can move until the end |
| Improved.ImprovedDecidesUnlessPremature | VectorMatrixMult.c:158-212 | every fair run makes a premature read or ends exactly like the checked modes |
| FalseAlarm.EarlyRead | VectorMatrixMult.c:241-268 | every element before which the streams agree has a fair run in which it is judged by what is left in its cell: the one Q before, or the mark |
| FalseAlarm.FalseAlarmAt | VectorMatrixMult.c:241-268 | so one that agrees, but differs from the one Q before, has a fair run in which it raises a false alarm |
| FalseAlarm.AlwaysColumns | VectorMatrixMult.c:241-268 | with Q equal to the row length and equal rows, no interleaving alarms: every cell only ever holds its column's value or the mark |
| FalseAlarm.NoFalseAlarmIff | VectorMatrixMult.c:158-268 | the improved mode has no false alarm in any interleaving if and only if there are no rows, or Q equals the row length and all rows are equal |
| FalseAlarm.FalseAlarmExists | VectorMatrixMult.c:158-268 | a fair schedule is enough for the false alarm |
| FalseAlarm.FalseAlarmReachable | VectorMatrixMult.c:253-265 | one row of three ones through a ring of two cells: a 14-turn fault-free run that stops with a soft error reported |
| MissedDetection.NeverAcceptedIff | VectorMatrixMult.c:241-268 | the first differing element is accepted in no interleaving if and only if the consumer's value for it is not the element Q before it or, on the first lap, the mark |
| MissedDetection.AlwaysOnlyLeftover | VectorMatrixMult.c:241-268 | in every run, what was accepted ahead of the producer is what the producer is going to write, up to the first difference |
| MissedDetection.DetectionMissedAt | VectorMatrixMult.c:241-268 | else a fair run accepts it |
| MissedDetection.SmallestMissedDetection | VectorMatrixMult.c:264-267 | one row of three ones through a ring of two cells: a 1 is accepted for a 3 |
| ImprovedEnds.OneLapFinishes | VectorMatrixMult.c:158-212 | if no cell is used twice every fair fault-free run ends with the product in both vectors |
| ImprovedEnds.HangExists | VectorMatrixMult.c:176-181 | with Q equal to the row length and a second row ending like the first, a fair fault-free run hangs: `deqPtr` has moved a whole lap and looks unmoved |
| ImprovedEnds.FinishesIff | VectorMatrixMult.c:158-212 | every fair fault-free run finishes with the product if and only if there are no rows, or there is one and Q equals its length |
| SimpleQueue.SimpleQueueIsFifo | Queues.c:73-96 | in every interleaving values come out in order, at most Q - 1 are live, and the threads are never in one cell |
| SimpleQueue.SpinsIff | Queues.c:78-96 | in every run a turn is lost exactly if the thread has made all its operations, or the producer finds Q - 1 elements, or the consumer none |
| SimpleQueue.FairRunsDeliver | Queues.c:78-96 | a producer and a consumer with equally many operations both finish, with everything delivered |
| SimpleQueue.SharedSimpleQueue.constructor | Queues.c:73-77 | an empty queue |
| SimpleQueue.SharedSimpleQueue.Enqueue | Queues.c:78-86 | spins exactly at Q - 1 elements, else appends |
| SimpleQueue.SharedSimpleQueue.Dequeue | Queues.c:88-96 | spins exactly when empty, else removes and returns the oldest |
| SectionQueue.FlagsTell | Queues.c:40-56 | each thread's flag says exactly whether a section is its own |
| SectionQueue.SpinsIff | Queues.c:38-67 | in every run a turn is lost exactly if the thread has made all its operations, or the producer finds all sections full, or the consumer none |
| SectionQueue.SectionQueueIsSafe | Queues.c:25-67 | in every interleaving: received is a prefix of sent, sections in read mode are the ring interval from the consumer's, no cell is both threads', never are both blocked |
| SectionQueue.StoppedAtFullSections | Queues.c:45-64 | a run that cannot move has everything enqueued and exactly the full sections received |
| SectionQueue.FairRunsCompleteIff | Queues.c:38-67 | every fair run comes to rest, and the consumer finishes if and only if the count is a multiple of the section size |
| SectionQueue.SharedSectionQueue.constructor | Queues.c:25-35 | all sections belong to the producer, all pointers are 0 |
| SectionQueue.SharedSectionQueue.PutValue | Queues.c:42-43 | writes the producer's cell and advances, touching no other cell |
| SectionQueue.SharedSectionQueue.HandOverSection | Queues.c:46-47 | gives the producer's section to the consumer and moves on |
| SectionQueue.SharedSectionQueue.TakeValue | Queues.c:58-59 | reads the consumer's cell and advances |
| SectionQueue.SharedSectionQueue.GiveBackSection | Queues.c:62-63 | gives the consumer's section back and moves on |
| SectionQueue.SharedSectionQueue.Enqueue | Queues.c:38-50 | spins on the flag, else writes and hands a full section over |
| SectionQueue.SharedSectionQueue.Dequeue | Queues.c:52-67 | spins on the flag, else reads and gives an empty section back |
| SectionQueue.QueueThreads.constructor | Queues.c:25-35 | the queue and both threads at the start |
| SectionQueue.QueueThreads.ProducerTurn | Queues.c:38-50 | a turn of the producer in place is its step |
| SectionQueue.QueueThreads.ConsumerTurn | Queues.c:52-67 | a turn of the consumer in place is its step |
| SectionQueue.QueueThreads.Run | Queues.c:25-67 | the queue in memory, under any schedule, is in the state the theorems on runs speak of |
| SyncQueue.SimpleSyncQueue.constructor | Queues.c:102-113 | an empty queue with every cell marked |
| SyncQueue.SimpleSyncQueue.Enqueue | Queues.c:117-133 | on a queue spins exactly at Q - 1 elements, else appends; the mark itself changes no cell and breaks the queue; in any state spins exactly on the next cell, else writes one cell |
| SyncQueue.SimpleSyncQueue.Dequeue | Queues.c:135-147 | on a queue the oldest element is removed and returned, and the mark is returned exactly when there is none; in any state clears and passes one cell unless it is marked |
| Words.AddAssociates | FirstTestHyperThreads.c:267 | wrapping 64-bit addition is associative with unit 0 |
| Words.AddIsModulo | FirstTestHyperThreads.c:267 | 64-bit addition is addition modulo 2^64 |
| Words.XorRegroups | FirstTestHyperThreads.c:268 | 64-bit XOR can be regrouped |
| Words.XorIsBitwise | FirstTestHyperThreads.c:268 | a bit of the XOR of two words is set exactly where the words differ |
| Words.XorCancels | FirstTestHyperThreads.c:268 | the XOR of two words is 0 exactly when they are equal |
| CheckModes.LongIsLawful | FirstTestHyperThreads.c:267-268 | the arithmetic of `long` meets the laws the code for groups rests on |
| CheckModes.ProduceEveryTime | FirstTestHyperThreads.c:242-248 | enqueues every value, in order, and adds up all values |
| CheckModes.ProduceGrouped | FirstTestHyperThreads.c:250-262 | enqueues the first (n / m) * m values, in order, and adds up all values |
| CheckModes.ProduceEncoded | FirstTestHyperThreads.c:264-275 | enqueues the XOR of each of the n / m full groups, in order, and adds up all values |
| CheckModes.ConsumeEveryTime | FirstTestHyperThreads.c:291-302 | against its n values: passes with their sum, alarms at the first arrival that differs, or starves, as the arrivals call for |
| CheckModes.ConsumeGrouped | FirstTestHyperThreads.c:304-321 | the same against its first (n / m) * m values, with `i % MODULO` bookkeeping |
| CheckModes.ConsumeEncoded | FirstTestHyperThreads.c:323-339 | the same for one XOR a group |
| CheckModes.ElementwiseExact | FirstTestHyperThreads.c:242-321 | given the values of p sent as they are, a consumer of c passes exactly when all sent values agree, and otherwise alarms with `taken` the first index at which they differ |
| CheckModes.LongSumIsModular | FirstTestHyperThreads.c:245 | the result of a loop over `long` is the sum of the values modulo 2^64 |
| CheckModes.VerdictIsExact | FirstTestHyperThreads.c:290-340 | both sides make equally many operations, and the consumer passes exactly when all checked values agree |
| CheckModes.GroupedResultsDiffer | FirstTestHyperThreads.c:250-321 | an accepted grouped run leaves the results apart by exactly the sum of the trailing N mod M values |
| CheckModes.GroupAcceptedIff | FirstTestHyperThreads.c:330-335 | a group is accepted exactly when the XOR of its pairwise differences is zero |
| CheckModes.SingleErrorCaught | FirstTestHyperThreads.c:330-335 | a single corrupted value in a full group is caught |
| CheckModes.EncodedRunAcceptedIff | FirstTestHyperThreads.c:264-339 | a run is accepted exactly when the differences cancel in every full group; a trailing partial group is never checked |
| CheckModes.OverSimpleQueue | FirstTestHyperThreads.c:233-343 | in every mode a fair run delivers all checked values and a fault-free consumer passes |
| CheckModes.OverSectionQueue | FirstTestHyperThreads.c:347-457 | fault-free, the consumer passes if and only if the mode's number of operations is a multiple of the section size, and else waits for ever with what the full sections hold |
| Partition.RangesTile | ThreadUtils.c:32-40 | the ranges are consecutive, start at 0 and end at numValues |
| Partition.RangesEven | ThreadUtils.c:32-40 | all threads but the last have ranges of one length; the last has at least that, and less than numThreads more |
| Partition.EvenTilingIsRange | ThreadUtils.c:32-40 | any tiling that is even in this sense is the one the program computes |
| Partition.EveryIndexOnce | ThreadUtils.c:32-40 | every index belongs to exactly one thread |
| Partition.SumsAddUp | ThreadUtils.c:32-40 | the threads' sums add up to the whole |
| Partition.SumOfOne | ThreadUtils.c:32-40 | the sum over no index is 0, over one index its value |
| Transactions.LoopIsSound | TestTSX.c:304-353 | for any abort schedule, after any number of attempts: every index passed has contributed exactly once, the value of its last attempt; a commit is never faulty; at most 5 explicit-abort retries an index; the errors ahead are untouched |
| Retries.EntriesExplained | TestTSX.c:304-352 | an index is settled by the first of its attempts that is not retried, stated on the attempts alone: aborted with the retry bit, or run with an error found and fewer than five such before |
| Retries.FallbackIsLastResort | TestTSX.c:322-339 | an entry that is not committed had exactly five explicit retries before it, or its last attempt was aborted without the retry bit |
| Retries.CommittedIff | TestTSX.c:304-328 | where the hardware lets the attempts of an index run, it is committed if and only if one of its first six attempts finds no error: the injected one at the first, a new draw at each other |
| Transactions.EndIsUnique | TestTSX.c:304-354 | a thread's end is determined by the aborts, the draws and the errors injected into its own range |
| Transactions.FuncWithTM | TestTSX.c:297-355 | the loop in place ends, if retry-bit aborts are finite, exactly as the retry loop does, and changes only its own range of `errors` |
| Transactions.Redraw | TestTSX.c:324 | a new draw changes the error of the index at hand only |
| Transactions.TotalIs | TestTSX.c:316-339 | a thread's result is its number of indices plus the fallbacks that took the faulty value |
| Transactions.InitValues | TestTSX.c:248-262 | draws the errors and counts them |
| Transactions.Func | TestTSX.c:357-368 | without transactions every injected error is added |
| Transactions.TestWithoutTM | TestTSX.c:373-393 | the total is N + errorsInjected; the test passes exactly when none was injected |
| Transactions.TestWithTM | TestTSX.c:373-393 | the total is N plus the fallbacks that took the value 2 in the threads' ends; the test passes if and only if there is none |
| SharedTest.SharedTestIsExact | TestTSX.c:373-393 | the same with the threads at the same time, in any order of attempts, all drawing from one random source |
| SharedTest.DrawsCounted | TestTSX.c:324-337 | beyond the N initial draws, the random source is drawn from once for every attempt of any thread that did not commit |
| SharedTest.SharedRunsEnd | TestTSX.c:304-354 | under any fair order all threads end, if retry-bit aborts are finite |
| Transactions.NoFaultyIff | TestTSX.c:383-392 | no faulty fallback is counted exactly when every entry was committed or drew no error |
| LockStep.FollowsVerdict | TestTSX.c:133-167 | with any errors in either thread, interleavings and spurious wake-ups, thread 1 retries exactly on thread 0's verdict `failed`, and the mutex is never held twice |
| LockStep.Thread0FollowsItsVerdictIff | TestTSX.c:165-169 | at its second look thread 0 follows its verdict exactly when it was not `failed` or thread 1 has not announced again |
| LockStep.Thread0ObeysIff | TestTSX.c:145-169 | thread 0 follows its verdict in every interleaving if and only if the first N computations of the two threads are hit alike |
| LockStep.FaultCanHang | TestTSX.c:133-170 | whichever computations are the first to differ, in either thread, some fair run has thread 0 miss the retry it asked for, end first, and leave thread 1 waiting for ever |
| LockStep.FinishesIff | TestTSX.c:115-170 | every fair run with a bounded number of spurious wake-ups finishes if and only if the first N computations of the two threads are hit alike |
| LockStep.InjectedFaultCanHang | TestTSX.c:128-131 | the fault the program injects for index 8 is enough for both |
| LockStep.ComparesSameIteration | TestTSX.c:145-158 | when the computations agree, every comparison is of v1 and v2 of one iteration |
| LockStep.NoLostWakeUp | TestTSX.c:133-161 | with any errors, until a thread has ended one of the two can move without a spurious wake-up; where neither can, both have ended, or one has and the other sleeps |
| LockStep.FairRunsFinish | TestTSX.c:115-170 | when the first N computations agree, every fair run with a bounded number of spurious wake-ups ends with both threads through all iterations |
| LockStep.SignalSync.constructor | TestTSX.c:96-99 | the globals and threads at the start |
| LockStep.SignalSync.TryLock | TestTSX.c:133 | takes the mutex exactly when it is free |
| LockStep.SignalSync.Turn0 | TestTSX.c:143-169 | a turn of thread 0 in place is its step |
| LockStep.SignalSync.Turn1 | TestTSX.c:125-169 | a turn of thread 1 in place is its step |
| LockStep.SignalSync.WakeTurn | TestTSX.c:135-138 | a spurious wake-up in place |
| LockStep.SignalSync.Run | TestTSX.c:115-170 | the threads in memory, under any schedule, are in the state the theorems on runs speak of |
| HyperPair.ComparesSameIndex | TestCoreAffinity.c:229-259 | both threads are at one index, and comparisons up to the first mismatch use the replica's value for it |
| HyperPair.FirstMismatch | TestCoreAffinity.c:247-255 | the first failed comparison is at the first index where the threads differ |
| HyperPair.ComparedValue | TestCoreAffinity.c:243-255 | in any run, also after a mismatch, a comparison uses the value for the index if the replica has published it, else the one before |
| HyperPair.ResultAccountedFor | TestCoreAffinity.c:243-255 | in any run, also after mismatches, the result is the sum over the indices whose comparison, with the replica's value for it or a stale one, succeeded; the others add nothing |
| HyperPair.NeverStaleIff | TestCoreAffinity.c:231-259 | no interleaving compares a stale value if and only if the threads compute the same for every index but the last |
| HyperPair.StaleAfterMismatch | TestCoreAffinity.c:247-255 | the first mismatch before the last index has a run in which the flag it leaves up lets the next index be compared too early |
| HyperPair.FairRunsFinish | TestCoreAffinity.c:212-264 | every fair run ends; if the threads agree no comparison failed and the result is the sum of the range |
| HyperPair.TotalOverCores | TestCoreAffinity.c:212-264 | for any fair runs of fault-free pairs, each on its range, all pairs finish and their results add up to the sequential sum |
| HyperPair.ThreadTaskNormal | TestCoreAffinity.c:174-188 | one thread's sum over its range |
| HyperPair.SharedPair.constructor | TestCoreAffinity.c:213-229 | the flag and both threads at the start |
| HyperPair.SharedPair.LeaveBarrier | TestCoreAffinity.c:137-144 | both threads leave the barrier together, to the loop or past it |
| HyperPair.SharedPair.MainTurn | TestCoreAffinity.c:239-259 | a turn of the main thread in place is its step |
| HyperPair.SharedPair.ReplicaTurn | TestCoreAffinity.c:233-237 | a turn of the replica in place is its step |
| HyperPair.SharedPair.Run | TestCoreAffinity.c:229-260 | the pair in memory, under any schedule, is in the state the theorems on runs speak of |

## Left out

- Weak memory, compiler reordering, cache padding and `pause`: steps are sequentially consistent.
- Affinity, thread creation, index lookup, scheduling policy, memory management, timing, counters that are only printed, and printing.
- Runs.AlwaysInv: assumes that no value of either stream is the mark of a free cell; fault-free runs meet it (Product.FaultFreeHasNoSentinel), and Marks.AlarmsIff says what one marked difference does. Streams with marks in other places are not described further.
- SyncQueue.SimpleSyncQueue.Enqueue: one call at a time; Channel models the interleaving of its accesses for the loop that uses it.
- Product.DotRange: values of the channel are mathematical integers, not 64-bit words; the bound shows that fault-free sums stay far inside a `long`, and a soft error may be any amount.
- Improved.ImprovedAlarmIsFirstDifference: for runs without premature reads; after one, ImprovedRing.FalseAlarmIff and ImprovedRing.MissedDetectionIff say what each read does, and MissedDetection.NeverAcceptedIff what becomes of the first difference.
- FalseAlarm.NoFalseAlarmIff: speaks of fault-free runs with the values the initialisation draws, as does ImprovedEnds.FinishesIff.
- SimpleQueue.SimpleQueueIsFifo: both pointer comparisons are one step although they read the thread's own pointer as well as the other's; only the other's can change meanwhile.
- CheckModes.ConsumeGrouped: consumers are given their arrivals as a sequence; that the queues deliver exactly such a prefix is SimpleQueue and SectionQueue, and OverSimpleQueue and OverSectionQueue join the two.
- Transactions.TestWithTM: runs the threads one after another; SharedTest has them at the same time. The transactional hardware is an oracle, a committed attempt is one step, and `double` results are natural numbers.
- LockStep.FairRunsFinish: spurious wake-ups are bounded in number; without a bound, wake-ups that come just in time could keep the mutex from thread 0 for ever. The accumulated `result`, which adds a `v1` read outside the mutex, is not modelled.
- ThreadReplicationFunc_BarrierSync: thread 0 never arrives at the second barrier, so thread 1 cannot pass it.
- Atomicity_Test, Vector_Matrix_ReplicatedSameThread and thread_task_normally_replicated: one-line loops that would add only easy members.
- Vector_Matrix consumer under CheckFrequency_VolatileNoSyncNoModulo: it has no producer.
- CalcFunction, Affinity_CalcFunc and ThreadReplicationCalcFun: opaque functions of the index.
- The assembly of the RTM intrinsics, TestAtomicOps.c, BenchmarkSupport.c, main.c and the commented-out drivers; lynxq is not part of this model.
