# A model of the auxiliary-index benchmark

AuxIndexBench drives an index with a stream of queries, either in closed-loop batches or in open
loop through a lock-free queue, and reports latency histograms. This project models the parts of the
driver on which its numbers depend, and proves what they promise:

* **the MPMC ring** (`mpmc_queue.hpp`): a transition system with one program counter per thread and
  one atomic action per step, including spurious compare-and-swap failures (`Ring`, `RingRuns`), and
  the ring as an object used by one thread at a time (`RingSequential`);
* **the open-loop mode** (`bench.cpp`): producer, clients, ring, `done` flag, index lock, clock and
  counters as one transition system (`Pipeline*`), built on the ring's invariant; `PipelineMoves` has
  the stretches of runs from which the counterexamples are built, `PipelineOps` what holds for every
  capacity, and `PipelineClock` where each recorded time was read;
* **the batch mode** (`bench.cpp`): spin gate, shards, per-worker generators, lock (`Shards`,
  `BatchRun`, `BatchTheorems`, `BatchExclusion`, `BatchClock`);
* **the lock rule** (`IndexLock`), **the op sampler** (`OpMix`) and **its generator** (`Lcg`);
* **the two built-in indexes**: the bulk-loaded B+tree (`TreeShape`, `BPlusTree`, `TreeTeardown`), the
  chained hash table (`HashChains`, `HashIndex`), and their equivalence behind the common interface
  (`Adapters`);
* **the latency histogram** (`Buckets`, `Samples`, `Histogram`), the per-thread histogram sets
  (`OpHists`) and what they add up to over whole runs (`RunHistograms`);
* **queue sizing** (`QueueSizing`). `Slots`, `Counting`, `Clock`, `Xor`,
  `IndexTypes` and `Wrappers` are shared helpers.

A run is a sequence of actions (`Act`), and `Exec` gives the state after it if every action was
possible. A state is reachable if some run gets to it. Statements about all reachable states
therefore cover every interleaving of any number of threads.

## Main results

* Every state of every interleaving of the ring is safe if and only if it has two or more cells
  (`SafeIffTwoCells`): positions stay within one capacity, a cell's seq names exactly one ticket state,
  no two threads are inside the same cell, and a value read is the value written. Delivery is exact
  and first in, first out (`EveryRunDelivers`, `TakenInOrder`).
* Every reachable state of the open-loop mode can be continued to a complete run in which every query
  was executed exactly once, if and only if there is nothing to do, or there is a client and the ring
  has two cells or carries at most one query (`DrainsExactly`).
* The B+tree and the hash table, loaded from the same pairs in any order, reply alike to every sequence
  of calls, and both reply as a plain map does, if equal keys come with equal values (`Equivalent`). That
  condition is exact (`SameMapIff`), and distinct keys always meet it.
* Any 2^k consecutive draws of the generator, k <= 32, show every k-bit pattern exactly once, so any
  1024 consecutive queries issue each op exactly as often as its table says (`EveryPatternOnce`,
  `WindowIsExact`).
* `percentile` is the lower bucket edge of the exact order statistic; its error is below one eighth of
  the result exactly for samples under 135 * 2^33 (`Percentile`, `EdgeError`).
* Exactly when a writer can be in the index together with another thread: for every batch configuration
  and every open-loop configuration, whatever its capacity, all reachable states are free of it if and
  only if the op streams leave no two threads to collide (`BatchExclusion.ExclusionExact`,
  `PipelineExclusion.ExclusionExact`). For the driver's lock rule, two or more threads and 1024 queries
  (per worker, in batch mode), that is the case exactly for the op mixes that satisfy `ElisionOk`, whatever
  the seeds (`BatchExclusion.RuleExact`, `PipelineExclusion.RuleExact`). All mixes with non-negative
  weights do (`ReadOnlyMixHasNoWriteEntry`).

## What turned out not to hold

* Capacity 1 passes the assertion of the ring's constructor, but "published" (position + 1) and
  "released" (position + capacity) are then the same number. A second enqueue overwrites an unread
  value (`OneCellOverwrites`), and the open-loop mode can get stuck for good (`OneCellGetsStuck`).
  `--queue-capacity 1` asks for such a ring; automatic sizing yields it only where it is harmless
  (`QueueSizing.Capacity`).
* The driver decides whether a mix has writes by summing the three write weights. With a negative
  weight the sum can be 0 while the sampler's table holds writes (`NegativeWeightHidesWrites`), and then
  runs of either mode get to a state with a writer next to another thread (`NegativeWeightBreaksRule` with
  `RuleExact`). `WriteEntryIff` and `SearchEntryIff` say exactly which mixes put which ops into the table.
* With duplicate keys the two indexes can hold different maps (`DuplicatesDisagree`): the hash table keeps
  the last pair, the tree the first copy in the last leaf that has one, which depends on the sort.
* With copies of a key in more than one leaf, a scan from that key skips some of them
  (`ScanSkipsCopies`); `ScanMissesNothingIff` is the exact condition.
* A second `bulk_load` of one tree replaces its contents, but the nodes of the first load are never freed
  (`BulkLoad`, `DestroyTree`).
* `pow2_ceil` does not end for arguments above 2^63 (`DoublingEndsIff`).
* `EXTERNAL_INDEXES.md:118-125` says that the driver still takes its lock for adapters that declare
  `concurrent_safe()` if the mix contains writes. The code asks `thread_safe()` and the number of
  threads (`bench.cpp:512-513`, `bench.cpp:868`), and the model follows the code.

## Modelling decisions

* Atomic operations are sequentially consistent steps. Positions, counters, sums and clock values are
  unbounded naturals, and the clock never goes back. Differences of clock reads are unsigned 64-bit
  (`Elapsed`), and the reads are proved to be ordered.
* `pos & mask_` is `Slot`, which is defined by repeated subtraction; `SlotIsMask` ties it to the bitwise and.
  The ring is modelled for any positive capacity, not only for powers of two.
* Query keys, arrival times, op choices and generator seeds of a run are arbitrary inputs. Where a result
  needs the op choices to come from the sampler, it says so (`DrivenBy`).
* Ring tickets (`tickets`, `given`, `got`), job logs (`logs`), first stamps (`stamps`) and all ghost fields are history. They
  record what happened and never influence a step.
* Inline arrays of nodes and buckets are sequence fields that are reassigned. A tree node's keys and
  children are constants because they are written once, right after allocation.
* Op weights and the percentile rank are exact reals.
* `std::sort` is an insertion sort. Its contract leaves the order of equal keys open, as that of
  `std::sort` does.

## Model

| member | source | states |
|---|---|---|
| Slots.SlotIsMask | mpmc_queue.hpp:52 | for a power-of-two capacity the slot of a position is the bitwise and with capacity - 1 |
| Slots.SameSlotFarApart | mpmc_queue.hpp:52 | two positions that share a cell are equal or at least one capacity apart |
| Ring.InitInv | mpmc_queue.hpp:27-38 | a new ring, with no thread inside a call, satisfies the invariant |
| Ring.SeqStillCurrent | mpmc_queue.hpp:53-59 | the seq read before a successful compare-and-swap is still in the cell when it succeeds, and the position is then within bounds (enqueue) or published (dequeue) |
| Ring.StepPreservesInv | mpmc_queue.hpp:48-92 | every atomic step of every thread keeps the ring invariant |
| Ring.EnqueueClaims | mpmc_queue.hpp:55-59 | a winning producer compare-and-swap keeps the invariant |
| Ring.EnqueueWrites | mpmc_queue.hpp:66 | the value store touches no cell another thread is using |
| Ring.EnqueuePublishes | mpmc_queue.hpp:67-68 | the publishing seq store keeps the invariant |
| Ring.DequeueClaims | mpmc_queue.hpp:78-82 | a winning consumer compare-and-swap keeps the invariant |
| Ring.DequeueReads | mpmc_queue.hpp:89 | the value load keeps the invariant; what is read is what was given |
| Ring.DequeueReleases | mpmc_queue.hpp:90-91 | the releasing seq store hands the cell to the next lap and to nobody else |
| Ring.SeqBelowPosMeansFull | mpmc_queue.hpp:60-61 | a seq behind the wanted position means exactly that the ticket one capacity earlier is unreleased |
| Ring.SeqAtPosMeansEmpty | mpmc_queue.hpp:83-84 | a seq not past the wanted position means exactly that this next position is unpublished |
| Ring.StepHistory | mpmc_queue.hpp:48-92 | a step claims at most one ticket, releases at most the one its thread holds, and never takes a release back |
| RingRuns.ExecPreservesInv | mpmc_queue.hpp:48-92 | the invariant holds along every run with two or more cells |
| RingRuns.EveryRunIsSafe | mpmc_queue.hpp:48-92 | in every interleaving: deq <= enq <= deq + capacity, each seq tells exactly one ticket state, exclusive cells, values read as written |
| RingRuns.EveryRunDelivers | mpmc_queue.hpp:56-91 | the dequeue that claimed position t returned the value of the t-th enqueue to claim; none lost, none twice |
| RingRuns.TakenInOrder | mpmc_queue.hpp:79-82 | the k-th dequeue to claim claims position k |
| RingRuns.FindRead | mpmc_queue.hpp:53-76 | a thread about to branch on a seq loaded it at one identifiable earlier step of the run |
| RingRuns.EnqueueFailsOnlyWhenFull | mpmc_queue.hpp:50-65 | the step after a seq load makes try_enqueue return false if and only if, at the load, its position was the next to claim and the ticket one capacity earlier was unreleased; a lost or spuriously failed compare-and-swap never does |
| RingRuns.DequeueFailsOnlyWhenEmpty | mpmc_queue.hpp:73-88 | the step after a seq load makes try_dequeue return false if and only if, at the load, its position was the next to consume and unpublished |
| RingRuns.EnqueueReturnedFalse | mpmc_queue.hpp:48-65 | whenever try_enqueue has returned false, that call loaded a seq at an instant when the next position was blocked by an unreleased ticket |
| RingRuns.DequeueReturnedFalse | mpmc_queue.hpp:71-88 | whenever try_dequeue has returned false, that call loaded a seq at an instant when the next position was unpublished |
| RingRuns.OneCellOverwrites | mpmc_queue.hpp:29 | with one cell a run exists in which an unread value is overwritten |
| RingRuns.SafeIffTwoCells | mpmc_queue.hpp:29-38 | all runs are safe if and only if the ring has two or more cells |
| RingSequential.MpmcQueue.constructor | mpmc_queue.hpp:27-38 | numbers the cells of a ring of any capacity; it is an empty bounded FIFO exactly if there are two or more cells |
| RingSequential.MpmcQueue.TryEnqueue | mpmc_queue.hpp:48-69 | appends exactly when not full, whatever spurious failures occur, and otherwise changes nothing |
| RingSequential.MpmcQueue.TryDequeue | mpmc_queue.hpp:71-92 | removes and returns the oldest entry exactly when not empty |
| RingSequential.MpmcQueue.FreeCell | mpmc_queue.hpp:90 | the seq store that ends a dequeue drops the oldest entry from the FIFO |
| RingSequential.MpmcQueue.ApproxSize | mpmc_queue.hpp:94-98 | with one thread the size is exact |
| QueueSizing.Pow2Ceil | bench.cpp:109 | the least power of two that is at least x, for x <= 2^63 |
| QueueSizing.DoublingEndsIff | bench.cpp:109 | the 64-bit doubling loop ends if and only if x <= 2^63 |
| QueueSizing.ParseCapacity | bench.cpp:141-148 | stores the least power of two at or above the argument, and 0 exactly for 0 |
| QueueSizing.ResolveCapacity | bench.cpp:905-919 | a stored capacity stays; automatic sizing gives the least power of two that holds all queries, capped at 2^24 |
| QueueSizing.Capacity | bench.cpp:905-919 | the two together: a power of two, and 1 exactly when asked for or with at most one query |
| PipelineInv.InitHolds | bench.cpp:554-558 | a fresh open-loop run satisfies the invariant of producer, clients, ring, lock and counters |
| PipelineSteps.DoKeeps | bench.cpp:265-325 | every step of the clock, the producer or a client keeps that invariant |
| PipelineSteps.ReachableInv | bench.cpp:502-585 | the invariant holds along every open-loop run |
| PipelineSafety.DrainSafety | bench.cpp:560-580 | once `done` is set and all clients have left, every query was executed by exactly one client exactly once, with its own key and op and the scan length, and produced == consumed == the query count |
| PipelineSafety.NoEntryStranded | bench.cpp:269-281 | a client leaves only after `done`, with every query already claimed |
| PipelineSafety.LatenciesOrdered | bench.cpp:282-320 | arrival time, enqueue stamp, start, lookup and end are in order for every finished query, so no latency is a difference that wraps |
| PipelineSafety.LagIsExact | bench.cpp:560-563 | in every reachable state the lag total is the sum of the first stamps less the sum of their arrival times, no difference wraps, and it covers all queries before the join |
| PipelineClock.TimesAreReadings | bench.cpp:282-314 | each of the four times of a finished query is the clock value at which its client, or for the stamp the producer, took the step that reads the clock for that query |
| PipelineClock.StampsAreReadings | bench.cpp:562 | so is every first stamp |
| PipelineSafety.BigQueueNeverBlocks | bench.cpp:560-573 | with capacity at least the query count try_enqueue returns false in no interleaving |
| PipelineOps.InsideHasQuery | bench.cpp:282-311 | whatever the capacity, a client in the index is there with the op of some query and the lock is in step with the clients inside |
| PipelineMoves.EnqueueOne | bench.cpp:560-573 | the nine steps in which an undisturbed producer puts a query into a free cell, with the state after each |
| PipelineMoves.DequeueOne | bench.cpp:268-283 | the seven steps in which an undisturbed client takes it out |
| PipelineExclusion.WritersAloneInRun | bench.cpp:286-311 | in no reachable open-loop state, for any capacity, is a writer in the index together with another client |
| PipelineExclusion.SearchesUnlocked | bench.cpp:512-513 | with one client, or for a thread-safe index, no search takes the lock in any reachable open-loop state |
| PipelineExclusion.ReachClash | bench.cpp:286-311 | with searches unlocked, two clients, a write and a search among the queries: a run that brings both into the index at once |
| PipelineExclusion.ExclusionExact | bench.cpp:265-325 | for every configuration: no reachable state has a writer in company if and only if searches lock, there are fewer than two clients, or the queries lack a write or a search |
| PipelineExclusion.RuleExact | bench.cpp:512-513 | under the driver's rule with two clients and 1024 queries, exclusion holds in all reachable states if and only if the mix is sound, whatever the seed |
| PipelineProgress.WorkGetsDone | bench.cpp:282-321 | a thread with a claimed ticket can always advance, or a lock holder it waits for can |
| PipelineProgress.ClientClaims | bench.cpp:268-281 | while an entry waits, a client running alone gets closer to claiming it |
| PipelineProgress.ProducerClaims | bench.cpp:560-574 | while the ring is empty and queries remain, the producer or the clock gets closer to the next claim |
| PipelineProgress.ClientLeaves | bench.cpp:268-281 | once everything is consumed and `done` is set, each client gets closer to its exit |
| PipelineProgress.SomeStepHelps | bench.cpp:265-325 | in every incomplete state some step lowers the measure |
| PipelineProgress.CanComplete | bench.cpp:502-585 | from every state with the invariant a finite continuation completes the run |
| PipelineExact.NoDeadEnds | bench.cpp:502-585 | every reachable state continues to a complete run that executed each query once |
| PipelineExact.OneCellGetsStuck | bench.cpp:560-574 | with one cell, two queries and a client, a state is reachable that is stuck |
| PipelineExact.StuckForever | bench.cpp:268-281 | a stuck state stays stuck under every continuation |
| PipelineExact.DrainsExactly | bench.cpp:502-585 | the exact condition under which every reachable state can drain |
| IndexLock.EnterKeepsLock | bench.cpp:286-311 | entering the index keeps the lock in step with the threads inside |
| IndexLock.LeaveKeepsLock | bench.cpp:286-311 | leaving the index keeps it so |
| IndexLock.ElisionIsSafe | bench.cpp:512-513 | under the lock rule a writer in the index is alone, for every sound mix |
| IndexLock.NegativeWeightBreaksRule | bench.cpp:866-868 | a mix with a negative weight that is unsound in both modes |
| IndexLock.ElisionExact | bench.cpp:862-868 | the same condition at the level of the lock alone: it admits a writer in company exactly for unsound mixes |
| IndexLock.SomeoneCanMove | bench.cpp:419-455 | a thread waits for the lock only while another one is in the index |
| OpMix.OpMixSampler.constructor | op_mix.hpp:72-85 | each of the 1024 bins holds the first op whose cumulative target lies beyond it |
| OpMix.WriteEntryIff | op_mix.hpp:73-84 | exactly when the table holds a write |
| OpMix.SearchEntryIff | op_mix.hpp:73-84 | exactly when the table holds a search |
| OpMix.ReadOnlyMixHasNoWriteEntry | bench.cpp:866 | with non-negative weights, zero total write weight leaves no write in the table |
| OpMix.NegativeWeightHidesWrites | op_mix.hpp:37-66 | a normalised mix with a negative weight that the driver calls read-only and whose table holds writes |
| OpMix.TargetsClimb | op_mix.hpp:73-82 | for a normalised mix the targets climb from 0 to 1024 |
| OpMix.BinsAreAnInterval | op_mix.hpp:79-83 | an op's bins are exactly those between two successive targets |
| OpMix.BinsMatchWeights | op_mix.hpp:72-85 | every op's bin count is within one of 1024 times that op's weight |
| Lcg.ReturnsIff | bench.cpp:413 | Hull-Dobell in exact form: with multiplier 1 mod 4 and odd increment, n steps restore the low k bits if and only if 2^k divides n |
| Lcg.DrawFollowsIter | bench.cpp:413 | 32-bit arithmetic agrees with the integers on the low k <= 32 bits |
| Lcg.KnownDraws | bench.cpp:413 | the first three draws from seed 0 |
| Lcg.FullPeriod | bench.cpp:413 | two draws agree in their low k bits if and only if their distance is a multiple of 2^k |
| Lcg.PeriodIsExact | bench.cpp:413 | the same in remainders: draws i and j are equal modulo 2^k if and only if i and j are |
| Lcg.EveryPatternOnce | bench.cpp:547 | any 2^k consecutive draws show every k-bit pattern exactly once |
| Lcg.ChooseOps | bench.cpp:537-549 | the pregeneration loop fills the choices with the ops of the generator's draws |
| Lcg.EveryBinIsDrawn | bench.cpp:412-414 | from any seed the first 1024 queries draw every table entry |
| Lcg.WindowIsExact | bench.cpp:412-414 | over any 1024 consecutive queries each op is issued exactly as often as it has bins |
| Lcg.ShardFrequencies | bench.cpp:411-414 | a shard of 1024*q + r queries issues an op q times its bins, plus at most min(r, bins) |
| Shards.ShardsTouch | bench.cpp:482-485 | shards are laid end to end from 0 to the query count |
| Shards.ShardSizes | bench.cpp:482-485 | all shards but the last have the same size s, with s * workers <= n < (s + 1) * workers |
| Shards.ShardsPartition | bench.cpp:482-485 | every query is in exactly one shard, also with more workers than queries |
| BatchRun.DoKeeps | bench.cpp:405-467 | every step of the clock or a worker keeps the batch invariant |
| BatchRun.ExecKeeps | bench.cpp:405-467 | the batch invariant holds along every run |
| BatchTheorems.GateHolds | bench.cpp:407-408 | no worker starts a query before every worker has decremented the gate |
| BatchTheorems.ServedExactlyOnce | bench.cpp:412-464 | when all workers have left, every query was served exactly once, by the worker of its shard, with its own key and the op that worker drew for it |
| BatchTheorems.MergedTotal | bench.cpp:495-496 | the merged number of samples is the query count that `consumed` is set to |
| BatchTheorems.WorkerFrequencies | bench.cpp:411-414 | at any time each worker has issued every op q times its bins, up to the last partial window |
| BatchTheorems.WritersAloneInBatch | bench.cpp:419-455 | in no reachable batch state is a writer in the index together with another worker |
| BatchTheorems.LockLeftOut | bench.cpp:862-868 | with one worker, or for a thread-safe index, nobody takes the lock in any reachable batch state |
| BatchExclusion.ReachCollision | bench.cpp:405-455 | without the lock, a worker that draws a write and another with a query: a run that brings both into the index at once |
| BatchExclusion.ExclusionExact | bench.cpp:405-467 | for every batch configuration: no reachable state has a writer in company if and only if workers lock or no two can collide |
| BatchExclusion.RuleExact | bench.cpp:866-868 | under the driver's rule with two workers and 1024 queries each, exclusion holds in all reachable states if and only if the mix is sound, whatever the seeds |
| BatchTheorems.LatenciesOrdered | bench.cpp:416-463 | start, lookup and end of every served query are in order |
| BatchClock.TimesAreReadings | bench.cpp:416-458 | each of the three times of a served query is the clock value at which its worker took the step that reads the clock for that query |
| BatchTheorems.BatchCanFinish | bench.cpp:405-492 | from every state a finite continuation brings all workers home |
| Buckets.Placement | histogram.hpp:55-74 | a sample from 8 on lands in its octave and sub-bucket, whose edge is that octave's base plus whole sub-bucket widths |
| Buckets.BucketIsLive | histogram.hpp:55-65 | every sample lands inside the array and never in buckets 8 to 23 |
| Buckets.BucketMonotone | histogram.hpp:55-65 | bucketing keeps the order of samples |
| Buckets.EdgeError | histogram.hpp:55-74 | the edge never exceeds the sample, is exact below 16, and is off by less than an eighth of itself if and only if the sample is below 135 * 2^33 |
| Samples.RankIsUnique | histogram.hpp:37-47 | each rank belongs to one value, and it is a sample |
| Samples.QuantileIsSortedElement | histogram.hpp:37-47 | the order statistic of rank k is element k of the samples in sorted order |
| Samples.MaxIsLargest | histogram.hpp:22 | the maximum is a sample and no sample is larger |
| Counting.SumOfOne | histogram.hpp:21 | the sum of one sample is that sample, and of none 0 |
| Counting.AppendSum | histogram.hpp:28 | sums add up over joined sample sequences |
| Samples.Quantile | histogram.hpp:37-47 | every rank below the number of samples has an order statistic |
| Samples.BucketsRespectOrder | histogram.hpp:41-45 | cumulative bucket counts bracket the cumulative counts of samples |
| Histogram.Histogram.constructor | histogram.hpp:50-53 | a new histogram holds no samples |
| Histogram.Histogram.Add | histogram.hpp:17-23 | counters, total, sum and maximum become those of the samples with one more |
| Histogram.Histogram.Merge | histogram.hpp:25-30 | merging equals having added the other histogram's samples, also when both are the same object |
| Histogram.Histogram.Percentile | histogram.hpp:37-47 | the lower bucket edge of the order statistic of the computed rank, with the error bound of that edge |
| Histogram.Histogram.FirstAbove | histogram.hpp:42-46 | the accumulating loop always stops inside the array, at the bucket that crosses the rank |
| Histogram.FirstExceeding | histogram.hpp:42-45 | the first bucket whose cumulative count exceeds the rank is the order statistic's |
| Histogram.RankSplitsSamples | histogram.hpp:39-40 | at most n * p of the n samples are below the order statistic and more than n * p at or below it; from p = 1 on it is the maximum |
| Histogram.PercentileMonotone | histogram.hpp:37-47 | a larger p never gives a smaller percentile |
| Histogram.EdgeIsLeast | histogram.hpp:55-74 | a bucket's lower edge is the least value that falls into the bucket |
| OpHists.OpHists.constructor | bench.cpp:246-252 | ten separate empty histograms |
| OpHists.OpHists.Record | bench.cpp:315-320 | recording one query extends every histogram by that query's share |
| OpHists.LatenciesPlaced | bench.cpp:315-320 | for ordered clock reads: sample a of the total, lookup, polluter and end-to-end histograms is that difference of query a's reads, the queue histogram holds the queueing times, and per-op histogram k exactly the service times of the queries with op k |
| OpHists.OpHists.Merge | bench.cpp:253-260 | merging equals having recorded the other set's queries here, also for a set merged with itself |
| OpHists.MergeAll | bench.cpp:583 | merging any number of parts equals one set fed all queries in order |
| OpHists.ColumnAppend | bench.cpp:253-260 | the samples of two logs one after the other are the samples of the joined log, histogram by histogram |
| OpHists.SumsOfLog | bench.cpp:315-320 | sum(e2e) = sum(queue) + sum(service) and sum(service) = sum(lookup) + sum(poll) |
| OpHists.PerOpAddsUp | bench.cpp:315-316 | the five per-op histograms share out the service samples, in number and in sum |
| RunHistograms.MergedAddsUp | bench.cpp:938-946 | whatever parts were merged, the resulting set has sum(e2e) = sum(queue) + sum(service), sum(service) = sum(lookup) + sum(poll), and per-op totals that add up to the overall total |
| RunHistograms.ClientSamples | bench.cpp:315-320 | at any moment of any run, sample a of each of client c's histograms is that difference of the times of its a-th finished query, and per-op histogram k holds exactly the service times of its queries with op k |
| RunHistograms.WorkerSamples | bench.cpp:459-463 | the same for a batch worker; its queue histogram stays empty |
| RunHistograms.OpenLoopTotals | bench.cpp:574-583 | at every moment of every open-loop run the set merged from the clients' histograms adds up so; at the end its total is the query count |
| RunHistograms.BatchTotals | bench.cpp:492-496 | the same for the set merged from the workers' histograms of every batch run |
| TreeShape.ChildCovers | index.hpp:95-99 | following the child after the last separator not above the key keeps the key covered, also through inner nodes without keys |
| TreeShape.CoveredKeyInLeaf | index.hpp:100-104 | everything to the right of the leaf that covers a key is above the key, and to the left there are only further copies of a key that leaf starts with |
| TreeShape.PathsGoDown | index.hpp:73-89 | every path from a node of level d ends at a leaf after exactly d child links |
| TreeShape.HeightBounds | index.hpp:151-155 | n keys in h levels: 15 * 16^(h-2) < n <= 15 * 16^(h-1) |
| TreeShape.NextLevelSize | index.hpp:74-87 | grouping a level by sixteen gives the next level its size, and fewer nodes |
| BPlusTree.BuildLeaves | index.hpp:58-71 | full leaves in key order, linked left to right |
| BPlusTree.FirstKey | index.hpp:168-171 | the smallest loaded key below a node |
| BPlusTree.Separators | index.hpp:82 | the first keys below all children but the first |
| BPlusTree.BuildParents | index.hpp:74-86 | one level up: up to sixteen children each, separated by the first keys below them; fewer nodes than before |
| BPlusTree.LiveOfAscending | index.hpp:101-103 | among distinct keys every slot stands for its own key |
| BPlusTree.MapAfterWrite | index.hpp:117 | writing the slot that stands for a key changes the map at that key and nowhere else |
| BPlusTree.ScanMissesNothingIff | index.hpp:126-134 | a scan starts at the first key not below lo if and only if all copies of lo are in one leaf; always for distinct keys |
| BPlusTree.ScanSkipsCopies | index.hpp:126-134 | sixteen copies of one key: a scan from it skips fifteen |
| BPlusTree.BuildLevels | index.hpp:73-89 | a full tree of distinct nodes, counted, up to a single root |
| BPlusTree.BPlusTree.constructor | index.hpp:45 | an empty tree |
| BPlusTree.BPlusTree.BulkLoad | index.hpp:50-90 | for sorted keys of any length, with or without duplicates, on a new or a loaded tree, the contents become the map of the pairs; nodes of an earlier load stay counted |
| BPlusTree.BPlusTree.Descend | index.hpp:94-99 | the walk ends at the leaf that covers the key, and at null only for an empty tree |
| BPlusTree.BPlusTree.Find | index.hpp:101-103 | the slot that stands for the key, or proof that it is not loaded anywhere |
| BPlusTree.BPlusTree.Lookup | index.hpp:93-105 | the map's value, 0 if the key was never loaded |
| BPlusTree.BPlusTree.Update | index.hpp:108-120 | true exactly for loaded keys; the map changes at that key and nowhere else |
| BPlusTree.BPlusTree.Remove | index.hpp:122 | true exactly for loaded keys; the key stays, with value 0 |
| BPlusTree.BPlusTree.Scan | index.hpp:125-147 | min(n, keys from the start of the scan on) values, XORed in key order; with ScanMissesNothingIff, from the first key not below lo |
| BPlusTree.BPlusTree.WalkChain | index.hpp:138-144 | the leaf chain yields consecutive loaded keys across leaf borders |
| BPlusTree.BPlusTree.LeavesAtOneDepth | index.hpp:151-155 | every way from the root to a leaf follows exactly height() - 1 child links |
| BPlusTree.BPlusTree.Height | index.hpp:151-155 | the number of levels, with both bounds on the key count |
| TreeTeardown.WholeLevel | index.hpp:173-178 | everything under a level is all nodes from that level down |
| TreeTeardown.Destroy | index.hpp:173-178 | frees exactly the nodes of the subtree |
| TreeTeardown.DestroyTree | index.hpp:46 | frees every node of the last load exactly once; that is node_count nodes, less those an earlier load left behind |
| HashChains.FindInChain | hash_index.hpp:52-56 | finds the entry of the key, or shows that the whole chain has none |
| HashChains.SetValue | hash_index.hpp:89 | overwrites one value of a chain and nothing else |
| HashChains.Append | hash_index.hpp:57-71 | adds the entry at the end of the chain, with a new bucket exactly when all are full |
| Xor.XorIsParity | hash_index.hpp:103 | a bit of the accumulated value is set if and only if an odd number of the values have it |
| HashChains.XorPrefix | hash_index.hpp:101-107 | the exclusive or of the first n values of a chain, in insertion order |
| HashChains.CountChain | hash_index.hpp:123-124 | the number of entries of a chain |
| HashIndex.IndexOfIsBits | hash_index.hpp:140-142 | the chain of a key in a table of 2^j buckets: the key divided by 2^shift, masked with 2^j - 1 |
| HashIndex.HashIndex.constructor | hash_index.hpp:27-39 | an empty table with the least power of two of buckets |
| HashIndex.HashIndex.Insert | hash_index.hpp:50-72 | upsert of the map; true exactly when the key was absent |
| HashIndex.HashIndex.Lookup | hash_index.hpp:74-83 | the map's value, 0 if absent |
| HashIndex.HashIndex.Update | hash_index.hpp:85-93 | true exactly for present keys; the map changes at that key and nowhere else |
| HashIndex.HashIndex.Remove | hash_index.hpp:95 | true exactly for present keys; the key stays, with value 0 |
| HashIndex.HashIndex.Scan | hash_index.hpp:97-110 | XORs the first n values of the chain the key hashes to, in insertion order |
| HashIndex.HashIndex.OccupancyStats | hash_index.hpp:117-131 | the longest chain, the mean as map size over buckets, and the numbers of empty and long chains |
| HashIndex.LongerCounts | hash_index.hpp:125-127 | the chains counted as longer than a threshold are exactly those with more entries |
| HashIndex.HashIndex.Census | hash_index.hpp:50-95 | a valid table has its keys distinct and in the chain index_of names, non-tail buckets full, items_ the map size, overflow_buckets_ the sum over chains of max(0, ceil(count/4) - 1) |
| Adapters.SortIndices | adapters/builtin_btree_adapter.hpp:19-22 | every index once, in key order |
| Adapters.LoadTree | adapters/builtin_btree_adapter.hpp:16-30 | for any pairs the tree holds exactly their keys, each with the value of one of its pairs; the same map as inserting in order if equal keys have equal values |
| Adapters.CallTree | adapters/builtin_btree_adapter.hpp:33-35 | one call through the adapter replies and changes state as the map does |
| Adapters.RunTree | index.hpp:93-122 | a sequence of calls gets the map's replies |
| Adapters.LoadHash | index_iface.hpp:37-40 | the default insert loop loads the map of the pairs, the last value winning |
| Adapters.CallHash | adapters/builtin_hash_adapter.hpp:15-17 | one call through the adapter replies and changes state as the map does |
| Adapters.RunHash | hash_index.hpp:74-95 | a sequence of calls gets the map's replies |
| Adapters.CallTable | adapters/builtin_hash_adapter.hpp:14-17 | one call, insert included, replies and changes state as the map does |
| Adapters.RunTable | hash_index.hpp:50-95 | after every sequence of inserts, lookups, updates and removes on a new table: replies and contents are the map's and the facts of Census hold |
| Adapters.Equivalent | adapters/builtin_btree_adapter.hpp:16-35 | for any pairs in which equal keys have equal values, in any order, and every sequence of calls, both indexes give the map's replies |
| Adapters.AnyPairCanWin | adapters/builtin_btree_adapter.hpp:21-22 | any pair of a duplicated key can be the one the tree keeps, depending on the sort |
| Adapters.SameMapIff | adapters/builtin_btree_adapter.hpp:16-30 | the tree holds the hash table's map for every way to sort equal keys if and only if equal keys have equal values |
| Adapters.DuplicatesDisagree | adapters/builtin_btree_adapter.hpp:16-30 | two pairs with one key for which the two indexes differ |

## Left out

- The adapters for external indexes (FAST&FAIR, FPTree, BzTree, LB+Tree and others): their upstream code is not part of this model.
- Arrival times, key distributions and the hash key generator (`traffic_model.hpp`, `ZipfGen`, `InterArrivalGen`, `hash_key_gen.hpp`, `run_skew_check.cpp`): random distributions in floating point. Schedules and keys are arbitrary inputs.
- `workload.hpp`: memory traffic without a result that matters; it is the time between two clock reads.
- The effect of an operation on the index inside the two run modes: threads enter and leave it under the lock, and what each call does is modelled in the index classes.
- Weak memory orders, pause and yield: steps are sequentially consistent, and the scheduler is arbitrary.
- Fairness: the progress results say that a completing continuation always exists, not that every scheduler takes one.
- 64-bit wrap-around of ring positions, counters and sums, and 64-bit limits of keys.
- Rounding of the double weights and of the double percentile rank.
- `bulk_load` of the B+tree with keys that are not sorted, which its comment rules out and the adapter never does.
- A null `out_sink` in the two scans, which then only count.
- `insert` of the B+tree adapter, which always returns false, and `scan` through the interface, on which the two indexes differ by design.
- The destructors of the ring and of the hash table.
- Best-of-repeats scalars (wall time, lambda statistics) and the batch mode's unused queue capacity.
- Argument and op-mix parsing, CSV and human-readable output, performance counters, scripts and plots.
- BPlusTree.BPlusTree.BulkLoad: takes sorted keys, as its comment demands; see above.
