# Verified model of the dubbing pipeline and the asynchronous TTS service

A Dafny 4.11 model of the four stateful cores of the repository, with proofs.
`dafny verify dfyconfig.toml` checks all of it.

**A. Asynchronous TTS jobs** (`app/services/job_store.py`, `job_runner.py`, `app/api/routes/jobs.py`).
`JobCore` is a step machine: any number of consumers, each step one stretch of code between two
suspension points, progress writes landing at any time. `JobRuns` proves what holds in every
interleaving: a job is in exactly one place, its synthesis starts at most once, a terminal status is
final. `ProgressRuns` says exactly when recorded progress can go backwards. `FreePool` puts the
submitters on top, with the count of the free pool in both its forms: one look at the size (in memory)
and, for Redis, reading the members, then each status, then pruning, with anything in between.
`PoolRuns` proves the bound `limit + k - 1` for at most `k` overlapping submissions, and `PoolBound`
that no smaller bound holds; `PoolAdmission` says from the job records alone who is admitted and who is
turned away. `JobOutcomes` reads the status and the progress of a job off what has happened to it: what its
holder reported decides how it ends. `Heapq`, `ScoreQueue` and `QueueRuns` treat the queue that packs priority
and arrival into one integer; `Numerals`, `JobCodec` and `JobStores` the hash encoding and the two
stores, and `StoreHistory` what each field of a stored job is at any time.

**B. Priority scheduler** (`pipeline-worker/scheduler.py`, `jobs.py`). `JobTable` is the job table with
its listing; `Scheduler` the greedy dispatcher with a proof that it is optimal at every prefix of the
queue; `PlanLimits` the test each start passes, with the ceiling and the plan's number written out;
`SchedulerRuns` the slot accounting over every run; `StartOrder` when no other order of the queue
would have started more jobs, and `Fairness` when no user can occupy every slot.

**C. Dubbing timeline** (`asr.py`, `segments.py`, the aligning stage of `pipeline.py`, `mux.py`,
`subtitles.py`, `app/services/chunking.py`). Times are exact reals, texts are strings. `Packing` holds
one lemma, next-fit on a hereditary block predicate uses the fewest blocks, which serves both
`_merge_segments` and `split_text`. `TranscriptTexts` says part by part what a finished transcript
contains, `SegmentTimes` which captions normalising fuses and the exact times it gives them, and
`CaptionBand` which boxes belong to the first caption line.

**D. Time-windowed stores**: the nonce store (`app/core/security.py`) against an unbounded history, and
the file cache (`pipeline-worker/cache.py`) against a list in order of last use (`CacheRecency` for any
clock, `CacheRuns` for the deterministic list that a moving clock gives).

Objects that the source updates in place are classes (`Dispatcher`, `Table`, `FileCache`, `NonceStore`,
`SignatureVerifier`, `MemoryQueue`, the two job stores, the segment objects that normalising and
aligning change); loops are methods proved against a specification function, and the theorems are about
that function.

Where the code does less than its comments or documentation say, or than one would expect, the model
follows the code and the exact condition is proved:

- `split_text` keeps a single sentence whole even when it is longer than `max_chars`
  (`Chunking.LongSentenceStaysWhole`, `Chunking.SomeTextExceeds`); `Chunking.ChunksBounded` says exactly
  when the bound holds.
- "Progress must never go backwards": the callback hands on only forward advances, but two of its writes
  can land the wrong way round while the job is processing, and one handed over before the end can land
  after it, lowering a completed job from 100. In every continuation recorded progress only moves forward
  exactly when the job is finished, or there are no consumers, and the writes still pending for it all
  carry one percent, not below the record's (`ProgressRuns.AlwaysForwardIff`). The status is safe. The
  Redis store, whose writes suspend, can show this. With the in-memory store the event loop runs the
  updates in the order in which they were handed over, and before the result of the synthesis thread
  reaches the consumer; in such runs progress never goes backwards (`ProgressRuns.OrderlyRunsNeverFall`).
- "One user cannot occupy every slot" holds in every run exactly when the ceiling per user is below the
  number of slots (`Fairness.NobodyHoldsAllIff`); the defaults, two and one, do not meet it.
- The next job by priority and age is found only among the candidates: a queued job is one exactly when it
  is not stale and fewer than 500 kept jobs are newer, or as old and entered before it
  (`Scheduler.CandidateIff`).
- Once eviction starts, sub-directories of the cache directory (the Whisper models are one) count as
  files. The survivors are the longest suffix that the limits allow exactly when nothing need go, nothing
  can stay, or what could stay has room beside those entries (`CacheRuns.LongestSuffixKeptIff`).
- Normalising twice is not always the same as once: exactly when, of the captions that the first loop
  leaves, none outlasts the first or each outlasts the anchor by the minimum length or ends by it
  (`SegmentsStable.StableIffOutlasts`).
- Another order of the queue can start more jobs than priority and age do. It never does, whatever the
  scheduler holds and however many slots there are, exactly when no user has a larger limit ahead of a
  smaller one (`StartOrder.QueueOrderIsBestIff`, and `StartOrder.WaitingOrderIsBestIff` for balanced
  books).
- The queue score orders by priority for all priorities exactly while fewer than 10^12 arrivals separate
  two waiting jobs (`ScoreQueue.ScoreEmbedsIff`).

## Model

| member | source | states |
|---|---|---|
| JobCore.StepKeepsInv | app/services/job_runner.py:33-131 | every step of a submitter or consumer keeps: queue, record and history of each job fit together, each holder's phase matches the status, no two consumers hold one job, no enqueued job is lost |
| JobCore.LoadFindsItQueued | app/services/job_runner.py:35-43 | a consumer that reads the job it dequeued always finds it stored and queued: the missing and not-queued branches are unreachable |
| JobCore.StepKeepsTerminal | app/services/job_runner.py:66-113 | no step removes a record or changes its tier, and a completed or failed status stays as it is |
| JobCore.LandKeepsStatus | app/services/job_runner.py:66-77 | a progress write, early or late, changes no job's status |
| JobRuns.EveryJobHasOnePlace | app/services/job_runner.py:33-131 | in every interleaving an enqueued job is in exactly one of queue, one consumer, finished; its synthesis started at most once, exactly once if completed; `processing` means exactly one holder |
| JobRuns.TerminalForEver | app/services/job_runner.py:66-113 | once completed or failed, the status is the same at every later moment of the run |
| JobOutcomes.FinishSetsStatus | app/services/job_runner.py:94-113 | the end of a synthesis makes the held job completed at 100 percent if it went well, and failed with its progress left alone if not, and touches no other job |
| JobOutcomes.EndsAsReported | app/services/job_runner.py:79-113 | in every run from an idle start a job is completed, respectively failed, at a moment if and only if its holder has reported success, respectively a failure, before |
| JobOutcomes.StatusFollowsHistory | app/services/job_runner.py:33-113 | so the whole status follows from what happened: stored with its tier once created, queued until its holder marks it, processing until its holder reports the end, then as reported |
| JobOutcomes.ProgressIsLastGiven | app/services/job_runner.py:54-103 | the progress is always the one last given: 0 when created, 1 when marked, the percent of a landed write, 100 when completed |
| JobOutcomes.WritesAreConserved | app/services/job_runner.py:66-77 | the writes pending are exactly those handed over, each an advance on all before it, that have not landed |
| JobOutcomes.WaitingCompletes | app/services/job_runner.py:116-131 | any idle consumer can take any waiting job to either end, step by step, and is idle again afterwards, no other job touched |
| ProgressRuns.AlwaysForwardIff | app/services/job_runner.py:56-77 | the progress of a stored job goes backwards in no continuation if and only if the job is finished, or there are no consumers, and the writes pending for it all carry one percent, not below the record's; so with consumers it can fall while the job waits, is loaded, runs or is synthesized |
| ProgressRuns.OrderlyRunsNeverFall | app/services/job_runner.py:66-103 | in every run whose writes land in the order handed over and before the end of their job, with percents up to 100, no progress ever goes backwards |
| JobRuns.ReportedIsReachable | app/services/job_runner.py:54-98 | a run from an idle start to a consumer at work with one callback handed over |
| JobRuns.ProgressCanFall | app/services/job_runner.py:66-77 | an example: from there a completed job's progress falls from 100 to 40, its status staying completed |
| FreePool.MoveKeepsInv | app/api/routes/jobs.py:69-117 | every move of submitters and consumers keeps the pool's books: stage, record and active sets agree, what a count saw stays true, later counts saw earlier live submissions |
| PoolRuns.FreePoolIsBounded | app/api/routes/jobs.py:69-109 | with at most k free submissions under way at once, never more than limit + k - 1 free jobs are admitted and unfinished, even with the non-atomic Redis count; exactly the limit bounds them without overlap |
| PoolRuns.PruningTakesOnlyFinished | app/services/job_store.py:324-345 | a count prunes only finished jobs, in every interleaving, and leaves the other tier alone |
| PoolAdmission.VerdictFollowsRecords | app/services/job_store.py:324-345 | in every interleaving a counted submission is refused only if at least `limit` members of the pool were queued or processing when its count began, and admitted only if fewer than `limit` of those are so at its end; an equivalence when none of them finishes meanwhile |
| PoolAdmission.PruningFollowsRecords | app/services/job_store.py:334-345 | a count takes out every member that was over when it began and none that is queued or processing at its end, and adds nobody |
| PoolAdmission.MemoryVerdict | app/api/routes/jobs.py:71-85 | with the in-memory store a submission is refused if and only if at least `limit` free jobs have been added and not released |
| PoolAdmission.UncountedIsAdmitted | app/api/routes/jobs.py:71 | a submission of any other tier is not counted |
| PoolAdmission.AdmittedGoesThrough | app/api/routes/jobs.py:96-109 | an admitted job can be stored, added to the set of its tier and queued, ending queued at zero progress with one entry in the queue |
| PoolAdmission.AbandonedIsRefused | app/api/routes/jobs.py:91-94 | a request that fails validation is turned away and changes neither records nor sets |
| PoolAdmission.RefusedForEver | app/api/routes/jobs.py:73-94 | who is refused stays refused, and is never stored, queued or in an active set |
| PoolRuns.ActiveSetsAreExact | app/services/job_store.py:318-345 | a tier's active set contains every added unfinished job of that tier, and nothing not added or already released |
| PoolRuns.MemoryPoolIsExactAndBounded | app/services/job_store.py:245-252 | in memory the active sets are exactly the added and unreleased jobs, and the free set plus the submissions under way stays within limit + k - 1 |
| PoolBound.BoundIsReached | app/api/routes/jobs.py:69-109 | for every limit and every overlap k of at least one, with either store, some run attains limit + k - 1 |
| PoolBound.LeastBound | app/api/routes/jobs.py:69-109 | so that is the least bound which every run respects, and the limit itself holds in every run if and only if submissions do not overlap |
| PoolRuns.SubmittedJobsHaveOnePlace | app/api/routes/jobs.py:106-109 | with submitters storing, adding and enqueueing in three separate steps, every submitted job is in exactly one place, started at most once, and held by one consumer while processing |
| PoolRuns.FinishedForEver | app/services/job_runner.py:33-113 | in the combined system too a terminal status never changes |
| Heapq.Push | app/services/job_store.py:234 | pushing keeps the heap shape and adds exactly the new entry |
| Heapq.Pop | app/services/job_store.py:240 | popping returns a least entry, removes exactly it and keeps the heap shape |
| Heapq.SiftDown | app/services/job_store.py:234 | moving an entry towards the root restores the heap and permutes it |
| Heapq.SiftUp | app/services/job_store.py:240 | moving the root to a leaf and back up restores the heap and permutes it |
| ScoreQueue.ScoreEmbedsIff | app/services/job_store.py:37-40 | the score compares two arrivals as (priority DESC, arrival ASC) for all priorities if and only if fewer than SCORE_SCALE arrivals separate them |
| ScoreQueue.ScoreOrders | app/services/job_store.py:37-40 | within that window the score is also injective |
| ScoreQueue.ScoreFitsDoubleIff | app/schemas/tts.py:26-28 | for all priorities in -1000..1000 the score fits the 53-bit significand of IEEE 754 section 3.6 if and only if at most 2^53 - 10^15 jobs have arrived |
| ScoreQueue.BestComesFirst | app/services/job_store.py:37-39 | the abstract choice is a waiting job of highest priority, the earliest among equals |
| ScoreQueue.StringLeIff | app/services/job_store.py:234 | equal scores fall back on the ids: a prefix comes first, otherwise the smaller character where they first differ |
| ScoreQueue.MemoryQueue.Enqueue | app/services/job_store.py:232-234 | appends the job to the waiting list, keeping the heap |
| ScoreQueue.MemoryQueue.Dequeue | app/services/job_store.py:236-243 | empty exactly when nothing waits; otherwise exactly one waiting job leaves, within the window the lexicographic first |
| ScoreQueue.SortedSetPopsBest | app/services/job_store.py:308-316 | the Redis sorted set's highest score is the same job |
| ScoreQueue.SortedSetForgets | app/services/job_store.py:312-316 | popping leaves the sorted set of the remaining jobs |
| QueueRuns.BothServeInOrder | app/services/job_store.py:232-243 | over every run of at most SCORE_SCALE arrivals both stores serve the same jobs in the same order, highest priority first, oldest first among equals |
| Numerals.IntRoundTrip | app/services/job_store.py:139-146 | reading a printed integer gives it back |
| Numerals.PrintIntIsPlain | app/services/job_store.py:110-121 | a minus sign exactly for the negative numbers, and no leading zero but in zero |
| Numerals.MicrosRoundTrip | app/services/job_store.py:129-136 | reading a time printed with six decimals gives it back to the microsecond |
| JobCodec.DecodeEncode | app/services/job_store.py:106-171 | decoding an encoded job gives the job with empty optionals absent and an empty status queued; only a job without an id is lost |
| JobCodec.RoundTripExactIff | app/services/job_store.py:106-171 | the round trip is the identity if and only if the id and the status are non-empty and no optional text is empty |
| JobCodec.MissingFieldsDefault | app/services/job_store.py:149-171 | a hash with nothing but an id decodes to a freshly queued job with the defaults of every field |
| JobCodec.UpdateCommutes | app/services/job_store.py:292-306 | writing one hash field, for any hash, is setting that field of the decoded job |
| JobCodec.UpdatesCommute | app/services/job_store.py:292-306 | so does writing any list of fields |
| JobStores.MemoryJobStore.UpdateJob | app/services/job_store.py:222-230 | a missing job answers None and changes nothing; otherwise the named fields and the update time are set |
| JobStores.RedisJobStore.UpdateJob | app/services/job_store.py:292-306 | a missing key answers None; otherwise exactly the named hash fields are written and the decoded hash is returned |
| JobStores.StepsAgree | app/services/job_store.py:215-230 | one create, get or update answers alike on both stores and leaves them in agreement |
| JobStores.StoresAnswerAlike | app/services/job_store.py:280-306 | over every run of creates, updates and gets both stores answer alike apart from `updated_at` |
| JobStores.RedisKeepsUpdatedAt | app/services/job_store.py:229-306 | no update moves `updated_at` in Redis, every update sets it in memory |
| StoreHistory.FieldIsLastGiven | app/services/job_store.py:215-230 | over every run a job is in memory if and only if it was created, and each of its fields has the value it was last given, `updated_at` the time of the last update |
| StoreHistory.RedisFieldIsLastGiven | app/services/job_store.py:280-306 | the Redis store says the same, normalised, of every field but `updated_at` |
| StoreHistory.AnswerIsStored | app/services/job_store.py:215-306 | every operation answers with the job as the store then has it, leaves all other jobs alone, and a get changes nothing, in both stores |
| JobTable.Table.CreateJob | pipeline-worker/jobs.py:125-146 | stores the job under its id, one entry per id |
| JobTable.StoredIs | pipeline-worker/jobs.py:144-146 | the table then holds the job and every other job but the one of the same id, each in its place, a new one last |
| JobTable.Table.UpdateStatus | pipeline-worker/jobs.py:187-200 | changes exactly the named job, and reports whether there is one |
| JobTable.Table.ListJobs | pipeline-worker/jobs.py:169-174 | drops the stale jobs and lists the newest of the rest, no id twice |
| JobTable.KeptForAnHour | pipeline-worker/jobs.py:38-173 | exactly the jobs updated within the last hour stay in the table |
| JobTable.ListingIsNewest | pipeline-worker/jobs.py:169-174 | no kept job left out of the listing is newer than a listed one, and one is left out only when the listing is full |
| JobTable.ListingShape | pipeline-worker/jobs.py:169-174 | the listing is newest first and as long as the limit and the kept jobs allow |
| JobTable.ListedIff | pipeline-worker/jobs.py:169-174 | a job is listed if and only if it is not stale and fewer kept jobs than the limit are newer, or as old and entered before it |
| Scheduler.Dispatcher.DispatchOnce | pipeline-worker/scheduler.py:109-126 | one dispatch, early returns and skips included, is the specified greedy pass over the listed queue |
| SchedulerRuns.StartKeepsBooks | pipeline-worker/scheduler.py:118-143 | starting a job that passed the tests keeps one live task per id, exact positive counters that sum to the tasks, the slots and the ceiling |
| SchedulerRuns.FinishKeepsBooks | pipeline-worker/scheduler.py:145-158 | so does the end of any live task |
| Scheduler.QueueFacts | pipeline-worker/scheduler.py:113-116 | the queue holds exactly the queued jobs listed, by priority, then age |
| Scheduler.StartedIsStartable | pipeline-worker/scheduler.py:118-126 | whatever a dispatch starts was not running, found a free slot and was below its own limit |
| PlanLimits.StartedIff | pipeline-worker/scheduler.py:113-137 | by priority, then age, a job is started if and only if a slot is free, it is not running, and its user holds fewer tasks than the ceiling and than the plan says |
| PlanLimits.StartedWithinPlan | pipeline-worker/scheduler.py:118-137 | right after a start its user holds at most as many tasks as the ceiling and as the plan says |
| PlanLimits.PlanHoldsInRuns | pipeline-worker/scheduler.py:109-158 | in every run a user all of whose listed jobs carry plans of at most k jobs never has more than k live tasks |
| PlanLimits.SharedCounterIff | pipeline-worker/scheduler.py:123 | two jobs share a counter if and only if they are of one user, or each of nobody or of a user called anon |
| Scheduler.DispatchBeatsStartable | pipeline-worker/scheduler.py:109-137 | for arbitrary limits and every prefix, no set startable in queue order has more jobs in the prefix than the dispatch starts |
| Scheduler.DispatchIsOptimal | pipeline-worker/scheduler.py:109-137 | no feasible set has more jobs in any prefix than the dispatch starts, whatever the limits; with equal limits per user the started set is itself feasible |
| Scheduler.DispatchDominates | pipeline-worker/scheduler.py:109-137 | hence, whatever the limits, no feasible set has more jobs of at least any given priority, nor more jobs |
| Scheduler.CandidateIff | pipeline-worker/scheduler.py:113-116 | a job is a candidate if and only if it is queued, not stale, and fewer than 500 kept jobs are newer or as old and entered before it |
| Scheduler.DispatchAddsStarted | pipeline-worker/scheduler.py:109-143 | the tasks after a dispatch are those before it and the started jobs |
| Scheduler.LeftWaitingForAReason | pipeline-worker/scheduler.py:118-126 | a job left waiting was running already, or its user is at the job's limit, or no slot remains |
| PlanLimits.WaitingForItsPlan | pipeline-worker/scheduler.py:118-137 | the same with the ceiling and the plan's number written out |
| Scheduler.UnequalLimitsCostAJob | pipeline-worker/scheduler.py:128-137 | an example: the queue order starts one job where another order starts two |
| StartOrder.AscendingIsBest | pipeline-worker/scheduler.py:109-137 | when no user has a larger limit ahead of a smaller one, no other order of the queue starts more jobs, in any state and with any number of slots |
| StartOrder.QueueOrderIsBestIff | pipeline-worker/scheduler.py:109-137 | that holds over all states and numbers of slots if and only if no user has a larger limit ahead of a smaller one |
| StartOrder.WaitingOrderIsBestIff | pipeline-worker/scheduler.py:109-137 | the same condition decides it over balanced books alone, for whichever jobs of the queue are still waiting |
| SchedulerRuns.RunsKeepBooks | pipeline-worker/scheduler.py:109-158 | in every run: tasks within the slots, one live task per id, each counter the number of the user's live tasks, positive and within the ceiling, counters summing to the tasks |
| SchedulerRuns.FinishUndoesStart | pipeline-worker/scheduler.py:139-158 | finishing the task just started restores both dictionaries |
| Fairness.NobodyHoldsAllIff | pipeline-worker/scheduler.py:3-5 | with at least one slot, no user holds every slot in any run if and only if the ceiling per user is below the number of slots |
| Packing.PackIsMinimal | pipeline-worker/asr.py:119-146 | next-fit on a hereditary predicate: no packing into consecutive acceptable blocks has fewer blocks |
| Packing.PackIsGreedy | pipeline-worker/asr.py:131-144 | a block is closed only by an item it cannot take |
| Asr.MergeFragments | pipeline-worker/asr.py:131-145 | the merge loop, with its running start, end and buffer, fuses the blocks of next-fit |
| Asr.MergeSegments | pipeline-worker/asr.py:119-146 | the whole function returns exactly those fused blocks; its last filter drops none |
| Asr.MergeIsMinimal | pipeline-worker/asr.py:119-146 | for starts and ends that never go back, the groups partition the fragments in order, obey the limits, and no such partition is smaller |
| TranscriptTexts.MergeJoinsIff | pipeline-worker/asr.py:131-144 | whatever the times, a fragment joins the block before it if and only if the pause after all of the block and the span allow it |
| TranscriptTexts.FusedBlock | pipeline-worker/asr.py:128-145 | a merged block runs from its first start to its latest end, says exactly the words of its fragments, stripped, and is not translated |
| Asr.MergeKeepsWords | pipeline-worker/asr.py:119-146 | merging keeps every word, in order |
| Asr.MergeKeepsOrder | pipeline-worker/asr.py:119-146 | merging keeps a chronological transcript chronological |
| Transcript.SplitLongSegment | pipeline-worker/asr.py:83-109 | the splitting loop refines the specified tiling |
| Transcript.SplitIsExact | pipeline-worker/asr.py:83-109 | the parts tile the segment exactly, with its words in order, positive durations, and, when it was cut, time proportional to characters |
| Transcript.PiecesKeepWords | pipeline-worker/asr.py:112-116 | cutting after sentence marks keeps the words, in order, and no blank piece |
| TranscriptTexts.CutAtEverySentence | pipeline-worker/asr.py:112-116 | a text is cut after every sentence mark that whitespace follows and nowhere else, the marks written out |
| TranscriptTexts.CutIffLong | pipeline-worker/asr.py:83-109 | a segment is cut if and only if it is over-long and has several pieces, one part per piece, and is otherwise its only part |
| Transcript.Transcribe | pipeline-worker/asr.py:181-203 | the method computes merge, split, drop, round |
| TranscriptTexts.TranscriptSays | pipeline-worker/asr.py:181-203 | the parts carry exactly the words of the recording; the transcript is exactly the parts that last long enough, in order, each with its text as source, no target and its times rounded; when no part is shorter no word is lost |
| Transcript.TranscribeKeepsOrder | pipeline-worker/asr.py:164-204 | that chain keeps a chronological non-overlapping transcript so, and with a minimum above one millisecond no segment is empty |
| Rounding.Round3Near | pipeline-worker/asr.py:198-199 | rounding to milliseconds moves a time by at most half a millisecond |
| Rounding.RoundIff | pipeline-worker/asr.py:198-199 | `round` is the nearest integer, of two equally near ones the even one |
| Rounding.Round3Monotone | pipeline-worker/asr.py:198-199 | and keeps order |
| Chunking.SplitText | app/services/chunking.py:6-20 | the loop computes the next-fit chunks of the sentences |
| Chunking.ChunksKeepInk | app/services/chunking.py:6-20 | the non-whitespace characters are conserved, in order |
| Chunking.ChunkShape | app/services/chunking.py:6-20 | every chunk is a single sentence or at most `max_chars` long |
| Chunking.CutAtEveryMark | app/services/chunking.py:8 | the text is cut behind every mark, the marks written out, and nowhere else |
| Chunking.SentencesAreSingle | app/services/chunking.py:8-9 | every sentence is stripped, not blank, and holds no mark but at its end |
| Chunking.ChunksAreFilled | app/services/chunking.py:10-20 | a chunk is closed only by a sentence that would make it too long |
| Chunking.ChunksBounded | app/services/chunking.py:6-20 | all chunks are within `max_chars` if and only if every sentence is, or a text without sentences is short enough itself |
| Chunking.LongSentenceStaysWhole | app/services/chunking.py:6-20 | a stripped text without sentence marks comes back whole |
| Chunking.SomeTextExceeds | app/services/chunking.py:6-20 | for every limit some text comes back in a chunk that exceeds it |
| Chunking.ChunksAreFewest | app/services/chunking.py:6-20 | no consecutive grouping of the same sentences has fewer chunks |
| SegmentsInPlace.MergeCues | pipeline-worker/segments.py:33-64 | the first loop merges short captions as specified, making new objects and changing none |
| SegmentsInPlace.ChainCues | pipeline-worker/segments.py:75-93 | the second loop, moving, clamping and folding the objects in place, leaves the specified chain of values |
| SegmentsInPlace.NormalizeCues | pipeline-worker/segments.py:32-93 | from the sorted list on, both loops on the caller's objects compute the specified result of their original values |
| SegmentsInPlace.NormalizeSegments | pipeline-worker/segments.py:22-93 | the whole function computes the specified normal form |
| Segments.NormalizeIsClean | pipeline-worker/segments.py:65-93 | on any valid input: strictly increasing, non-overlapping, every duration in (0, max]; the `start + 0.5` branch cannot matter |
| Segments.NormalizeKeepsWords | pipeline-worker/segments.py:22-93 | the words of either side are those of the kept inputs in stable start order |
| Segments.PreparedIff | pipeline-worker/segments.py:24-31 | a segment is worked on if and only if both its texts hold a word and it ends after it starts; the work goes by start time |
| Segments.BothTextsKept | pipeline-worker/segments.py:22-93 | source and target words are each conserved, in order |
| SegmentTimes.ShortOnesJoin | pipeline-worker/segments.py:33-64 | the first loop closes a group as soon as it lasts the minimum, and a tail that never does joins the last group; each fused caption starts with its first segment, ends with its last and says what all of them say |
| SegmentTimes.NormalizedTimes | pipeline-worker/segments.py:73-93 | the exact times: the later of its segment's start and the end before it, the earlier of its segment's end and the maximum after its start; it takes up the texts of exactly the segments behind it that end no later |
| SegmentsStable.CleanFixedPoint | pipeline-worker/segments.py:22-93 | a clean timeline is left alone if and only if it is a single caption or has no short one |
| SegmentsStable.StableIffOutlasts | pipeline-worker/segments.py:22-93 | normalising again changes nothing if and only if, of the captions the first loop leaves, none outlasts the first, or each outlasts the anchor by the minimum length or ends by it: a condition on their times |
| SegmentsStable.NonOverlappingIsStable | pipeline-worker/segments.py:32-93 | input that does not overlap once filtered and sorted gives such a result |
| SegmentsStable.OverlapIsNotAlwaysStable | pipeline-worker/segments.py:65-93 | an overlapping pair that a second pass changes |
| Sorting.SortStable | pipeline-worker/segments.py:31 | sorting keeps equal elements in their original order |
| Timeline.AlignFirstRun | pipeline-worker/pipeline.py:483-492 | places the clips by the layout, records the slots at three decimals and re-times exactly the placed segments |
| Timeline.FirstClipsKeepPace | pipeline-worker/pipeline.py:480-491 | a clip starts at its segment's natural start times the factor, or when the clip before it ends if that is later |
| Timeline.LayoutIsMaxPlus | pipeline-worker/pipeline.py:483-491 | position i is the maximum over j up to i of the wanted start j plus the lengths from j to i - 1 |
| Timeline.LayoutIsLeast | pipeline-worker/pipeline.py:456-491 | the layout never overlaps nor starts early, and lies pointwise below every in-order placement with those traits |
| Timeline.RelayoutIsIdentity | pipeline-worker/mux.py:83-89 | laying the placed clips out again with the same lengths moves nothing |
| Timeline.PlaceClips | pipeline-worker/mux.py:83-106 | the mixer's placement is the layout, its delays the rounded milliseconds |
| Timeline.DelaysOverlapAtMostOneMs | pipeline-worker/mux.py:103-106 | rounded delays keep the order, and a clip runs over the next delay by at most one millisecond |
| Timeline.AlignResumed | pipeline-worker/pipeline.py:502-526 | resumption takes the clips that exist, at their saved slots or, where the list is short, at the segments' own times |
| Timeline.ResumedSlots | pipeline-worker/pipeline.py:511-524 | a saved slot is taken as it is; without one a clip starts at its segment's own start times the factor and keeps its length; nothing else moves |
| Timeline.ClipPlanFollowsKept | pipeline-worker/pipeline.py:511-522 | the resumed clips are the existing ones, in order |
| Timeline.ResumedClipStarts | pipeline-worker/pipeline.py:502-522 | from the slots the first run saved, the resumed clips start at the first positions of the kept clips, rounded to three decimals |
| Timeline.ResumeAndMix | pipeline-worker/pipeline.py:502-524 | resuming and mixing end to end: every kept clip is placed within 0.5 ms of its first position, for any number of clips, and its delay within 1 ms of its first delay |
| Captions.ClusterCentres | pipeline-worker/subtitles.py:274-285 | scanning all clusters gives the same grouping as looking at the latest one |
| Captions.ClustersAreRuns | pipeline-worker/subtitles.py:274-285 | clusters are consecutive runs of the sorted centres with their means, more than the given distance (LINE_CLUSTER_PX) apart |
| CaptionBand.LinesAreGreedy | pipeline-worker/subtitles.py:274-285 | going down the page a centre belongs to the line above if and only if it is within the distance of that line's mean so far |
| Captions.PickFirstLine | pipeline-worker/subtitles.py:268-297 | returns the boxes in the band of the top line |
| Captions.TopLineIsTop | pipeline-worker/subtitles.py:287-294 | the top line is near the dominant one and no cluster near it lies higher |
| CaptionBand.LineHeightIsMedian | pipeline-worker/subtitles.py:291-292 | the line height is the upper median of the box heights, at least one pixel |
| CaptionBand.DominantIsLargest | pipeline-worker/subtitles.py:290 | no line has more boxes than the dominant one, and those above it have fewer |
| CaptionBand.TopLineIsHighestClose | pipeline-worker/subtitles.py:290-294 | the top line is the highest of those within two and a half line heights of the dominant one |
| Captions.FirstLineHoldsTopLine | pipeline-worker/subtitles.py:268-297 | the result is a non-empty part of the boxes with the whole top line |
| CaptionBand.FirstLineIff | pipeline-worker/subtitles.py:294-297 | a box is returned if and only if it is an input box whose middle is within ten pixels of the range of the top line's centres; order is kept |
| CaptionBand.SecondLineIsLeftOut | pipeline-worker/subtitles.py:268-297 | no box whose middle is more than ten pixels below every centre of the top line is returned |
| Nonces.NonceStore.CheckAndRecord | app/core/security.py:56-63 | accepts and records exactly the nonces not remembered after eviction |
| Nonces.VerdictsFollowHistory | app/core/security.py:78-124 | over any run with a non-decreasing clock a request is accepted if and only if nothing is wrong with it and no request with its nonce was accepted in the last ttl seconds, and called a replay if and only if the nonce alone is at fault |
| Nonces.StoreAgreesWithHistory | app/core/security.py:56-68 | with a non-decreasing clock the evicting store accepts if and only if the unbounded history has not accepted the nonce in the last ttl seconds |
| Nonces.RefusalNamesFirstFault | app/core/security.py:87-119 | a refusal before the nonce is looked at names the first thing wrong with the request, in the order of the code, and there is one if and only if something is wrong |
| Nonces.UnauthenticatedCannotConsume | app/core/security.py:87-124 | a request that fails any earlier check, whichever it is, leaves the nonce memory untouched and is neither accepted nor called a replay |
| Nonces.ReplaySafeIffTtlCoversSkew | app/core/security.py:104-124 | no (timestamp, nonce) is accepted twice in any run if and only if ttl is at least twice the skew |
| CacheRuns.ReadsFollowHistory | pipeline-worker/cache.py:64-100 | over any run a read hits if and only if the file is still there and was last used at most the time to live ago, and then returns the data last put under the key |
| Cache.FileCache.EvictIfNeeded | pipeline-worker/cache.py:103-124 | keeps exactly the specified survivors, whatever the directory order, and counts the deletions |
| Cache.FileCache.PutCache | pipeline-worker/cache.py:78-85 | stores the data, then evicts |
| CacheRuns.SurvivorsAreLongestFit | pipeline-worker/cache.py:103-124 | with only files in the directory the survivors fit both limits and are the longest recent suffix that does |
| CacheRuns.SurvivorsBesideOthers | pipeline-worker/cache.py:103-124 | with other entries too the files end within both limits; files that fit are all kept, otherwise the survivors are the longest proper suffix that fits beside those entries |
| CacheRuns.LongestSuffixKeptIff | pipeline-worker/cache.py:103-124 | the survivors are the longest suffix that the limits allow if and only if nothing need go, nothing can stay, or what could stay has room beside the other entries |
| CacheRuns.DirectoryCostsAFile | pipeline-worker/cache.py:121 | one sub-directory costs a file that the limits allow |
| CacheRuns.PutEndsWithinLimits | pipeline-worker/cache.py:78-124 | after every put, for any clock and listing, the files are within both limits |
| CacheRuns.PutRefines | pipeline-worker/cache.py:78-124 | a put moves the key to the back of the recency list and keeps what fits |
| CacheRuns.GetRefines | pipeline-worker/cache.py:64-100 | a get moves a live key to the back and removes an expired one |
| CacheRecency.CacheIsRecencyList | pipeline-worker/cache.py:64-124 | over every run, whatever the clock and the listing, the cache answers as a list in order of last use, ties in any order, whose entries carry the data last put and the time of last use |
| CacheRecency.PutKeepsLastUsed | pipeline-worker/cache.py:78-124 | after every put of any run the survivors are a suffix of the files in order of last use, the longest that the limits allow if and only if the condition on the other entries holds |
| CacheRuns.HitsAreLastPut | pipeline-worker/cache.py:88-100 | over any run a hit returns the data last put under the key, unexpired since its last use |

## Left out

- HTTP routing, authentication middleware, SSE, S3, ffmpeg and the speech, translation and OCR engines: their results (probed durations, fragments, boxes, file contents) are inputs.
- SHA-256, HMAC and the canonical string: `Nonces.VerdictsFollowHistory` takes their verdicts as booleans, and the header timestamp already parsed.
- Floating-point rounding: times are exact reals, or integer microseconds in the job records; `Rounding` models `round` itself, ties to even, on reals.
- SegmentsInPlace.NormalizeSegments: filters and sorts values; object identity is modelled from the sorted list on (`SegmentsInPlace.NormalizeCues`).
- Segments.NormalizeIsClean: stated for inputs that satisfy the pydantic bounds (`start >= 0`, `end >= 0`), which every constructed segment does.
- Asr.MergeSegments: takes fragments with non-blank text, as the transcription loop passes them.
- Asr.MergeIsMinimal: the group limits are those of the docstring, which are the loop's tests when starts and ends never go back; for other fragment orders `TranscriptTexts.MergeJoinsIff` says exactly what is merged, but fewest is not claimed.
- Timeline.AlignFirstRun: the segment objects are distinct; the conversion of clips to wav and the transcript files written afterwards are not modelled.
- Timeline.ResumeAndMix: assumes a saved slot for every kept clip and clip lengths that are not negative, the same in both runs; the fallback for missing slots is in `Timeline.AlignResumed`.
- CacheRuns.CacheIsLruList: needs a clock that moves between operations, for only then is the list determined; with equal modification times the sort follows the directory order, and `CacheRecency.CacheIsRecencyList` says what holds.
- Cache.FileCache.PutCache: the temporary file and failing file operations are not modelled.
- Scheduler.DispatchDominates: is about the candidates, those that `list_jobs` returned; `Scheduler.CandidateIff` says which they are.
- SchedulerRuns.RunsKeepBooks: covers dispatching and finishing; `Scheduler.stop()` may cancel a task before its first step, whose `finally` then never runs.
- JobTable.Table.UpdateStatus: only the status and the update time; the other fields, listeners and files of a job are not modelled.
- Terminal status in the pipeline worker's own job table: the pipeline writes `completed` whatever happened meanwhile, so finality is claimed for the TTS jobs only.
- JobRuns.EveryJobHasOnePlace: assumes no store errors, no shutdown cancellation, no expiry of a live job's record, and that each id is enqueued once.
- JobCore: a record keeps its status, progress and tier only; stage, error text, audio path and times are in `JobCodec`. A submission is identified by its job id from the start, and progress writes land in any order.
- PoolRuns.ActiveSetsAreExact: with Redis a finished job may leave the set before its consumer releases it, which is all that pruning does.
- StartOrder.QueueOrderIsBestIff: ranges over every content of the scheduler's dictionaries, reachable or not; `StartOrder.WaitingOrderIsBestIff` ranges over balanced books.
- Numerals.MicrosRoundTrip: the reader accepts the numerals the store writes; Python's other spellings (exponents, underscores, `inf`) read as absent here.
- JobStores.StoresAnswerAlike: jobs have an id and updates name at least one declared field with a value of its type; aliasing of the in-memory job object, record expiry and connection errors are not modelled.
- ScoreQueue.MemoryQueue.Dequeue: one look at the queue; the polling until a deadline is not modelled. The steps of `heapq` are those of CPython's pure Python version.
- ScoreQueue.SortedSetPopsBest: Redis ZADD and ZPOPMAX are modelled by their documented effect on a map from members to integer scores.
- Captions.PickFirstLine: for at least one box, as its caller ensures, and exact means.
- `align.py`, `refine_onsets`, `video-worker/`, prompts, configuration, the voice catalogue, metrics and deployment: easy or not called by the pipeline.
