# Verified models of the flow tools

This project models the parts of the OpenTitan utilities whose correctness rests on an argument rather than on a
test, and proves what they promise for all inputs and all runs. `dafny verify dfyconfig.toml` checks everything.

- **Job scheduler** (`util/dvsim/Scheduler.py`). `SchedulerProtocol` has the job graph, the legal histories of job
  statuses and what holds of every history. `SchedulerBoxes` and `SchedulerPlaces` say when the containers agree with
  the statuses and that every move keeps them so. `SchedulerQuotas`, `SchedulerPass` and `SchedulerPolling` treat slot
  allocation, the dispatch pass and circular polling. `SchedulerModel` gives a dispatch pass as a function of the state
  it finds, `SchedulerLate` and `SchedulerCount` characterise the passes that give out too many slots and launch too many
  jobs, `SchedulerRuns` treats whole runs turn by turn, `SchedulerFairness` bounds how long a job waits for its poll, and
  `SchedulerExample` has concrete runs.
  `Scheduling` (`Scheduler.dfy`) is the class itself, with its fields updated in place, proved against all of these up
  to the theorem that a run ends with every job complete, and with the outcome its verdict and those of its dependencies
  call for. The launcher is an object that answers polls; the interrupt
  flag and the status timer are arbitrary functions of the turn.
- **SECDED codes** (`util/design/secded_gen.py`). `SecdedCode` gives the emitted encoder and decoder a meaning on bit
  sequences and writes down the assertions of the generated formal check as one predicate; `SecdedTheorem` proves them
  for any good matrix; `HammingCode`, `Combinations` and `HsiaoCode` prove when the constructed matrices are good, and
  that no Hsiao fan-in is smaller than the ideal; `HsiaoBalance` proves that the ideal is attained. `SecdedSoftware`
  relates the Python and C encoders to the hardware, and `SecdedInverted` decides the two further assertions emitted
  for inverted codes.
- **Memory scrambling** (`util/design/prince.py`, `util/design/gen-flash-img.py`). `Prince` and `Flash` prove what holds
  for every key; `PrinceNumbers` and `FlashNumbers` say on numbers which part of a key or word goes where, and
  `PrinceAnswers` computes a known answer from the tables in `PrinceConstants`.
- **Smaller cores.** `SparseFsm` (state encodings), `RunList` (reseed interleaving), `CfgMerge`, `CfgKeys` and `CfgLoad`
  (configuration files with includes, as a whole, key by key, and with lists as objects that the caller may share),
  `Keccak` and `KeccakTable` (round constants).

Words are sequences of bits, least significant first (`Bits`); `Hexadecimal` has 64-bit words by their digits.

Small facts beside the main results: `verify` admits exactly the sizes that cover the word (`AdmittedIsAtLeastMinimal`),
the minimal size gives an exact layout (`MinParityIsExact`), and inverting every bit of a state never gives a state
(`ComplementIsNoState`).

The scheduler's job graph is assumed to have the shape that `util/dvsim/SimCfg.py:495-507` and the dependencies set in
`util/dvsim/Deploy.py` give it: scheduled dependencies lie in the same cfg and in the target just before, jobs beyond
the first target have one, jobs before the last target have a dependent, and weights and limits are positive.

Where the code and its documentation or intent differ, the model follows the code:

- `verify` admits Hamming sizes above the minimum, but the layout then leaves parity bits unused and the code is not
  SECDED; `HammingSecded` gives the exact condition and `SpareParityIsNotSecded` the failing case. The software encoder
  stops with an index error for the same sizes.
- For `inv_hamming` the software encoder inverts check bits before the overall parity reads them, the hardware encoder
  afterwards. `InvHammingEncoders` says exactly when they agree.
- A dispatch pass can give out more slots than are free, although the comment at `util/dvsim/Scheduler.py:437-440`
  promises that exactly all are consumed: a queue that was empty when the weights were added up can be filled by a
  cancellation in the same pass. `LateExactly` gives the condition turn by turn on the state before: a queue's quota
  reaches jobs that may not run, and cancelling them frees a waiting job of the next target. `LaunchesExactly` counts the
  launches the same way, in each turn the jobs that can be launched among the first that may run, up to the quota;
  `Dispatch` says that more jobs run than allowed exactly if this count exceeds the slots. `ExceedsOnlyIfFilled` relates
  the two. `DispatchExceedsLimit` is an instance.
- The lookup at `util/dvsim/Scheduler.py:290` fails for a job without a dependent once its cfg has left the next
  target. GUI mode keeps one run of several builds (`util/dvsim/SimCfg.py:487-491`), so it can reach that case.
  `LookupNeedsDependent` gives the exact condition over all legal histories, and `RunsNeedDependent` over runs as the main
  loop makes them with two slots or more. With a single slot a job that holds it also holds up all others, so the lookup
  can succeed without a dependent; `OneSlotKeepsKey` is such a case.
- `_hsiao_code` can return matrices whose inverted code violates AllOnesCheck_A: `InvertedHsiaoCanFail` has one, and
  `HsiaoAssertions` the exact condition, the parities of the fan-ins. Inverted Hamming codes of exact layout never do.
- The comment at `util/design/gen-flash-img.py:320` says the first nibble of the integrity code is dropped; it is the
  top one.
- `load_hjson` promises not to modify the initial values, but copies them shallowly, so a list among them grows in
  place (`CallersListGrows`). `InitialListsKept` says exactly which initial values are safe from every load.
- A name listed twice in one `import_cfgs` is not detected and the file is merged twice (`MergedTwiceExample`).
  `MergedOnce` gives the exact condition.
- In `set_target_attribute` truth values are matched as integers, so the entry for `bool` is never used and -1 is a
  default for both.

## Model

| member | source | states |
|---|---|---|
| Scheduling.Scheduler.Run | util/dvsim/Scheduler.py:120-181 | a run from the start always ends, whatever the interrupt flag and the status timer do and however often each job answers D before its verdict; then exactly the scheduled jobs have a status, every one is P, F or K, the statuses come from a legal history, and each has its reason: the job's verdict after a launch its dependencies allowed, or K because they did not, its launch failed, a failed launch struck it, or there was an interrupt; without an interrupt the jobs told to stop are those whose launch failed, in order, and if none fails every status is the one expected from the verdicts alone |
| Scheduling.Scheduler.Turn | util/dvsim/Scheduler.py:155-166 | without an interrupt a turn of the main loop is a round of polls, after which exactly the jobs polled more often than they had D answers left are complete with their verdicts, followed by the pass that the model makes of the state then; only jobs whose launch fails are told to stop, and the run is over exactly if everything is complete and something changed or the timer fired; an interrupted turn kills exactly what is not complete, launches nothing and finishes the run; each turn finishes or strictly lowers the sum of stages and outstanding D answers, and every running job is polled or comes a turn nearer to its poll, jobs dispatched meanwhile included |
| SchedulerProtocol.AsExpected | util/dvsim/Scheduler.py:321-345 | once everything is complete without interrupts and failed launches, a job has its own verdict exactly if the expected outcomes of its scheduled dependencies, by recursion, all are P, or for a job content with one, one is; otherwise it is K and was never launched |
| SchedulerProtocol.ExplainedDispatches | util/dvsim/Scheduler.py:442-472 | a pass keeps the reason of every status, although its cancellations and failed launches add statuses |
| SchedulerProtocol.CascadeStrikes | util/dvsim/Scheduler.py:464-472 | whatever a failed launch cancels beyond its own job depends, directly or through other jobs it cancelled, on a job whose launch failed |
| Scheduling.Scheduler.DueInTurn | util/dvsim/Scheduler.py:75-79 | no running job starves: in every state of the invariant each is due within as many turns as its target has jobs times the number of targets |
| SchedulerFairness.TurnsOn | util/dvsim/Scheduler.py:367-386 | any number of polls of one target's list, with jobs leaving it in between, poll a job or bring it as many places nearer |
| SchedulerFairness.DispatchDue | util/dvsim/Scheduler.py:464-466 | jobs joining a running list do not delay a job beyond what was counted for them while they were waiting or queued |
| SchedulerFairness.PollMoves | util/dvsim/Scheduler.py:369-386 | a poll brings every other job of the list one nearer, whether the polled job stays or is popped and the cursor steps back |
| Scheduling.Scheduler.Poll | util/dvsim/Scheduler.py:347-402 | performs exactly min(max_poll, running) polls, ends without an index error, reports a change exactly when a job completed or nothing was running; a running job completes, with its verdict, exactly if it was polled more often than it still answered D, ready jobs become queued, and no other status changes; every running job is polled, or has fewer jobs before it on its list, or the cursor comes strictly nearer to its target |
| Scheduling.Scheduler.PollTarget | util/dvsim/Scheduler.py:367-402 | polls one target until it is idle or the polls are used up, beginning with the next job in turn; as long as only D answers come, the polled jobs are the circular round over the running list, starting where the last poll stopped |
| Scheduling.Scheduler.PollOne | util/dvsim/Scheduler.py:369-400 | polls the next job of the circular list; on D nothing but the cursor moves, otherwise exactly that job leaves the list with its new status and the cursor steps back; each poll uses up potential |
| SchedulerPolling.AnsweredOn | util/dvsim/Scheduler.py:367-402 | what polls of a round did to the answers still to come and to the statuses adds up poll by poll |
| Scheduling.Scheduler.Complete | util/dvsim/Scheduler.py:376-400 | a completed job goes to the place of its final status, and every job that thereby becomes ready is queued, in the order in which the jobs were given |
| SchedulerModel.CompletedEffect | util/dvsim/Scheduler.py:376-400 | completing a job queues exactly the waiting jobs that depend on it and have no other outstanding dependency, at the end of their queue, and changes no other status |
| SchedulerModel.SuccessorsInOrder | util/dvsim/Scheduler.py:262-301 | of two jobs that become ready together the one given first is queued first |
| Scheduling.Scheduler.Dispatch | util/dvsim/Scheduler.py:404-472 | one pass: its plan, the statuses, the queues and the launches are exactly what the model of a pass makes of the state before; launches are fair by the weights at the heads of the queues; exactly the jobs whose launch fails are told to stop; something happens if any queue was not empty and slots are free; the weights met exceed those counted exactly if a queue that was empty is filled on the way; the number of running jobs grows by exactly the launches counted from quotas and runnable jobs of the state before, so it exceeds max_parallel exactly if that count exceeds the slots, only if a queue is filled, and, where every quota finds enough jobs, exactly if the extra weight rounds up; otherwise, in particular if every queued job may run, the quotas sum to exactly the free slots and running stays within max_parallel |
| SchedulerCount.LaunchesExactly | util/dvsim/Scheduler.py:417-472 | over a whole pass, the jobs launched that start are, summed over its turns, those that can be launched among the first jobs of the queue that may run, as many as the quota |
| SchedulerCount.ExceedsOnlyIfFilled | util/dvsim/Scheduler.py:409-440 | a pass launches more jobs than there are slots only if it fills a queue that was empty; if every turn finds as many jobs as its quota, exactly if the weight of the queues filled does not round away |
| SchedulerCount.TakeIsChosen | util/dvsim/Scheduler.py:442-455 | although cancelling changes statuses and queues on the way, the jobs taken are the first that may run by the statuses before, and the queue keeps what is behind them |
| SchedulerCount.LaunchCounts | util/dvsim/Scheduler.py:442-455 | a turn takes as many jobs as the quota and the runnable jobs of the queue allow |
| SchedulerLate.LateExactly | util/dvsim/Scheduler.py:417-449 | over a whole pass, a queue that was empty is met exactly if in some turn the quota reaches queued jobs that may not run and cancelling them leaves a waiting job of the next target, whose queue was empty, with no outstanding dependency |
| SchedulerLate.TakeEffect | util/dvsim/Scheduler.py:442-452 | a target's turn cancels exactly the jobs its quota reaches that may not run, and every other queue gains exactly the waiting jobs this frees |
| SchedulerLate.UnderwayStep | util/dvsim/Scheduler.py:417-472 | a turn, launches included, changes no queue but its own and the next, and fills the next if it was empty exactly when it frees a job of it |
| SchedulerModel.CascadeOfSpec | util/dvsim/Scheduler.py:252-260 | cancelling whatever is ready, again and again, is a cascade, and so the only one |
| SchedulerExample.DispatchExceedsLimit | util/dvsim/Scheduler.py:404-472 | a job graph of two configurations, a history without interrupts and failed launches, and the containers it leads to, with no job running, from which a pass with one slot ends with two jobs running |
| Scheduling.Scheduler.DispatchTarget | util/dvsim/Scheduler.py:442-472 | uses at most the target's quota, launches only jobs of the target, and fewer than the quota only if its queue is empty afterwards; no queue but its own and the next target's changes |
| Scheduling.Scheduler.TakeJobs | util/dvsim/Scheduler.py:442-455 | takes jobs from the head in order, cancels those that may not run, and stops only at the quota or an empty queue; if every queued job may run, exactly the first jobs of the queue are taken and nothing else changes |
| Scheduling.Scheduler.TakeOne | util/dvsim/Scheduler.py:443-452 | the head of the queue joins the batch exactly if it may run; otherwise it is cancelled and what becomes ready is queued |
| Scheduling.Scheduler.LaunchOne | util/dvsim/Scheduler.py:464-472 | one launch; afterwards the job is running if it could be launched, and killed with its successors cancelled if not |
| Scheduling.Scheduler.LaunchAll | util/dvsim/Scheduler.py:464-472 | launches the batch in order; a job whose launch fails ends killed with its successors cancelled; no queue changes and no job becomes queued |
| Scheduling.Scheduler.EnqueueSuccessors | util/dvsim/Scheduler.py:236-250 | moves exactly the ready jobs to their queues, so that no ready job is left; no queue loses a job and only queues of the next target gain any |
| Scheduling.Scheduler.GetSuccessors | util/dvsim/Scheduler.py:262-301 | returns each ready successor exactly once and nothing else, and the lookups by target and cfg never fail |
| Scheduling.Scheduler.CancelSuccessors | util/dvsim/Scheduler.py:252-260 | cancels a cascade: only waiting jobs whose dependencies are complete, and afterwards none is ready; every waiting job is cancelled at most once |
| Scheduling.Scheduler.CancelItem | util/dvsim/Scheduler.py:526-541 | moves the job to the killed ones from wherever it was, and on request cancels the cascade behind it |
| Scheduling.Scheduler.KillItem | util/dvsim/Scheduler.py:543-550 | kills a running job with one kill call, takes it off the running list and cancels the cascade behind it |
| Scheduling.Scheduler.Kill | util/dvsim/Scheduler.py:474-487 | from any reachable state, afterwards every job is complete: a job that was complete keeps its status and every other is killed; exactly the running jobs were told to stop, target by target in order |
| Scheduling.Scheduler.OkToEnqueue | util/dvsim/Scheduler.py:303-319 | true exactly when every scheduled dependency is complete |
| Scheduling.Scheduler.OkToRun | util/dvsim/Scheduler.py:321-345 | true exactly when all scheduled dependencies passed, or at least one if the job does not need all; the assertion on their statuses holds |
| Scheduling.Scheduler.CheckIfDone | util/dvsim/Scheduler.py:489-524 | counting passed, failed and killed jobs per target says done exactly when every job is complete; the totals divided by are positive |
| Scheduling.Scheduler.GetNextTarget | util/dvsim/Scheduler.py:211-234 | the first target, the immediately following one, or none after the last |
| Scheduling.Scheduler.AddToScheduled | util/dvsim/Scheduler.py:183-193 | the waiting jobs are those added, each once, filed under target and cfg; targets are listed by first appearance |
| Scheduling.Scheduler.RemoveFromScheduled | util/dvsim/Scheduler.py:195-209 | takes one job off its list and deletes the cfg when the list becomes empty |
| Scheduling.Scheduler.constructor | util/dvsim/Scheduler.py:51-112 | establishes the invariant with every job waiting, and each target's total equal to its number of jobs |
| Scheduling.SumDictLists | util/dvsim/Scheduler.py:16-19 | the total length of all lists, whatever the order of the keys |
| Scheduling.Launchers.Poll | util/dvsim/Launcher.py:230-236 | the launcher as an oracle: each job answers D finitely often, then its verdict |
| SchedulerPlaces.OnePlace | util/dvsim/Scheduler.py:69-110 | in every state of the invariant each job is in exactly the one container its status names, a job without a status on the waiting list of its target and cfg |
| SchedulerPlaces.CountsAddUp | util/dvsim/Scheduler.py:69-110 | per target, waiting, queued, running, passed, failed and killed jobs add up to all its jobs |
| SchedulerPlaces.TargetDone | util/dvsim/Scheduler.py:497-503 | the count test for one target is equivalent to all its jobs being complete |
| SchedulerProtocol.DispatchedAfterDependencies | util/dvsim/Scheduler.py:303-345 | in every history, when a job is dispatched its scheduled dependencies are complete with the required passes, and at every later moment they still have the same statuses |
| SchedulerProtocol.FinalForever | util/dvsim/Scheduler.py:376-388 | a final status never changes in the rest of any history |
| SchedulerProtocol.DispatchedOnce | util/dvsim/Scheduler.py:464-466 | no job is dispatched twice |
| SchedulerProtocol.HistoryBound | util/dvsim/Scheduler.py:120-181 | a history has at most three events per job |
| SchedulerProtocol.NothingStuck | util/dvsim/Scheduler.py:303-319 | if no waiting job is ready and nothing is queued or running, every job is complete |
| SchedulerProtocol.SomethingActive | util/dvsim/Scheduler.py:155-166 | in every unfinished state between steps some job is queued or running |
| SchedulerProtocol.CascadeUnique | util/dvsim/Scheduler.py:252-260 | the outcome of a cancellation cascade does not depend on the order in which its work list is emptied |
| SchedulerProtocol.LookupNeedsDependent | util/dvsim/Scheduler.py:285-290 | the lookup of a completed job's cfg in the next target succeeds in every legal history if and only if the job has a dependent; the same among the histories that have no interrupt and no failed launch but may ignore queue order and slots |
| SchedulerRuns.RunsNeedDependent | util/dvsim/Scheduler.py:285-290 | in runs as the main loop makes them, with queues served in order and at least two slots, without interrupts and failed launches, no running job ever completes with its cfg gone from the next target if and only if it has a dependent or can never run, whatever the order of the first jobs |
| SchedulerRuns.DispatchKeeps | util/dvsim/Scheduler.py:404-472 | a pass without failed launches leaves running and complete jobs alone, keeps every queued job in its queue and no job ready, and uses up work if a slot is free and a queue is not empty |
| SchedulerExample.OneSlotKeepsKey | util/dvsim/Scheduler.py:285-290 | a job graph in which, with one slot, no run loses the key although the job has no dependent |
| SchedulerQuotas.QuotasTelescope | util/dvsim/Scheduler.py:409-440 | the quotas of a pass are never negative and sum to the rounded share of the weights met, so rounding errors never accumulate |
| SchedulerQuotas.QuotasFillSlots | util/dvsim/Scheduler.py:409-440 | given the weight met beyond what was counted, the quotas sum to at least the free slots, and to exactly them if and only if that weight is too small to round up |
| SchedulerPolling.GetNextItem | util/dvsim/Scheduler.py:22-45 | the next index of the circular list, from zero when the index has become too large, and an error exactly for the empty list |
| SchedulerPolling.RoundVisitsEachOnce | util/dvsim/Scheduler.py:22-45 | as many steps as there are items visit every index exactly once, wherever the cursor stood |
| SchedulerPolling.FullRound | util/dvsim/Scheduler.py:367-379 | as many consecutive D answers as jobs running in a target poll each of them exactly once |
| HammingCode.HammingSecded | util/design/secded_gen.py:588-605 | for every admitted size the Hamming and inverted Hamming codes correct and detect as the formal check asserts if and only if 2^(m-2) <= k+m-1 |
| HammingCode.MinimalHammingSecded | util/design/secded_gen.py:797-809 | with m = min_paritysize(k) both Hamming kinds correct every single flip, flag every double flip, and have a zero syndrome only without a flip, for every data word |
| HammingCode.SpareParityIsNotSecded | util/design/secded_gen.py:588-605 | with a spare parity bit some pair of words is told apart by nothing, so the code is not SECDED |
| HammingCode.LayoutCount | util/design/secded_gen.py:594-604 | the layout has exactly k data columns if and only if 2^(m-2) <= k+m-1 < 2^(m-1) |
| HammingCode.DataPositionsSpec | util/design/secded_gen.py:594-599 | the data positions are the numbers below k+m that are no powers of two, in ascending order |
| HammingCode.HammingTuple | util/design/secded_gen.py:597-604 | the column of the i-th data bit has the set bits of the i-th data position, and every column has the last row |
| HammingCode.PowerOfTwoTest | util/design/secded_gen.py:596-596 | b & (b-1) is zero exactly for powers of two |
| HammingCode.MakeHammingCode | util/design/secded_gen.py:588-605 | the loop builds the code by bit positions |
| HammingCode.MinParitySize | util/design/secded_gen.py:93-99 | the least size that covers the word, or -1 if none of the sizes tried does |
| HammingCode.HammingIsGood | util/design/secded_gen.py:588-605 | the columns of an exact Hamming layout are distinct, nonzero, and all covered by the last parity bit |
| SecdedTheorem.GoodMatrixIsSecded | util/design/secded_gen.py:797-809 | any matrix with distinct nonzero columns of the right overall parity satisfies every assertion in these lines, for all data words and all error patterns of at most two flips |
| SecdedTheorem.DecodeOfError | util/design/secded_gen.py:287-320 | the decoder's outputs depend on the error pattern alone: syndrome, flags and corrected bits |
| SecdedTheorem.AssignedParities | util/design/secded_gen.py:261-279 | after the assignments of the encoder every parity bit holds the parity of its row of the finished word |
| SecdedTheorem.InversionCancels | util/design/secded_gen.py:276-298 | the inversion done by the encoder is undone by the decoder under every error |
| SecdedTheorem.FlipCorrected | util/design/secded_gen.py:805-806 | flipping any one bit of a codeword, check bits included, decodes to the data |
| SecdedInverted.HammingAssertions | util/design/secded_gen.py:774-809 | for every admitted size a Hamming code meets every assertion of its kind, those for inverted codes included, if and only if 2^(m-2) <= k+m-1 |
| SecdedInverted.HammingOnesCheck | util/design/secded_gen.py:774-777 | all-one data never encodes to all ones in an inverted Hamming code of exact layout |
| SecdedInverted.HsiaoAssertions | util/design/secded_gen.py:774-809 | a Hsiao code meets every assertion of its kind; in the inverted kind if and only if some row's fan-in has the parity of its index |
| SecdedInverted.OnesCheckByFanIn | util/design/secded_gen.py:266-278 | for any matrix over data alone, all-one data encodes to all ones exactly if the even rows have odd and the odd rows even fan-in |
| SecdedInverted.ZerosCheckHolds | util/design/secded_gen.py:774-777 | for any matrix, all-zero data encodes to something else if and only if there are at least two parity bits |
| SecdedInverted.InvertedHsiaoCanFail | util/design/secded_gen.py:774-777 | a matrix for (7,6) within the ideal fan-in whose inverted code maps all ones to all ones |
| SecdedCode.CalcBitmasks | util/design/secded_gen.py:130-140 | row j has the bit of every column that mentions j, and for decoding its own parity bit |
| SecdedCode.SyndromeMatch | util/design/secded_gen.py:282-309 | the number compared with the syndrome is that of the column, and of no other syndrome |
| HsiaoCode.HsiaoSecded | util/design/secded_gen.py:496-576 | every matrix the Hsiao construction can return corrects and detects as the formal check asserts, plain and inverted |
| HsiaoCode.MakeHsiaoCode | util/design/secded_gen.py:496-576 | for any shuffling, the result is all combinations of weights 3, 5, ... while whole layers fit, followed, unless k is made of whole layers, by the first beginning of a shuffle of the next layer that keeps every row within the ideal; there is no result only if none of the allowed shuffles does; a result has exactly k distinct columns of odd weight at least 3, and the fan-in of no parity bit exceeds the ideal |
| HsiaoCode.WholeLayers | util/design/secded_gen.py:523-536 | the layers taken whole are all combinations of one odd weight after the other, and what is left of k is less than the next layer |
| HsiaoCode.FindSubset | util/design/secded_gen.py:538-566 | returns the beginning of the first shuffle that keeps every fan-in within the bound, and nothing exactly if none of the allowed shuffles does |
| HsiaoCode.IdealFanIn | util/design/secded_gen.py:102-116 | the loop computes the ideal by layers of equal weight |
| HsiaoCode.IdealIsCeiling | util/design/secded_gen.py:102-116 | the ideal is the least total weight divided by m, rounded up, although the code rounds layer by layer |
| HsiaoCode.LightestIsLeast | util/design/secded_gen.py:523-536 | no choice of distinct columns of odd weight at least 3 weighs less than filling the lightest layers first |
| HsiaoCode.IdealIsOptimal | util/design/secded_gen.py:102-116 | no matrix of k distinct columns of odd weight at least 3 has a smaller maximum fan-in |
| HsiaoBalance.IdealIsAttained | util/design/secded_gen.py:496-576 | for every size the construction covers some matrix it can return keeps every fan-in within the ideal, which is thus the least possible |
| HsiaoBalance.SomeShuffleSucceeds | util/design/secded_gen.py:542-566 | in every search some permutation of the candidates is accepted |
| HsiaoBalance.SomeShuffleIsAccepted | util/design/secded_gen.py:538-566 | for every size there is a shuffling with which the construction succeeds at the first shuffle |
| HsiaoBalance.Balance | util/design/secded_gen.py:102-116 | any layer of equal weight can be rearranged, one entry of one column at a time, until no row exceeds the average rounded up |
| HsiaoCode.DoubleCounting | util/design/secded_gen.py:119-127 | the fan-ins of the parity bits add up to the weights of the columns |
| HsiaoCode.HsiaoIsGood | util/design/secded_gen.py:518-523 | all columns of the full matrix are distinct and of odd weight |
| Combinations.CalcFanIn | util/design/secded_gen.py:119-127 | each entry counts the columns that mention the row |
| Combinations.CombComplete | util/design/secded_gen.py:531-531 | every increasing tuple of the given size is among the combinations |
| Combinations.CombDistinct | util/design/secded_gen.py:531-531 | no combination occurs twice |
| Combinations.CombOrdered | util/design/secded_gen.py:531-531 | the combinations come in lexicographic order |
| Combinations.CombFanIn | util/design/secded_gen.py:531-540 | all combinations of one size load every row equally, with C(m-1, s-1) each |
| Combinations.OddColumns | util/design/secded_gen.py:525-536 | there are 2^(m-1) - m columns of odd weight at least 3 |
| SecdedSoftware.EccEncode | util/design/secded_gen.py:369-394 | the string-based encoder computes its step function, including the failing case where the codeword is too short for a mask |
| SecdedSoftware.HsiaoEncodersAgree | util/design/secded_gen.py:369-394 | the software encoder equals the hardware encoder bit for bit, plain and inverted Hsiao, for every data word |
| SecdedSoftware.HammingEncodersAgree | util/design/secded_gen.py:369-394 | the same for the Hamming code |
| SecdedSoftware.InvHammingEncoders | util/design/secded_gen.py:369-394 | for the inverted Hamming code the two differ at most in the top parity bit, and agree if and only if (m-1)//2 is even |
| SecdedSoftware.InvHammingMismatchIsSingleError | util/design/secded_gen.py:276-318 | where they differ, the decoder sees the software codeword as one with a single error and returns the data |
| SecdedSoftware.HammingPythonRuns | util/design/secded_gen.py:374-394 | for an admitted size the software encoder runs through without an index error if and only if 2^(m-2) <= k+m-1 |
| SecdedSoftware.CalcParity | util/design/secded_gen.py:38-50 | the loop computes the parity of the word, inverted on request |
| SecdedSoftware.CEncoderAgrees | util/design/secded_gen.py:658-672 | the C encoder returns exactly the check bits of the hardware encoder for Hsiao codes of up to 64 data bits |
| Prince.PrinceBijective | util/design/prince.py:132-175 | for every 128-bit key and half-round count the cipher is a bijection on 64-bit words; the inverse is the same core with whitening swapped and both keys changed by RC[11] |
| Prince.WhitenedReflection | util/design/prince.py:150-173 | alpha reflection: with whitening swapped and both round keys changed by RC[11] the cipher undoes itself |
| Prince.CoreReflection | util/design/prince.py:154-171 | the same for the core without whitening |
| Prince.RoundsInvert | util/design/prince.py:106-129 | forward and inverse rounds undo each other for every constant and key |
| Prince.MultPrimeInvolution | util/design/prince.py:80-91 | the linear layer is its own inverse |
| Prince.ShiftRowsInverts | util/design/prince.py:94-103 | the two shift tables undo each other, in both directions |
| Prince.SboxInverts | util/design/prince.py:55-68 | substitution with inverse tables gives back the data at every width, leftover bits included |
| Prince.AlphaSymmetry | util/design/prince.py:37-50 | constants r and 11-r differ by RC[11] |
| Prince.RunPrince | util/design/prince.py:132-175 | the loops compute the cipher as composed from rounds, which `EncryptInNumbers` restates in terms of the data and key as numbers |
| PrinceNumbers.EncryptInNumbers | util/design/prince.py:144-175 | the cipher on numbers: both key halves are added before the rounds; round r uses the upper half for odd r up to the middle and the lower half for odd r behind it; in the end the last constant, the lower half and the rotated upper half are added |
| PrinceNumbers.KeyHalves | util/design/prince.py:144-145 | the key is its lower half plus 2^64 times its upper half |
| PrinceNumbers.KeySchedule | util/design/prince.py:147-148 | bit 63 of the last whitening key is the parity of the upper half, bit i is bit i+1 of it, and bit 0 is its bit 1 xor its bit 63 |
| PrinceAnswers.ZeroAnswer | util/design/prince.py:8-175 | zero data under the zero key gives the published ciphertext 0x818665aa0d02dfda, which fixes tables and constants |
| Prince.RunSbox | util/design/prince.py:55-68 | the loop substitutes nibble by nibble and keeps the bits beyond |
| Prince.RunMultPrime | util/design/prince.py:80-91 | the nested loops compute the linear layer |
| Prince.RunShiftRows | util/design/prince.py:94-103 | the loop moves nibbles by the table |
| Flash.FlashWordSurvives | util/design/gen-flash-img.py:314-334 | for every data word, address and keys, scrambled or not: with fewer than two flips in the stored 76 bits, decoding and descrambling give back the data and the four kept integrity bits equal those recomputed over the plain data; the flags tell one flip from two |
| Flash.ScrambleBijective | util/design/gen-flash-img.py:121-129 | scrambling at an address is a bijection, whatever the field multiplication does |
| Flash.ReliabilitySecded | util/design/gen-flash-img.py:330-333 | the (76,68) code corrects and detects as promised |
| Flash.ReformatWord | util/design/gen-flash-img.py:316-333 | the steps for one word produce the stored word as composed from integrity code, scrambling and reliability code, which `StoredInNumbers` and `IntegrityBits` spell out |
| FlashNumbers.StoredInNumbers | util/design/gen-flash-img.py:314-333 | the low 68 bits of a stored word are the data, or the cipher of the data with the mask added before and after, and the four integrity bits above |
| FlashNumbers.MaskFactors | util/design/gen-flash-img.py:123-126 | for an address below 2^16 the factors handed to the multiplication are the low 48 bits of the upper key half times 2^16 plus the address, and the lower key half |
| FlashNumbers.MasksDiffer | util/design/gen-flash-img.py:121-129 | where multiplying by the lower key half is injective, different addresses have different masks |
| FlashNumbers.IntegrityKept | util/design/gen-flash-img.py:318-322 | data and integrity bits are the codeword of the data modulo 2^68 |
| FlashNumbers.IntegrityBits | util/design/gen-flash-img.py:318-322 | integrity bit j is the parity of the data bits whose position in the codeword has bit j set |
| Flash.ReformatLine | util/design/gen-flash-img.py:308-336 | each word of a line is stored with its own address, counted from the line's |
| SparseFsm.EncodingGenerator.Generate | util/design/sparse-fsm-encode.py:89-131 | the search ends on every random sequence; it succeeds if and only if one of its attempts does, with exactly the requested number of states, and returns what greedy selection over that attempt's draws gives |
| SparseFsm.EncodingGenerator.CheckCandidate | util/design/sparse-fsm-encode.py:72-87 | a candidate is accepted if and only if the code with it is still good: weights, distances and complements |
| SparseFsm.FlipsKeepStatesApart | util/design/sparse-fsm-encode.py:84-86 | fewer flips than the minimum distance never turn one state into another |
| SparseFsm.FlipsKeepZeroApart | util/design/sparse-fsm-encode.py:66-77 | fewer flips than the least number of set bits, which is the minimum distance if zero is to be avoided, never turn a state into the word of zeros |
| SparseFsm.UniqueNearest | util/design/sparse-fsm-encode.py:84-86 | with at most (min_hd-1)/2 flips the original state is the only nearest one |
| SparseFsm.GreedyGood | util/design/sparse-fsm-encode.py:104-131 | greedy selection keeps the code good over any sequence of draws |
| SparseFsm.GreedyMaximal | util/design/sparse-fsm-encode.py:120-131 | a candidate passed over would spoil the code also as it is in the end |
| SparseFsm.GreedyDrawn | util/design/sparse-fsm-encode.py:104-131 | every state found was there before or is a drawn candidate |
| RunList.ExpandRunList | util/dvsim/SimCfg.py:405-429 | tagging test by test and sorting stably by index equals direct round-robin |
| RunList.EveryRunOnce | util/dvsim/SimCfg.py:405-415 | each listed test has exactly the runs 0 to reseed-1, each as often as the test is listed |
| RunList.RoundCounts | util/dvsim/SimCfg.py:405-415 | round j holds exactly the tests with a reseed value above j |
| RunList.StableSort | util/dvsim/SimCfg.py:424-425 | sorted by index, with equal indices in their original order |
| RunList.SortedIsByRounds | util/dvsim/SimCfg.py:424-429 | a stable sort by index has only one possible outcome, the rounds in turn |
| CfgMerge.ScalarsMerge | util/dvsim/CfgJson.py:133-173 | scalar values in turn are accepted if and only if they are of one type and no two that are not defaults differ; the outcome is the first that is not a default, or else the first |
| CfgMerge.OrderIrrelevant | util/dvsim/CfgJson.py:133-173 | the order of the values does not decide acceptance nor, unless all are defaults, the value, up to the language's equality |
| CfgMerge.ListsMerge | util/dvsim/CfgJson.py:121-131 | lists are joined in the order they are loaded |
| CfgLoad.Config.SetTargetAttribute | util/dvsim/CfgJson.py:107-173 | updates one key by the merge rule, in place if it holds a list: no other list changes, lists stay where they are, and each error is the one the code raises, with nothing changed |
| CfgLoad.Config.LoadSingleFile | util/dvsim/CfgJson.py:52-104 | merges the keys of a file in turn, up to the first that fails, with the special keys and their errors, and returns its expanded includes |
| CfgLoad.LoadHjson | util/dvsim/CfgJson.py:15-49 | loading ends for every set of files, cyclic includes too; success means every named file was merged as often as it was named, in the one order the work list prescribes, and failure means a file on that way failed or included one named before; after success every key holds the merge of its initial value and of all values under it in the order of files and entries, and is present exactly if there is one, while `import_cfgs` and the command line fields set initially keep their initial values; either way the caller's lists hold what was merged into them, and none changes unless one is under a key that files can extend |
| CfgKeys.LoadedKeys | util/dvsim/CfgJson.py:62-104 | the same per key, without reference to how entries are loaded |
| CfgKeys.OrderExactly | util/dvsim/CfgJson.py:52-104 | files load in an order if and only if each can be read and is a dictionary, `import_cfgs` and `use_cfgs` are lists, `use_cfgs` occurs in the first only, names expand, and the values under each key can be merged |
| CfgKeys.OrderFails | util/dvsim/CfgJson.py:52-104 | otherwise the first file at fault, and the first entry at fault in it, decide the error |
| CfgKeys.MergesExactly | util/dvsim/CfgJson.py:107-173 | values of any types in turn merge if and only if, after leading placeholders, there is at most one, or all are lists, or all are scalars of one type of which no two that are not defaults differ; the outcome is that one value, the lists joined, or the deciding scalar |
| CfgMerge.InitialListsKept | util/dvsim/CfgJson.py:22-35 | the lists among the initial values survive every load unchanged if and only if each is under `import_cfgs` or a command line field |
| CfgLoad.CallersListGrows | util/dvsim/CfgJson.py:129-131 | a load after which a list of the caller's has grown |
| CfgMerge.MergedOnce | util/dvsim/CfgJson.py:37-47 | in a load that succeeds every file is merged only once if and only if no list of includes names a file twice |
| CfgMerge.MergedTwiceExample | util/dvsim/CfgJson.py:37-47 | a file naming an include twice: it is merged twice and its list ends up doubled |
| CfgMerge.RepeatedIncludesNothing | util/dvsim/CfgJson.py:40-44 | a file merged twice in a load that succeeds includes nothing, if names do not depend on merged values |
| CfgMerge.IncludesAreNew | util/dvsim/CfgJson.py:39-45 | in a load that succeeds no file includes itself or one loaded before, so includes are not cyclic |
| Keccak.GenerateConstants | util/design/keccak_rc.py:59-66 | for every number of rounds, bit 2^j-1 of each constant is the register of section 3.2.5 of FIPS 202 run for j+7*rnd steps without a modulus, and every other bit is clear |
| KeccakTable.ConstantsAreTable | hw/ip/prim/rtl/prim_keccak.sv:248-273 | for each of the 24 rounds, whatever is a round constant as the generator makes it is the number in the table of the hardware |
| Keccak.RoundConstant | util/design/keccak_rc.py:60-65 | the same for one round, read from the table modulo 255 |
| Keccak.FillTable | util/design/keccak_rc.py:36-51 | the loop fills the table with the bits of the standard's register |
| Keccak.Period | util/design/keccak_rc.py:40-51 | the register returns to its state after 255 steps |
| Keccak.RunModulo | util/design/keccak_rc.py:63-65 | any number of steps leads where its remainder by 255 leads |

## Left out

- RunsNeedDependent: with one slot the outcome depends on the order of the queues; only the case `OneSlotKeepsKey` is given. It is about runs in which each turn polls every running job and finds at most one complete; lookups after a cancellation are covered by `LookupNeedsDependent` and the scheduler's own contracts.
- Signals, threads, timers, log messages and status printing of the scheduler: an arbitrary stop flag and timer per turn.
- Concrete launchers, subprocesses and log parsing: the `Launchers` object stands for them; that every job answers D only finitely often is its assumption.
- Exceptions from outside other than a failed launch, for instance from a poll: the run would stop with them.
- Rounding of slots and of the ideal fan-in in floating point: exact rounding to even and exact ceilings are used.
- MakeHsiaoCode: the shuffles are an arbitrary parameter; their number is bounded and the result is optional, because nothing forces a shuffle that succeeds to come up, though there always is one (`SomeShuffleSucceeds`); sizes with 2^(m-1) < k+m, which `verify` rejects, are not covered.
- EccEncode: the lookup of a configuration for the data width is not modelled.
- Text of the emitted SystemVerilog, C, FPV and Rust, file writing and formatting: only what the emitted expressions compute.
- That no other data word of an inverted code encodes to all ones or all zeros: the source asserts it for all-one and all-zero data only (`util/design/secded_gen.py:774-777`).
- Multiplication in GF(2^64): an arbitrary function with 64-bit results; only `MasksDiffer` asks more of it.
- Flash key derivation with PRESENT, OTP parsing and `_convert_array_2_int`: key handling ahead of the modelled word pipeline.
- Bus and status text around the FSM search, and its distance histogram: printing only.
- ExpandRunList: the build job attached to each run is left out; a missing build mode would be a lookup error.
- LoadHjson: what is merged is stated for initial values in which different keys hold different lists; that it ends, that lists stay in place and when none changes is stated for all. Wildcard expansion is an arbitrary function that may fail.
- Topgen, regtool, vendor, coverage, dashboards and the other utilities: templates and I/O.
