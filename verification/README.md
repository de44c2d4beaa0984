# TentaCron, verified

TentaCron takes payloads from clients, replaces the resolvent objects in them by time series that
resource APIs deliver, forwards the result to a target and keeps the whole history in one SQLite
store. This project models the parts of it that are hard to get right and proves what they promise.

* **The store and the workers.** The job table is a value (`JobTable`), every transaction one
  function on it; `StoreObject.Store` holds the same rows as fields that its methods update. `JobProtocol`
  puts workers, rescue and retention scans, crashes and restarts around it as a step system: a
  read and the write that follows are separate steps, so everything a worker knows may be stale.
  `Ownership`, `Housekeeping`, `PollTicks` and `EveryJobEnds` prove what holds over every run and `StaleClaim` shows a
  run that breaks a hypothesis; `Admission`, `ClaimOrder` and `Fairness` say what claims and creations guarantee.
* **Resolution.** `Resolver` finds resolvents, `References` and `Chaining` order them by their references,
  `Paths` and `Filling` say what a reference stands for, `Resolution` fetches them level by level through a cache, `FetchPool` is the concurrent part of a level and
  `LevelFetch` joins the two, `Substitution` writes the series into the document and `Payload` runs the whole pipeline.
* **Documents and numbers.** `Json` has trees, addresses and replacement of one node, `Pointer` reads and
  writes JSON pointers (RFC 6901), `Decimal`, `Arithmetic` and `Scaling` do exact decimal scaling.
* **Small protocols.** `Schedules` for recurring runs, `Deliveries` for callbacks, `DueOrder` for the due queries of both, `LongPollHub` and `LongPoll` for
  long polls, `Backoff` for the 64-bit delay computation.

Time is in whole milliseconds. An object is its keys in ascending order with the values beside them, the order in which
the resolver visits a Go map. A parameter hash is the pair it is computed from, so it is injective.

Where the code and its description part, the code is followed:

* `next_attempt_at` does not always grow while a job awaits its target: a tick that ends early replaces
  its lease by an earlier time (`PollTicks.RescheduleMovesBack`, and exactly when in `PollTicks.RescheduleAdvancesIffLate`).
  Ticks are exclusive all the same.
* A claim does not re-check attempts, so a stale candidate can take a job over its budget
  (`StaleClaim.StaleClaimOverspends` is such a run, `EveryJobEnds.ClaimOverspendsIffExhausted` says exactly when).
* A scheduler that stops after creating a run and before advancing the schedule holds no snapshot any
  more, yet the due time is still open. Retention therefore has to spare the runs of schedules that have not moved
  on, too; `Schedules.PrunedRunComesBack` shows that this is necessary, `Schedules.UnsparedPruneDoubles` gives a whole
  run with two jobs for one due time, and `Schedules.OneRunPerDueTime` shows that sparing them suffices.
* A shift can wrap to a small positive delay (`Backoff.WrappedShiftIsSmall`, exactly when in `Backoff.BackoffIsIdealIff`).

## Model

| member | source | states |
|---|---|---|
| JobTable.TransitionKeepsValid | internal/store/jobs.go:1003-1053 | a guarded transition keeps the store invariant: unbroken trail, attempts equal to claims on the trail, a delivery row exactly for a finished job with a callback URL, unique keys |
| JobTable.CreateKeepsValid | internal/store/jobs.go:256-311 | so does an insert, refused by a used key or a full queue or not |
| JobTable.ClaimKeepsValid | internal/store/jobs.go:676-707 | so does a claim, won or lost |
| JobTable.DeleteKeepsValid | internal/store/jobs.go:951-970 | so does a delete, which takes events and deliveries with the row |
| JobTable.ApplyKeepsValid | internal/store/jobs.go:1003-1053 | every write of the store, with any arguments, keeps the invariant |
| JobTable.RunsKeepValid | internal/store/store.go:105-127 | the invariant holds after every sequence of writes, hence in every interleaving of transactions |
| JobTable.FinalIsFinal | internal/store/jobs.go:1019-1053 | until it is deleted a finished row and its trail never change, and no row's request ever does |
| Admission.CeilingHolds | internal/store/jobs.go:676-694 | no interleaving of claims and other writes gives a client more resolving and forwarding jobs than max_concurrent |
| Admission.CapHolds | internal/store/jobs.go:256-291 | when every creation carries the cap, no interleaving gives a client more unfinished jobs than max_queued |
| Admission.UncappedCreateOvershoots | internal/worker/scheduler.go:90-95 | a creation without a cap, as the scheduler makes it, can exceed max_queued |
| Admission.OneJobPerKey | internal/store/jobs.go:341-350 | while the job of a key is not deleted, every creation under the key is answered with it, or refused when target or payload differ |
| Admission.CollisionSettles | internal/store/jobs.go:243-254 | a creation that loses the insert race reads back the winner unless that was deleted in between |
| Ownership.StepKeepsInv | internal/worker/process.go:73-101 | every step of workers, clients, scans, crash and restart keeps the ownership invariant as long as live workers write in time |
| Ownership.ExclusiveOwnership | internal/worker/sweep.go:58-69 | over every timely run no two live workers hold one resolving or forwarding job |
| Ownership.RequeueIsSafe | internal/store/jobs.go:875-911 | a requeue from a rescue or recovery list hits a job that is in flight and owned by nobody, although it accepts any unfinished state |
| Ownership.ParkingIsOneWay | internal/store/jobs.go:832-844 | on every trail awaiting_target is followed by finished states only |
| Ownership.RetentionIsSafe | internal/worker/sweep.go:82-108 | a job disappears only by retention and only when finished, although the delete never checks |
| Housekeeping.RetentionWaits | internal/store/jobs.go:919-925 | a deleted job had ended before the cutoff of an earlier scan that listed it |
| Housekeeping.RecoveryLeavesNothing | internal/store/jobs.go:856-867 | once the startup recovery has worked through its list no job is in flight, every interrupted one can be claimed at once, and no other was touched |
| Ownership.RescueStealsIffLate | internal/worker/sweep.go:58-69 | the rescue scan would take a job from a live worker exactly when some live worker is more than two job timeouts behind |
| PollTicks.StepKeepsPollInv | internal/store/jobs.go:709-739 | every step keeps the invariant that ties poll times, leases and candidates together |
| PollTicks.TicksAreExclusive | internal/worker/process.go:458-510 | while each tick ends before its lease, no two workers run ticks of one job at once |
| PollTicks.StaleCandidatesLose | internal/store/jobs.go:709-729 | a poll claim is won only by a candidate read since the job's last tick |
| PollTicks.RescheduleAdvancesIffLate | internal/store/jobs.go:731-739 | the end of a tick moves the poll time forward exactly when end plus interval lies after the lease |
| PollTicks.RescheduleMovesBack | internal/worker/process.go:502-510 | a concrete early end that moves the poll time back |
| EveryJobEnds.EveryJobEndsInBudget | internal/store/jobs.go:644-694 | with fresh candidates a job is claimed at most max_attempts times and makes at most 3 * max_attempts + 2 transitions, crashes and recoveries included, and a job that made them all has ended |
| EveryJobEnds.FreshClaimMovesOn | internal/store/jobs.go:644-707 | a fresh claim of a due received job leaves it failed when its attempts are used up, else in work with one attempt more, unless its client is at the ceiling |
| EveryJobEnds.NoJobIsForgotten | internal/store/jobs.go:607-642 | from some time on every unfinished job is found by the candidate query or, in flight, by the rescue scan |
| StaleClaim.StaleClaimOverspends | internal/store/jobs.go:644-694 | a run from an empty store, every live worker on time, whose last claim acts on a stale candidate and exceeds the budget |
| EveryJobEnds.TicksAreBounded | internal/worker/process.go:458-500 | without restarts a polled job has at most floor(timeout / interval) + 1 ticks |
| EveryJobEnds.PolledJobEnds | internal/worker/process.go:458-500 | a polled job that had floor(timeout / interval) + 1 ticks, the last one judged, has ended |
| EveryJobEnds.EveryMoveCounts | internal/worker/process.go:438-537 | remaining transitions, then remaining ticks, are a measure: no step raises it, every transition and every tick of the job lowers it, and it never goes below zero |
| EveryJobEnds.UnfinishedHasMovesLeft | internal/worker/process.go:438-537 | the measure is used up only by a job that has ended: an unfinished one has a transition left and, while it waits for its target, a tick left or one whose outcome is open |
| ClaimOrder.FindFirst | internal/store/jobs.go:599-642 | finds a row no other precedes in the claim order |
| ClaimOrder.KeyOrder | internal/store/jobs.go:617-626 | the sort key compares priority downwards, then the number of rows of the same client ahead, then how long ago the client was served, then age |
| ClaimOrder.FirstIsYieldedTo | internal/store/jobs.go:590-598 | every other row yields to the first: by priority, within its client by age, a first due row of one client before a second of another, then to the client that waited longest |
| ClaimOrder.ClaimCandidates | internal/store/jobs.go:607-642 | returns the first eight eligible rows in claim order, or all when there are fewer; no row listed later or not at all has a higher priority, is older within the same client and priority, has fewer rows of its client ahead at equal priority, or belongs at equal turn to a client that waited longer |
| StoreObject.Store.CreateJobOnce | internal/store/jobs.go:256-311 | the insert transaction: verdict and whole new state; a used key exactly means replay, and a new row is untried, carries its request and is claimable from the time the request names, or at once |
| StoreObject.Store.ApplyMark | internal/store/jobs.go:1007-1053 | the guarded transition: made exactly from the states its guard allows, else nothing changes; afterwards the row is found by the candidate query as the mark says (from the retry or first poll time, always, or never again), shows the payload, result, code, target and deadline the mark names, and every other column, row, event and delivery is as before |
| StoreObject.MarkIsRecorded | internal/store/jobs.go:773-854 | every transition by what later reads see, with its one event and the callback that is due at once |
| StoreObject.Store.ClaimReceivedJob | internal/store/jobs.go:676-707 | the claim's compare-and-set, with the client's stamp: only a due received row is won; it has one attempt more and no query finds it |
| StoreObject.Store.ClaimTick | internal/store/jobs.go:709-729 | the poll claim's compare-and-set: only the poll time read is won, and the row is due again from the end of the lease |
| StoreObject.Store.DeleteJobs | internal/store/jobs.go:951-970 | the rows of the ids are gone, the others untouched |
| StoreObject.MarkAllMeans | internal/store/jobs.go:902-911 | one transition on many rows changes row, trail and delivery of each as it would alone, and nothing else |
| StoreObject.MarkAllKeepsValid | internal/store/jobs.go:902-911 | and keeps the store invariant |
| StoreObject.Store.RescueStuck | internal/store/jobs.go:875-911 | exactly the resolving and forwarding rows last written before their target's cutoff are claimable again at once, with their events, the others are as before, the count says how many, and the store invariant is kept |
| StoreObject.Store.ClaimOne | internal/store/jobs.go:644-668 | one candidate: an exhausted job makes the failing transition with event and callback, any other is claimed by state |
| StoreObject.Store.ClaimNext | internal/store/jobs.go:527-572 | what it writes is the failing transition of some exhausted jobs and one claim, so the store invariant is kept; nil means no client below its ceiling has a due tick or a due job with attempts left, when capped clients plus an eighth of the exhausted jobs are at most seven; no such tick or job has a higher priority than the claimed one, and none of its client and priority is older; with neither capped clients nor exhausted jobs every due row yields to the claimed one in the whole claim order |
| StoreObject.RoundsRunOut | internal/store/jobs.go:500-572 | eight full rounds without a claim need more capped clients or exhausted jobs than that |
| Fairness.LeastRecentFirst | internal/store/jobs.go:599-642 | the client a claim serves was served no later than any other waiting client |
| Fairness.RoundRobin | internal/store/jobs.go:695-701 | between two consecutive claims of a client every other client waiting at the second was served |
| Fairness.ServedWithinK | internal/store/jobs.go:599-642 | a client that keeps waiting among k clients is served within k claims |
| FetchPool.SendsNeverBlock | internal/worker/process.go:246-271 | in every interleaving a sender finds room in the results channel |
| FetchPool.NeverStuck | internal/worker/process.go:275-297 | until the collector has one result per resolvent some step is possible |
| FetchPool.RunsAreShort | internal/worker/process.go:217-226 | every interleaving ends: its length is bounded by a measure that each step decreases |
| FetchPool.PickResolveError | internal/worker/process.go:304-319 | returns the first error in document order that is not a context error, else the first error |
| FetchPool.ErrorIsDeterministic | internal/worker/process.go:206-216 | when the first failing resolvent in document order fails for a real reason, every finished run reports exactly that failure |
| FetchPool.SuccessIsDeterministic | internal/worker/process.go:275-297 | without failures every finished run collects every result |
| FetchPool.StopClosesAtMostOnce | internal/worker/process.go:281-286 | the collector closes stop at most once |
| Json.PutThere | internal/resolver/resolver.go:183-203 | an overwritten slot holds the new node |
| Json.PutElsewhere | internal/resolver/resolver.go:183-203 | nothing apart from the slot changes |
| Json.PutsCommute | internal/resolver/resolver.go:183-203 | overwriting two slots apart from each other commutes |
| Pointer.UnescapeEscape | internal/resolver/resolver.go:135-137 | reading an escaped token by RFC 6901 gives the key back |
| Pointer.PathTextReads | internal/resolver/resolver.go:176-203 | the pointer of a node, read by RFC 6901, leads to it |
| Pointer.ApartPointers | internal/resolver/resolver.go:176-203 | pointers of nodes apart from each other do not start one another |
| Resolver.WalkNode | internal/resolver/resolver.go:176-205 | the recursive loop reports what the walk function says |
| Resolver.LocateContainer | internal/resolver/resolver.go:150-167 | follows the dotted path to the container or finds it missing |
| Resolver.LocateMeans | internal/resolver/resolver.go:150-167 | the container is the node whose address has the segments as keys, step by step, and there is no other |
| Resolver.WalkIsExact | internal/resolver/resolver.go:168-205 | a walk reports exactly the resolvents that no resolvent and no time series hides, in document order |
| Resolver.FindIsExact | internal/resolver/resolver.go:90-118 | Find reports exactly the reportable resolvents, once each and in document order, with true type, name and slot; a resolvent container is reported itself |
| Resolver.FoundByFields | internal/resolver/resolver.go:139-145 | a report carries the text under "type", which starts with the prefix, and the non-empty text under "name", else the key it sits under, and no name in an array |
| Resolver.TypeByFields | internal/resolver/resolver.go:206-214 | time series and resolvents are told by the text under "type" |
| Resolver.PathsAreGood | internal/resolver/resolver.go:120-137 | every reported path leads to its object and no reported path starts another |
| Resolver.Find | internal/resolver/resolver.go:90-118 | the method has all of these properties |
| Substitution.SetFieldReads | internal/resolver/resolver.go:237-242 | after m[key] = x the key reads x and every other key as before |
| Substitution.SplicedSeries | internal/resolver/resolver.go:224-245 | the substituted object has every field of the series, and under "resolvent" the original object exactly when asked to |
| Substitution.AnyOrder | internal/resolver/resolver.go:224-245 | substitutions give the same document in any order |
| Substitution.NothingElseChanges | internal/resolver/resolver.go:224-245 | they change nothing outside their slots |
| Substitution.EverySlotFilled | internal/worker/process.go:170-185 | every slot ends up with its own series |
| Substitution.WritingReplaces | internal/worker/process.go:170-185 | address by address: each slot holds its series, carrying the resolvent where asked to, and everything apart from the slots is as it was |
| Substitution.FilledIsHidden | internal/resolver/resolver.go:168-205 | filling a slot with a time series takes exactly that slot off what a walk reports |
| Substitution.SecondFindIsEmpty | internal/resolver/resolver.go:90-118 | when every series has type time-series, a second Find reports nothing |
| Substitution.Document.Substitute | internal/resolver/resolver.go:224-245 | a response that is no object changes nothing and fails, any other overwrites the slot; both warnings exactly when they apply |
| Substitution.Document.SubstituteAll | internal/worker/process.go:170-185 | the loop over all found resolvents, and that nothing is left to find |
| Chaining.ShallowMeans | internal/resolver/chain.go:27-30 | no chain of eight references is the same as no cycle and fewer than eight references on every path |
| Chaining.CandidatesBear | internal/resolver/chain.go:43-48 | the candidates of a name are exactly the resolvents that bear it |
| Chaining.BoundMeans | internal/resolver/chain.go:79-91 | a name is bound exactly when one resolvent bears it, and it is another one |
| Chaining.GraphMeans | internal/resolver/chain.go:49-63 | a resolvent depends on a name exactly when one of its outermost references gives it, and then on the resolvent of that name |
| References.RefsInMeans | internal/resolver/chain.go:212-240 | the references of an object are exactly those at its outermost reference addresses |
| References.ParseRefMeans | internal/resolver/chain.go:182-210 | a reference is well-formed exactly when it is the object with "$from" alone or with "$from" and "path", the name not empty and the text that of a proper path with or without its leading dot |
| Paths.ParsePathMeans | internal/resolver/mapping.go:33-59 | a text reads as a path exactly when it is the text of that path: segments without dots, none empty, at most one projection |
| Paths.EvalPathMeans | internal/resolver/mapping.go:61-86 | a path gives v exactly when its steps lead to v one child at a time or, with a projection, when they lead to an array and the rest leads, for each element, to the element of v in its place |
| Paths.ElementNamed | internal/resolver/mapping.go:88-110 | in an array a name means the element whose index it spells, with an optional sign |
| Chaining.DepsMeans | internal/resolver/chain.go:79-91 | the deps of a resolvent are exactly the names it refers to, each with the one other resolvent of that name |
| Chaining.ByName | internal/resolver/chain.go:43-48 | the name index lists the candidates of every name |
| Chaining.Bind | internal/resolver/chain.go:79-91 | a reference is bound exactly when it is well-formed and names one other resolvent |
| Chaining.BindRefs | internal/resolver/chain.go:49-63 | the references of a resolvent are bound together or not at all |
| Chaining.Leveler.Level | internal/resolver/chain.go:94-116 | the memoised search returns the length of the longest chain; cycle and depth errors occur only with a cycle and a chain of eight |
| Chaining.Depths | internal/resolver/chain.go:64-69 | succeeds exactly when no chain has eight references |
| Chaining.Sort | internal/resolver/chain.go:70-76 | level d lists the resolvents of depth d in document order |
| Chaining.SortedIsLevelled | internal/resolver/chain.go:36-41 | then no level is empty and every reference leads to an earlier one |
| Chaining.Chain | internal/resolver/chain.go:42-77 | succeeds exactly when every reference is bound and there is neither a cycle nor a chain of eight; then the plan is levelled |
| Filling.NothingToFill | internal/resolver/chain.go:137-140 | without references the filled input is the object itself |
| Filling.FillingMeans | internal/resolver/chain.go:141-168 | filling gives out exactly when at every outermost reference out holds the value its path selects in the series of the resolvent it names, and outside references the same nodes: kind, keys, lengths and leaves, no more and no fewer |
| Filling.FillingFails | internal/resolver/chain.go:146-164 | filling fails exactly when some outermost reference has no value |
| Resolution.SameKey | internal/resolver/hash.go:17-45 | two inputs have the same hash exactly when they are of one type and agree on every field that is not ignored |
| Resolution.FetchOne | internal/worker/process.go:323-372 | in every cache mode and for any cache contents written under this configuration the answer is the backend's; the cache is written exactly when the backend was asked and answered and the mode is not bypass, with that answer and expiry, and stays right |
| Resolution.FirstsAreFirst | internal/worker/process.go:228-240 | the resolvents kept come in document order, cover every hash, and each comes before all others of its hash |
| Resolution.Unique | internal/worker/process.go:230-240 | the first resolvent of every hash, in document order |
| Resolution.Run.Fill | internal/resolver/chain.go:137-168 | the filled input is the object with its references filled, address by address, from the series their resolvents mean; it fails exactly when there is no such input |
| Resolution.Run.FillLevel | internal/worker/process.go:147-157 | the same for a level, with the keys recomputed, or the first resolvent in document order whose references do not fit |
| Resolution.Run.FetchLevel | internal/worker/process.go:217-226 | every hash of the level has a series that answers all inputs with that hash, or the first resolvent in document order without an answer is named |
| Resolution.LevelMeans | internal/worker/process.go:200-216 | the result of a level speaks for all its resolvents, although only one per hash is fetched |
| LevelFetch.PoolGivesLevelResult | internal/worker/process.go:217-319 | every finished interleaving of feeder, fetchers and collector over the level returns exactly that result: the same map, or the error of the same resolvent |
| Resolution.Run.SettledNext | internal/worker/process.go:163-165 | copying a later level over equal hashes of earlier ones changes no series |
| Resolution.Run.FetchChain | internal/worker/process.go:137-168 | on success every resolvent finds under its hash the series of the naive recursive meaning, and these series solve the equations: each is the backend's answer to its object filled from the others; on failure the named resolvent is the one to blame: first failing level, document order within it, references before fetches |
| Resolution.NaiveMeans | internal/resolver/chain.go:128-168 | the meaning of a resolvent is v exactly when the backend answers v to its object filled, address by address, from the meanings it refers to |
| Resolution.MeaningSolves | internal/worker/process.go:137-168 | the meanings are the one solution of these equations |
| Resolution.UnfitMeans | internal/resolver/chain.go:160-165 | a resolvent blamed for its references has all their series, and one of the references has no value in them |
| Resolution.OneToBlame | internal/worker/process.go:137-142 | there is never more than one resolvent to blame |
| Resolution.PlanIsReady | internal/plan/plan.go:93-109 | plans made by Chain satisfy what fetching needs |
| Payload.Resolve | internal/worker/process.go:73-101 | the whole pipeline yields the payload with every resolvent replaced, slot by slot, by the series it means under the graph of the payload's own references, everything apart from the slots unchanged, and nothing left to resolve when these are time series; the series solve the equations of the references; it fails exactly when references cannot be ordered or some resolvent means no series, and then names the one to blame |
| Payload.FetchAll | internal/worker/process.go:90-95 | the series of a planned payload in document order, or the resolvent to blame |
| Payload.PlanIsDetermined | internal/plan/plan.go:93-109 | graph and depths of a plan are determined by the payload |
| Decimal.NatTextParses | internal/resolver/mapping.go:211-214 | digits written and read back are the same number |
| Decimal.Normalized | internal/resolver/mapping.go:201-207 | rationals are kept in lowest terms with their value |
| Scaling.NumberReads | internal/resolver/mapping.go:201-207 | a number text is worth what its sign, digits, decimals and signed exponent say, or is refused when the exponent needs 64 bits |
| Scaling.ReadsOnlyNumbers | internal/resolver/mapping.go:201-207 | no other text is read |
| Scaling.AcceptedTexts | internal/resolver/mapping.go:235-254 | which number texts are accepted: zero with any exponent that fits, else at most a million powers of ten |
| Scaling.ShiftKeepsValue | internal/resolver/mapping.go:201-207 | ten times the mantissa is worth one more in the exponent, and with exponent 0 a decimal is its mantissa |
| Arithmetic.TooFewDecimals | internal/resolver/mapping.go:215-230 | a reduced fraction over 2^a * 5^b is no multiple of 10^-d for d below max(a, b) |
| Arithmetic.EnoughDecimals | internal/resolver/mapping.go:215-230 | max(a, b) decimals suffice |
| Scaling.FloatStringIsNearest | internal/resolver/mapping.go:231 | the text with a fixed number of decimals shows the nearest multiple |
| Scaling.TrimFixed | internal/resolver/mapping.go:231 | trimming drops trailing decimals and nothing else |
| Scaling.DivideOut | internal/resolver/mapping.go:218-225 | counts the factors and leaves none |
| Scaling.FormatRat | internal/resolver/mapping.go:211-232 | a terminating fraction is printed exactly with the fewest decimals, any other rounded to 16; never a trailing zero |
| Scaling.ProductTerminates | internal/resolver/mapping.go:226-230 | products of decimals terminate: the 16-decimal branch is not reached |
| Scaling.ScaleNumber | internal/resolver/mapping.go:198-207 | the printed decimal is exactly number times scale, no shorter one is, and it has no trailing zero; fails exactly on texts that are not accepted |
| Scaling.ScaleValue | internal/resolver/mapping.go:178-196 | the same for every number of a nested array, nulls staying, anything else refused |
| Schedules.RunKeyIsInjective | internal/store/schedules.go:38-46 | a run key names its schedule and its due time |
| Schedules.StepKeepsInv | internal/worker/scheduler.go:51-111 | every step of any number of schedulers, clients, retention and schedule changes keeps the invariant |
| Schedules.OneRunPerDueTime | internal/worker/scheduler.go:45-50 | over every run a due time yields at most one job and one advance, and an advanced one exactly one job |
| Schedules.AdvanceMovesOn | internal/worker/scheduler.go:97-101 | an advance moves the schedule to the next due time after the tick when that lies after the due time, else to the next after the due time, and no other schedule |
| Schedules.NoDueTimeSkipped | internal/worker/scheduler.go:45-50 | over every run an advance moves the schedule to the first due time after its tick: earlier ones collapse into the run, and no due time lies strictly between tick and new next_run_at |
| Schedules.NextRunNeverFalls | internal/store/schedules.go:165-178 | over every run next_run_at never goes back |
| Schedules.PrunedRunComesBack | internal/worker/sweep.go:82-108 | when the run of an open due time is pruned, some continuation creates it again |
| Schedules.UnsparedPruneDoubles | internal/worker/scheduler.go:69-111 | a run from an empty store in which retention takes a run nobody holds a snapshot of and the due time yields two jobs |
| Schedules.StoreAgrees | internal/store/jobs.go:256-350 | creating and pruning runs here is what the store's transactions do to its jobs |
| Schedules.CrashLeavesItOpen | internal/worker/scheduler.go:95-104 | a scheduler stopping between create and advance leaves a created run whose due time is open and held by nobody |
| Schedules.Scheduler.Materialize | internal/worker/scheduler.go:69-111 | one schedule's tick: the run exists once, as a job of the schedule's client, target and payload under the key of schedule and due time, and the schedule is at its next due time after the tick |
| Schedules.Scheduler.DueSchedules | internal/store/schedules.go:157-163 | the most overdue schedules first, at most a hundred, all when there are fewer |
| Schedules.Scheduler.RunDueSchedules | internal/worker/scheduler.go:51-66 | a pass moves every schedule of the due batch to its next due time after the tick and no other, and leaves nothing due unless the batch was full |
| Deliveries.StepKeepsInv | internal/store/deliveries.go:99-125 | every step of any number of deliverers keeps the invariant: a snapshot whose count matches is the row, and the row is pending |
| Deliveries.SettledIsFinal | internal/store/deliveries.go:33-44 | delivered and given up never revert |
| Deliveries.EachAttemptOnce | internal/store/deliveries.go:99-125 | each attempt number of a delivery is recorded at most once |
| Deliveries.SettledInBudget | internal/callback/deliverer.go:220-234 | recorded attempts never exceed the budget and a delivery that used it is settled |
| Deliveries.Deliverer.RecordAttempt | internal/store/deliveries.go:99-125 | the compare-and-set on the attempt count |
| Deliveries.Deliverer.DueDeliveries | internal/store/deliveries.go:80-97 | the most overdue deliveries first, at most fifty, all when there are fewer |
| Deliveries.StoreAgrees | internal/store/deliveries.go:49-125 | these are the rows the store enqueues and records attempts on |
| Deliveries.Deliverer.DeliverDue | internal/callback/deliverer.go:122-190 | every delivery of the due batch gets exactly one attempt, unless its job vanished or the context ended, which leaves it delivered, given up or due again from its retry time as the answer says, and no other changes |
| DueOrder.Earliest | internal/store/schedules.go:157-163 | selects the earliest rows in order, up to a limit |
| LongPollHub.Hub.Wait | internal/notify/hub.go:33-46 | a new open channel, registered for the job |
| LongPollHub.Hub.Notify | internal/notify/hub.go:49-65 | exactly the job's waiters are closed, once each, and forgotten |
| LongPollHub.Hub.Forget | internal/notify/hub.go:67-86 | exactly that waiter is dropped |
| LongPollHub.Hub.Pending | internal/notify/hub.go:88-100 | counts the registered channels; zero exactly when nobody is registered |
| LongPoll.StepKeepsInv | internal/api/handlers.go:568-607 | every step of long polls and notifiers keeps the invariant |
| LongPoll.WaitingIsReachable | internal/api/handlers.go:580-590 | a poll that read an unfinished state has its channel registered, about to be closed or closed |
| LongPoll.NoLostWakeUp | internal/worker/process.go:628-647 | once every Notify is through, each poll waiting on a job that ended with one can wake |
| LongPoll.NoDoubleClose | internal/notify/hub.go:49-65 | no channel is closed twice |
| LongPoll.NobodyLeft | internal/api/handlers.go:568-607 | once all long polls returned no waiter is registered |
| Backoff.BackoffIsIdealIff | internal/worker/process.go:723-731 | it is min(base * 2^(n-1), max) for every n exactly when for each of the 64 shifts the value is at most max or its low 64 bits are zero or at least max |
| Backoff.FewBitsAreIdeal | internal/callback/deliverer.go:236-244 | the bit lengths of base's odd part and of max summing to at most 64 suffice |
| Backoff.WrappedShiftIsSmall | internal/worker/process.go:720-731 | a base and cap for which a wrapped shift is a small positive delay |

## Left out

- SQL text, pragmas, migrations, backup and vacuum: tables are maps and a transaction is one step; the unique index and the cascades are built into the table functions.
- HTTP transport, timeouts and error excerpts: a backend call is a function that answers an object or fails. Response paths and response maps (ApplyMap) are part of that function.
- JSON bytes: documents start as trees whose numbers are decimal texts; decoding and encoding are not modelled.
- The cron library and time zones: the next due time is an arbitrary function that lies after its argument and on a whole second; RFC 3339 texts of whole seconds are any injective function.
- Jitter, config loading and reload, CORS, authentication, metrics, logging, the CLI, result files and process lifecycle: thin or without a hard property.
- Redaction, signatures and the callback allow-list: security is out of scope.
- Floating-point scales: a scale enters as its decimal text. Texts outside the JSON number grammar, which math/big also reads, are refused here; powers of ten beyond a million are refused as there.
- StoreObject.Store.ClaimNext: completeness does not cover poll ticks of a client at its ceiling, because setting a client aside drops all its candidates; concurrent callers are covered by the step system, not by this method.
- StoreObject.Store.CreateJobOnce: one attempt of CreateJob; the loop of three attempts is not modelled, Admission.CollisionSettles says when a second attempt is needed.
- Ownership.ExclusiveOwnership: assumes one pool, a fixed configuration and live workers that write within two job timeouts of their last write.
- EveryJobEnds.EveryJobEndsInBudget: assumes claims on fresh candidates; without it the budget can be exceeded.
- EveryJobEnds.TicksAreBounded: assumes that the process stays up, that no tick panics or loses its write, that each tick ends before its lease and that live workers write in time.
- EveryJobEnds.PolledJobEnds: the same hypotheses; that a due tick is ever claimed is left to the ticker and the workers.
- EveryJobEnds.EveryMoveCounts: those hypotheses and fresh candidates; the same holds for EveryJobEnds.UnfinishedHasMovesLeft.
- PollTicks.TicksAreExclusive: assumes that each tick ends before its lease.
- Fairness.RoundRobin: assumes equal priorities, received jobs only, no ceilings, no exhausted jobs and distinct claim times.
- FetchPool.ErrorIsDeterministic: assumes a live context.
- Resolution.Run.FetchLevel: fetches the hashes one after the other; LevelFetch.PoolGivesLevelResult carries the result over to the concurrent fetchers, with a live context.
- Payload.Resolve: assumes a backend that is deterministic and blind to ignored fields and a cache written under this configuration; unknown resolvent types and proxy targets are not modelled.
- Schedules.NoDueTimeSkipped: assumes that the next due time after a time is the first one, as it is for a cron expression.
- Schedules.OneRunPerDueTime: assumes that client keys do not start with the schedule prefix, that schedule ids hold no colon and are not reused, and that retention spares the runs of open due times.
- DueOrder.Earliest: rows due at the same time come in any order, where the queries go by row id.
- LongPoll.NoLostWakeUp: covers jobs whose end sends a Notify; exhaustion inside a claim sends none and rests on the ticker.
- Substitution.Document: updating in place is a new value of the root with one slot replaced; sharing of maps between Go variables is not modelled.
