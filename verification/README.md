# BOS3000 call core: a verified model

BOS3000 sells callbacks: it dials a customer's A leg, then the B leg, bridges the two, bills both
legs in blocks against a prepaid account, and reports every status change by webhook and
WebSocket. This project models the Go backend that does so and proves what that backend is relied
on for. `dafny verify dfyconfig.toml` checks everything.

## How the model is laid out

- **Calls, money and slots.** `Costs` holds the block arithmetic; `Accounts` the account object and its
  ledger; `Calls` the call record, `runCall` as a reaction to one input at a time, and the measurements
  `finalizeCall` takes; `CallOutcomes` how a call ends, told from its inputs alone; `Wastage` what it records as waste against what it bills; `CallbackService` the
  service object, with the saga, the event loop, the once-only settlement and the disconnect handler as
  methods. `Lifecycle` interleaves the same transitions at the granularity of single shared accesses:
  PreDeduct, increment, undo, release, Store, each event, and `finalizeCall` entered by `runCall` and by
  any number of disconnect passes through the lookup in `activeCalls` and a `sync.Once` that is idle,
  busy or done. On top of it, `OptimisticCounter` and `Conservation` prove the slot and money
  invariants, `Overdraft` and `Initiation` two overdraft bounds, and `OverdraftTight` and
  `OverdraftSharp` that both are attained; `CallRuns` runs one call's steps alone.
- **Routing.** `RoundRobin` is the smooth weighted round-robin as mathematics; `Registry` the
  gateway table together with the in-memory A-leg pool; `RoutingService` the service object with
  heap-allocated pool entries, whose methods realise the operations of `Registry`; `Failover`
  B-leg selection over possibly cyclic failover pointers.
- **Webhooks.** `Webhooks` is the delivery protocol of database rows, topic messages and the polling
  cron; `WebhookFairness` how long a due delivery can wait; `WebhookService` the endpoints as code.
- **WebSocket hub.** `Hub` has the per-client protocol and the two-level index as an object.

Each `FOR UPDATE` transaction, and each cache `Increment`, is one atomic step; increment followed by
undo is two. Times in `Calls` are nanoseconds, in `Webhooks` seconds. Amounts are unbounded
integers; Go's truncating division is written out. Outcomes of TCP checks, HTTP posts, FreeSWITCH
commands, publishes and secret lookups, and the clock, are inputs.

## Where code and documentation disagree, or a promise needs a condition

- The status names are the code's (`initiating`, `a_dialing`, ... `finished`, `failed`), not those of
  README.md:90.
- Six webhook attempts are made before the dead-letter queue (five intervals, so the sixth failure
  finds none left), although the table's default for `max_attempts` is 5; the code never reads it.
- `CreateGateway` raises weights to 1, `UpdateGateway` takes any. Under a nonnegative total, exact shares over
  a period hold if and only if no candidate weight is negative (`ExactPeriodCondition`). For every total,
  unfairness stays bounded if and only if no candidate weight is negative or, the total being negative, the
  first choice carries all of it (`FairExactlyWhen`); a sole candidate is always served its share.
- A failure limit below 1 acts as 1, and changing the limit shows only at the next probe
  (`UnhealthyIffLastProbesFailed`).
- `calculateCost` clamps a negative rate to zero while `Finalize` bills it; the formulas agree if and only if
  the rate is not negative (`FormulasAgree`).
- At rates that are not negative, the waste recorded for `a_connected_b_failed` equals the bill if and only if either A hung up after at least a
  full second or with a free first block, or A never hung up and the time up to settlement is billed nothing
  (`FailedBWasteIsTheBill`). In the latter case no waste is recorded at all: a call cancelled 100 s after A
  answered is billed 102 at a rate of 60, with waste 0 (`CancelledWasteIsNotTheBill`).
- The waste recorded for `bridge_broken_early` stays within the bill at every tariff if and only if each leg is
  billed at least the blocks of the bridge (`EarlyBreakWithinBill`). That holds when both legs answered, events
  come in order and B does not answer again after the last bridge (`EarlyBreakOfScript`); a late answer moves
  the start of B's billing past the bridge, and waste 60 against bill 0 follows (`LateAnswerOutrunsTheBill`).
- A slot refusal can be spurious: a request is refused while nobody holds a slot, because another refused
  request has not undone its increment yet (`SpuriousRefusal`). A grant never exceeds the limit.
- Recording is stopped once on every exit of `runCall` for a bridged call except one. It is left running if and
  only if a B answer arrives while the legs are bridged and its bridge command fails (`RecordingStoppedOnce`,
  with such a script in `LeftRecording`).
- Deliveries do get lost. None is lost if and only if every publish after a creation or a dead-letter reset
  succeeds and every attempt's outcome is recorded (`NoLostDelivery`): when the attempt count cannot be read
  back, or the outcome not written, the row stays in `delivering` with no message. `LostAtCreation` and
  `LostAtAttempt` are such runs; what is stranded stays so (`StrandedForever`).
- Polls are fair to a due row if and only if fewer than fifty rows scheduled no later keep failing their lookup or
  publish (`FairnessThreshold`). Fifty earlier ones starve it in every run (`FailingLookupsStarve`), and such a
  state is reached from nothing (`BlockedIsReached`).
- `CheckDailyLimit` counts a call before later checks can refuse it and never takes that back; money and slots
  are what a failed initiation restores.

## Model

| member | source | states |
|---|---|---|
| RoundRobin.PickConserves | routing/aleg.go:48-56 | one pick keeps the sum of current weights, over the candidates and over the whole pool |
| RoundRobin.PickTakesFirstLargest | routing/aleg.go:34-56 | every healthy and enabled entry gains its weight, the first with the largest result then loses the total, every other entry is as before |
| RoundRobin.RunConserves | routing/aleg.go:34-56 | so does any number of picks |
| RoundRobin.ClosedForm | routing/aleg.go:48-56 | after k picks a candidate's current weight has moved by exactly k times its weight minus the total weight times its picks |
| RoundRobin.CountsTotal | routing/aleg.go:34-62 | k picks are k choices: the counts sum to k |
| RoundRobin.BystandersUntouched | routing/aleg.go:34-42 | an unhealthy or disabled entry is never chosen and never changed |
| RoundRobin.RunKeepsFloor | routing/aleg.go:48-56 | a lower bound on current weights that satisfies the averaging condition is never undercut |
| RoundRobin.BoundedUnfairness | routing/aleg.go:34-56 | from any integer start, the distance between a gateway's picks and its share stays within a constant of the start state, for all k |
| RoundRobin.PrefixQuota | routing/aleg.go:48-56 | from a fresh load the current weight is k·w − W·n and lies between 1 − W and (n−1)(W−1) at every prefix |
| RoundRobin.UpperQuota | routing/aleg.go:48-56 | no prefix gives a gateway more than its rounded-up share |
| RoundRobin.ExactPeriod | routing/aleg.go:34-56 | W picks from a fresh load choose each candidate exactly weight times and restore the pool |
| RoundRobin.EveryWindowIsFair | routing/aleg.go:34-56 | every window of W consecutive picks holds exactly weight picks of each candidate, and the state repeats |
| RoundRobin.ExactPeriodCondition | routing/aleg.go:148-171 | exact shares over a period hold if and only if no candidate weight is negative |
| RoundRobin.FairExactlyWhen | routing/aleg.go:148-171 | for weights of any sign, picks stay within a bound of the shares if and only if no candidate weight is negative or, under a negative total, the first choice carries all of it |
| RoundRobin.OneWinner | routing/aleg.go:48-56 | without positive weights the first choice is chosen for ever |
| RoundRobin.SoleCandidateIsFair | routing/aleg.go:34-56 | a single candidate of any weight is chosen every time, which is exactly its share |
| RoundRobin.RunsCompose | routing/aleg.go:48-56 | picks after a run are the later picks of the longer run, in state and in counts |
| Registry.RunKeepsConsistent | routing/routing.go:43-71 | after any sequence of creates, updates, toggles, probes and picks the pool is the id-ordered A-leg projection of the table up to current weights, which sum to zero over all entries |
| Registry.RunKeepsMirrors | routing/routing.go:43-71 | after any operation sequence every A-leg row has an entry with its id, name, address, weight and flags, and every entry is such a row |
| Registry.PickedRow | routing/aleg.go:30-63 | under that agreement a pick succeeds if and only if some row is of type a_leg, healthy and enabled, and answers with id, name and address of such a row |
| Registry.CreateWrites | routing/aleg.go:95-136 | a create appends a row of its next id with the given fields, weight at least 1, enabled, healthy and with limit 3 unless given, or leaves the table alone |
| Registry.UpdateWrites | routing/aleg.go:148-184 | an update rewrites exactly the fields given, of exactly one row, or leaves the table alone |
| Registry.ToggleWrites | routing/aleg.go:248-271 | a toggle sets the enabled flag of exactly one row, or leaves the table alone |
| Registry.ProbeWrites | routing/health.go:70-87 | a probe resets the counter and marks healthy, or raises it and marks unhealthy once it reaches the limit, on exactly one row |
| Registry.LoadOfProbed | routing/health.go:83-119 | writing one row's health and then projecting is projecting and then setting the flag in the pool |
| Registry.UnhealthyIffLastProbesFailed | routing/health.go:70-87 | in every run, a gateway that started healthy is unhealthy if and only if its last m probes, cron or manual, all failed, m being its failure limit at the last of them |
| Registry.UntouchedLimit | routing/aleg.go:155-163 | that limit is MaxFailures throughout a run in which no update sets it |
| RoutingService.WeightedGateway.constructor | routing/routing.go:57-61 | id, name, address, weight and flags of the entry are those of its row, its current weight is zero |
| RoutingService.Service.constructor | routing/routing.go:34-41 | the service starts with the projection of its table, pool and table consistent |
| RoutingService.Service.LoadALegGateways | routing/routing.go:43-71 | the pool is replaced by distinct fresh entries that are the A-leg projection of the table, each with the id, name, address, weight and flags of its row |
| RoutingService.Service.PickALeg | routing/aleg.go:30-63 | the object's pool becomes the picked pool: raised weights, the first largest lowered by the total. The response is id, name and address of a healthy, enabled a_leg row of the table, and comes if and only if there is such a row |
| RoutingService.Service.CollectCandidates | routing/aleg.go:34-42 | the candidates are exactly the healthy and enabled entries in order, with their total weight |
| RoutingService.Service.RaiseAndChoose | routing/aleg.go:48-55 | every candidate is raised once and the result is the first of the largest |
| RoutingService.Service.RaiseOne | routing/aleg.go:50-55 | one candidate is raised and replaces the best only if strictly larger |
| RoutingService.Service.SetPoolHealth | routing/health.go:109-119 | the first entry with the id gets the flag, every other entry is untouched |
| RoutingService.Service.RecordProbe | routing/health.go:70-119 | counter, flag and pool entry of one gateway after a probe; every other row stays |
| RoutingService.Service.RunHealthCheck | routing/health.go:35-123 | the check is the probes of all enabled gateways in id order, skipping those whose update failed: each row is written by its own probe alone |
| RoutingService.Service.ReadEnabled | routing/health.go:36-65 | the rows probed are exactly those with the enabled flag, in id order |
| RoutingService.Service.ManualHealthCheck | routing/health.go:130-194 | one probe of a known gateway, an error for an unknown one |
| RoutingService.Service.CreateGateway | routing/aleg.go:95-136 | rejected types and dangling failovers leave no row; otherwise the new row holds the given fields, weight at least 1; A-leg rows reload the pool |
| RoutingService.Service.UpdateGateway | routing/aleg.go:148-184 | absent fields keep their value, the type never changes, A-leg rows reload the pool |
| RoutingService.Service.ToggleGateway | routing/aleg.go:248-271 | the flag is written and A-leg rows reload the pool |
| Failover.FollowFailover | routing/bleg.go:71-90 | the first gateway both healthy and enabled among the first maxHops nodes of the chain, none after a dangling id, and none only if all of them are unhealthy or disabled |
| Failover.NodesFollowPointers | routing/bleg.go:71-90 | the chain starts at the gateway with the id, each next one has the id its failover names, and it ends at a null or dangling pointer |
| Failover.ChainNodes | routing/bleg.go:71-90 | the bounded chain lists the failover nodes in hop order without gaps |
| Failover.ChainRepeats | routing/bleg.go:71-90 | a chain longer than the table visits some gateway twice |
| Failover.ReachedEarly | routing/bleg.go:71-90 | every gateway a chain ever reaches it reaches in fewer hops than there are gateways |
| Failover.SearchIsComplete | routing/bleg.go:71-90 | with at least as many hops as gateways the search succeeds if and only if some node at any distance is available |
| Failover.SearchFindsNode | routing/bleg.go:71-90 | the bounded search finds nothing if and only if no node within its hops is healthy and enabled, and otherwise the nearest such node |
| Failover.RowContribution | routing/bleg.go:44-60 | a prefix row yields itself if healthy, otherwise its first available failover, otherwise the next row decides |
| Failover.PickBLeg | routing/bleg.go:24-69 | the selected gateway is in the table, healthy and enabled: a prefix row or one of the three behind it. No healthy gateway is reported if and only if every prefix row and each of its three failover nodes is unhealthy or disabled; the other two errors as in the code |
| Costs.BlocksCover | pkg/types/types.go:15-17 | CeilDiv blocks cover the duration and one fewer do not |
| Costs.BlocksLeast | pkg/types/types.go:15-17 | CeilDiv is the least number of blocks that covers |
| Costs.LegCostByBlock | billing/balance.go:174-186 | a leg costs its started blocks at the minute rate, rounded down |
| Costs.FormulasAgree | callback/wastage.go:37-43 | calculateCost and the leg cost of Finalize are the same function if and only if the rate is not negative |
| Costs.CostMonotone | billing/balance.go:174-186 | a longer leg never costs less |
| Costs.CostWithinMinutes | billing/balance.go:174-186 | block billing never exceeds started minutes at the rate |
| Costs.BLegIsWholeMinutes | billing/balance.go:181-186 | the B formula is started minutes times the rate |
| Costs.CostOverHold | billing/balance.go:173-189 | a call costs at most its hold plus R·max(0, ceil(M/60) − 30) |
| Accounts.BookReplays | billing/balance.go:206-241 | one endpoint keeps the ledger replayable |
| Accounts.HistoryReplays | billing/balance.go:59-76 | for every history, replaying the rows with signs by type gives every balance_after and the balance |
| Accounts.CallNetsToItsCost | billing/balance.go:173-253 | whatever happens between hold and settlement, a call's rows add up to minus its cost |
| Accounts.FundsAdmitExactly | billing/balance.go:45-66 | of k equal requests exactly as many are admitted as the funds cover |
| Accounts.Account.PreDeduct | billing/balance.go:35-86 | thirty minutes at the combined rate are held and recorded as a pre_deduct row of the call, or nothing happens; admitted if and only if balance and credit limit cover it |
| Accounts.Account.AcquireSlot | billing/balance.go:102-118 | granted exactly below the limit; a refusal leaves the counter as it was |
| Accounts.Account.ReleaseSlot | billing/balance.go:133-148 | one less, never below zero |
| Accounts.Account.Finalize | billing/balance.go:173-253 | both legs are billed by started blocks of 6 and 60 seconds; the balance moves by hold minus cost, with one row of the call: a refund if positive, otherwise a finalize of the rest |
| Accounts.Account.Topup | billing/balance.go:263-317 | a positive amount is credited with its row, any other refused |
| Accounts.Account.Deduct | billing/balance.go:332-393 | a positive amount is debited with its row, any other refused |
| OptimisticCounter.RunKeepsAccounted | billing/balance.go:102-148 | in every interleaving the counter is grants held plus undos pending and grants stay within the limit |
| OptimisticCounter.GrantedIffRoom | billing/balance.go:103-115 | a request is granted if and only if held plus undo-pending units leave room |
| OptimisticCounter.SpuriousRefusal | billing/balance.go:103-115 | a reachable state in which a request is refused although nothing is held |
| OptimisticCounter.FloorUnreachable | billing/balance.go:140-145 | if only holders release, the floor at zero never decides |
| OptimisticCounter.DailyGrants | compliance/ratelimit.go:40-61 | without releases, counted grants only accumulate and stay within the limit; admissions that fail open on a cache error come on top |
| OptimisticCounter.DailyCounter.CheckDailyLimit | compliance/ratelimit.go:40-61 | admits exactly below the limit, undoes a refusal, fails open on a cache error |
| Calls.RecordingStoppedOnce | callback/statemachine.go:138-218 | for every script of inputs: started if and only if a bridge was seen; on exit stopped exactly once, unless some B answer found the legs bridged and its bridge command failed, and then not at all |
| Calls.LeftRecording | callback/statemachine.go:142-158 | a script that ends bridged without a stop |
| Calls.FinalizingAbsorbs | callback/statemachine.go:91-92 | once runCall has left its loop no later input matters |
| Calls.NestedFloors | callback/statemachine.go:411-414 | rounding to milliseconds and then to seconds is rounding to seconds |
| Calls.BilledSeconds | callback/statemachine.go:355-377 | the seconds billed for a leg, straight from its time stamps |
| Wastage.FailedBWasteIsTheBill | callback/wastage.go:7-19 | a_connected_b_failed waste equals the bill if and only if A hung up after a second or with a free first block, or never hung up and is billed nothing up to settlement |
| Wastage.FailedBOfScript | callback/statemachine.go:77-217 | the same for the call any script of inputs produces |
| Wastage.CancelledWasteIsNotTheBill | callback/statemachine.go:207-216 | a cancelled call with waste 0 and bill 102 |
| Wastage.EarlyBreakWithinBill | callback/wastage.go:21-30 | bridge_broken_early waste stays within the bill at every tariff if and only if each leg is billed at least the blocks of the bridge |
| Wastage.OrderedEarlyBreak | callback/wastage.go:21-30 | with A, bridge and hangups in order B's blocks alone decide, and suffice if B answered before the bridge |
| Wastage.ScriptStamps | callback/statemachine.go:138-194 | a script whose events come in order leaves ordered stamps, and B's answer after the bridge if and only if it came again after the last one |
| Wastage.EarlyBreakOfScript | callback/statemachine.go:138-194 | for every such script in which both legs answered and B not again after the last bridge, early-break waste stays within the bill |
| Wastage.LateAnswerOutrunsTheBill | callback/statemachine.go:142-147 | an ordered script with a late answer, waste 60 and bill 0 |
| CallOutcomes.WaitingOnB | callback/statemachine.go:138-172 | as long as nothing has ended the call, dial, answer and bridge stamps, status, recording and commands are those of the inputs so far: A's first event, the last B answer, the last bridge |
| CallOutcomes.ScriptOutcome | callback/statemachine.go:52-218 | for every script, runCall is in finalizeCall if and only if some input ended the call; that input decides status, reason, stamps, recording and last commands; finished means the duration limit on the B leg or a hang-up while bridged, and nothing else |
| CallOutcomes.HangupStamps | callback/statemachine.go:172-194 | a hang-up of a leg while bridged stamps that leg and the end of the bridge with the event's time and leaves the other leg alone; before the bridge A is stamped with the clock, B with the event's time if it hung up |
| CallOutcomes.EndIsClosed | callback/statemachine.go:355-423 | the closed record of a script is finished if and only if the script finished and failed otherwise, and still carries the stamps, reason and party of the input that ended it |
| CallbackService.ClosedRightly | callback/statemachine.go:355-423 | closing writes the given status, durations in whole milliseconds never negative, block costs, their total, the kind and duration of the waste, and leaves rates, stamps, reason and party alone |
| CallbackService.SettledRightly | callback/statemachine.go:411-469 | a settlement moves the balance by hold minus persisted total with the row of that amount, takes one slot, and merges if and only if a bridged call was recording |
| CallbackService.Service.InitiateCallback | callback/initiate.go:102-212 | an initiated call is stored with its rates, a hold of thirty minutes and no stamps, and holds money and slot within both limits; every failure leaves balance, slots, active calls and the sum of the rows as they were |
| CallbackService.Service.Compensate | callback/initiate.go:134-141 | release and refund, as each failure after the slot does |
| CallbackService.Service.RefundHold | callback/initiate.go:118-129 | the Finalize of a call without durations gives back the whole hold |
| CallbackService.Service.FinalizeCall | callback/statemachine.go:343-469 | an inactive call is left alone; an active one is persisted with exactly the given status, its durations and costs, the balance and slot settled, merged if recorded, and removed |
| CallbackService.Service.Measure | callback/statemachine.go:355-410 | durations, wastage and the given status, field by field; ClosedRightly says what they are |
| CallbackService.Service.Duration | callback/statemachine.go:356-365 | milliseconds from answer to hangup or now, never negative |
| CallbackService.Service.OnEvent | callback/callback.go:93-110 | an event is appended to its own call's buffer unless ten are waiting, and nothing else changes |
| CallbackService.Service.RunCall | callback/statemachine.go:23-219 | on every script: finalized if and only if some input ended the call, persisted finished if and only if that was a hang-up while bridged or the duration limit on the B leg, with that input's stamps on the record; settled and no longer active |
| CallbackService.Service.Drive | callback/statemachine.go:52-218 | the branching code computes the fold of reactions, commands included, that ScriptOutcome describes |
| CallbackService.Service.FirstSelect | callback/statemachine.go:77-131 | the first select and the B originate behind it |
| CallbackService.Service.LaterSelect | callback/statemachine.go:139-217 | one turn of the loop, in the reactions whose stamps HangupStamps and ScriptOutcome fix |
| CallbackService.Service.LoseCall | callback/callback.go:52-58 | one call settled as failed with fs_connection_lost: ledger, slot, merge and record |
| CallbackService.Service.OnDisconnect | callback/callback.go:50-59 | no call stays active, every one that was is persisted failed with fs_connection_lost, and ledger, slots, merges and records are those of settling each once, in some order |
| CallbackService.DisconnectOutcome | callback/callback.go:52-58 | the balance moves by the sum of holds minus costs, one slot is freed per call, exactly the recorded calls are merged, every record is closed and no other touched |
| CallbackService.EveryRecordLost | callback/callback.go:52-58 | a disconnect leaves every active call persisted as failed with fs_connection_lost, in whatever order |
| CallbackService.DisconnectOrderIsIrrelevant | callback/callback.go:52-58 | the order of the range changes neither balance, slots, merges nor records |
| CallbackService.FinalizeIsTheSteps | callback/statemachine.go:343-469 | finalizeCall run uninterrupted by either caller is its interleavable steps from lookup to return: same balance, slot, merge and record, the call gone and the once done |
| Lifecycle.ReactionFrame | callback/statemachine.go:138-218 | no reaction touches rates, hold or durations, and bridge fields change on bridge events only |
| Lifecycle.OnceIsKept | callback/statemachine.go:350 | entering an idle once, moving on inside it and leaving it keep at most one caller inside, with progress where that caller is |
| Lifecycle.CallingKeepsMap | callback/statemachine.go:344-347 | every step inside finalizeCall keeps the call mapped until the end of settlement, so a missed lookup means settled |
| Lifecycle.RunKeepsSound | callback/statemachine.go:343-469 | once, map, callers, counts and record of each call stay in agreement in every interleaving |
| Lifecycle.SettledExactlyOnce | callback/statemachine.go:343-469 | with runCall and any number of disconnect passes entering finalizeCall: one caller in the once at a time, at most one Finalize, release and merge, nobody back before all are done, and the merge published if and only if a bridge was handled |
| Lifecycle.NeverWedged | callback/statemachine.go:23-219 | from every sound state each attempt can end within fourteen steps of its own, whoever is in the once |
| Conservation.StepRefinesCounter | callback/initiate.go:113-196 | every step is a step of the optimistic counter or leaves it alone |
| Conservation.RunKeepsSlots | billing/balance.go:102-148 | the slot counter stays accounted for in every interleaving |
| Conservation.RunKeepsBalanced | billing/balance.go:173-253 | no step creates or destroys money |
| Conservation.EverythingAccountedFor | callback/initiate.go:102-196 | in every reachable state balance + open holds + settled costs = opening + topups − deductions, slots = held + undo-pending, held ≤ limit |
| Conservation.ReleaseNeverFloors | callback/statemachine.go:432-438 | in every reachable state a release takes exactly one slot |
| Conservation.QuiescentState | callback/initiate.go:118-196 | when all attempts ended no slot is left and only settled costs are missing from the balance: a failed initiation has no net effect on either |
| Overdraft.OverdraftBound | billing/balance.go:54-66 | with at most k initiations in flight, balance plus admin deductions is never below −C − (N+k)·R·max(0, ceil(M/60) − 30) |
| Initiation.SagaEffect | callback/initiate.go:102-207 | the uninterrupted saga is a live call with hold and slot, or has undone itself |
| Initiation.AtomicOverdraftBound | callback/initiate.go:102-130 | with initiations as single steps the bound on balance plus deductions is −C − N·R·max(0, ceil(M/60) − 30) |
| OverdraftTight.BoundIsReached | callback/statemachine.go:411-423 | for every R, M, N and C some run without deductions reaches exactly that balance |
| OverdraftSharp.SharpOverdraftBound | billing/balance.go:54-66 | the interleaved bound with N + k replaced by zero when there is no slot or nothing may be in flight |
| OverdraftSharp.SharpBoundIsReached | callback/initiate.go:102-130 | for every R, M, N, k and C some interleaved run without deductions reaches exactly that balance |
| Webhooks.RunKeepsInv | webhook/deliver.go:27-92 | placement, counters and attempt history stay in agreement over every run |
| Webhooks.NothingLost | webhook/retry.go:41-95 | every row is in exactly one place, and total attempts are at most 6·(1 + resets) |
| Webhooks.DeliveredIffAccepted | webhook/deliver.go:54-64 | over every run a delivery is marked delivered if and only if its last attempt was accepted and recorded |
| Webhooks.NoLostDelivery | webhook/deliver.go:27-92 | every delivery is pending with one message, scheduled, delivered or dead after six attempts if and only if every publish of a new or reset delivery succeeded and every outcome was recorded |
| Webhooks.SlowToDie | webhook/retry.go:15-28 | a dead delivery had six attempts, at least 30, 60, 300, 900 and 3600 seconds apart, so death comes at least 4890 s after the first |
| Webhooks.StrandedIff | webhook/dlq.go:108-127 | from any consistent state, a run leaves a delivery stranded if and only if one was or some step of the run lost one |
| Webhooks.LostAtCreation | webhook/webhook.go:46-54 | a run that loses a delivery at its first publish |
| Webhooks.LostAtAttempt | webhook/deliver.go:67-75 | a run that loses a delivery because the attempt count cannot be read back |
| Webhooks.StrandedForever | webhook/webhook.go:46-54 | a stranded delivery is never touched again |
| WebhookFairness.PassedOver | webhook/retry.go:42-47 | while a due row is passed over, fifty rows minus the failing ones leave from ahead of it at every poll |
| WebhookFairness.PollFairness | webhook/retry.go:41-90 | a due row with r others no later, f < 50 of them failing, is republished within floor((r−f)/(50−f)) + 1 polls |
| WebhookFairness.FairnessThreshold | webhook/retry.go:41-90 | some number of polls is enough in every run if and only if fewer than fifty failing rows are scheduled no later |
| WebhookFairness.StarvingRun | webhook/retry.go:42-47 | with fifty such rows, ties included, any number of polls can pass the row over |
| WebhookFairness.BlockedIsReached | webhook/retry.go:64-83 | a run from the empty system reaches fifty due rows ahead of another |
| WebhookFairness.FailingLookupsStarve | webhook/retry.go:64-83 | fifty due rows that keep failing starve every later one for ever |
| WebhookService.Service.CreateAndPublishWebhook | webhook/webhook.go:29-56 | a pending row without attempts, kept with its message exactly if the publish succeeds; every other row and the invariant stay |
| WebhookService.Service.DeliverWebhook | webhook/deliver.go:27-65 | the message is consumed; the row is delivered if and only if the post was accepted and stored, a stored refusal leaves it retrying on schedule or, the sixth time, dead, and it is kept exactly if the outcome was recorded |
| WebhookService.Service.RecordOutcome | webhook/deliver.go:54-64 | a stored 2xx is delivered, nothing else is; a stored refusal is failed, anything unstored left in delivering |
| WebhookService.Service.HandleDeliveryFailure | webhook/deliver.go:67-92 | a retry 30, 60, 300, 900 or 3600 seconds later by attempt, or the dead-letter queue; an unreadable count or a failed write changes nothing |
| WebhookService.Service.PollRetries | webhook/retry.go:41-95 | exactly the batch rows whose lookup and publish succeed become pending with a message; the count is complete if and only if all did |
| WebhookService.Service.RetryDLQ | webhook/dlq.go:88-128 | only a dead row is reset, to pending without attempts, and kept exactly if its publish succeeds; the other outcomes change nothing |
| Hub.ClientsGetTheirEvents | callback/ws_hub.go:57-118 | over every run, no channel is closed twice, and what a client was sent is an in-order subsequence of the broadcasts addressed to it while registered, all of them if and only if none met a full buffer |
| Hub.RunHeard | callback/ws_hub.go:92-118 | what a client was offered is the run's broadcasts addressed to it, in order |
| Hub.AddressedIffIndexed | callback/ws_hub.go:99-116 | the two indexes reach exactly the addressed clients, none through both |
| Hub.WsHub.OnConnect | callback/ws_handler.go:46-52 | a fresh, unregistered client of that user and role with an empty buffer |
| Hub.WsHub.OnRegister | callback/ws_hub.go:60-70 | the client enters the index it belongs to and the indexes stay the filter of the registered set |
| Hub.WsHub.OnUnregister | callback/ws_hub.go:72-90 | closed exactly if it was registered, never twice, and no empty bucket remains |
| Hub.WsHub.OnBroadcast | callback/ws_hub.go:92-118 | exactly the registered admins and clients of the event's user are offered it once, and get it unless 256 are waiting |
| Hub.WsHub.SendToEach | callback/ws_hub.go:100-115 | a full buffer drops the event, nobody else is affected, no closed channel is written |
| Hub.WsHub.TakeMessage | callback/ws_hub.go:137-146 | the oldest buffered message, if any |

## Left out

- User interface, authentication, tokens, HMAC signing, ESL and TCP handling, ffmpeg, object storage, list and pagination endpoints, static serving: no hard state.
- `ResolveRate`, blacklist, DID selection, request validation, the carrier column, `validatePrefixConsistency`: resolved rates and outcomes are inputs.
- Expiry and eviction of cached counters, failing storage inside compensations and inside `finalizeCall`, a failing merge publish: those steps are taken to succeed.
- 64-bit overflow: amounts and durations are unbounded integers; the `float64` inside `Seconds()` is exact truncation.
- Other customers: the money and slot model is one customer's slice; nothing another customer does touches it.
- Hang-up cause strings of the record, UUIDs, intermediate persisted statuses and the webhook published for each of them.
- Sequences of statuses: late or unexpected events can move a status back in the code, so no monotonicity is stated.
- Teardown of both legs on every exit: the code does not hang up every leg on every branch; `ScriptOutcome` says which it does.
- `ForceHangup` and `Shutdown` appear as the cancellation step of `Lifecycle`, with the field they set; their permission checks and direct hang-ups do not.
- Webhook writes whose failure the code ignores other than the outcome of an attempt. The update that counts an attempt: the attempt would go uncounted, and a first one that fails would be sent to the dead-letter queue with count 0. The poll's update after its publish: the row would stay scheduled with a message out. The reset of a dead row: it would stay dead with a message out.
- CallbackService.Service.FinalizeCall: one caller, uninterrupted, with billing, slot and publish succeeding; the final webhook is not modelled. `Lifecycle` has the second caller.
- CallbackService.Service.RunCall: runs on a script of inputs without interruption; `Lifecycle` has the interleavings, and `FinalizeIsTheSteps` connects the settlements.
- RoutingService.Service.LoadALegGateways: the query succeeds; a failing one would leave the old pool in place.
- RoutingService.Service.RunHealthCheck: atomic with respect to other gateway operations; the result list and the log lines are not modelled.
- RoutingService.Service.ManualHealthCheck: the update succeeds and the response fields are not modelled.
- RoutingService.Service.CreateGateway: a dangling failover id is the only database error, the foreign key's; a failing reload after the committed write and the response are not modelled.
- RoutingService.Service.UpdateGateway: as for `CreateGateway`.
- RoutingService.Service.ToggleGateway: a failing reload after the committed write is not modelled.
- Accounts.Account.AcquireSlot: the cache answers, and the two accesses run together; `OptimisticCounter` separates them.
- WebhookService.Service.PollRetries: a poll is atomic and its batch is any answer the query may give; overlapping polls and duplicate topic messages are not modelled, under them `delivered` is not final.
- Failover.PickBLeg: the query result is an input constrained to be the enabled rows of the prefix by priority, ties in any order.
- Hub.WsHub.OnBroadcast: clients are values in a sequence, so aliasing of client pointers is not captured; event marshalling always succeeds and pings are left out.
- Overdraft.OverdraftBound: assumes a fixed concurrency limit; admin deductions, which the code does not check, are put back on the balance it bounds.
